/** What the coordinators report about the cluster, and what the operator reads into it. */
module Memgraph {
  import opened Text
  import opened Decimal

  /** One row of SHOW INSTANCES. */
  datatype Instance = Instance(
    name: string,
    boltServer: string,
    coordinatorServer: string,
    managementServer: string,
    health: string,
    role: string)
  {
    predicate IsLeader() { EqualFold(role, "leader") }
    predicate IsMain() { EqualFold(role, "main") }
    predicate IsFollower() { EqualFold(role, "follower") }
    predicate IsUp() { EqualFold(health, "up") }
  }

  ghost predicate Spells(s: string, word: string) {
    |s| == |word| && forall i :: 0 <= i < |s| ==> SameLetter(s[i], word[i])
  }

  /** What a row says, in letters of either case; and the roles exclude each other. */
  lemma RowReads(row: Instance)
    ensures row.IsMain() <==> Spells(row.role, "main")
    ensures row.IsLeader() <==> Spells(row.role, "leader")
    ensures row.IsFollower() <==> Spells(row.role, "follower")
    ensures row.IsUp() <==> Spells(row.health, "up")
    ensures row.IsMain() ==> !row.IsLeader() && !row.IsFollower()
    ensures row.IsLeader() ==> !row.IsFollower()
  {
    EqualFoldExactly(row.role, "main");
    EqualFoldExactly(row.role, "leader");
    EqualFoldExactly(row.role, "follower");
    EqualFoldExactly(row.health, "up");
    assert |"main"| == 4 && |"leader"| == 6 && |"follower"| == 8;
  }

  datatype CoordinatorSpec = CoordinatorSpec(
    id: nat,
    boltServer: string,
    coordinatorServer: string,
    managementServer: string)
  {
    function Name(): string { "coordinator_" + FormatInt(id) }
  }

  datatype DataInstanceSpec = DataInstanceSpec(
    name: string,
    boltServer: string,
    managementServer: string,
    replicationServer: string)

  datatype DatabaseLag = DatabaseLag(database: string, committedTxns: int, txnsBehindMain: int)

  /** One row of SHOW REPLICATION LAG. */
  datatype ReplicationLag = ReplicationLag(instance: string, databases: seq<DatabaseLag>) {
    predicate IsCaughtUp() {
      databases != [] && forall d :: d in databases ==> d.txnsBehindMain <= 0
    }
  }

  /** A view keyed by name. A name listed twice reads as its last row. */
  function Index(view: seq<Instance>): (rows: map<string, Instance>)
    ensures forall n :: n in rows <==> exists i :: 0 <= i < |view| && view[i].name == n
    ensures forall n :: n in rows ==> rows[n] in view && rows[n].name == n
  {
    if view == [] then map[]
    else Index(view[..|view| - 1])[view[|view| - 1].name := view[|view| - 1]]
  }

  function IndexLag(view: seq<ReplicationLag>): (rows: map<string, ReplicationLag>)
    ensures forall n :: n in rows ==> rows[n] in view && rows[n].instance == n
  {
    if view == [] then map[]
    else IndexLag(view[..|view| - 1])[view[|view| - 1].instance := view[|view| - 1]]
  }

  /** Whether the view says the named instance holds everything the MAIN has committed; a name
      the view does not cover reads as an empty row, which is not caught up. */
  predicate CaughtUp(lag: map<string, ReplicationLag>, name: string) {
    name in lag && lag[name].IsCaughtUp()
  }

  predicate UniqueNames(view: seq<Instance>) {
    forall i, j :: 0 <= i < j < |view| ==> view[i].name != view[j].name
  }

  lemma {:induction false} IndexOfUniqueNames(view: seq<Instance>)
    requires UniqueNames(view)
    ensures forall i :: 0 <= i < |view| ==> view[i].name in Index(view) && Index(view)[view[i].name] == view[i]
  {
    if view != [] {
      IndexOfUniqueNames(view[..|view| - 1]);
      forall i | 0 <= i < |view|
        ensures view[i].name in Index(view) && Index(view)[view[i].name] == view[i]
      {
        if i < |view| - 1 {
          assert view[i] == view[..|view| - 1][i];
        }
      }
    }
  }

  /** A row counts unless a later one has its name. */
  lemma {:induction false} IndexReadsTheLast(view: seq<Instance>, i: nat)
    requires i < |view| && forall j :: i < j < |view| ==> view[j].name != view[i].name
    ensures view[i].name in Index(view) && Index(view)[view[i].name] == view[i]
  {
    if i < |view| - 1 {
      IndexReadsTheLast(view[..|view| - 1], i);
    }
  }

  lemma {:induction false} IndexLagReadsTheLast(view: seq<ReplicationLag>, i: nat)
    requires i < |view| && forall j :: i < j < |view| ==> view[j].instance != view[i].instance
    ensures view[i].instance in IndexLag(view) && IndexLag(view)[view[i].instance] == view[i]
  {
    if i < |view| - 1 {
      IndexLagReadsTheLast(view[..|view| - 1], i);
    }
  }

  lemma IndexOneMore(view: seq<Instance>, row: Instance)
    ensures Index(view + [row]) == Index(view)[row.name := row]
  {
    assert (view + [row])[..|view|] == view;
  }

  lemma UniqueOneMore(view: seq<Instance>, row: Instance)
    requires UniqueNames(view) && row.name !in Index(view)
    ensures UniqueNames(view + [row])
  {
    forall i | 0 <= i < |view| ensures view[i].name != row.name {
      assert view[i].name in Index(view);
    }
  }

  lemma {:induction false} ViewOfSome(rows: map<string, Instance>, names: set<string>) returns (view: seq<Instance>)
    requires names <= rows.Keys && forall n :: n in names ==> rows[n].name == n
    ensures UniqueNames(view) && Index(view).Keys == names && forall n :: n in names ==> Index(view)[n] == rows[n]
    decreases names
  {
    if names == {} {
      view := [];
    } else {
      var n :| n in names;
      view := ViewOfSome(rows, names - {n});
      IndexOneMore(view, rows[n]);
      UniqueOneMore(view, rows[n]);
      view := view + [rows[n]];
    }
  }

  /** Any rows, each under its own name, are some view's. */
  lemma ViewOf(rows: map<string, Instance>) returns (view: seq<Instance>)
    requires forall n :: n in rows ==> rows[n].name == n
    ensures UniqueNames(view) && Index(view) == rows
  {
    view := ViewOfSome(rows, rows.Keys);
  }

  /* ---- Reading a SHOW REPLICATION LAG record off the driver ---- */

  /** A value the driver hands back: the two kinds the row is read as, or anything else. */
  datatype Value = Str(s: string) | Int64(i: int) | Map(entries: map<string, Value>) | Other

  datatype LagRow = Row(lag: ReplicationLag) | Unreadable

  predicate HasCounters(entry: Value) {
    && entry.Map?
    && "num_committed_txns" in entry.entries && entry.entries["num_committed_txns"].Int64?
    && "num_txns_behind_main" in entry.entries && entry.entries["num_txns_behind_main"].Int64?
  }

  function LagOf(database: string, entry: Value): DatabaseLag
    requires HasCounters(entry)
  {
    DatabaseLag(database, entry.entries["num_committed_txns"].i, entry.entries["num_txns_behind_main"].i)
  }

  predicate Named(record: map<string, Value>) {
    "instance_name" in record && record["instance_name"].Str? && record["instance_name"].s != ""
  }

  predicate HasDatabases(record: map<string, Value>) {
    "data_info" in record && record["data_info"].Map?
  }

  /** What a record has to carry: the instance's name, and two counters for every database. */
  ghost predicate Complete(record: map<string, Value>) {
    && "instance_name" in record && record["instance_name"].Str? && |record["instance_name"].s| > 0
    && "data_info" in record && record["data_info"].Map?
    && forall d :: d in record["data_info"].entries ==> CarriesBoth(record["data_info"].entries[d])
  }

  ghost predicate CarriesBoth(entry: Value) {
    && entry.Map?
    && (exists n :: "num_committed_txns" in entry.entries && entry.entries["num_committed_txns"] == Int64(n))
    && (exists n :: "num_txns_behind_main" in entry.entries && entry.entries["num_txns_behind_main"] == Int64(n))
  }

  /** The counters of one database, each from the entry of its own name. */
  ghost predicate ReadOff(lag: DatabaseLag, database: string, entry: Value)
    requires CarriesBoth(entry)
  {
    && lag.database == database
    && entry.entries["num_committed_txns"] == Int64(lag.committedTxns)
    && entry.entries["num_txns_behind_main"] == Int64(lag.txnsBehindMain)
  }

  /** The row lists exactly these databases, in name order. */
  ghost predicate Lists(lags: seq<DatabaseLag>, databases: map<string, Value>)
    requires forall d :: d in databases ==> CarriesBoth(databases[d])
  {
    && |lags| == |Sorted(databases.Keys)|
    && forall i :: 0 <= i < |lags| ==>
         && Sorted(databases.Keys)[i] in databases
         && ReadOff(lags[i], Sorted(databases.Keys)[i], databases[Sorted(databases.Keys)[i]])
  }

  lemma CountersCarried(entry: Value)
    ensures HasCounters(entry) <==> CarriesBoth(entry)
    ensures HasCounters(entry) ==> forall d :: ReadOff(LagOf(d, entry), d, entry)
  {
    if HasCounters(entry) {
      assert entry.entries["num_committed_txns"] == Int64(entry.entries["num_committed_txns"].i);
      assert entry.entries["num_txns_behind_main"] == Int64(entry.entries["num_txns_behind_main"].i);
    }
  }

  /** A row is read only when it names its instance and carries both counters of every database it
      lists; nothing missing is ever filled in as zero transactions behind. */
  method ReplicationLagFromRecord(record: map<string, Value>) returns (row: LagRow)
    ensures row.Row? <==> Complete(record)
    ensures row.Row? ==>
              record["instance_name"] == Str(row.lag.instance) && Lists(row.lag.databases, record["data_info"].entries)
  {
    if !Named(record) || !HasDatabases(record) {
      return Unreadable;
    }
    var databases := record["data_info"].entries;
    var names := Sorted(databases.Keys);
    var lags: seq<DatabaseLag> := [];
    for k := 0 to |names|
      invariant |lags| == k
      invariant forall i :: 0 <= i < k ==>
                  names[i] in databases && CarriesBoth(databases[names[i]]) && ReadOff(lags[i], names[i], databases[names[i]])
    {
      assert names[k] in databases.Keys;
      CountersCarried(databases[names[k]]);
      if !HasCounters(databases[names[k]]) {
        return Unreadable;
      }
      lags := lags + [LagOf(names[k], databases[names[k]])];
    }
    row := Row(ReplicationLag(record["instance_name"].s, lags));
    assert forall d :: d in databases ==> d in names;
  }

  /** A row read off a record reports its instance caught up exactly when the record lists some
      database and no listed database is behind the MAIN. */
  lemma CaughtUpAsRecorded(lags: seq<DatabaseLag>, databases: map<string, Value>, instance: string)
    requires (forall d :: d in databases ==> CarriesBoth(databases[d])) && Lists(lags, databases)
    ensures ReplicationLag(instance, lags).IsCaughtUp() <==>
              databases != map[] && forall d :: d in databases ==> databases[d].entries["num_txns_behind_main"].i <= 0
  {
    var names := Sorted(databases.Keys);
    assert forall d :: d in databases <==> d in names;
    assert forall i :: 0 <= i < |names| ==> ReadOff(lags[i], names[i], databases[names[i]]);
    forall d | d in databases ensures exists i :: 0 <= i < |lags| && lags[i].database == d && lags[i] in lags {
      var i :| 0 <= i < |names| && names[i] == d;
      assert lags[i] in lags;
    }
  }
}
