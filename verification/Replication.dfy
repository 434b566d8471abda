/** Which transactions an instance holds, and what that makes of a MAIN moving to it. */
module Replication {
  import opened Text
  import opened Memgraph
  import opened Planner
  import opened Resources
  import opened Cluster
  import opened PlannerMeaning
  import opened PlannerSafety

  /** Every transaction an instance has committed, in order, by database. */
  type Commits = map<string, seq<nat>>
  type Data = map<string, Commits>

  /** Replication appends: a replica's history of a database and the MAIN's are never two different
      continuations of a common past. */
  ghost predicate FollowsMain(data: Data, main: string) {
    main in data && forall i, db :: i in data && db in data[i] && db in data[main] ==>
      data[i][db] <= data[main][db] || data[main][db] <= data[i][db]
  }

  /** One row of the lag view: every database the instance holds, with its own count of committed
      transactions and how many that leaves it behind the MAIN. */
  ghost predicate Measured(data: Data, main: string, lag: ReplicationLag) {
    && main in data && lag.instance in data
    && (forall db :: db in data[lag.instance] <==> exists d :: d in lag.databases && d.database == db)
    && (forall d :: d in lag.databases && d.database in data[lag.instance] ==>
          && d.committedTxns == |data[lag.instance][d.database]|
          && d.txnsBehindMain == Committed(data, main, d.database) - |data[lag.instance][d.database]|)
  }

  function Committed(data: Data, instance: string, db: string): nat {
    if instance in data && db in data[instance] then |data[instance][db]| else 0
  }

  /** The view the leader relays from the MAIN. */
  ghost predicate MeasuredAll(data: Data, main: string, view: seq<ReplicationLag>) {
    forall i :: 0 <= i < |view| ==> Measured(data, main, view[i])
  }

  /** The instance holds everything the MAIN has committed. */
  ghost predicate HoldsAll(data: Data, main: string, instance: string) {
    main in data && instance in data
    && forall db :: db in data[main] && data[main][db] != [] ==> db in data[instance] && data[main][db] <= data[instance][db]
  }

  /** The instance has every database the MAIN has committed anything to. */
  ghost predicate HasDatabasesOf(data: Data, main: string, instance: string) {
    main in data && instance in data && forall db :: db in data[main] && data[main][db] != [] ==> db in data[instance]
  }

  /** A row that says caught up proves the instance holds the MAIN's writes exactly when the instance
      has every database the MAIN wrote to: the row counts only the databases the instance holds. */
  lemma CaughtUpHolds(data: Data, main: string, lag: ReplicationLag)
    requires FollowsMain(data, main) && Measured(data, main, lag) && lag.IsCaughtUp()
    ensures HoldsAll(data, main, lag.instance) <==> HasDatabasesOf(data, main, lag.instance)
  {
    if HasDatabasesOf(data, main, lag.instance) {
      forall db | db in data[main] && data[main][db] != []
        ensures db in data[lag.instance] && data[main][db] <= data[lag.instance][db]
      {
        var d :| d in lag.databases && d.database == db;
        assert d.txnsBehindMain <= 0;
      }
    }
  }

  /** A replica without one of the MAIN's databases is reported caught up all the same. */
  lemma CaughtUpWithoutADatabase(main: string, replica: string, shared: string, other: string)
    requires main != replica && shared != other
    ensures exists data: Data, lag: ReplicationLag ::
              && lag.instance == replica && FollowsMain(data, main) && Measured(data, main, lag) && lag.IsCaughtUp()
              && !HoldsAll(data, main, replica)
  {
    var data: Data := map[main := map[shared := [1], other := [2]], replica := map[shared := [1]]];
    var lag := ReplicationLag(replica, [DatabaseLag(shared, 1, 0)]);
    assert lag.databases[0] in lag.databases;
    assert Measured(data, main, lag);
    assert other in data[main] && other !in data[replica];
    assert !HoldsAll(data, main, lag.instance);
  }

  /** Whichever instance an executed handover leaves as MAIN, whatever the cluster refused and
      whatever answers were lost: it holds everything the old MAIN had committed, if and only if it
      has every database the old MAIN wrote to. The restored MAIN always does. */
  lemma HandoverLosesNothing(t: Topology, view: seq<Instance>, lag: seq<ReplicationLag>, env: Environment, data: Data)
    requires ValidTopology(t) && UniqueNames(view) && ValidRows(t, Index(view))
    requires Situate(t, view, lag).Handover()
    requires var main := Situate(t, view, lag).retiringMain;
      FollowsMain(data, main) && MeasuredAll(data, main, lag)
    ensures var main := Situate(t, view, lag).retiringMain;
      var e := RunAll(env, Index(view), 0, PlanFor(t, view, lag));
      forall n :: IsMain(e.rows, n) ==>
        && (n == main || Candidate(t, Index(view), IndexLag(lag), n))
        && (HoldsAll(data, main, n) <==> HasDatabasesOf(data, main, n))
        && (n == main ==> HoldsAll(data, main, n))
  {
    var s := Situate(t, view, lag);
    var e := RunAll(env, Index(view), 0, PlanFor(t, view, lag));
    PlansRunSafely(t, view, lag, env);
    SituationReads(t, view, lag);
    forall n | IsMain(e.rows, n) && n != s.retiringMain
      ensures Candidate(t, Index(view), IndexLag(lag), n)
      ensures HoldsAll(data, s.retiringMain, n) <==> HasDatabasesOf(data, s.retiringMain, n)
    {
      assert n in s.successors;
      var row := IndexLag(lag)[n];
      CaughtUpHolds(data, s.retiringMain, row);
    }
  }

  /** An instance the lag view does not list, or lists without a database, is never a candidate; and a
      view that could not be read offers none at all. */
  lemma UnknownIsNoCandidate(t: Topology, rows: Rows, lag: seq<ReplicationLag>, name: string)
    requires forall i :: 0 <= i < |lag| && lag[i].instance == name ==> lag[i].databases == []
    ensures !Candidate(t, rows, IndexLag(lag), name)
  {
    if name in IndexLag(lag) {
      assert IndexLag(lag)[name] in lag;
    }
  }

  /* ---- A MAIN that goes down ---- */

  /** How many of the MAIN's transactions an instance is without. */
  function Behind(data: Data, main: string, instance: string, db: string): nat {
    var missing := Committed(data, main, db) - Committed(data, instance, db);
    if missing < 0 then 0 else missing
  }

  /** No further behind, in any database. */
  ghost predicate AtLeast(data: Data, main: string, p: string, q: string) {
    forall db :: Behind(data, main, p, db) <= Behind(data, main, q, db)
  }

  /** What the coordinators promise of an instance they promote: it is reachable, and no reachable one
      is ahead of it. Where one is ahead in one database and another in another, either may be. */
  ghost predicate MayBePromoted(data: Data, main: string, reachable: set<string>, promoted: string) {
    && promoted in reachable && promoted in data
    && forall q :: q in reachable && q in data && AtLeast(data, main, q, promoted) ==> AtLeast(data, main, promoted, q)
  }

  lemma AtLeastIsTransitive(data: Data, main: string, p: string, q: string, r: string)
    requires AtLeast(data, main, p, q) && AtLeast(data, main, q, r)
    ensures AtLeast(data, main, p, r)
  {
    forall db ensures Behind(data, main, p, db) <= Behind(data, main, r, db) {
      assert Behind(data, main, p, db) <= Behind(data, main, q, db) <= Behind(data, main, r, db);
    }
  }

  /** Wherever an instance that holds data can be reached, one may be promoted, and it is no further
      behind than the one given. */
  lemma {:induction false} SomebodyMayBePromoted(data: Data, main: string, reachable: set<string>, given: string) returns (promoted: string)
    requires given in reachable && given in data
    ensures MayBePromoted(data, main, reachable, promoted) && AtLeast(data, main, promoted, given)
    decreases reachable
  {
    if q :| q in reachable && q in data && AtLeast(data, main, q, given) && !AtLeast(data, main, given, q) {
      var fewer := reachable - {given};
      promoted := SomebodyMayBePromoted(data, main, fewer, q);
      AtLeastIsTransitive(data, main, promoted, q, given);
      if AtLeast(data, main, given, promoted) {
        AtLeastIsTransitive(data, main, given, promoted, q);
      }
    } else {
      promoted := given;
    }
  }

  lemma HoldsAllIsNeverBehind(data: Data, main: string, instance: string)
    requires FollowsMain(data, main) && instance in data
    ensures HoldsAll(data, main, instance) <==> forall db :: Behind(data, main, instance, db) == 0
  {
    if HoldsAll(data, main, instance) {
      forall db ensures Behind(data, main, instance, db) == 0 {
        if db in data[main] && data[main][db] != [] {
          assert data[main][db] <= data[instance][db];
        }
      }
    }
    if forall db :: Behind(data, main, instance, db) == 0 {
      forall db | db in data[main] && data[main][db] != []
        ensures db in data[instance] && data[main][db] <= data[instance][db]
      {
        assert Behind(data, main, instance, db) == 0;
      }
    }
  }

  /** Whoever the coordinators promote while the MAIN is down holds everything it had committed if and
      only if one reachable instance does. That they do between them is not enough. */
  lemma FailoverLosesNothing(data: Data, main: string, reachable: set<string>, promoted: string)
    requires FollowsMain(data, main) && MayBePromoted(data, main, reachable, promoted)
    ensures HoldsAll(data, main, promoted) <==> exists q :: q in reachable && HoldsAll(data, main, q)
  {
    if q :| q in reachable && HoldsAll(data, main, q) {
      HoldsAllIsNeverBehind(data, main, q);
      assert AtLeast(data, main, q, promoted);
      assert AtLeast(data, main, promoted, q);
      forall db ensures Behind(data, main, promoted, db) == 0 {
        assert Behind(data, main, promoted, db) <= Behind(data, main, q, db);
      }
      HoldsAllIsNeverBehind(data, main, promoted);
    }
  }

  /** For every database the MAIN committed to, some reachable instance has all of it. */
  ghost predicate Covered(data: Data, main: string, reachable: set<string>) {
    forall db :: CoveredBy(data, main, reachable, db)
  }

  ghost predicate CoveredBy(data: Data, main: string, reachable: set<string>, db: string) {
    exists q :: q in reachable && q in data && Behind(data, main, q, db) == 0
  }

  /** Where one instance is no further behind than any other in any database, covering database by
      database is enough. */
  lemma LeaderHoldsWhatIsCovered(data: Data, main: string, reachable: set<string>, promoted: string)
    requires FollowsMain(data, main) && promoted in reachable && promoted in data
    requires forall q :: q in reachable && q in data ==> AtLeast(data, main, promoted, q)
    ensures MayBePromoted(data, main, reachable, promoted)
    ensures HoldsAll(data, main, promoted) <==> Covered(data, main, reachable)
  {
    HoldsAllIsNeverBehind(data, main, promoted);
    if HoldsAll(data, main, promoted) {
      forall db ensures CoveredBy(data, main, reachable, db) {
        assert Behind(data, main, promoted, db) == 0;
      }
    }
    if Covered(data, main, reachable) {
      forall db ensures Behind(data, main, promoted, db) == 0 {
        assert CoveredBy(data, main, reachable, db);
        var q :| q in reachable && q in data && Behind(data, main, q, db) == 0;
        assert AtLeast(data, main, promoted, q);
      }
    }
  }

  /** The row lists every database the MAIN has committed to, none of them behind. */
  ghost predicate ListsAllOf(data: Data, main: string, row: ReplicationLag) {
    main in data && forall db :: db in data[main] && data[main][db] != [] ==> ListsCaughtUp(row, db)
  }

  predicate ListsCaughtUp(row: ReplicationLag, db: string) {
    exists d :: d in row.databases && d.database == db && d.txnsBehindMain <= 0
  }

  /** The view has a row for every reachable instance. */
  ghost predicate ListsEach(view: seq<ReplicationLag>, reachable: set<string>) {
    forall q :: q in reachable ==> exists row :: row in view && row.instance == q
  }

  lemma ListedIsHeld(data: Data, main: string, row: ReplicationLag)
    requires FollowsMain(data, main) && Measured(data, main, row)
    ensures ListsAllOf(data, main, row) <==> HoldsAll(data, main, row.instance)
  {
    if ListsAllOf(data, main, row) {
      forall db | db in data[main] && data[main][db] != []
        ensures db in data[row.instance] && data[main][db] <= data[row.instance][db]
      {
        assert ListsCaughtUp(row, db);
        var d :| d in row.databases && d.database == db && d.txnsBehindMain <= 0;
        assert |data[main][db]| <= |data[row.instance][db]|;
      }
    }
    if HoldsAll(data, main, row.instance) {
      forall db | db in data[main] && data[main][db] != [] ensures ListsCaughtUp(row, db) {
        assert data[main][db] <= data[row.instance][db];
        var d :| d in row.databases && d.database == db;
        assert d.txnsBehindMain <= 0;
      }
    }
  }

  /** Some reachable instance's row lists them all. */
  ghost predicate OneListsAll(data: Data, main: string, view: seq<ReplicationLag>, reachable: set<string>) {
    exists row :: row in view && row.instance in reachable && ListsAllOf(data, main, row)
  }

  /** The same, read off the lag view: one reachable instance's row lists every database the MAIN
      committed to, none behind. */
  lemma FailoverAsListed(data: Data, main: string, view: seq<ReplicationLag>, reachable: set<string>, promoted: string)
    requires FollowsMain(data, main) && MeasuredAll(data, main, view) && ListsEach(view, reachable)
    requires MayBePromoted(data, main, reachable, promoted)
    ensures HoldsAll(data, main, promoted) <==> OneListsAll(data, main, view, reachable)
  {
    FailoverLosesNothing(data, main, reachable, promoted);
    if row :| row in view && row.instance in reachable && ListsAllOf(data, main, row) {
      assert Measured(data, main, row);
      ListedIsHeld(data, main, row);
    }
    if q :| q in reachable && HoldsAll(data, main, q) {
      var row :| row in view && row.instance == q;
      assert Measured(data, main, row);
      ListedIsHeld(data, main, row);
    }
  }
}
