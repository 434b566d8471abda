/** Restarts of the MAIN that lose a write, although a survivor reads as caught up with it. */
module LostWrites {
  import opened Text
  import opened Memgraph
  import opened Planner
  import opened Cluster
  import opened Rollout
  import opened Replication
  import opened MainRestart

  /* ---- Everybody up, and the MAIN the last to restart ---- */

  function MainPod(main: string, old_: string): Pod { Pod(main, main, main, 0, old_, false, true) }

  function SurvivorPod(instance: string, ordinal: nat, revision: string): Pod {
    Pod(instance, instance, instance, ordinal, revision, false, true)
  }

  function AllButMain(main: string, survivors: seq<string>, old_: string, revision: string): Role {
    Role(|survivors| + 1, revision, false,
         [MainPod(main, old_)] + seq(|survivors|, i requires 0 <= i < |survivors| => SurvivorPod(survivors[i], i + 1, revision)))
  }

  function OneCoordinator(leader: string, revision: string): Role {
    Role(1, revision, false, [Pod(leader, leader, leader, 0, revision, false, true)])
  }

  function RowOf(name: string, role: string): Instance { Instance(name, name, "", "", "up", role) }

  function ViewOfAll(leader: string, main: string, survivors: seq<string>): seq<Instance> {
    [RowOf(leader, "leader"), RowOf(main, "main")]
      + seq(|survivors|, i requires 0 <= i < |survivors| => RowOf(survivors[i], "replica"))
  }

  lemma Plays(name: string)
    ensures RowOf(name, "leader").IsLeader() && !RowOf(name, "leader").IsMain() && RowOf(name, "leader").IsUp()
    ensures RowOf(name, "main").IsMain() && !RowOf(name, "main").IsLeader() && RowOf(name, "main").IsUp()
    ensures !RowOf(name, "replica").IsMain() && !RowOf(name, "replica").IsLeader() && RowOf(name, "replica").IsUp()
  {
    assert |"leader"| == 6 && |"main"| == 4 && |"replica"| == 7;
    assert EqualFold("leader", "leader") && EqualFold("up", "up") && EqualFold("main", "main");
  }

  /** Of the rows, one leads, one is MAIN and all are up. */
  ghost predicate AllPlay(view: seq<Instance>, leader: string, main: string) {
    && UniqueNames(view)
    && (forall i :: 0 <= i < |view| ==> view[i].IsUp())
    && (forall i :: 0 <= i < |view| ==> (view[i].IsLeader() <==> i == 0) && (view[i].IsMain() <==> i == 1))
    && |view| >= 2 && view[0].name == leader && view[1].name == main
  }

  lemma ViewPlays(leader: string, main: string, survivors: seq<string>)
    requires UniqueNames(ViewOfAll(leader, main, survivors))
    ensures AllPlay(ViewOfAll(leader, main, survivors), leader, main)
  {
    var view := ViewOfAll(leader, main, survivors);
    forall i | 0 <= i < |view|
      ensures view[i].IsUp() && (view[i].IsLeader() <==> i == 0) && (view[i].IsMain() <==> i == 1)
    {
      Plays(view[i].name);
    }
  }

  lemma PlayerIs(view: seq<Instance>, leader: string, main: string, n: string)
    requires AllPlay(view, leader, main)
    ensures (IsMain(Index(view), n) <==> n == main) && (IsLeader(Index(view), n) <==> n == leader)
  {
    IndexOfUniqueNames(view);
    if n in Index(view) {
      var i :| 0 <= i < |view| && view[i].name == n;
      assert Index(view)[n] == view[i];
      assert i != 0 ==> view[0].name != view[i].name;
      assert i != 1 ==> view[1].name != n;
    } else {
      assert view[0].name in Index(view) && view[1].name in Index(view);
    }
  }

  lemma PlayersRead(view: seq<Instance>, leader: string, main: string)
    requires AllPlay(view, leader, main)
    ensures forall n :: (IsMain(Index(view), n) <==> n == main) && (IsLeader(Index(view), n) <==> n == leader)
  {
    forall n ensures (IsMain(Index(view), n) <==> n == main) && (IsLeader(Index(view), n) <==> n == leader) {
      PlayerIs(view, leader, main, n);
    }
  }

  lemma PlayersAre(rows: Rows, leader: string, main: string)
    requires forall n :: (IsMain(rows, n) <==> n == main) && (IsLeader(rows, n) <==> n == leader)
    ensures MainInstance(rows) == main && LeaderInstance(rows) == leader
    ensures AtMostOneMain(rows) && AtMostOneLeader(rows)
  {
    assert IsMain(rows, main) && IsLeader(rows, leader);
  }

  lemma AllUp(view: seq<Instance>, leader: string, main: string, i: nat)
    requires AllPlay(view, leader, main) && i < |view|
    ensures Up(Index(view), view[i].name)
  {
    IndexOfUniqueNames(view);
  }

  lemma OnlyTheMainIsOutdated(main: string, survivors: seq<string>, old_: string, revision: string)
    requires old_ != revision && old_ != "" && revision != ""
    ensures var pending := OutdatedPods(AllButMain(main, survivors, old_, revision));
      pending != [] && forall p :: p in pending ==> p == MainPod(main, old_)
  {
    var role := AllButMain(main, survivors, old_, revision);
    assert role.pods[0] == MainPod(main, old_) && role.pods[0] in role.pods;
    assert role.pods[0] in OutdatedPods(role);
  }

  lemma SurvivorIsUp(leader: string, main: string, survivors: seq<string>, old_: string, revision: string, i: nat)
    requires UniqueNames(ViewOfAll(leader, main, survivors)) && i < |survivors|
    ensures survivors[i] != main && Up(Index(ViewOfAll(leader, main, survivors)), survivors[i])
    ensures SurvivorPod(survivors[i], i + 1, revision) in AllButMain(main, survivors, old_, revision).pods
  {
    var view := ViewOfAll(leader, main, survivors);
    ViewPlays(leader, main, survivors);
    AllUp(view, leader, main, i + 2);
    assert view[i + 2].name == survivors[i] && view[1].name == main && view[1].name != view[i + 2].name;
    SurvivorHasAPod(main, survivors, old_, revision, i);
  }

  lemma SurvivorHasAPod(main: string, survivors: seq<string>, old_: string, revision: string, i: nat)
    requires i < |survivors|
    ensures SurvivorPod(survivors[i], i + 1, revision) in AllButMain(main, survivors, old_, revision).pods
  {
    var pods := AllButMain(main, survivors, old_, revision).pods;
    assert pods[i + 1] == SurvivorPod(survivors[i], i + 1, revision);
  }

  lemma PodIsSurvivors(main: string, survivors: seq<string>, old_: string, revision: string, p: Pod)
    requires p in AllButMain(main, survivors, old_, revision).pods && p.instance != main
    ensures p.instance in survivors
  {
    var pods := AllButMain(main, survivors, old_, revision).pods;
    var i :| 0 <= i < |pods| && pods[i] == p;
    assert p == SurvivorPod(survivors[i - 1], i, revision);
  }

  lemma SurvivorsAre(leader: string, main: string, survivors: seq<string>, old_: string, revision: string)
    requires UniqueNames(ViewOfAll(leader, main, survivors))
    ensures Survivors(AllButMain(main, survivors, old_, revision), Index(ViewOfAll(leader, main, survivors)), main)
              == set n | n in survivors
  {
    var role, rows := AllButMain(main, survivors, old_, revision), Index(ViewOfAll(leader, main, survivors));
    forall n | n in survivors ensures n in Survivors(role, rows, main) {
      var i :| 0 <= i < |survivors| && survivors[i] == n;
      SurvivorIsUp(leader, main, survivors, old_, revision, i);
      assert SurvivorPod(n, i + 1, revision).instance == n;
    }
    forall n | n in Survivors(role, rows, main) ensures n in survivors {
      var p :| p in role.pods && p.instance == n && n != main;
      PodIsSurvivors(main, survivors, old_, revision, p);
    }
  }

  lemma RowsRead(leader: string, main: string, survivors: seq<string>)
    requires UniqueNames(ViewOfAll(leader, main, survivors))
    ensures var rows := Index(ViewOfAll(leader, main, survivors));
      && MainInstance(rows) == main && LeaderInstance(rows) == leader && Up(rows, main)
      && AtMostOneMain(rows) && AtMostOneLeader(rows)
  {
    var view := ViewOfAll(leader, main, survivors);
    ViewPlays(leader, main, survivors);
    PlayersRead(view, leader, main);
    PlayersAre(Index(view), leader, main);
    AllUp(view, leader, main, 1);
  }

  lemma AllPresent(main: string, survivors: seq<string>, leader: string, old_: string, revision: string)
    ensures var role := AllButMain(main, survivors, old_, revision);
      Present(role) && !role.stale && !OneCoordinator(leader, revision).stale
  {
  }

  lemma OnlyPodGoes(data: Role, coordinators: Role, view: seq<Instance>, lag: seq<ReplicationLag>, survivor: Pod, mainPod: Pod)
    requires !data.stale && !coordinators.stale && Present(data)
    requires OutdatedPods(data) != [] && forall p :: p in OutdatedPods(data) ==> p == mainPod
    requires mainPod.instance == MainInstance(Index(view)) != "" && Up(Index(view), mainPod.instance)
    requires survivor in data.pods && survivor.instance != mainPod.instance && Replicating(Index(view), IndexLag(lag), survivor)
    ensures Next(data, coordinators, view, lag) == Delete(mainPod)
  {
    assert OnlyMainLeft(data, mainPod.instance);
    OneSurvivorIsEnough(data, coordinators, view, lag, survivor);
  }

  /** With one survivor that reads as caught up, the MAIN's pod goes. */
  lemma MainIsRestarted(leader: string, main: string, survivors: seq<string>, old_: string, revision: string,
                        lag: seq<ReplicationLag>, i: nat)
    requires UniqueNames(ViewOfAll(leader, main, survivors)) && main != ""
    requires old_ != revision && old_ != "" && revision != ""
    requires i < |survivors| && CaughtUp(IndexLag(lag), survivors[i])
    ensures Next(AllButMain(main, survivors, old_, revision), OneCoordinator(leader, revision), ViewOfAll(leader, main, survivors), lag)
              == Delete(MainPod(main, old_))
  {
    RowsRead(leader, main, survivors);
    OnlyTheMainIsOutdated(main, survivors, old_, revision);
    AllPresent(main, survivors, leader, old_, revision);
    SurvivorIsUp(leader, main, survivors, old_, revision, i);
    OnlyPodGoes(AllButMain(main, survivors, old_, revision), OneCoordinator(leader, revision), ViewOfAll(leader, main, survivors),
                lag, SurvivorPod(survivors[i], i + 1, revision), MainPod(main, old_));
  }

  /* ---- What they hold ---- */

  function LagRow(instance: string, db: string): ReplicationLag { ReplicationLag(instance, [DatabaseLag(db, 1, 0)]) }

  lemma LagRowReads(instance: string, db: string)
    ensures LagRow(instance, db).IsCaughtUp() && ListsCaughtUp(LagRow(instance, db), db)
    ensures forall d :: d in LagRow(instance, db).databases <==> d == DatabaseLag(db, 1, 0)
  {
    assert LagRow(instance, db).databases[0] == DatabaseLag(db, 1, 0);
  }

  lemma LagOfOne(row: ReplicationLag)
    ensures IndexLag([row]) == map[row.instance := row]
  {
    assert [row][..0] == [];
  }

  lemma LagOfTwo(row: ReplicationLag, other: ReplicationLag)
    ensures IndexLag([row, other]) == map[row.instance := row][other.instance := other]
  {
    assert [row, other][..1] == [row];
    LagOfOne(row);
  }

  /** The MAIN has one transaction in each of two databases. */
  function MainHolds(x: string, y: string): Commits { map[x := [1], y := [2]] }

  /** A survivor of the first transaction, or of the second. */
  function First(x: string): Commits { map[x := [1]] }
  function Second(y: string): Commits { map[y := [2]] }

  lemma FirstIsShort(held: Data, main: string, instance: string, x: string, y: string)
    requires main in held && instance in held && x != y
    requires held[main] == MainHolds(x, y) && held[instance] == First(x)
    ensures !HoldsAll(held, main, instance) && Measured(held, main, LagRow(instance, x))
    ensures Behind(held, main, instance, x) == 0 && Behind(held, main, instance, y) == 1
  {
    LagRowReads(instance, x);
    assert y in held[main] && held[main][y] == [2] && y !in held[instance];
    assert held[main][x] == [1] && held[instance][x] == [1];
  }

  lemma SecondIsShort(held: Data, main: string, instance: string, x: string, y: string)
    requires main in held && instance in held && x != y
    requires held[main] == MainHolds(x, y) && held[instance] == Second(y)
    ensures !HoldsAll(held, main, instance) && Measured(held, main, LagRow(instance, y))
    ensures Behind(held, main, instance, y) == 0 && Behind(held, main, instance, x) == 1
  {
    LagRowReads(instance, y);
    assert x in held[main] && held[main][x] == [1] && x !in held[instance];
    assert held[main][y] == [2] && held[instance][y] == [2];
  }

  /** The lag is as measured, somebody may be promoted, and whoever may be loses a write. */
  ghost predicate Loses(held: Data, main: string, lag: seq<ReplicationLag>, survivors: set<string>) {
    && FollowsMain(held, main) && MeasuredAll(held, main, lag) && ListsEach(lag, survivors)
    && (exists promoted :: MayBePromoted(held, main, survivors, promoted))
    && forall promoted :: MayBePromoted(held, main, survivors, promoted) ==> !HoldsAll(held, main, promoted)
  }

  function HeldByOne(main: string, replica: string, x: string, y: string): Data {
    map[main := MainHolds(x, y), replica := First(x)]
  }

  lemma OneLoses(main: string, replica: string, x: string, y: string)
    requires main != replica && x != y
    ensures Loses(HeldByOne(main, replica, x, y), main, [LagRow(replica, x)], {replica})
  {
    var held, lag := HeldByOne(main, replica, x, y), [LagRow(replica, x)];
    FirstIsShort(held, main, replica, x, y);
    assert lag[0] in lag;
    var _ := SomebodyMayBePromoted(held, main, {replica}, replica);
  }

  function HeldByTwo(main: string, a: string, b: string, x: string, y: string): Data {
    map[main := MainHolds(x, y), a := First(x), b := Second(y)]
  }

  lemma TwoFollow(main: string, a: string, b: string, x: string, y: string)
    requires main != a && main != b && a != b && x != y
    ensures FollowsMain(HeldByTwo(main, a, b, x, y), main)
  {
    var held := HeldByTwo(main, a, b, x, y);
    forall i, db | i in held && db in held[i] && db in held[main] ensures held[i][db] <= held[main][db] {
      assert i == main || i == a || i == b;
    }
  }

  /** Neither of two is ahead of the other. */
  lemma EitherMayBePromoted(held: Data, main: string, a: string, b: string, x: string, y: string)
    requires a in held && b in held
    requires Behind(held, main, a, x) < Behind(held, main, b, x) && Behind(held, main, b, y) < Behind(held, main, a, y)
    ensures MayBePromoted(held, main, {a, b}, a) && MayBePromoted(held, main, {a, b}, b)
  {
    assert !AtLeast(held, main, a, b) && !AtLeast(held, main, b, a);
  }

  lemma TwoAreMeasured(main: string, a: string, b: string, x: string, y: string)
    requires main != a && main != b && a != b && x != y
    ensures var held := HeldByTwo(main, a, b, x, y);
      && MeasuredAll(held, main, [LagRow(a, x), LagRow(b, y)])
      && !HoldsAll(held, main, a) && !HoldsAll(held, main, b)
      && MayBePromoted(held, main, {a, b}, a) && MayBePromoted(held, main, {a, b}, b)
  {
    var held := HeldByTwo(main, a, b, x, y);
    FirstIsShort(held, main, a, x, y);
    SecondIsShort(held, main, b, x, y);
    EitherMayBePromoted(held, main, a, b, x, y);
  }

  lemma TwoLose(main: string, a: string, b: string, x: string, y: string)
    requires main != a && main != b && a != b && x != y
    ensures Loses(HeldByTwo(main, a, b, x, y), main, [LagRow(a, x), LagRow(b, y)], {a, b})
    ensures MayBePromoted(HeldByTwo(main, a, b, x, y), main, {a, b}, a)
    ensures MayBePromoted(HeldByTwo(main, a, b, x, y), main, {a, b}, b)
  {
    var lag := [LagRow(a, x), LagRow(b, y)];
    TwoFollow(main, a, b, x, y);
    TwoAreMeasured(main, a, b, x, y);
    assert lag[0] in lag && lag[1] in lag;
  }

  /** The decision is to restart the MAIN, in a view with one MAIN and one leader. */
  ghost predicate RestartsMain(data: Role, coordinators: Role, view: seq<Instance>, lag: seq<ReplicationLag>) {
    var d, rows := Next(data, coordinators, view, lag), Index(view);
    && d.Delete? && d.pod.instance == MainInstance(rows) != ""
    && AtMostOneMain(rows) && AtMostOneLeader(rows) && LeaderInstance(rows) != ""
  }

  ghost predicate Different(leader: string, main: string, survivors: seq<string>) {
    && leader != main && leader !in survivors && main !in survivors && leader != "" && main != ""
    && forall i, j :: 0 <= i < j < |survivors| ==> survivors[i] != survivors[j]
  }

  lemma NamesAreUnique(leader: string, main: string, survivors: seq<string>)
    requires Different(leader, main, survivors)
    ensures UniqueNames(ViewOfAll(leader, main, survivors))
  {
    var view := ViewOfAll(leader, main, survivors);
    forall i, j | 0 <= i < j < |view| ensures view[i].name != view[j].name {
      assert j >= 2 ==> view[j].name == survivors[j - 2] && survivors[j - 2] in survivors;
    }
  }

  lemma RestartsWith(leader: string, main: string, survivors: seq<string>, old_: string, revision: string,
                     lag: seq<ReplicationLag>, names: set<string>)
    requires Different(leader, main, survivors) && forall n :: n in survivors <==> n in names
    requires old_ != revision && old_ != "" && revision != ""
    requires |survivors| > 0 && CaughtUp(IndexLag(lag), survivors[0])
    ensures var data, view := AllButMain(main, survivors, old_, revision), ViewOfAll(leader, main, survivors);
      && RestartsMain(data, OneCoordinator(leader, revision), view, lag) && MainInstance(Index(view)) == main
      && Survivors(data, Index(view), main) == names
  {
    NamesAreUnique(leader, main, survivors);
    RowsRead(leader, main, survivors);
    MainIsRestarted(leader, main, survivors, old_, revision, lag, 0);
    SurvivorsAre(leader, main, survivors, old_, revision);
  }

  /** One survivor, without a database the MAIN wrote to: the MAIN is restarted and the write is lost. */
  lemma RestartingMainCanLoseAWrite(leader: string, main: string, replica: string, x: string, y: string,
                                    old_: string, revision: string)
    requires leader !in {main, replica, ""} && main !in {replica, ""} && x != y
    requires old_ != revision && old_ != "" && revision != ""
    ensures var data, view := AllButMain(main, [replica], old_, revision), ViewOfAll(leader, main, [replica]);
      var lag := [LagRow(replica, x)];
      && RestartsMain(data, OneCoordinator(leader, revision), view, lag) && MainInstance(Index(view)) == main
      && Loses(HeldByOne(main, replica, x, y), main, lag, Survivors(data, Index(view), main))
  {
    LagOfOne(LagRow(replica, x));
    LagRowReads(replica, x);
    RestartsWith(leader, main, [replica], old_, revision, [LagRow(replica, x)], {replica});
    OneLoses(main, replica, x, y);
  }

  lemma FirstReads(a: string, b: string, x: string, y: string)
    requires a != b
    ensures CaughtUp(IndexLag([LagRow(a, x), LagRow(b, y)]), a)
  {
    LagOfTwo(LagRow(a, x), LagRow(b, y));
    LagRowReads(a, x);
  }

  lemma TwoRestart(leader: string, main: string, a: string, b: string, x: string, y: string, old_: string, revision: string)
    requires leader !in {main, a, b, ""} && main !in {a, b, ""} && a != b
    requires old_ != revision && old_ != "" && revision != ""
    ensures var data, view := AllButMain(main, [a, b], old_, revision), ViewOfAll(leader, main, [a, b]);
      && RestartsMain(data, OneCoordinator(leader, revision), view, [LagRow(a, x), LagRow(b, y)])
      && MainInstance(Index(view)) == main && Survivors(data, Index(view), main) == {a, b}
  {
    FirstReads(a, b, x, y);
    RestartsWith(leader, main, [a, b], old_, revision, [LagRow(a, x), LagRow(b, y)], {a, b});
  }

  /** Two survivors, each with one of the MAIN's two databases: each database is listed by one of them,
      none behind, the MAIN is restarted, either may be promoted, and either loses the other's write. */
  lemma RestartingMainCanLoseACoveredWrite(leader: string, main: string, a: string, b: string, x: string, y: string,
                                           old_: string, revision: string)
    requires leader !in {main, a, b, ""} && main !in {a, b, ""} && a != b && x != y
    requires old_ != revision && old_ != "" && revision != ""
    ensures var data, view := AllButMain(main, [a, b], old_, revision), ViewOfAll(leader, main, [a, b]);
      && RestartsMain(data, OneCoordinator(leader, revision), view, [LagRow(a, x), LagRow(b, y)])
      && MainInstance(Index(view)) == main && Survivors(data, Index(view), main) == {a, b}
    ensures ListsCaughtUp(LagRow(a, x), x) && ListsCaughtUp(LagRow(b, y), y)
    ensures Loses(HeldByTwo(main, a, b, x, y), main, [LagRow(a, x), LagRow(b, y)], {a, b})
    ensures forall promoted :: promoted in {a, b} ==> MayBePromoted(HeldByTwo(main, a, b, x, y), main, {a, b}, promoted)
  {
    TwoRestart(leader, main, a, b, x, y, old_, revision);
    LagRowReads(a, x);
    LagRowReads(b, y);
    TwoLose(main, a, b, x, y);
  }
}
