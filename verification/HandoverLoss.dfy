/** Handovers that are carried out and lose a write, although the successor reads as caught up. */
module HandoverLoss {
  import opened Text
  import opened Memgraph
  import opened Planner
  import opened Resources
  import opened Cluster
  import opened PlannerMeaning
  import opened PlannerSafety
  import opened Convergence
  import opened Replication
  import LostWrites

  /** A leader, a MAIN and a replica. */
  ghost predicate ThreeRows(rows: Rows, leader: string, main: string, replica: string) {
    && rows.Keys == {leader, main, replica} && leader != main && leader != replica && main != replica
    && (forall n :: n in rows ==> n != "" && rows[n].name == n && rows[n].boltServer != "")
    && rows[leader].IsLeader() && !rows[leader].IsMain()
    && rows[main].IsMain() && !rows[main].IsLeader() && !rows[main].IsFollower()
    && !rows[replica].IsMain() && !rows[replica].IsLeader() && !rows[replica].IsFollower() && rows[replica].IsUp()
  }

  lemma ThreeRowsAreValid(t: Topology, rows: Rows, leader: string, main: string, replica: string)
    requires ThreeRows(rows, leader, main, replica)
    requires forall c :: c in AllCoordinators(t) ==> c.Name() != main && c.Name() != replica
    requires forall i :: i in AllInstances(t) ==> i.name != leader
    ensures ValidRows(t, rows)
  {
    assert forall n :: n in rows <==> n == leader || n == main || n == replica;
    assert IsLeader(rows, leader);
  }

  function ThreeInView(leader: string, main: string, replica: string): seq<Instance> {
    LostWrites.ViewOfAll(leader, main, [replica])
  }

  lemma ThreeRead(leader: string, main: string, replica: string)
    requires leader != "" && main != "" && replica != "" && leader != main && leader != replica && main != replica
    ensures UniqueNames(ThreeInView(leader, main, replica))
    ensures ThreeRows(Index(ThreeInView(leader, main, replica)), leader, main, replica)
  {
    var view := ThreeInView(leader, main, replica);
    assert view == [LostWrites.RowOf(leader, "leader"), LostWrites.RowOf(main, "main"), LostWrites.RowOf(replica, "replica")];
    ThreeAreRead(view, leader, main, replica);
    LostWrites.Plays(leader);
    LostWrites.Plays(main);
    LostWrites.Plays(replica);
    NoFollowers(view[1], view[2]);
  }

  lemma NoFollowers(main: Instance, replica: Instance)
    requires main.role == "main" && replica.role == "replica"
    ensures !main.IsFollower() && !replica.IsFollower()
  {
    assert |"main"| == 4 && |"replica"| == 7 && |"follower"| == 8;
  }

  lemma ThreeAreRead(view: seq<Instance>, a: string, b: string, c: string)
    requires |view| == 3 && view[0].name == a && view[1].name == b && view[2].name == c
    requires a != b && a != c && b != c
    ensures UniqueNames(view) && Index(view) == map[a := view[0], b := view[1], c := view[2]]
  {
    IndexOfUniqueNames(view);
  }

  lemma OnlyCandidate(t: Topology, rows: Rows, replica: string, db: string, n: string)
    requires Candidate(t, rows, IndexLag([LostWrites.LagRow(replica, db)]), n)
    ensures n == replica
  {
    LostWrites.LagOfOne(LostWrites.LagRow(replica, db));
  }

  lemma IsCandidate(t: Topology, rows: Rows, replica: string, db: string)
    requires Names(t.dataInstances, replica) && Reachable(rows, replica)
    ensures Candidate(t, rows, IndexLag([LostWrites.LagRow(replica, db)]), replica)
  {
    LostWrites.LagOfOne(LostWrites.LagRow(replica, db));
    LostWrites.LagRowReads(replica, db);
  }

  /** The plan hands over, and the one instance it can leave as MAIN is the replica. */
  lemma HandsOver(t: Topology, view: seq<Instance>, leader: string, main: string, replica: string, db: string)
    requires ValidTopology(t) && UniqueNames(view) && ValidRows(t, Index(view)) && ThreeRows(Index(view), leader, main, replica)
    requires Retires(t, main) && Names(t.dataInstances, replica)
    ensures var lag := [LostWrites.LagRow(replica, db)];
      && Situate(t, view, lag).Handover() && Situate(t, view, lag).retiringMain == main
      && var e := RunAll(Granting(), Index(view), 0, PlanFor(t, view, lag));
         e.ok && HasMain(e.rows) && forall n :: IsMain(e.rows, n) ==> n == replica
  {
    var lag := [LostWrites.LagRow(replica, db)];
    var s := Situate(t, view, lag);
    SituationReads(t, view, lag);
    IsCandidate(t, Index(view), replica, db);
    assert IsMain(Index(view), main);
    GrantingIsWilling();
    OnePass(t, view, lag, Granting());
    PlansRunSafely(t, view, lag, Granting());
    var e := RunAll(Granting(), Index(view), 0, PlanFor(t, view, lag));
    forall n | IsMain(e.rows, n) ensures n == replica {
      RetiresIs(t, main);
      if n in s.successors {
        OnlyCandidate(t, Index(view), replica, db, n);
      }
    }
  }

  /** In every topology that retires an instance: the retiring MAIN hands over, everything is accepted,
      and the new MAIN is without a database the old one wrote to. */
  lemma HandoverCanLoseAWrite(t: Topology, x: string, y: string)
    requires ValidTopology(t) && t.retiringDataInstances != [] && x != y
    ensures var leader, main, replica := t.coordinators[0].Name(), t.retiringDataInstances[0].name, t.dataInstances[0].name;
      var view, lag, held := ThreeInView(leader, main, replica), [LostWrites.LagRow(replica, x)], LostWrites.HeldByOne(main, replica, x, y);
      var e := RunAll(Granting(), Index(view), 0, PlanFor(t, view, lag));
      && UniqueNames(view) && ValidRows(t, Index(view)) && Willing(Granting())
      && Situate(t, view, lag).Handover() && Situate(t, view, lag).retiringMain == main
      && FollowsMain(held, main) && MeasuredAll(held, main, lag)
      && e.ok && HasMain(e.rows) && forall n :: IsMain(e.rows, n) ==> n == replica && !HoldsAll(held, main, n)
  {
    var leader, main, replica := t.coordinators[0].Name(), t.retiringDataInstances[0].name, t.dataInstances[0].name;
    NamesApart(t);
    ThreeRead(leader, main, replica);
    var view := ThreeInView(leader, main, replica);
    ThreeRowsAreValid(t, Index(view), leader, main, replica);
    GrantingIsWilling();
    HandsOver(t, view, leader, main, replica, x);
    LostWrites.OneLoses(main, replica, x, y);
    LostWrites.FirstIsShort(LostWrites.HeldByOne(main, replica, x, y), main, replica, x, y);
  }

  lemma NamesApart(t: Topology)
    requires ValidTopology(t) && t.retiringDataInstances != []
    ensures var leader, main, replica := t.coordinators[0].Name(), t.retiringDataInstances[0].name, t.dataInstances[0].name;
      && leader != "" && main != "" && replica != "" && leader != main && leader != replica && main != replica
      && Retires(t, main) && Names(t.dataInstances, replica)
      && (forall c :: c in AllCoordinators(t) ==> c.Name() != main && c.Name() != replica)
      && (forall i :: i in AllInstances(t) ==> i.name != leader)
  {
    var c, m, d := t.coordinators[0], t.retiringDataInstances[0], t.dataInstances[0];
    assert c in t.coordinators && m in t.retiringDataInstances && d in t.dataInstances;
    assert c in AllCoordinators(t) && m in AllInstances(t) && d in AllInstances(t);
    assert AllInstances(t)[0] == d && AllInstances(t)[|t.dataInstances|] == m;
  }
}
