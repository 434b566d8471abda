/** What a plan means in terms of the cluster it is made for, whatever order the view lists it in. */
module PlannerMeaning {
  import opened Text
  import opened Memgraph
  import opened Planner
  import opened Resources
  import opened Cluster

  /** A view shows the cluster: each row once, in whatever order. */
  ghost predicate Shows(view: seq<Instance>, rows: Rows) {
    UniqueNames(view) && Index(view) == rows
  }

  /** What the coordinators keep of their own cluster: one MAIN at most, exactly one leader, rows
      that play the kind of part their name says, and a coordinator without an address only where
      the fresh leader reports itself. */
  ghost predicate ValidRows(t: Topology, rows: Rows) {
    && AtMostOneMain(rows)
    && AtMostOneLeader(rows)
    && (exists n :: IsLeader(rows, n))
    && (forall n :: n in rows ==> n != "" && rows[n].name == n)
    && (forall c :: c in AllCoordinators(t) && c.Name() in rows ==> !IsMain(rows, c.Name()))
    && (forall i :: i in AllInstances(t) && i.name in rows ==> !IsLeader(rows, i.name) && !Electable(rows, i.name))
    && (forall c :: c in AllCoordinators(t) && c.Name() in rows && rows[c.Name()].boltServer == "" ==>
          IsLeader(rows, c.Name()))
    && (forall c :: c in AllCoordinators(t) && c.Name() in rows ==>
          IsLeader(rows, c.Name()) || Electable(rows, c.Name()))
  }

  ghost predicate Names(ds: seq<DataInstanceSpec>, name: string) { exists i :: i in ds && i.name == name }

  ghost predicate Candidate(t: Topology, rows: Rows, lag: map<string, ReplicationLag>, name: string) {
    Names(t.dataInstances, name) && Reachable(rows, name) && CaughtUp(lag, name)
  }

  lemma {:induction false} CandidatesAre(ds: seq<DataInstanceSpec>, rows: Rows, lag: map<string, ReplicationLag>)
    ensures forall n :: n in HandoverCandidates(ds, rows, lag) <==>
              Names(ds, n) && Reachable(rows, n) && CaughtUp(lag, n)
  {
    if ds != [] {
      var shorter, last := ds[..|ds| - 1], ds[|ds| - 1];
      CandidatesAre(shorter, rows, lag);
      assert ds == shorter + [last];
      forall n ensures Names(ds, n) <==> Names(shorter, n) || n == last.name {
        if Names(ds, n) {
          var i :| i in ds && i.name == n;
          assert i in shorter || i == last;
        }
        if n == last.name { assert last in ds; }
      }
    }
  }

  lemma {:induction false} RetiringMainIs(t: Topology, view: seq<Instance>)
    requires forall i :: 0 <= i < |view| ==> view[i].name != ""
    ensures RetiringMain(t, view) == "" <==> forall i :: 0 <= i < |view| ==> !(view[i].IsMain() && Retires(t, view[i].name))
    ensures RetiringMain(t, view) != "" ==>
              exists i :: 0 <= i < |view| && view[i].name == RetiringMain(t, view) && view[i].IsMain() && Retires(t, view[i].name)
  {
    if view != [] {
      RetiringMainIs(t, view[..|view| - 1]);
    }
  }

  lemma {:induction false} LeaderNameIs(view: seq<Instance>)
    requires exists i :: 0 <= i < |view| && view[i].IsLeader()
    ensures exists i :: 0 <= i < |view| && view[i].IsLeader() && view[i].name == LeaderName(view)
  {
    if !view[0].IsLeader() {
      var i :| 0 <= i < |view| && view[i].IsLeader();
      assert view[1..][i - 1].IsLeader();
      LeaderNameIs(view[1..]);
      var j :| 0 <= j < |view[1..]| && view[1..][j].IsLeader() && view[1..][j].name == LeaderName(view[1..]);
      assert view[j + 1] == view[1..][j];
    }
  }

  /** The planner's reading of a view, in terms of the cluster alone. */
  ghost predicate Reads(t: Topology, rows: Rows, lag: map<string, ReplicationLag>, s: Situation) {
    && s.rows == rows
    && (s.retiringMain != "" ==> IsMain(rows, s.retiringMain) && Retires(t, s.retiringMain))
    && (s.retiringMain == "" ==> forall n :: IsMain(rows, n) ==> !Retires(t, n))
    && (s.stayingMain <==> exists n :: IsMain(rows, n) && !Retires(t, n))
    && IsLeader(rows, s.leader)
    && (s.Handover() <==> s.retiringMain != "" && exists n :: Candidate(t, rows, lag, n))
    && (forall n :: n in s.successors ==> Candidate(t, rows, lag, n))
  }

  lemma SituationReads(t: Topology, view: seq<Instance>, lag: seq<ReplicationLag>)
    requires UniqueNames(view) && ValidRows(t, Index(view))
    ensures Reads(t, Index(view), IndexLag(lag), Situate(t, view, lag))
  {
    RetiringMainReads(t, view);
    LeaderReads(t, view);
    StayingMainIs(t, view);
    SuccessorsRead(t, view, lag);
  }

  lemma RetiringMainReads(t: Topology, view: seq<Instance>)
    requires UniqueNames(view) && ValidRows(t, Index(view))
    ensures var main := RetiringMain(t, view);
      if main == "" then forall n :: IsMain(Index(view), n) ==> !Retires(t, n)
      else IsMain(Index(view), main) && Retires(t, main)
  {
    var rows := Index(view);
    IndexOfUniqueNames(view);
    forall i | 0 <= i < |view| ensures view[i].name != "" {
      assert view[i].name in rows;
    }
    RetiringMainIs(t, view);
    forall n | IsMain(rows, n) && Retires(t, n) ensures RetiringMain(t, view) != "" {
      assert rows[n] in view;
    }
  }

  lemma LeaderReads(t: Topology, view: seq<Instance>)
    requires UniqueNames(view) && ValidRows(t, Index(view))
    ensures IsLeader(Index(view), LeaderName(view))
  {
    IndexOfUniqueNames(view);
    var l :| IsLeader(Index(view), l);
    assert Index(view)[l] in view;
    LeaderNameIs(view);
  }

  lemma SuccessorsRead(t: Topology, view: seq<Instance>, lag: seq<ReplicationLag>)
    ensures var s := Situate(t, view, lag);
      (s.Handover() <==> s.retiringMain != "" && exists n :: Candidate(t, Index(view), IndexLag(lag), n))
      && forall n :: n in s.successors ==> Candidate(t, Index(view), IndexLag(lag), n)
  {
    if RetiringMain(t, view) != "" {
      CandidatesFound(t, Index(view), IndexLag(lag));
      assert Situate(t, view, lag).successors == HandoverCandidates(t.dataInstances, Index(view), IndexLag(lag));
    }
  }

  lemma CandidatesFound(t: Topology, rows: Rows, lag: map<string, ReplicationLag>)
    ensures HandoverCandidates(t.dataInstances, rows, lag) != [] <==> exists n :: Candidate(t, rows, lag, n)
    ensures forall n :: n in HandoverCandidates(t.dataInstances, rows, lag) <==> Candidate(t, rows, lag, n)
  {
    CandidatesAre(t.dataInstances, rows, lag);
    var found := HandoverCandidates(t.dataInstances, rows, lag);
    if found != [] {
      assert found[0] in found;
      assert Candidate(t, rows, lag, found[0]);
    }
    if n :| Candidate(t, rows, lag, n) {
      assert n in found;
    }
  }

  lemma StayingMainIs(t: Topology, view: seq<Instance>)
    requires UniqueNames(view)
    ensures HasStayingMain(t, view) <==> exists n :: IsMain(Index(view), n) && !Retires(t, n)
  {
    var rows := Index(view);
    IndexOfUniqueNames(view);
    if HasStayingMain(t, view) {
      var i :| 0 <= i < |view| && view[i].IsMain() && !Retires(t, view[i].name);
      assert IsMain(rows, view[i].name);
    }
    if exists n :: IsMain(rows, n) && !Retires(t, n) {
      var n :| IsMain(rows, n) && !Retires(t, n);
      assert rows[n] in view;
    }
  }

  lemma RetiresIs(t: Topology, name: string)
    ensures Retires(t, name) <==> exists i :: i in t.retiringDataInstances && i.name == name
  {
    if exists i :: i in t.retiringDataInstances && i.name == name {
      var i :| i in t.retiringDataInstances && i.name == name;
      var k :| 0 <= k < |t.retiringDataInstances| && t.retiringDataInstances[k] == i;
    }
  }

  /** The plan depends on what the view says, not on how it lists it. */
  lemma PlanIgnoresRowOrder(t: Topology, view: seq<Instance>, other: seq<Instance>, lag: seq<ReplicationLag>)
    requires UniqueNames(view) && UniqueNames(other) && Index(view) == Index(other) && ValidRows(t, Index(view))
    ensures PlanFor(t, view, lag) == PlanFor(t, other, lag)
  {
    SituationReads(t, view, lag);
    SituationReads(t, other, lag);
    var s, o := Situate(t, view, lag), Situate(t, other, lag);
    assert s.retiringMain == o.retiringMain && s.leader == o.leader;
  }

  /* ---- The empty plan ---- */

  ghost predicate AllDeclaredInPlace(t: Topology, rows: Rows) {
    && (forall c :: c in t.coordinators ==> CoordinatorRegistered(rows, c) && rows[c.Name()].boltServer == c.boltServer)
    && (forall i :: i in t.dataInstances ==>
          i.name in rows && (rows[i.name].boltServer == "" || rows[i.name].boltServer == i.boltServer))
  }

  ghost predicate NoRetiringCoordinator(t: Topology, rows: Rows) {
    forall c :: c in t.retiringCoordinators ==> !CoordinatorRegistered(rows, c) && !IsLeader(rows, c.Name())
  }

  /** A retiring MAIN with nobody to hand over to. */
  ghost predicate Blocked(t: Topology, rows: Rows, lag: map<string, ReplicationLag>, name: string) {
    IsMain(rows, name) && Retires(t, name) && !exists n :: Candidate(t, rows, lag, n)
  }

  ghost predicate OnlyBlockedRetiring(t: Topology, rows: Rows, lag: map<string, ReplicationLag>) {
    forall i :: i in t.retiringDataInstances && i.name in rows ==> Blocked(t, rows, lag, i.name)
  }

  lemma InJobs(jobs: seq<Command>, others: seq<Command>, rest: seq<Command>, c: Command)
    ensures c in jobs + others + rest <==> c in jobs || c in others || c in rest
  {
  }

  /** Membership in the job list, by kind of job. */
  lemma JobsAre(t: Topology, s: Situation)
    ensures forall c :: c in t.coordinators ==>
              AddCoordinator(c) in Jobs(t, s) && UpdateCoordinatorBoltServer(c) in Jobs(t, s)
    ensures forall i :: i in t.dataInstances ==>
              RegisterInstance(i) in Jobs(t, s) && UpdateInstanceBoltServer(i) in Jobs(t, s)
    ensures forall i :: i in t.retiringDataInstances ==> UnregisterInstance(i.name) in Jobs(t, s)
    ensures forall c :: c in t.retiringCoordinators ==> RemoveCoordinator(c) in Jobs(t, s)
    ensures forall c :: c in t.retiringCoordinators && c.Name() == s.leader ==> YieldLeadership(s.leader) in Jobs(t, s)
    ensures forall j :: j in Promotions(t, s) ==> j in Jobs(t, s)
  {
    var cs, ds, rc, rd := t.coordinators, t.dataInstances, t.retiringCoordinators, t.retiringDataInstances;
    var jobs := Jobs(t, s);
    forall c | c in cs ensures AddCoordinator(c) in jobs && UpdateCoordinatorBoltServer(c) in jobs {
      var k :| 0 <= k < |cs| && cs[k] == c;
      assert Adds(cs)[k] in Memberships(t) && CoordinatorUpdates(cs)[k] in Memberships(t);
    }
    forall i | i in ds ensures RegisterInstance(i) in jobs && UpdateInstanceBoltServer(i) in jobs {
      var k :| 0 <= k < |ds| && ds[k] == i;
      assert Registers(ds)[k] in Memberships(t) && InstanceUpdates(ds)[k] in Memberships(t);
    }
    forall i | i in rd ensures UnregisterInstance(i.name) in jobs {
      var k :| 0 <= k < |rd| && rd[k] == i;
      assert Unregisters(rd)[k] in Departures(t, s);
    }
    forall c | c in rc ensures RemoveCoordinator(c) in jobs && (c.Name() == s.leader ==> YieldLeadership(s.leader) in jobs) {
      var k :| 0 <= k < |rc| && rc[k] == c;
      assert Removes(rc)[k] in Departures(t, s);
      if c.Name() == s.leader { assert YieldLeadership(s.leader) in Departures(t, s); }
    }
  }

  /** A job of each kind is there for some member. */
  lemma JobsAreOnly(t: Topology, s: Situation, job: Command)
    requires job in Jobs(t, s)
    ensures job.AddCoordinator? ==> job.coordinator in t.coordinators
    ensures job.UpdateCoordinatorBoltServer? ==> job.coordinator in t.coordinators
    ensures job.RegisterInstance? ==> job.instance in t.dataInstances
    ensures job.UpdateInstanceBoltServer? ==> job.instance in t.dataInstances
    ensures job.UnregisterInstance? ==> exists i :: i in t.retiringDataInstances && i.name == job.name
    ensures job.RemoveCoordinator? ==> job.coordinator in t.retiringCoordinators
    ensures job.YieldLeadership? ==> exists c :: c in t.retiringCoordinators && c.Name() == s.leader == job.leader
    ensures job.DemoteInstance? || job.SetInstanceToMain? ==> job in Promotions(t, s)
  {
    InJobs(Memberships(t), Promotions(t, s), Departures(t, s), job);
    if job in Departures(t, s) && job.YieldLeadership? {
      var k :| 0 <= k < |t.retiringCoordinators| && t.retiringCoordinators[k].Name() == s.leader;
      assert t.retiringCoordinators[k] in t.retiringCoordinators;
    }
    if job in Departures(t, s) && job.UnregisterInstance? {
      var k :| 0 <= k < |t.retiringDataInstances| && t.retiringDataInstances[k].name == job.name;
      assert t.retiringDataInstances[k] in t.retiringDataInstances;
    }
  }

  lemma EmptyPlanNeedsNothing(t: Topology, view: seq<Instance>, lag: seq<ReplicationLag>)
    ensures var s := Situate(t, view, lag);
      PlanFor(t, view, lag) == [] <==> forall job :: job in Jobs(t, s) ==> !Needed(s, job)
  {
    var s := Situate(t, view, lag);
    SelectHolds(s, Jobs(t, s));
    var plan := PlanFor(t, view, lag);
    assert plan != [] ==> plan[0] in plan;
  }

  /** A plan is empty exactly when every declared member is registered at its declared address, a
      MAIN exists, no retiring coordinator is a member or leads, and the one retiring data instance
      still registered, if any, is a MAIN nobody can take over from. */
  lemma EmptyPlanMeans(t: Topology, view: seq<Instance>, lag: seq<ReplicationLag>)
    requires ValidTopology(t) && UniqueNames(view) && ValidRows(t, Index(view))
    ensures PlanFor(t, view, lag) == [] <==>
              && AllDeclaredInPlace(t, Index(view))
              && HasMain(Index(view))
              && NoRetiringCoordinator(t, Index(view))
              && OnlyBlockedRetiring(t, Index(view), IndexLag(lag))
  {
    var s, rows := Situate(t, view, lag), Index(view);
    SituationReads(t, view, lag);
    EmptyPlanNeedsNothing(t, view, lag);
    if PlanFor(t, view, lag) == [] {
      EmptyPlanSettles(t, s, rows, IndexLag(lag));
    }
    if && AllDeclaredInPlace(t, rows) && HasMain(rows) && NoRetiringCoordinator(t, rows)
       && OnlyBlockedRetiring(t, rows, IndexLag(lag))
    {
      SettledNeedsNothing(t, s, rows, IndexLag(lag));
    }
  }

  lemma EmptyPlanSettles(t: Topology, s: Situation, rows: Rows, lag: map<string, ReplicationLag>)
    requires ValidTopology(t) && ValidRows(t, rows) && Reads(t, rows, lag, s)
    requires forall job :: job in Jobs(t, s) ==> !Needed(s, job)
    ensures AllDeclaredInPlace(t, rows) && HasMain(rows)
    ensures NoRetiringCoordinator(t, rows) && OnlyBlockedRetiring(t, rows, lag)
  {
    DeclaredSettle(t, s);
    CoordinatorsSettle(t, s, rows, lag);
    InstancesSettle(t, s, rows, lag);
    JobsAre(t, s);
    if s.retiringMain == "" {
      assert Promotions(t, s)[0] in Jobs(t, s);
    }
  }

  lemma DeclaredSettle(t: Topology, s: Situation)
    requires forall job :: job in Jobs(t, s) ==> !Needed(s, job)
    ensures AllDeclaredInPlace(t, s.rows)
  {
    JobsAre(t, s);
    forall c | c in t.coordinators
      ensures CoordinatorRegistered(s.rows, c) && s.rows[c.Name()].boltServer == c.boltServer
    {
      assert !Needed(s, AddCoordinator(c)) && !Needed(s, UpdateCoordinatorBoltServer(c));
    }
    forall i | i in t.dataInstances
      ensures i.name in s.rows && (s.rows[i.name].boltServer == "" || s.rows[i.name].boltServer == i.boltServer)
    {
      assert !Needed(s, RegisterInstance(i)) && !Needed(s, UpdateInstanceBoltServer(i));
    }
  }

  lemma CoordinatorsSettle(t: Topology, s: Situation, rows: Rows, lag: map<string, ReplicationLag>)
    requires ValidRows(t, rows) && Reads(t, rows, lag, s)
    requires forall job :: job in Jobs(t, s) ==> !Needed(s, job)
    ensures NoRetiringCoordinator(t, rows)
  {
    JobsAre(t, s);
    forall c | c in t.retiringCoordinators ensures !CoordinatorRegistered(rows, c) && !IsLeader(rows, c.Name()) {
      assert !Needed(s, RemoveCoordinator(c));
      assert c.Name() == s.leader ==> YieldLeadership(s.leader) in Jobs(t, s);
    }
  }

  lemma InstancesSettle(t: Topology, s: Situation, rows: Rows, lag: map<string, ReplicationLag>)
    requires ValidRows(t, rows) && Reads(t, rows, lag, s)
    requires forall job :: job in Jobs(t, s) ==> !Needed(s, job)
    ensures OnlyBlockedRetiring(t, rows, lag)
  {
    JobsAre(t, s);
    if s.retiringMain != "" {
      assert Promotions(t, s)[0] in Jobs(t, s);
      assert !Needed(s, DemoteInstance(s.retiringMain));
    }
    forall i | i in t.retiringDataInstances && i.name in rows ensures Blocked(t, rows, lag, i.name) {
      assert !Needed(s, UnregisterInstance(i.name));
    }
  }

  lemma SettledNeedsNothing(t: Topology, s: Situation, rows: Rows, lag: map<string, ReplicationLag>)
    requires ValidTopology(t) && ValidRows(t, rows) && Reads(t, rows, lag, s)
    requires AllDeclaredInPlace(t, rows) && HasMain(rows)
    requires NoRetiringCoordinator(t, rows) && OnlyBlockedRetiring(t, rows, lag)
    ensures forall job :: job in Jobs(t, s) ==> !Needed(s, job)
  {
    var main :| main in rows && IsMain(rows, main);
    if s.retiringMain != "" {
      RetiresIs(t, s.retiringMain);
      assert s.retiringMain == main;
      assert Blocked(t, rows, lag, main);
    }
    forall job | job in Jobs(t, s) ensures !Needed(s, job) {
      JobsAreOnly(t, s, job);
      if job.UnregisterInstance? && job.name in rows {
        assert Blocked(t, rows, lag, job.name);
      }
    }
  }

  /** An empty plan has finished the retirement exactly when no retiring instance is MAIN; otherwise
      that blocked MAIN is the one retiring member left. */
  lemma EmptyPlanRetired(t: Topology, view: seq<Instance>, lag: seq<ReplicationLag>)
    requires ValidTopology(t) && UniqueNames(view) && ValidRows(t, Index(view))
    requires PlanFor(t, view, lag) == []
    ensures Retired(t, view) <==> forall n :: IsMain(Index(view), n) ==> !Retires(t, n)
    ensures !Retired(t, view) ==>
              exists main :: Blocked(t, Index(view), IndexLag(lag), main)
                && forall i :: i in t.retiringDataInstances && i.name in Index(view) ==> i.name == main
  {
    var rows := Index(view);
    EmptyPlanMeans(t, view, lag);
    if !Retired(t, view) {
      var i :| i in t.retiringDataInstances && i.name in rows;
      assert Blocked(t, rows, IndexLag(lag), i.name);
    }
    if main :| IsMain(rows, main) && Retires(t, main) {
      RetiresIs(t, main);
    }
  }

  /** While every declared member is in place, nothing retires and one declared instance is reported
      as MAIN, there is nothing to command whatever the health of any row and whatever the lag view
      says: a restart's failover is never raced with a promotion. */
  lemma NeverRacesAFailover(t: Topology, view: seq<Instance>, lag: seq<ReplicationLag>)
    requires ValidTopology(t) && UniqueNames(view) && ValidRows(t, Index(view))
    requires t.retiringCoordinators == [] && t.retiringDataInstances == []
    requires AllDeclaredInPlace(t, Index(view))
    ensures PlanFor(t, view, lag) == [] <==> HasMain(Index(view))
  {
    EmptyPlanMeans(t, view, lag);
  }
}
