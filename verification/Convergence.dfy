/** Planning and running again, with refusals only by the cluster's own rules, converges whoever wins
    the elections. */
module Convergence {
  import opened Text
  import opened Memgraph
  import opened Planner
  import opened Resources
  import opened Cluster
  import opened PlannerMeaning
  import opened PlannerSafety

  /** Nothing is refused but by the cluster's own rules, and an election is won by somebody who can
      win it. */
  ghost predicate Willing(env: Environment) {
    && (forall clock, rows :: env(clock, rows).outcome == Accepted)
    && (forall clock, rows :: (exists n :: Electable(rows, n)) ==> Electable(rows, env(clock, rows).winner))
  }

  ghost function SomeElectable(rows: Rows): string {
    if exists n :: Electable(rows, n) then var n :| Electable(rows, n); n else ""
  }

  /** An environment that refuses nothing. */
  ghost function Granting(): Environment { (clock, rows) => Answer(Accepted, SomeElectable(rows)) }

  lemma GrantingIsWilling()
    ensures Willing(Granting())
  {
  }

  /* ---- Memberships ---- */

  ghost predicate IsMembershipOf(t: Topology, job: Command) {
    match job
    case AddCoordinator(c) => c in t.coordinators
    case UpdateCoordinatorBoltServer(c) => c in t.coordinators
    case RegisterInstance(i) => i in t.dataInstances
    case UpdateInstanceBoltServer(i) => i in t.dataInstances
    case _ => false
  }

  /** Whether a membership job is still to do on the rows as they are now. */
  ghost predicate Undone(rows: Rows, job: Command)
    requires IsMembership(job)
  {
    match job
    case AddCoordinator(c) => !CoordinatorRegistered(rows, c)
    case UpdateCoordinatorBoltServer(c) => Announced(rows, c.Name()) && rows[c.Name()].boltServer != c.boltServer
    case RegisterInstance(i) => i.name !in rows
    case UpdateInstanceBoltServer(i) => Announced(rows, i.name) && rows[i.name].boltServer != i.boltServer
  }

  function Subject(job: Command): string {
    match job
    case AddCoordinator(c) => c.Name()
    case UpdateCoordinatorBoltServer(c) => c.Name()
    case RegisterInstance(i) => i.name
    case UpdateInstanceBoltServer(i) => i.name
    case UnregisterInstance(name) => name
    case RemoveCoordinator(c) => c.Name()
    case _ => ""
  }

  lemma SameSubject(t: Topology, j: Command, k: Command)
    requires ValidTopology(t) && IsMembershipOf(t, j) && IsMembershipOf(t, k) && Subject(j) == Subject(k)
    ensures (j.AddCoordinator? || j.UpdateCoordinatorBoltServer?) <==> (k.AddCoordinator? || k.UpdateCoordinatorBoltServer?)
    ensures j.AddCoordinator? || j.UpdateCoordinatorBoltServer? ==> j.coordinator == k.coordinator
    ensures j.RegisterInstance? || j.UpdateInstanceBoltServer? ==> j.instance == k.instance
  {
    var cs, ds := AllCoordinators(t), AllInstances(t);
    assert forall c :: c in t.coordinators ==> c in cs;
    assert forall i :: i in t.dataInstances ==> i in ds;
    if (j.AddCoordinator? || j.UpdateCoordinatorBoltServer?) && (k.AddCoordinator? || k.UpdateCoordinatorBoltServer?) {
      var m :| 0 <= m < |cs| && cs[m] == j.coordinator;
      var n :| 0 <= n < |cs| && cs[n] == k.coordinator;
    }
    if (j.RegisterInstance? || j.UpdateInstanceBoltServer?) && (k.RegisterInstance? || k.UpdateInstanceBoltServer?) {
      var m :| 0 <= m < |ds| && ds[m] == j.instance;
      var n :| 0 <= n < |ds| && ds[n] == k.instance;
    }
  }

  /** What one membership job does: its own work, nothing of any other's, and nothing outside the
      declared members. */
  ghost predicate Did(t: Topology, rows: Rows, rows': Rows) {
    && ValidRows(t, rows') && SameMains(rows, rows') && SameLeaders(rows, rows')
    && (forall n :: n in rows ==> n in rows')
    && (forall n :: n in rows' && n !in rows ==> (exists c :: c in t.coordinators && c.Name() == n) || Names(t.dataInstances, n))
    && (forall c :: c in t.retiringCoordinators && c.Name() in rows' ==> c.Name() in rows && rows'[c.Name()] == rows[c.Name()])
    && (forall n :: n in rows && n in rows' ==> rows'[n].role == rows[n].role && rows'[n].health == rows[n].health)
  }

  lemma MembershipDone(t: Topology, env: Environment, rows: Rows, clock: nat, job: Command)
    requires ValidTopology(t) && ValidRows(t, rows) && Willing(env)
    requires IsMembershipOf(t, job) && Undone(rows, job)
    ensures var e := Run(env, rows, clock, job);
      e.ok && !Undone(e.rows, job) && Subject(job) in e.rows
      && (forall n :: n != Subject(job) ==> (n in rows <==> n in e.rows) && (n in rows ==> e.rows[n] == rows[n]))
      && (Subject(job) in rows ==> e.rows[Subject(job)].role == rows[Subject(job)].role)
      && (Subject(job) in rows ==> e.rows[Subject(job)].health == rows[Subject(job)].health)
      && (Subject(job) !in rows ==> e.rows[Subject(job)].role == if job.AddCoordinator? then "follower" else "replica")
      && e.rows[Subject(job)].name == Subject(job)
      && e.rows[Subject(job)].boltServer == (if job.AddCoordinator? || job.UpdateCoordinatorBoltServer? then job.coordinator.boltServer
                                             else job.instance.boltServer)
  {
    var e := Run(env, rows, clock, job);
    assert env(clock, rows).outcome == Accepted;
  }

  lemma MembershipStep(t: Topology, env: Environment, rows: Rows, clock: nat, job: Command)
    requires ValidTopology(t) && ValidRows(t, rows) && Willing(env)
    requires IsMembershipOf(t, job) && Undone(rows, job)
    ensures var e := Run(env, rows, clock, job);
      e.ok && !Undone(e.rows, job) && Did(t, rows, e.rows)
      && forall k :: IsMembershipOf(t, k) && k != job ==> (Undone(e.rows, k) <==> Undone(rows, k))
  {
    var e := Run(env, rows, clock, job);
    MembershipDone(t, env, rows, clock, job);
    MembershipRun(env, rows, clock, job);
    MembershipKeepsValid(t, rows, e.rows, job);
    RetiringUntouched(t, rows, e.rows, job);
    forall k | IsMembershipOf(t, k) && k != job ensures Undone(e.rows, k) <==> Undone(rows, k) {
      if Subject(k) == Subject(job) {
        SameSubject(t, job, k);
        assert forall c :: c in t.coordinators ==> c in AllCoordinators(t);
        assert forall i :: i in t.dataInstances ==> i in AllInstances(t);
      }
    }
    if Subject(job) !in rows {
      assert job.AddCoordinator? ==> job.coordinator in t.coordinators && job.coordinator.Name() == Subject(job);
      assert job.RegisterInstance? ==> job.instance in t.dataInstances && job.instance.name == Subject(job);
    }
  }

  /** Only the row of one declared member changed, and it plays the part its name says. */
  ghost predicate OneRow(t: Topology, rows: Rows, rows': Rows, job: Command) {
    && IsMembershipOf(t, job) && Subject(job) in rows' && rows'[Subject(job)].name == Subject(job)
    && rows'[Subject(job)].boltServer != ""
    && (forall n :: n != Subject(job) ==> (n in rows <==> n in rows') && (n in rows ==> rows'[n] == rows[n]))
    && (Subject(job) in rows ==> rows'[Subject(job)].role == rows[Subject(job)].role)
    && (Subject(job) !in rows ==> rows'[Subject(job)].role == if job.AddCoordinator? then "follower" else "replica")
    && (Subject(job) !in rows ==> job.AddCoordinator? || job.RegisterInstance?)
  }

  lemma MembershipKeepsValid(t: Topology, rows: Rows, rows': Rows, job: Command)
    requires ValidTopology(t) && ValidRows(t, rows) && SameMains(rows, rows') && SameLeaders(rows, rows')
    requires OneRow(t, rows, rows', job)
    ensures ValidRows(t, rows')
  {
    assert forall c :: c in t.coordinators ==> c in AllCoordinators(t);
    assert forall i :: i in t.dataInstances ==> i in AllInstances(t);
    forall c | c in AllCoordinators(t) && c.Name() in rows'
      ensures IsLeader(rows', c.Name()) || Electable(rows', c.Name())
      ensures rows'[c.Name()].boltServer == "" ==> IsLeader(rows', c.Name())
    {
      if c.Name() == Subject(job) && c.Name() !in rows {
        assert job.AddCoordinator?;
      }
    }
    forall i | i in AllInstances(t) && i.name in rows' ensures !IsLeader(rows', i.name) && !Electable(rows', i.name) {
      if i.name == Subject(job) && i.name !in rows {
        assert job.RegisterInstance?;
      }
    }
  }

  lemma RetiringUntouched(t: Topology, rows: Rows, rows': Rows, job: Command)
    requires ValidTopology(t) && OneRow(t, rows, rows', job)
    ensures forall c :: c in t.retiringCoordinators ==> c.Name() != Subject(job)
  {
    var cs := AllCoordinators(t);
    forall c | c in t.retiringCoordinators ensures c.Name() != Subject(job) {
      var k :| 0 <= k < |t.retiringCoordinators| && t.retiringCoordinators[k] == c;
      assert cs[|t.coordinators| + k] == c;
      if job.AddCoordinator? || job.UpdateCoordinatorBoltServer? {
        var j :| 0 <= j < |t.coordinators| && t.coordinators[j] == job.coordinator;
        assert cs[j] == job.coordinator;
      } else {
        assert c in cs && job.instance in AllInstances(t);
      }
    }
  }

  lemma DidThenDid(t: Topology, a: Rows, b: Rows, c: Rows)
    requires Did(t, a, b) && Did(t, b, c)
    ensures Did(t, a, c)
  {
  }

  ghost predicate Distinct(jobs: seq<Command>) {
    forall i, j :: 0 <= i < j < |jobs| ==> jobs[i] != jobs[j]
  }

  /** Membership jobs run in order each do exactly their own work. */
  lemma SelectFirst(s: Situation, jobs: seq<Command>)
    requires jobs != []
    ensures Select(s, jobs) == (if Needed(s, jobs[0]) then [jobs[0]] else []) + Select(s, jobs[1..])
  {
    assert [jobs[0]] + jobs[1..] == jobs;
    SelectConcat(s, [jobs[0]], jobs[1..]);
    assert [jobs[0]][..0] == [];
    assert Select(s, [jobs[0]]) == Select(s, []) + if Needed(s, jobs[0]) then [jobs[0]] else [];
  }

  lemma FirstRuns(env: Environment, rows: Rows, clock: nat, s: Situation, jobs: seq<Command>)
    requires jobs != []
    ensures var first := Run(env, rows, clock, jobs[0]);
      Needed(s, jobs[0]) && first.ok ==>
        var all, rest := RunAll(env, rows, clock, Select(s, jobs)), RunAll(env, first.rows, first.clock, Select(s, jobs[1..]));
        all.rows == rest.rows && all.ok == rest.ok
    ensures !Needed(s, jobs[0]) ==> Select(s, jobs) == Select(s, jobs[1..])
  {
    SelectFirst(s, jobs);
    if Needed(s, jobs[0]) {
      assert Select(s, jobs)[1..] == Select(s, jobs[1..]);
    }
  }

  /** The jobs are about members, each once, and needed exactly when they are undone. */
  ghost predicate Matches(t: Topology, s: Situation, rows: Rows, jobs: seq<Command>) {
    Distinct(jobs) && forall j :: j in jobs ==> IsMembershipOf(t, j) && (Needed(s, j) <==> Undone(rows, j))
  }

  lemma MatchesRest(t: Topology, env: Environment, rows: Rows, clock: nat, s: Situation, jobs: seq<Command>)
    requires ValidTopology(t) && ValidRows(t, rows) && Willing(env) && Matches(t, s, rows, jobs) && jobs != []
    ensures IsMembershipOf(t, jobs[0]) && jobs[0] !in jobs[1..]
    ensures var first := Run(env, rows, clock, jobs[0]);
      if Needed(s, jobs[0]) then
        && first.ok && Did(t, rows, first.rows) && Matches(t, s, first.rows, jobs[1..]) && !Undone(first.rows, jobs[0])
        && forall k :: IsMembershipOf(t, k) && k != jobs[0] ==> (Undone(first.rows, k) <==> Undone(rows, k))
      else Matches(t, s, rows, jobs[1..]) && !Undone(rows, jobs[0])
  {
    assert jobs[0] in jobs;
    forall j | j in jobs[1..] ensures j in jobs && j != jobs[0] {}
    if Needed(s, jobs[0]) {
      MembershipStep(t, env, rows, clock, jobs[0]);
    }
  }

  /** A job that is not among those run is left as it was. */
  lemma {:induction false} MembershipsKeep(t: Topology, env: Environment, rows: Rows, clock: nat, s: Situation,
                                           jobs: seq<Command>, other: Command)
    requires ValidTopology(t) && ValidRows(t, rows) && Willing(env) && Matches(t, s, rows, jobs)
    requires IsMembershipOf(t, other) && other !in jobs
    ensures Undone(RunAll(env, rows, clock, Select(s, jobs)).rows, other) <==> Undone(rows, other)
    decreases |jobs|
  {
    if jobs != [] {
      var first := Run(env, rows, clock, jobs[0]);
      FirstRuns(env, rows, clock, s, jobs);
      MatchesRest(t, env, rows, clock, s, jobs);
      if Needed(s, jobs[0]) {
        MembershipsKeep(t, env, first.rows, first.clock, s, jobs[1..], other);
      } else {
        MembershipsKeep(t, env, rows, clock, s, jobs[1..], other);
      }
    }
  }

  lemma {:induction false} MembershipsRun(t: Topology, env: Environment, rows: Rows, clock: nat, s: Situation, jobs: seq<Command>)
    requires ValidTopology(t) && ValidRows(t, rows) && Willing(env) && Matches(t, s, rows, jobs)
    ensures var e := RunAll(env, rows, clock, Select(s, jobs));
      e.ok && Did(t, rows, e.rows) && forall k :: k in jobs ==> IsMembershipOf(t, k) && !Undone(e.rows, k)
    decreases |jobs|
  {
    if jobs != [] {
      var first := Run(env, rows, clock, jobs[0]);
      FirstRuns(env, rows, clock, s, jobs);
      MatchesRest(t, env, rows, clock, s, jobs);
      if Needed(s, jobs[0]) {
        MembershipsRun(t, env, first.rows, first.clock, s, jobs[1..]);
        MembershipsKeep(t, env, first.rows, first.clock, s, jobs[1..], jobs[0]);
        DidThenDid(t, rows, first.rows, RunAll(env, rows, clock, Select(s, jobs)).rows);
      } else {
        MembershipsRun(t, env, rows, clock, s, jobs[1..]);
        MembershipsKeep(t, env, rows, clock, s, jobs[1..], jobs[0]);
      }
      assert forall k :: k in jobs ==> k == jobs[0] || k in jobs[1..];
    }
  }

  lemma DistinctConcat(a: seq<Command>, b: seq<Command>)
    requires Distinct(a) && Distinct(b) && forall j :: j in a ==> j !in b
    ensures Distinct(a + b)
  {
    forall i, j | 0 <= i < j < |a + b| ensures (a + b)[i] != (a + b)[j] {
      if i < |a| && |a| <= j { assert a[i] in a && b[j - |a|] in b; }
    }
  }

  lemma KindsDistinct(t: Topology)
    requires ValidTopology(t)
    ensures Distinct(Adds(t.coordinators)) && Distinct(CoordinatorUpdates(t.coordinators))
    ensures Distinct(Registers(t.dataInstances)) && Distinct(InstanceUpdates(t.dataInstances))
  {
    assert forall k :: 0 <= k < |t.coordinators| ==> t.coordinators[k] == AllCoordinators(t)[k];
    assert forall k :: 0 <= k < |t.dataInstances| ==> t.dataInstances[k] == AllInstances(t)[k];
  }

  lemma MembershipsDistinct(t: Topology)
    requires ValidTopology(t)
    ensures Distinct(Memberships(t))
    ensures forall j :: j in Memberships(t) ==> IsMembershipOf(t, j)
  {
    KindsDistinct(t);
    var a, r, u, v := Adds(t.coordinators), Registers(t.dataInstances),
        CoordinatorUpdates(t.coordinators), InstanceUpdates(t.dataInstances);
    DistinctConcat(a, r);
    DistinctConcat(a + r, u);
    DistinctConcat(a + r + u, v);
  }

  /** The first part of any plan puts every declared member in place. */
  lemma AllMembershipsRun(t: Topology, env: Environment, rows: Rows, clock: nat, s: Situation)
    requires ValidTopology(t) && ValidRows(t, rows) && Willing(env) && s.rows == rows
    ensures var e := RunAll(env, rows, clock, Select(s, Memberships(t)));
      e.ok && Did(t, rows, e.rows) && AllDeclaredInPlace(t, e.rows)
  {
    MembershipsDistinct(t);
    MembershipsRun(t, env, rows, clock, s, Memberships(t));
    var e := RunAll(env, rows, clock, Select(s, Memberships(t)));
    forall c | c in t.coordinators ensures CoordinatorRegistered(e.rows, c) && e.rows[c.Name()].boltServer == c.boltServer {
      var k :| 0 <= k < |t.coordinators| && t.coordinators[k] == c;
      assert Adds(t.coordinators)[k] in Memberships(t) && CoordinatorUpdates(t.coordinators)[k] in Memberships(t);
      assert !Undone(e.rows, AddCoordinator(c)) && !Undone(e.rows, UpdateCoordinatorBoltServer(c));
    }
    forall i | i in t.dataInstances
      ensures i.name in e.rows && (e.rows[i.name].boltServer == "" || e.rows[i.name].boltServer == i.boltServer)
    {
      var k :| 0 <= k < |t.dataInstances| && t.dataInstances[k] == i;
      assert Registers(t.dataInstances)[k] in Memberships(t) && InstanceUpdates(t.dataInstances)[k] in Memberships(t);
      assert !Undone(e.rows, RegisterInstance(i)) && !Undone(e.rows, UpdateInstanceBoltServer(i));
    }
  }

  /* ---- The promotion ---- */

  /** A change of roles among data instances, and of nothing else. */
  ghost predicate OnlyDataRoles(t: Topology, rows: Rows, rows': Rows) {
    && rows'.Keys == rows.Keys && SameLeaders(rows, rows')
    && (forall n :: n in rows ==> rows'[n].name == rows[n].name && rows'[n].boltServer == rows[n].boltServer)
    && (forall n :: n in rows ==> rows'[n].role == rows[n].role || Names(AllInstances(t), n))
    && (forall n :: n in rows && rows'[n].role != rows[n].role ==> !Electable(rows', n))
  }

  lemma DataRolesKeepValid(t: Topology, rows: Rows, rows': Rows)
    requires ValidTopology(t) && ValidRows(t, rows) && OnlyDataRoles(t, rows, rows') && AtMostOneMain(rows')
    ensures ValidRows(t, rows')
  {
    forall c | c in AllCoordinators(t) && c.Name() in rows' ensures rows'[c.Name()].role == rows[c.Name()].role {
      assert !Names(AllInstances(t), c.Name());
    }
    var l :| IsLeader(rows, l);
    assert IsLeader(rows', l);
  }

  lemma AllInPlaceStays(t: Topology, rows: Rows, rows': Rows)
    requires OnlyDataRoles(t, rows, rows') && AllDeclaredInPlace(t, rows)
    ensures AllDeclaredInPlace(t, rows')
  {
  }

  lemma PromoteAccepted(t: Topology, env: Environment, rows: Rows, clock: nat, candidates: seq<string>, restore: string)
    requires Willing(env) && !HasMain(rows) && candidates != [] && candidates[0] in rows
    requires Names(AllInstances(t), candidates[0]) && !IsLeader(rows, candidates[0])
    ensures var e := RunPromotion(env, rows, clock, candidates, restore);
      e.ok && HasMain(e.rows) && OnlyDataRoles(t, rows, e.rows)
  {
    var e := RunPromotion(env, rows, clock, candidates, restore);
    assert env(clock, rows).outcome == Accepted;
    assert IsMain(e.rows, candidates[0]);
  }

  lemma DemoteAccepted(t: Topology, env: Environment, rows: Rows, clock: nat, name: string)
    requires Willing(env) && IsMain(rows, name) && Names(AllInstances(t), name)
    ensures var e := Issue(env, rows, clock, Demote(name));
      e.ok && OnlyDataRoles(t, rows, e.rows)
  {
    assert env(clock, rows).outcome == Accepted;
  }

  /** After the promotion part there is a MAIN, and a retiring one only if nobody could take over. */
  lemma PromotionsAccepted(t: Topology, observed: Rows, lag: map<string, ReplicationLag>, s: Situation,
                           env: Environment, rows: Rows, clock: nat)
    requires ValidTopology(t) && ValidRows(t, observed) && Reads(t, observed, lag, s) && Willing(env)
    requires Did(t, observed, rows) && AllDeclaredInPlace(t, rows)
    ensures var e := RunAll(env, rows, clock, Select(s, Promotions(t, s)));
      && e.ok && OnlyDataRoles(t, rows, e.rows) && AtMostOneMain(e.rows) && HasMain(e.rows)
      && (forall n :: IsMain(e.rows, n) && Retires(t, n) ==> n == s.retiringMain && !s.Handover())
      && (s.retiringMain != "" && !s.Handover() ==> e.rows == rows)
  {
    PromotionsRun(t, observed, lag, s, env, rows, clock);
    PromotionsSelected(t, s);
    if s.Handover() {
      HandoverAccepted(t, observed, lag, s, env, rows, clock);
    } else if s.retiringMain == "" && !s.stayingMain {
      BootstrapAccepted(t, observed, lag, s, env, rows, clock);
    } else {
      assert Select(s, Promotions(t, s)) == [];
      StillMain(t, observed, lag, s, rows);
    }
  }

  lemma StillMain(t: Topology, observed: Rows, lag: map<string, ReplicationLag>, s: Situation, rows: Rows)
    requires Reads(t, observed, lag, s) && SameMains(observed, rows)
    requires s.retiringMain != "" || s.stayingMain
    ensures HasMain(rows)
  {
    SameMainsHave(observed, rows);
    if s.retiringMain != "" {
      assert IsMain(observed, s.retiringMain);
    } else {
      var n :| IsMain(observed, n) && !Retires(t, n);
    }
  }

  lemma BootstrapAccepted(t: Topology, observed: Rows, lag: map<string, ReplicationLag>, s: Situation,
                          env: Environment, rows: Rows, clock: nat)
    requires ValidTopology(t) && ValidRows(t, observed) && Reads(t, observed, lag, s) && Willing(env)
    requires Did(t, observed, rows) && AllDeclaredInPlace(t, rows)
    requires s.retiringMain == "" && !s.stayingMain
    ensures var e := RunAll(env, rows, clock, Select(s, Promotions(t, s)));
      e.ok && OnlyDataRoles(t, rows, e.rows) && HasMain(e.rows)
  {
    var target := PromotionTarget(t.dataInstances, s.rows);
    NobodyIsMain(t, observed, lag, s, rows);
    TargetInPlace(t, observed, rows, s.rows);
    PromotionsSelected(t, s);
    BootstrapWorks(t, env, rows, clock, target);
    assert Select(s, Promotions(t, s)) == [SetInstanceToMain([target], "")];
  }

  lemma TargetInPlace(t: Topology, observed: Rows, rows: Rows, seen: Rows)
    requires ValidTopology(t) && ValidRows(t, observed) && SameLeaders(observed, rows) && AllDeclaredInPlace(t, rows)
    ensures var target := PromotionTarget(t.dataInstances, seen);
      target in rows && Names(AllInstances(t), target) && !IsLeader(rows, target)
  {
    var target := PromotionTarget(t.dataInstances, seen);
    TargetIsDeclared(t.dataInstances, seen);
    InstancesNeverLead(t, observed, rows, target);
    NamesOfAll(t, target);
    var i :| i in t.dataInstances && i.name == target;
  }

  lemma BootstrapWorks(t: Topology, env: Environment, rows: Rows, clock: nat, target: string)
    requires Willing(env) && !HasMain(rows) && target in rows
    requires Names(AllInstances(t), target) && !IsLeader(rows, target)
    ensures var e := RunAll(env, rows, clock, [SetInstanceToMain([target], "")]);
      e.ok && OnlyDataRoles(t, rows, e.rows) && HasMain(e.rows)
  {
    PromoteAccepted(t, env, rows, clock, [target], "");
    OneCommand(env, rows, clock, SetInstanceToMain([target], ""));
  }

  lemma NobodyIsMain(t: Topology, observed: Rows, lag: map<string, ReplicationLag>, s: Situation, rows: Rows)
    requires Reads(t, observed, lag, s) && SameMains(observed, rows)
    requires s.retiringMain == "" && !s.stayingMain
    ensures !HasMain(rows)
  {
    SameMainsHave(observed, rows);
    assert forall n :: n in observed && IsMain(observed, n) ==> !Retires(t, n);
  }

  lemma OneCommand(env: Environment, rows: Rows, clock: nat, c: Command)
    ensures var e, run := RunAll(env, rows, clock, [c]), Run(env, rows, clock, c);
      e.ok == run.ok && e.rows == run.rows && e.clock == run.clock
  {
    assert [c][1..] == [];
  }

  lemma TwoCommands(env: Environment, rows: Rows, clock: nat, c: Command, d: Command)
    requires Run(env, rows, clock, c).ok
    ensures var first := Run(env, rows, clock, c);
      var e, second := RunAll(env, rows, clock, [c, d]), Run(env, first.rows, first.clock, d);
      e.ok == second.ok && e.rows == second.rows
  {
    assert [c, d][1..] == [d];
    var first := Run(env, rows, clock, c);
    OneCommand(env, first.rows, first.clock, d);
  }

  lemma NamesOfAll(t: Topology, name: string)
    requires Names(t.dataInstances, name) || Retires(t, name)
    ensures Names(AllInstances(t), name)
  {
    RetiresIs(t, name);
    if Names(t.dataInstances, name) {
      var i :| i in t.dataInstances && i.name == name;
      assert i in AllInstances(t);
    } else {
      var i :| i in t.retiringDataInstances && i.name == name;
      assert i in AllInstances(t);
    }
  }

  lemma HandoverAccepted(t: Topology, observed: Rows, lag: map<string, ReplicationLag>, s: Situation,
                         env: Environment, rows: Rows, clock: nat)
    requires ValidTopology(t) && ValidRows(t, observed) && Reads(t, observed, lag, s) && Willing(env)
    requires Did(t, observed, rows) && AtMostOneMain(rows) && s.Handover()
    ensures var e := RunAll(env, rows, clock, [DemoteInstance(s.retiringMain), SetInstanceToMain(s.successors, s.retiringMain)]);
      e.ok && OnlyDataRoles(t, rows, e.rows) && HasMain(e.rows)
  {
    NamesOfAll(t, s.retiringMain);
    var first := s.successors[0];
    assert first in s.successors;
    assert Candidate(t, observed, lag, first);
    InstancesNeverLead(t, observed, rows, first);
    NamesOfAll(t, first);
    assert IsMain(observed, s.retiringMain);
    HandoverWorks(t, env, rows, clock, s.retiringMain, s.successors);
  }

  lemma HandoverWorks(t: Topology, env: Environment, rows: Rows, clock: nat, main: string, successors: seq<string>)
    requires Willing(env) && AtMostOneMain(rows) && IsMain(rows, main) && Names(AllInstances(t), main)
    requires successors != [] && successors[0] in rows && Names(AllInstances(t), successors[0])
    requires !IsLeader(rows, successors[0])
    ensures var e := RunAll(env, rows, clock, [DemoteInstance(main), SetInstanceToMain(successors, main)]);
      e.ok && OnlyDataRoles(t, rows, e.rows) && HasMain(e.rows)
  {
    DemotionIssued(env, rows, clock, main);
    DemoteAccepted(t, env, rows, clock, main);
    var demoted := Issue(env, rows, clock, Demote(main));
    PromoteAccepted(t, env, demoted.rows, demoted.clock, successors, main);
    var promoted := RunPromotion(env, demoted.rows, demoted.clock, successors, main);
    DataRolesTwice(t, rows, demoted.rows, promoted.rows);
    TwoCommands(env, rows, clock, DemoteInstance(main), SetInstanceToMain(successors, main));
  }

  lemma DataRolesTwice(t: Topology, a: Rows, b: Rows, c: Rows)
    requires OnlyDataRoles(t, a, b) && OnlyDataRoles(t, b, c)
    ensures OnlyDataRoles(t, a, c)
  {
    forall n | n in a && c[n].role != a[n].role ensures !Electable(c, n) {
      if c[n].role == b[n].role {
        assert !Electable(b, n);
      }
    }
  }

  /* ---- The departures ---- */

  ghost predicate Leaves(rows: Rows, c: Command) {
    Departs(rows, c) && Subject(c) in rows
  }

  ghost predicate DistinctSubjects(commands: seq<Command>) {
    forall i, j :: 0 <= i < j < |commands| ==> Subject(commands[i]) != Subject(commands[j])
  }

  function Subjects(commands: seq<Command>): set<string> { set c | c in commands :: Subject(c) }

  /** Departures remove exactly the members they are aimed at. */
  lemma SubjectsSplit(commands: seq<Command>)
    requires commands != []
    ensures Subjects(commands) == {Subject(commands[0])} + Subjects(commands[1..])
  {
    assert commands == [commands[0]] + commands[1..];
  }

  lemma {:induction false} DeparturesAccepted(env: Environment, rows: Rows, clock: nat, commands: seq<Command>)
    requires Willing(env) && DistinctSubjects(commands) && forall c :: c in commands ==> Leaves(rows, c)
    ensures var e := RunAll(env, rows, clock, commands);
      e.ok && e.rows == rows - Subjects(commands)
    decreases |commands|
  {
    var e := RunAll(env, rows, clock, commands);
    if commands == [] {
      assert rows - Subjects(commands) == rows;
    } else {
      assert Leaves(rows, commands[0]) && env(clock, rows).outcome == Accepted;
      var first := Run(env, rows, clock, commands[0]);
      assert first.ok && first.rows == rows - {Subject(commands[0])};
      forall c | c in commands[1..] ensures Leaves(first.rows, c) {
        var k :| 0 <= k < |commands[1..]| && commands[1..][k] == c;
        assert commands[k + 1] == c && Leaves(rows, c);
      }
      DeparturesAccepted(env, first.rows, first.clock, commands[1..]);
      SubjectsSplit(commands);
      assert rows - Subjects(commands) == first.rows - Subjects(commands[1..]);
    }
  }

  lemma {:induction false} SelectKeepsDistinct(s: Situation, jobs: seq<Command>)
    requires DistinctSubjects(jobs)
    ensures DistinctSubjects(Select(s, jobs))
  {
    if jobs != [] {
      var shorter, last := jobs[..|jobs| - 1], jobs[|jobs| - 1];
      SelectKeepsDistinct(s, shorter);
      SelectHolds(s, shorter);
      var kept := Select(s, shorter);
      forall i | 0 <= i < |kept| ensures Subject(kept[i]) != Subject(last) {
        assert kept[i] in shorter;
        var k :| 0 <= k < |shorter| && shorter[k] == kept[i];
        assert jobs[k] == kept[i];
      }
    }
  }

  lemma DepartingSubjectsDistinct(t: Topology)
    requires ValidTopology(t)
    ensures DistinctSubjects(Unregisters(t.retiringDataInstances) + Removes(t.retiringCoordinators))
  {
    var ds, cs := t.retiringDataInstances, t.retiringCoordinators;
    var a, b := Unregisters(ds), Removes(cs);
    TailDistinct(t);
    forall i, j | 0 <= i < |a| && 0 <= j < |b| ensures Subject(a[i]) != Subject(b[j]) {
      assert ds[i] in AllInstances(t) && cs[j] in AllCoordinators(t);
    }
    DistinctSubjectsConcat(a, b);
  }

  lemma TailDistinct(t: Topology)
    requires ValidTopology(t)
    ensures DistinctSubjects(Unregisters(t.retiringDataInstances))
    ensures DistinctSubjects(Removes(t.retiringCoordinators))
  {
    var ds, cs := t.retiringDataInstances, t.retiringCoordinators;
    var nd, nc := |t.dataInstances|, |t.coordinators|;
    forall i, j | 0 <= i < j < |ds| ensures ds[i].name != ds[j].name {
      assert ds[i] == AllInstances(t)[nd + i] && ds[j] == AllInstances(t)[nd + j];
    }
    forall i, j | 0 <= i < j < |cs| ensures cs[i].Name() != cs[j].Name() {
      assert cs[i] == AllCoordinators(t)[nc + i] && cs[j] == AllCoordinators(t)[nc + j];
    }
  }

  lemma DistinctSubjectsConcat(a: seq<Command>, b: seq<Command>)
    requires DistinctSubjects(a) && DistinctSubjects(b)
    requires forall i, j :: 0 <= i < |a| && 0 <= j < |b| ==> Subject(a[i]) != Subject(b[j])
    ensures DistinctSubjects(a + b)
  {
    forall i, j | 0 <= i < j < |a + b| ensures Subject((a + b)[i]) != Subject((a + b)[j]) {
      if i < |a| && |a| <= j { assert Subject(a[i]) != Subject(b[j - |a|]); }
    }
  }

  /* ---- One whole pass ---- */

  /** What running a plan leaves: every declared member in place and a MAIN; of the retiring data
      instances at most a MAIN nobody could take over from; of the retiring coordinators at most the
      one that led, which leads no more. */
  ghost predicate Advanced(t: Topology, s: Situation, rows: Rows) {
    && ValidRows(t, rows) && AllDeclaredInPlace(t, rows) && HasMain(rows)
    && (s.retiringMain != "" && !s.Handover() ==> IsMain(rows, s.retiringMain))
    && (forall i :: i in t.retiringDataInstances && i.name in rows ==>
          i.name == s.retiringMain && !s.Handover() && IsMain(rows, i.name))
    && (forall c :: c in t.retiringCoordinators ==> !IsLeader(rows, c.Name()))
    && (forall c :: c in t.retiringCoordinators && CoordinatorRegistered(rows, c) ==> c.Name() == s.leader)
  }

  /** Between the promotion part and the departures. */
  ghost predicate Ready(t: Topology, s: Situation, rows: Rows) {
    && ValidRows(t, rows) && AllDeclaredInPlace(t, rows) && HasMain(rows) && IsLeader(rows, s.leader)
    && (forall n :: IsMain(rows, n) && Retires(t, n) ==> n == s.retiringMain && !s.Handover())
    && (s.retiringMain != "" && !s.Handover() ==> IsMain(rows, s.retiringMain))
    && (forall i :: i in t.retiringDataInstances && i.name in s.rows ==> i.name in rows)
    && (forall i :: i in t.retiringDataInstances && i.name in rows ==> i.name in s.rows)
    && (forall c :: c in t.retiringCoordinators ==> (c.Name() in rows <==> c.Name() in s.rows))
    && (forall c :: c in t.retiringCoordinators && c.Name() in rows ==> rows[c.Name()].boltServer == s.rows[c.Name()].boltServer)
  }

  lemma BecomesReady(t: Topology, rows: Rows, lag: map<string, ReplicationLag>, s: Situation, env: Environment)
    requires ValidTopology(t) && ValidRows(t, rows) && Reads(t, rows, lag, s) && Willing(env)
    ensures var joined := RunAll(env, rows, 0, Select(s, Memberships(t)));
      var moved := RunAll(env, joined.rows, joined.clock, Select(s, Promotions(t, s)));
      joined.ok && moved.ok && Ready(t, s, moved.rows)
  {
    AllMembershipsRun(t, env, rows, 0, s);
    var joined := RunAll(env, rows, 0, Select(s, Memberships(t)));
    PromotionsAccepted(t, rows, lag, s, env, joined.rows, joined.clock);
    var moved := RunAll(env, joined.rows, joined.clock, Select(s, Promotions(t, s)));
    DataRolesKeepValid(t, joined.rows, moved.rows);
    AllInPlaceStays(t, joined.rows, moved.rows);
    NoRetiringJoined(t, rows, joined.rows);
    assert IsLeader(joined.rows, s.leader);
    if s.retiringMain != "" && !s.Handover() {
      assert IsMain(rows, s.retiringMain);
    }
  }

  lemma NoRetiringJoined(t: Topology, rows: Rows, rows': Rows)
    requires ValidTopology(t) && ValidRows(t, rows) && Did(t, rows, rows')
    ensures forall i :: i in t.retiringDataInstances ==> (i.name in rows' <==> i.name in rows)
  {
    forall i | i in t.retiringDataInstances && i.name in rows' ensures i.name in rows {
      assert i in AllInstances(t) && forall c :: c in t.coordinators ==> c in AllCoordinators(t);
      RetiresIs(t, i.name);
      if Names(t.dataInstances, i.name) {
        DeclaredNeverRetires(t, i.name);
      }
    }
  }

  function Leaving(t: Topology, s: Situation): seq<Command> {
    Select(s, Unregisters(t.retiringDataInstances)) + Select(s, Removes(t.retiringCoordinators))
  }

  lemma LeavingDistinct(t: Topology, s: Situation)
    requires ValidTopology(t)
    ensures DistinctSubjects(Leaving(t, s))
  {
    DepartingSubjectsDistinct(t);
    SelectConcat(s, Unregisters(t.retiringDataInstances), Removes(t.retiringCoordinators));
    SelectKeepsDistinct(s, Unregisters(t.retiringDataInstances) + Removes(t.retiringCoordinators));
  }

  ghost predicate MustUnregister(t: Topology, s: Situation, name: string) {
    Retires(t, name) && Needed(s, UnregisterInstance(name))
  }

  ghost predicate MustRemove(t: Topology, s: Situation, name: string) {
    exists c :: c in t.retiringCoordinators && c.Name() == name && Needed(s, RemoveCoordinator(c))
  }

  lemma LeavingAre(t: Topology, s: Situation)
    ensures forall n :: n in Subjects(Leaving(t, s)) <==> MustUnregister(t, s, n) || MustRemove(t, s, n)
  {
    forall n ensures n in Subjects(Leaving(t, s)) <==> MustUnregister(t, s, n) || MustRemove(t, s, n) {
      LeavingIncludes(t, s, n);
      LeavingOnly(t, s, n);
    }
  }

  lemma LeavingIncludes(t: Topology, s: Situation, n: string)
    ensures MustUnregister(t, s, n) || MustRemove(t, s, n) ==> n in Subjects(Leaving(t, s))
  {
    var ds, cs := t.retiringDataInstances, t.retiringCoordinators;
    SelectHolds(s, Unregisters(ds));
    SelectHolds(s, Removes(cs));
    if MustUnregister(t, s, n) {
      var k :| 0 <= k < |ds| && ds[k].name == n;
      assert Unregisters(ds)[k] in Leaving(t, s);
    } else if MustRemove(t, s, n) {
      var c :| c in cs && c.Name() == n && Needed(s, RemoveCoordinator(c));
      var k :| 0 <= k < |cs| && cs[k] == c;
      assert Removes(cs)[k] in Leaving(t, s);
    }
  }

  lemma LeavingOnly(t: Topology, s: Situation, n: string)
    ensures n in Subjects(Leaving(t, s)) ==> MustUnregister(t, s, n) || MustRemove(t, s, n)
  {
    if n !in Subjects(Leaving(t, s)) { return; }
    var ds, cs := t.retiringDataInstances, t.retiringCoordinators;
    SelectHolds(s, Unregisters(ds));
    SelectHolds(s, Removes(cs));
    var job :| job in Leaving(t, s) && Subject(job) == n;
    if job in Select(s, Unregisters(ds)) {
      assert job in Unregisters(ds);
    } else {
      assert job in Removes(cs) && job.coordinator in cs;
    }
  }

  lemma LeavingLeave(t: Topology, s: Situation, rows: Rows)
    requires ValidTopology(t) && Ready(t, s, rows)
    ensures forall c :: c in Leaving(t, s) ==> Leaves(rows, c)
  {
    SelectHolds(s, Unregisters(t.retiringDataInstances));
    SelectHolds(s, Removes(t.retiringCoordinators));
    forall c | c in Select(s, Unregisters(t.retiringDataInstances)) ensures Leaves(rows, c) {
      var k :| 0 <= k < |t.retiringDataInstances| && t.retiringDataInstances[k].name == c.name;
      assert t.retiringDataInstances[k] in AllInstances(t);
      assert Retires(t, c.name);
    }
    forall c | c in Select(s, Removes(t.retiringCoordinators)) ensures Leaves(rows, c) {
      assert c.RemoveCoordinator? && c.coordinator in t.retiringCoordinators;
      assert c.coordinator in AllCoordinators(t);
    }
  }

  lemma DeclaredStay(t: Topology, s: Situation)
    requires ValidTopology(t)
    ensures forall c :: c in t.coordinators ==> c.Name() !in Subjects(Leaving(t, s))
    ensures forall i :: i in t.dataInstances ==> i.name !in Subjects(Leaving(t, s))
  {
    LeavingAre(t, s);
    forall c | c in t.coordinators ensures c.Name() !in Subjects(Leaving(t, s)) {
      assert c in AllCoordinators(t);
      RetiresIs(t, c.Name());
      assert forall i :: i in t.retiringDataInstances ==> i in AllInstances(t);
      assert !MustUnregister(t, s, c.Name());
      forall d | d in t.retiringCoordinators ensures d.Name() != c.Name() {
        var j :| 0 <= j < |t.coordinators| && t.coordinators[j] == c;
        var k :| 0 <= k < |t.retiringCoordinators| && t.retiringCoordinators[k] == d;
        assert AllCoordinators(t)[j] == c && AllCoordinators(t)[|t.coordinators| + k] == d;
      }
    }
    forall i | i in t.dataInstances ensures i.name !in Subjects(Leaving(t, s)) {
      assert i in AllInstances(t);
      assert Names(t.dataInstances, i.name);
      DeclaredNeverRetires(t, i.name);
      assert forall d :: d in t.retiringCoordinators ==> d in AllCoordinators(t);
    }
  }

  /** What the departures leave, before leadership is yielded. */
  ghost predicate Left(t: Topology, s: Situation, rows: Rows) {
    && ValidRows(t, rows) && AllDeclaredInPlace(t, rows) && HasMain(rows) && IsLeader(rows, s.leader)
    && (s.retiringMain != "" && !s.Handover() ==> IsMain(rows, s.retiringMain))
    && (forall i :: i in t.retiringDataInstances && i.name in rows ==>
          i.name == s.retiringMain && !s.Handover() && IsMain(rows, i.name))
    && (forall c :: c in t.retiringCoordinators && c.Name() in rows ==> c.Name() == s.leader)
  }

  lemma DeparturesLeave(t: Topology, s: Situation, rows: Rows)
    requires ValidTopology(t) && Ready(t, s, rows)
    ensures Left(t, s, rows - Subjects(Leaving(t, s)))
  {
    var gone := Subjects(Leaving(t, s));
    NobodyImportantLeaves(t, s, rows);
    DeclaredStay(t, s);
    RemovalKeepsValid(t, rows, gone);
    RemovalKeepsMain(rows, gone);
    WhoIsLeft(t, s, rows);
  }

  lemma NobodyImportantLeaves(t: Topology, s: Situation, rows: Rows)
    requires ValidTopology(t) && Ready(t, s, rows)
    ensures forall n :: n in Subjects(Leaving(t, s)) ==> !IsMain(rows, n) && !IsLeader(rows, n)
  {
    LeavingLeave(t, s, rows);
    forall n | n in Subjects(Leaving(t, s)) ensures !IsMain(rows, n) && !IsLeader(rows, n) {
      var c :| c in Leaving(t, s) && Subject(c) == n;
      assert Leaves(rows, c);
    }
  }

  lemma RemovalKeepsMain(rows: Rows, gone: set<string>)
    requires HasMain(rows) && forall n :: n in gone ==> !IsMain(rows, n)
    ensures HasMain(rows - gone) && SameMains(rows, rows - gone)
  {
    var m :| m in rows && IsMain(rows, m);
    assert IsMain(rows - gone, m);
  }

  lemma WhoIsLeft(t: Topology, s: Situation, rows: Rows)
    requires Ready(t, s, rows)
    ensures var rows' := rows - Subjects(Leaving(t, s));
      && (forall i :: i in t.retiringDataInstances && i.name in rows' ==>
            i.name == s.retiringMain && !s.Handover() && IsMain(rows', i.name))
      && (forall c :: c in t.retiringCoordinators && c.Name() in rows' ==> c.Name() == s.leader)
  {
    var rows' := rows - Subjects(Leaving(t, s));
    LeavingAre(t, s);
    forall i | i in t.retiringDataInstances && i.name in rows'
      ensures i.name == s.retiringMain && !s.Handover() && IsMain(rows', i.name)
    {
      RetiresIs(t, i.name);
      assert !MustUnregister(t, s, i.name);
    }
    forall c | c in t.retiringCoordinators && c.Name() in rows' ensures c.Name() == s.leader {
      assert c in AllCoordinators(t);
      assert !MustRemove(t, s, c.Name());
    }
  }

  lemma RemovalKeepsValid(t: Topology, rows: Rows, gone: set<string>)
    requires ValidRows(t, rows) && forall n :: n in gone ==> !IsLeader(rows, n)
    ensures ValidRows(t, rows - gone)
  {
    var rows' := rows - gone;
    assert forall n :: n in rows' ==> n in rows && rows'[n] == rows[n];
    var l :| IsLeader(rows, l);
    assert IsLeader(rows', l);
    assert forall n :: IsMain(rows', n) ==> IsMain(rows, n);
    assert forall n :: IsLeader(rows', n) ==> IsLeader(rows, n);
    assert forall n :: n in rows' ==> (Electable(rows', n) <==> Electable(rows, n));
  }

  /** A yield is accepted, and no retiring coordinator can win it: the others left earlier in the same
      plan. */
  lemma YieldElectsAStayer(t: Topology, s: Situation, env: Environment, rows: Rows, clock: nat)
    requires ValidTopology(t) && Left(t, s, rows) && Willing(env)
    requires exists c :: c in t.retiringCoordinators && c.Name() == s.leader
    ensures var winner, e := env(clock, rows).winner, Issue(env, rows, clock, Yield);
      e.ok && IsLeader(e.rows, winner) && (forall c :: c in t.retiringCoordinators ==> c.Name() != winner)
      && winner != s.leader && Electable(rows, winner)
  {
    var first := t.coordinators[0];
    assert first in t.coordinators && first in AllCoordinators(t);
    var r :| r in t.retiringCoordinators && r.Name() == s.leader;
    DeclaredAndRetiringDiffer(t, first, r);
    assert Electable(rows, first.Name());
    var winner := env(clock, rows).winner;
    assert env(clock, rows).outcome == Accepted;
    assert Electable(rows, winner);
    assert !Electable(rows, s.leader);
  }

  lemma DeclaredAndRetiringDiffer(t: Topology, c: CoordinatorSpec, d: CoordinatorSpec)
    requires ValidTopology(t) && c in t.coordinators && d in t.retiringCoordinators
    ensures c.Name() != d.Name()
  {
    var j :| 0 <= j < |t.coordinators| && t.coordinators[j] == c;
    var k :| 0 <= k < |t.retiringCoordinators| && t.retiringCoordinators[k] == d;
    assert AllCoordinators(t)[j] == c && AllCoordinators(t)[|t.coordinators| + k] == d;
  }

  lemma YieldAdvances(t: Topology, s: Situation, env: Environment, rows: Rows, clock: nat)
    requires ValidTopology(t) && Left(t, s, rows) && Willing(env)
    requires exists c :: c in t.retiringCoordinators && c.Name() == s.leader
    ensures Advanced(t, s, Issue(env, rows, clock, Yield).rows)
  {
    YieldElectsAStayer(t, s, env, rows, clock);
    var winner, rows' := env(clock, rows).winner, Issue(env, rows, clock, Yield).rows;
    forall n ensures IsLeader(rows', n) <==> n == winner {
      if n in rows' && n != winner {
        assert rows[n].IsLeader() ==> rows'[n].role == "follower";
      }
    }
    forall n ensures IsMain(rows', n) <==> IsMain(rows, n) {}
    SameMainsHave(rows, rows');
    YieldKeepsValid(t, s, rows, rows', winner);
    forall c | c in t.coordinators ensures CoordinatorRegistered(rows', c) && rows'[c.Name()].boltServer == c.boltServer {
      assert c in AllCoordinators(t);
    }
    forall i | i in t.dataInstances
      ensures i.name in rows' && (rows'[i.name].boltServer == "" || rows'[i.name].boltServer == i.boltServer)
    {
      assert i in AllInstances(t);
    }
  }

  lemma YieldKeepsValid(t: Topology, s: Situation, rows: Rows, rows': Rows, winner: string)
    requires ValidTopology(t) && ValidRows(t, rows) && Electable(rows, winner)
    requires Effect(rows, Yield, winner) == Some(rows')
    requires forall n :: IsLeader(rows', n) <==> n == winner
    requires forall n :: IsMain(rows', n) <==> IsMain(rows, n)
    requires forall i :: i in AllInstances(t) ==> i.name != winner || !Electable(rows, i.name)
    ensures ValidRows(t, rows')
  {
    assert IsLeader(rows', winner);
    forall i | i in AllInstances(t) && i.name in rows' ensures !IsLeader(rows', i.name) && !Electable(rows', i.name) {
      assert !IsLeader(rows, i.name) && !Electable(rows, i.name);
    }
    forall c | c in AllCoordinators(t) && c.Name() in rows'
      ensures IsLeader(rows', c.Name()) || Electable(rows', c.Name())
      ensures rows'[c.Name()].boltServer == "" ==> IsLeader(rows', c.Name())
    {
      assert IsLeader(rows, c.Name()) || Electable(rows, c.Name());
    }
  }

  lemma DeparturesAdvance(t: Topology, s: Situation, env: Environment, rows: Rows, clock: nat)
    requires ValidTopology(t) && Ready(t, s, rows) && Willing(env)
    ensures var e := RunAll(env, rows, clock, Select(s, Departures(t, s)));
      e.ok && Advanced(t, s, e.rows)
  {
    DeparturesSplit(t, s);
    LeavingDistinct(t, s);
    LeavingLeave(t, s, rows);
    DeparturesAccepted(env, rows, clock, Leaving(t, s));
    DeparturesLeave(t, s, rows);
    var left := RunAll(env, rows, clock, Leaving(t, s));
    RunAllConcat(env, rows, clock, Leaving(t, s), Yields(t.retiringCoordinators, s.leader));
    YieldsAdvance(t, s, env, left.rows, left.clock);
  }

  lemma YieldsAdvance(t: Topology, s: Situation, env: Environment, rows: Rows, clock: nat)
    requires ValidTopology(t) && Left(t, s, rows) && Willing(env)
    ensures var e := RunAll(env, rows, clock, Yields(t.retiringCoordinators, s.leader));
      e.ok && Advanced(t, s, e.rows)
  {
    if Yields(t.retiringCoordinators, s.leader) == [] {
      NobodyYields(t, s, rows);
    } else {
      var k :| 0 <= k < |t.retiringCoordinators| && t.retiringCoordinators[k].Name() == s.leader;
      assert t.retiringCoordinators[k] in t.retiringCoordinators;
      YieldElectsAStayer(t, s, env, rows, clock);
      YieldAdvances(t, s, env, rows, clock);
      OneCommand(env, rows, clock, YieldLeadership(s.leader));
    }
  }

  lemma NobodyYields(t: Topology, s: Situation, rows: Rows)
    requires Left(t, s, rows) && Yields(t.retiringCoordinators, s.leader) == []
    ensures Advanced(t, s, rows)
  {
    forall c | c in t.retiringCoordinators ensures c.Name() != s.leader {
      var k :| 0 <= k < |t.retiringCoordinators| && t.retiringCoordinators[k] == c;
    }
  }

  /** With refusals only by the cluster's own rules, no planned command is refused, whoever the
      coordinators elect; and no retiring coordinator leads afterwards. */
  lemma OnePass(t: Topology, view: seq<Instance>, lag: seq<ReplicationLag>, env: Environment)
    requires ValidTopology(t) && UniqueNames(view) && ValidRows(t, Index(view)) && Willing(env)
    ensures var e := RunAll(env, Index(view), 0, PlanFor(t, view, lag));
      e.ok && Advanced(t, Situate(t, view, lag), e.rows)
  {
    var rows, s := Index(view), Situate(t, view, lag);
    SituationReads(t, view, lag);
    PlanInThree(t, view, lag);
    RunInThree(env, rows, 0, Select(s, Memberships(t)), Select(s, Promotions(t, s)), Select(s, Departures(t, s)));
    BecomesReady(t, rows, IndexLag(lag), s, env);
    var joined := RunAll(env, rows, 0, Select(s, Memberships(t)));
    var moved := RunAll(env, joined.rows, joined.clock, Select(s, Promotions(t, s)));
    DeparturesAdvance(t, s, env, moved.rows, moved.clock);
  }

  /* ---- Repeated passes ---- */

  /** One observation with the lag measured beside it, and the environment its plan runs in. */
  datatype Pass = Pass(view: seq<Instance>, lag: seq<ReplicationLag>, env: Environment)

  ghost function Ran(t: Topology, pass: Pass): Execution {
    RunAll(pass.env, Index(pass.view), 0, PlanFor(t, pass.view, pass.lag))
  }

  /** The next pass observes what this one left; the lag it reads may be anything. */
  ghost predicate Followed(t: Topology, pass: Pass, next: Pass) {
    UniqueNames(next.view) && Index(next.view) == Ran(t, pass).rows && Willing(next.env)
  }

  ghost predicate BlockedIn(t: Topology, pass: Pass, main: string) {
    Blocked(t, Index(pass.view), IndexLag(pass.lag), main)
  }

  /** Two passes settle everything but a retiring MAIN that nobody could take over from in either of
      them: after that a plan is empty unless that same MAIN has a candidate at last. */
  lemma ConvergesInTwo(t: Topology, first: Pass, second: Pass, third: Pass)
    requires ValidTopology(t) && UniqueNames(first.view) && ValidRows(t, Index(first.view)) && Willing(first.env)
    requires Followed(t, first, second) && Followed(t, second, third)
    ensures Ran(t, first).ok && Ran(t, second).ok
    ensures PlanFor(t, third.view, third.lag) == [] <==>
              !exists main :: BlockedIn(t, first, main) && BlockedIn(t, second, main)
                && !BlockedIn(t, third, main)
  {
    OnePass(t, first.view, first.lag, first.env);
    OnePass(t, second.view, second.lag, second.env);
    SituationReads(t, first.view, first.lag);
    SituationReads(t, second.view, second.lag);
    EmptyPlanMeans(t, third.view, third.lag);
    EmptyAfterTwo(t, first, second, third,
      Situate(t, first.view, first.lag), Situate(t, second.view, second.lag));
  }

  lemma EmptyAfterTwo(t: Topology, first: Pass, second: Pass, third: Pass, s0: Situation, s1: Situation)
    requires Reads(t, Index(first.view), IndexLag(first.lag), s0) && Advanced(t, s0, Index(second.view))
    requires Reads(t, Index(second.view), IndexLag(second.lag), s1) && Advanced(t, s1, Index(third.view))
    ensures var rows := Index(third.view);
      AllDeclaredInPlace(t, rows) && HasMain(rows) && NoRetiringCoordinator(t, rows)
    ensures OnlyBlockedRetiring(t, Index(third.view), IndexLag(third.lag)) <==>
              !exists main :: BlockedIn(t, first, main) && BlockedIn(t, second, main) && !BlockedIn(t, third, main)
  {
    RetiringLeftAfterTwo(t, s0, Index(first.view), s1, Index(second.view), Index(third.view),
      IndexLag(first.lag), IndexLag(second.lag));
    OnlyBlockedMainLeft(t, first, second, third);
  }

  lemma RetiringLeftAfterTwo(t: Topology, s0: Situation, rows0: Rows, s1: Situation, rows1: Rows, rows2: Rows,
                             lag0: map<string, ReplicationLag>, lag1: map<string, ReplicationLag>)
    requires ValidRows(t, rows1) && Reads(t, rows0, lag0, s0) && Reads(t, rows1, lag1, s1)
    requires Advanced(t, s0, rows1) && Advanced(t, s1, rows2)
    ensures NoRetiringCoordinator(t, rows2)
    ensures forall m :: Blocked(t, rows1, lag1, m) ==> IsMain(rows2, m)
    ensures forall i :: i in t.retiringDataInstances && i.name in rows2 ==>
              Blocked(t, rows0, lag0, i.name) && Blocked(t, rows1, lag1, i.name) && IsMain(rows2, i.name)
  {
    forall c | c in t.retiringCoordinators ensures !CoordinatorRegistered(rows2, c) && !IsLeader(rows2, c.Name()) {
      assert !IsLeader(rows1, c.Name());
    }
    forall i | i in t.retiringDataInstances && i.name in rows2
      ensures Blocked(t, rows0, lag0, i.name) && Blocked(t, rows1, lag1, i.name) && IsMain(rows2, i.name)
    {
      RetiresIs(t, i.name);
      assert i.name == s1.retiringMain && !s1.Handover();
      assert IsMain(rows1, i.name);
      assert i.name == s0.retiringMain && !s0.Handover();
    }
    forall m | Blocked(t, rows1, lag1, m) ensures IsMain(rows2, m) {
      assert m == s1.retiringMain && !s1.Handover();
    }
  }

  lemma OnlyBlockedMainLeft(t: Topology, first: Pass, second: Pass, third: Pass)
    requires forall i :: i in t.retiringDataInstances && i.name in Index(third.view) ==>
               BlockedIn(t, first, i.name) && BlockedIn(t, second, i.name) && IsMain(Index(third.view), i.name)
    requires forall m :: BlockedIn(t, first, m) && BlockedIn(t, second, m) ==> IsMain(Index(third.view), m)
    ensures OnlyBlockedRetiring(t, Index(third.view), IndexLag(third.lag)) <==>
              !exists main :: BlockedIn(t, first, main) && BlockedIn(t, second, main) && !BlockedIn(t, third, main)
  {
    var rows := Index(third.view);
    if main :| BlockedIn(t, first, main) && BlockedIn(t, second, main) && !BlockedIn(t, third, main) {
      RetiresIs(t, main);
      var i :| i in t.retiringDataInstances && i.name == main;
      assert !Blocked(t, rows, IndexLag(third.lag), i.name);
    }
    forall i | i in t.retiringDataInstances && i.name in rows && !Blocked(t, rows, IndexLag(third.lag), i.name)
      ensures exists main :: BlockedIn(t, first, main) && BlockedIn(t, second, main) && !BlockedIn(t, third, main)
    {
      assert BlockedIn(t, first, i.name) && !BlockedIn(t, third, i.name);
    }
  }

  /** The late handover is the last plan there is: whatever the lag view says next, nothing is left. */
  lemma ConvergesInThree(t: Topology, first: Pass, second: Pass, third: Pass, fourth: Pass)
    requires ValidTopology(t) && UniqueNames(first.view) && ValidRows(t, Index(first.view)) && Willing(first.env)
    requires Followed(t, first, second) && Followed(t, second, third) && Followed(t, third, fourth)
    requires PlanFor(t, third.view, third.lag) != []
    ensures PlanFor(t, fourth.view, fourth.lag) == []
  {
    OnePass(t, first.view, first.lag, first.env);
    OnePass(t, second.view, second.lag, second.env);
    ConvergesInTwo(t, first, second, third);
    ConvergesInTwo(t, second, third, fourth);
    var main :| BlockedIn(t, first, main) && BlockedIn(t, second, main) && !BlockedIn(t, third, main);
    SituationReads(t, first.view, first.lag);
    SituationReads(t, second.view, second.lag);
    RetiringLeftAfterTwo(t, Situate(t, first.view, first.lag), Index(first.view),
      Situate(t, second.view, second.lag), Index(second.view), Index(third.view), IndexLag(first.lag), IndexLag(second.lag));
    assert IsMain(Index(third.view), main);
    assert forall other :: BlockedIn(t, third, other) ==> IsMain(Index(third.view), other);
  }

  /* ---- Bootstrap ---- */

  /** The view of a cluster nobody has set up: the first coordinator, leading a Raft cluster of one, at
      no announced address. */
  function FreshView(t: Topology): seq<Instance>
    requires t.coordinators != []
  {
    [Instance(t.coordinators[0].Name(), "", "", "", "up", "leader")]
  }

  lemma FreshViewIsValid(t: Topology)
    requires ValidTopology(t)
    ensures UniqueNames(FreshView(t)) && ValidRows(t, Index(FreshView(t)))
  {
    var first := t.coordinators[0];
    var row := Instance(first.Name(), "", "", "", "up", "leader");
    IndexOfUniqueNames(FreshView(t));
    var rows := Index(FreshView(t));
    assert FreshView(t)[0] == row && first in AllCoordinators(t);
    assert forall n :: n in rows ==> n == row.name && rows[n] == row;
    assert row.IsLeader() && !row.IsMain() && !row.IsFollower() by {
      assert EqualFold("leader", "leader");
      assert |"main"| == 4 && |"leader"| == 6 && |"follower"| == 8;
    }
    assert IsLeader(rows, row.name);
  }

  /** From nothing but a fresh coordinator, one pass nobody refuses sets up the whole declared cluster,
      and the next finds nothing to do. */
  lemma OnePassBootstraps(t: Topology, lag: seq<ReplicationLag>, env: Environment, next: Pass)
    requires ValidTopology(t) && t.retiringCoordinators == [] && t.retiringDataInstances == [] && Willing(env)
    requires Followed(t, Pass(FreshView(t), lag, env), next)
    ensures PlanFor(t, FreshView(t), lag) != [] && Ran(t, Pass(FreshView(t), lag, env)).ok
    ensures AllDeclaredInPlace(t, Index(next.view)) && HasMain(Index(next.view))
    ensures PlanFor(t, next.view, next.lag) == []
  {
    FreshViewIsValid(t);
    OnePass(t, FreshView(t), lag, env);
    EmptyPlanMeans(t, next.view, next.lag);
    EmptyPlanMeans(t, FreshView(t), lag);
    FreshHasNoMain(t);
  }

  lemma FreshHasNoMain(t: Topology)
    requires t.coordinators != []
    ensures !HasMain(Index(FreshView(t)))
  {
    var rows := Index(FreshView(t));
    IndexOfUniqueNames(FreshView(t));
    assert |"main"| == 4 && |"leader"| == 6;
    forall n | n in rows ensures !IsMain(rows, n) {
      assert rows[n] in FreshView(t);
    }
  }
}
