/** Chains of passes of any length, each observing what the one before it left: how many of them find
    anything to do. */
module RepeatedPasses {
  import opened Text
  import opened Memgraph
  import opened Planner
  import opened Resources
  import opened Cluster
  import opened PlannerMeaning
  import opened PlannerSafety
  import opened Convergence

  ghost predicate Follow(t: Topology, passes: seq<Pass>, k: nat, next: nat)
    requires k < |passes| && next < |passes|
  {
    Followed(t, passes[k], passes[next])
  }

  /** Passes over a cluster nothing else touches; the lag each of them reads may be anything. */
  ghost predicate Chain(t: Topology, passes: seq<Pass>) {
    && passes != [] && ValidTopology(t)
    && Good(t, passes[0])
    && forall k: nat, next: nat :: next == k + 1 && next < |passes| ==> Follow(t, passes, k, next)
  }

  ghost predicate Idle(t: Topology, pass: Pass) { PlanFor(t, pass.view, pass.lag) == [] }

  /** A pass over a view the coordinators can give, in a cluster that refuses nothing else. */
  ghost predicate Good(t: Topology, pass: Pass) {
    UniqueNames(pass.view) && ValidRows(t, Index(pass.view)) && Willing(pass.env)
  }

  lemma NextIsGood(t: Topology, pass: Pass, next: Pass)
    requires ValidTopology(t) && Good(t, pass) && Followed(t, pass, next)
    ensures Good(t, next)
  {
    OnePass(t, pass.view, pass.lag, pass.env);
  }

  lemma StepIsGood(t: Topology, passes: seq<Pass>, k: nat, next: nat)
    requires Chain(t, passes) && next == k + 1 && next < |passes| && Good(t, passes[k])
    ensures Good(t, passes[next])
  {
    assert Follow(t, passes, k, next);
    NextIsGood(t, passes[k], passes[next]);
  }

  /** What holds at the start and is handed on holds all along. */
  lemma {:induction false} HandedOn(holds: nat -> bool, k: nat)
    requires holds(0) && forall i: nat, j: nat :: j == i + 1 && j <= k && holds(i) ==> holds(j)
    ensures holds(k)
  {
    if k > 0 {
      HandedOn(holds, k - 1);
      assert holds(k - 1);
    }
  }

  lemma ChainIsGood(t: Topology, passes: seq<Pass>, k: nat)
    requires Chain(t, passes) && k < |passes|
    ensures Good(t, passes[k])
  {
    var holds := (i: nat) => i < |passes| && Good(t, passes[i]);
    forall i: nat, j: nat | j == i + 1 && j <= k && holds(i) ensures holds(j) {
      StepIsGood(t, passes, i, j);
    }
    HandedOn(holds, k);
  }

  lemma NextRows(t: Topology, passes: seq<Pass>, k: nat, next: nat)
    requires Chain(t, passes) && next == k + 1 && next < |passes|
    ensures Good(t, passes[k]) && Good(t, passes[next]) && Ran(t, passes[k]).ok
    ensures Reads(t, Index(passes[k].view), IndexLag(passes[k].lag), Situate(t, passes[k].view, passes[k].lag))
    ensures Advanced(t, Situate(t, passes[k].view, passes[k].lag), Index(passes[next].view))
  {
    var pass := passes[k];
    ChainIsGood(t, passes, k);
    ChainIsGood(t, passes, next);
    assert Follow(t, passes, k, next);
    OnePass(t, pass.view, pass.lag, pass.env);
    SituationReads(t, pass.view, pass.lag);
  }

  ghost predicate RetiringMainIn(t: Topology, pass: Pass, main: string) {
    IsMain(Index(pass.view), main) && Retires(t, main)
  }

  /** A retiring MAIN is one in the pass before, which could not hand over; and one that cannot hand
      over stays. */
  lemma StaysMain(t: Topology, passes: seq<Pass>, k: nat, next: nat, main: string)
    requires Chain(t, passes) && next == k + 1 && next < |passes|
    ensures RetiringMainIn(t, passes[next], main) <==> BlockedIn(t, passes[k], main)
    ensures BlockedIn(t, passes[k], main) ==> RetiringMainIn(t, passes[k], main)
  {
    NextRows(t, passes, k, next);
    var s, rows := Situate(t, passes[k].view, passes[k].lag), Index(passes[next].view);
    RetiresIs(t, main);
    if RetiringMainIn(t, passes[next], main) {
      assert main == s.retiringMain && !s.Handover();
    }
    if BlockedIn(t, passes[k], main) {
      assert main == s.retiringMain && !s.Handover();
    }
  }

  ghost predicate BlockedUpTo(t: Topology, passes: seq<Pass>, k: nat, main: string)
    requires k <= |passes|
  {
    forall j: nat :: j < k ==> BlockedIn(t, passes[j], main)
  }

  lemma {:induction false} HandedBack(holds: nat -> bool, i: nat, k: nat)
    requires i <= k && holds(k) && forall i: nat, j: nat :: j == i + 1 && j <= k && holds(j) ==> holds(i)
    ensures holds(i)
  {
    if i < k {
      assert holds(k - 1);
      HandedBack(holds, i, k - 1);
    }
  }

  lemma RetiringAllAlong(t: Topology, passes: seq<Pass>, i: nat, k: nat, main: string)
    requires Chain(t, passes) && i <= k < |passes| && RetiringMainIn(t, passes[k], main)
    ensures RetiringMainIn(t, passes[i], main)
  {
    var holds := (i: nat) => i < |passes| && RetiringMainIn(t, passes[i], main);
    forall i: nat, j: nat | j == i + 1 && j <= k && holds(j) ensures holds(i) {
      StaysMain(t, passes, i, j, main);
    }
    HandedBack(holds, i, k);
  }

  lemma BlockedBefore(t: Topology, passes: seq<Pass>, i: nat, next: nat, k: nat, main: string)
    requires Chain(t, passes) && next == i + 1 && next <= k < |passes| && RetiringMainIn(t, passes[k], main)
    ensures BlockedIn(t, passes[i], main)
  {
    RetiringAllAlong(t, passes, next, k, main);
    StaysMain(t, passes, i, next, main);
  }

  lemma BlockedAllAlong(t: Topology, passes: seq<Pass>, k: nat, main: string)
    requires Chain(t, passes) && k < |passes| && RetiringMainIn(t, passes[k], main)
    ensures BlockedUpTo(t, passes, k, main)
  {
    forall i: nat | i < k ensures BlockedIn(t, passes[i], main) {
      BlockedBefore(t, passes, i, i + 1, k, main);
    }
  }

  ghost predicate HandsOverLate(t: Topology, passes: seq<Pass>, k: nat, main: string)
    requires k < |passes|
  {
    BlockedUpTo(t, passes, k, main) && !BlockedIn(t, passes[k], main)
  }

  lemma IdleAfterTwo(t: Topology, passes: seq<Pass>, i: nat, j: nat, k: nat)
    requires Chain(t, passes) && j == i + 1 && k == j + 1 && k < |passes|
    ensures !Idle(t, passes[k]) <==>
              exists main :: BlockedIn(t, passes[i], main) && BlockedIn(t, passes[j], main) && !BlockedIn(t, passes[k], main)
  {
    ChainIsGood(t, passes, i);
    assert Follow(t, passes, i, j) && Follow(t, passes, j, k);
    ConvergesInTwo(t, passes[i], passes[j], passes[k]);
  }

  lemma LateHandover(t: Topology, passes: seq<Pass>, j: nat, k: nat, main: string)
    requires Chain(t, passes) && k == j + 1 && k < |passes|
    ensures HandsOverLate(t, passes, k, main) <==> BlockedIn(t, passes[j], main) && !BlockedIn(t, passes[k], main)
  {
    if BlockedIn(t, passes[j], main) {
      StaysMain(t, passes, j, k, main);
      BlockedAllAlong(t, passes, k, main);
    }
  }

  lemma IdleExactly(t: Topology, passes: seq<Pass>, i: nat, j: nat, k: nat)
    requires Chain(t, passes) && j == i + 1 && k == j + 1 && k < |passes|
    ensures !Idle(t, passes[k]) <==> exists main :: HandsOverLate(t, passes, k, main)
  {
    IdleAfterTwo(t, passes, i, j, k);
    if !Idle(t, passes[k]) {
      var main :| BlockedIn(t, passes[i], main) && BlockedIn(t, passes[j], main) && !BlockedIn(t, passes[k], main);
      LateHandover(t, passes, j, k, main);
    }
    if main :| HandsOverLate(t, passes, k, main) {
      assert BlockedIn(t, passes[i], main) && BlockedIn(t, passes[j], main);
    }
  }

  /** In a chain of any length, from the third pass on a plan is non-empty exactly when a retiring MAIN
      that nobody could take over from in any pass before has a candidate at last; that happens at most
      once; and no planned command is ever refused. So at most three plans of the whole chain hold any
      command: the first two and one late handover. */
  lemma AtMostThreePlans(t: Topology, passes: seq<Pass>)
    requires Chain(t, passes)
    ensures forall k: nat :: 2 <= k < |passes| ==> (!Idle(t, passes[k]) <==> exists main :: HandsOverLate(t, passes, k, main))
    ensures forall k: nat, l: nat :: 2 <= k < |passes| && 2 <= l < |passes| && !Idle(t, passes[k]) && !Idle(t, passes[l]) ==> k == l
    ensures forall k: nat :: k < |passes| ==> Ran(t, passes[k]).ok
  {
    forall k: nat | 2 <= k < |passes| ensures !Idle(t, passes[k]) <==> exists main :: HandsOverLate(t, passes, k, main) {
      IdleExactly(t, passes, k - 2, k - 1, k);
    }
    forall k: nat, l: nat | 2 <= k < l < |passes| && !Idle(t, passes[k]) && !Idle(t, passes[l]) ensures false {
      OnceOnly(t, passes, k, l);
    }
    forall k: nat | k < |passes| ensures Ran(t, passes[k]).ok {
      ChainIsGood(t, passes, k);
      OnePass(t, passes[k].view, passes[k].lag, passes[k].env);
    }
  }

  lemma OnceOnly(t: Topology, passes: seq<Pass>, k: nat, l: nat)
    requires Chain(t, passes) && 2 <= k < l < |passes|
    ensures Idle(t, passes[k]) || Idle(t, passes[l])
  {
    if !Idle(t, passes[k]) && !Idle(t, passes[l]) {
      IdleExactly(t, passes, k - 2, k - 1, k);
      IdleExactly(t, passes, l - 2, l - 1, l);
      var main :| HandsOverLate(t, passes, k, main);
      var other :| HandsOverLate(t, passes, l, other);
      assert BlockedIn(t, passes[k], other);
      assert BlockedIn(t, passes[k - 1], main);
      StaysMain(t, passes, k - 1, k, main);
      ChainIsGood(t, passes, k);
      assert false;
    }
  }

  /* ---- The same lag view ---- */

  /** A command that may put a row under the name. */
  ghost predicate Creates(c: Command, name: string) {
    (c.AddCoordinator? && c.coordinator.Name() == name) || (c.RegisterInstance? && c.instance.name == name)
  }

  /** The row is gone, or has the health it had. */
  ghost predicate SameHealth(rows: Rows, rows': Rows, name: string) {
    name in rows' ==> name in rows && rows'[name].health == rows[name].health
  }

  ghost predicate NewHealth(rows: Rows, rows': Rows, name: string) {
    name in rows' && rows'[name].health == "up"
  }

  lemma {:induction false} PromotionsKeepHealth(env: Environment, rows: Rows, clock: nat, names: seq<string>, name: string)
    ensures SameHealth(rows, TryPromotions(env, rows, clock, names).rows, name)
    decreases |names|
  {
    if names != [] {
      var first := Issue(env, rows, clock, Promote(names[0]));
      if !first.ok {
        PromotionsKeepHealth(env, first.rows, first.clock, names[1..], name);
      }
    }
  }

  lemma CommandHealth(env: Environment, rows: Rows, clock: nat, c: Command, name: string)
    ensures var rows' := Run(env, rows, clock, c).rows;
      SameHealth(rows, rows', name) || (Creates(c, name) && NewHealth(rows, rows', name))
  {
    if c.SetInstanceToMain? {
      PromotionsKeepHealth(env, rows, clock, c.candidates, name);
    }
  }

  /** A plan that creates no row under the name keeps its health; one that does leaves it up, at worst. */
  lemma {:induction false} PlanHealth(env: Environment, rows: Rows, clock: nat, commands: seq<Command>, name: string)
    ensures var rows' := RunAll(env, rows, clock, commands).rows;
      SameHealth(rows, rows', name) || ((exists c :: c in commands && Creates(c, name)) && NewHealth(rows, rows', name))
    decreases |commands|
  {
    if commands != [] {
      assert commands[0] in commands && forall c :: c in commands[1..] ==> c in commands;
      var first := Run(env, rows, clock, commands[0]);
      CommandHealth(env, rows, clock, commands[0], name);
      if first.ok {
        PlanHealth(env, first.rows, first.clock, commands[1..], name);
      }
    }
  }

  lemma PlanCreatesOnlyMissing(t: Topology, view: seq<Instance>, lag: seq<ReplicationLag>, c: Command, name: string)
    requires ValidTopology(t) && c in PlanFor(t, view, lag) && Creates(c, name) && Names(t.dataInstances, name)
    ensures name !in Index(view)
  {
    var s := Situate(t, view, lag);
    SelectHolds(s, Jobs(t, s));
    JobsAreOnly(t, s, c);
    NamesOfAll(t, name);
    assert forall d :: d in t.coordinators ==> d in AllCoordinators(t);
  }

  lemma PassHealth(t: Topology, pass: Pass, name: string)
    requires ValidTopology(t) && Names(t.dataInstances, name) && name in Index(pass.view)
    ensures SameHealth(Index(pass.view), Ran(t, pass).rows, name)
  {
    var plan := PlanFor(t, pass.view, pass.lag);
    PlanHealth(pass.env, Index(pass.view), 0, plan, name);
    if c :| c in plan && Creates(c, name) {
      PlanCreatesOnlyMissing(t, pass.view, pass.lag, c, name);
    }
  }

  lemma LeavesInPlace(t: Topology, pass: Pass, next: Pass)
    requires ValidTopology(t) && Good(t, pass) && Followed(t, pass, next)
    ensures AllDeclaredInPlace(t, Index(next.view))
  {
    OnePass(t, pass.view, pass.lag, pass.env);
  }

  lemma AllInPlace(t: Topology, passes: seq<Pass>, k: nat, next: nat)
    requires Chain(t, passes) && next == k + 1 && next < |passes|
    ensures AllDeclaredInPlace(t, Index(passes[next].view))
  {
    ChainIsGood(t, passes, k);
    assert Follow(t, passes, k, next);
    LeavesInPlace(t, passes[k], passes[next]);
  }

  lemma OneInPlace(t: Topology, rows: Rows, name: string)
    requires AllDeclaredInPlace(t, rows) && Names(t.dataInstances, name)
    ensures name in rows
  {
  }

  lemma InPlace(t: Topology, passes: seq<Pass>, k: nat, name: string)
    requires Chain(t, passes) && 1 <= k < |passes| && Names(t.dataInstances, name)
    ensures name in Index(passes[k].view)
  {
    AllInPlace(t, passes, k - 1, k);
    OneInPlace(t, Index(passes[k].view), name);
  }

  lemma SameHealthSameReachable(rows: Rows, rows': Rows, name: string)
    requires name in rows && name in rows' && SameHealth(rows, rows', name)
    ensures Reachable(rows, name) <==> Reachable(rows', name)
  {
  }

  lemma SameReachable(t: Topology, passes: seq<Pass>, k: nat, next: nat, name: string)
    requires Chain(t, passes) && 1 <= k && next == k + 1 && next < |passes| && Names(t.dataInstances, name)
    ensures Reachable(Index(passes[k].view), name) <==> Reachable(Index(passes[next].view), name)
  {
    InPlace(t, passes, k, name);
    InPlace(t, passes, next, name);
    PassHealth(t, passes[k], name);
    assert Follow(t, passes, k, next);
    SameHealthSameReachable(Index(passes[k].view), Index(passes[next].view), name);
  }

  lemma StillBlocked(t: Topology, passes: seq<Pass>, k: nat, next: nat, main: string)
    requires Chain(t, passes) && 1 <= k && next == k + 1 && next < |passes| && BlockedIn(t, passes[k], main)
    requires IndexLag(passes[next].lag) == IndexLag(passes[k].lag)
    ensures BlockedIn(t, passes[next], main)
  {
    StaysMain(t, passes, k, next, main);
    var rows, lag := Index(passes[next].view), IndexLag(passes[next].lag);
    if n :| Candidate(t, rows, lag, n) {
      SameReachable(t, passes, k, next, n);
      assert Candidate(t, Index(passes[k].view), lag, n);
    }
  }

  /** While the lag view stays what it was in the second pass, only the first two plans hold any
      command. */
  lemma AtMostTwoPlans(t: Topology, passes: seq<Pass>)
    requires Chain(t, passes)
    requires forall k: nat :: 1 <= k < |passes| ==> IndexLag(passes[k].lag) == IndexLag(passes[1].lag)
    ensures forall k: nat :: 2 <= k < |passes| ==> Idle(t, passes[k])
  {
    forall k: nat | 2 <= k < |passes| ensures Idle(t, passes[k]) {
      IdleExactly(t, passes, k - 2, k - 1, k);
      if main :| HandsOverLate(t, passes, k, main) {
        StillBlocked(t, passes, k - 1, k, main);
      }
    }
  }

  /* ---- Three plans happen ---- */

  /** A command that is about the membership of the name. */
  ghost predicate About(c: Command, name: string) {
    Subject(c) == name && !c.DemoteInstance? && !c.SetInstanceToMain? && !c.YieldLeadership?
  }

  ghost predicate Announces(rows: Rows, rows': Rows, name: string) {
    Announced(rows, name) ==> Announced(rows', name)
  }

  lemma {:induction false} PromotionsAnnounce(env: Environment, rows: Rows, clock: nat, names: seq<string>, name: string)
    ensures Announces(rows, TryPromotions(env, rows, clock, names).rows, name)
    decreases |names|
  {
    if names != [] {
      var first := Issue(env, rows, clock, Promote(names[0]));
      if !first.ok {
        PromotionsAnnounce(env, first.rows, first.clock, names[1..], name);
      }
    }
  }

  lemma CommandAnnounces(env: Environment, rows: Rows, clock: nat, c: Command, name: string)
    requires !About(c, name)
    ensures Announces(rows, Run(env, rows, clock, c).rows, name)
  {
    if c.SetInstanceToMain? {
      PromotionsAnnounce(env, rows, clock, c.candidates, name);
    }
  }

  lemma {:induction false} PlanAnnounces(env: Environment, rows: Rows, clock: nat, commands: seq<Command>, name: string)
    requires forall c :: c in commands ==> !About(c, name)
    ensures Announces(rows, RunAll(env, rows, clock, commands).rows, name)
    decreases |commands|
  {
    if commands != [] {
      assert commands[0] in commands && forall c :: c in commands[1..] ==> c in commands;
      var first := Run(env, rows, clock, commands[0]);
      CommandAnnounces(env, rows, clock, commands[0], name);
      if first.ok {
        PlanAnnounces(env, first.rows, first.clock, commands[1..], name);
      }
    }
  }

  /** A retiring coordinator that leads is still a member after the pass that yields. */
  lemma LeaderStays(t: Topology, pass: Pass, c: CoordinatorSpec)
    requires ValidTopology(t) && Good(t, pass) && c in t.retiringCoordinators
    requires IsLeader(Index(pass.view), c.Name()) && Announced(Index(pass.view), c.Name())
    ensures Announced(Ran(t, pass).rows, c.Name())
  {
    var s, plan := Situate(t, pass.view, pass.lag), PlanFor(t, pass.view, pass.lag);
    SituationReads(t, pass.view, pass.lag);
    SelectHolds(s, Jobs(t, s));
    forall d | d in plan ensures !About(d, c.Name()) {
      JobsAreOnly(t, s, d);
      NotAboutARetiree(t, s, d, c);
    }
    PlanAnnounces(pass.env, Index(pass.view), 0, plan, c.Name());
  }

  lemma NotAboutARetiree(t: Topology, s: Situation, d: Command, c: CoordinatorSpec)
    requires ValidTopology(t) && c in t.retiringCoordinators && s.leader == c.Name()
    requires d in Jobs(t, s) && Needed(s, d)
    ensures !About(d, c.Name())
  {
    JobsAreOnly(t, s, d);
    assert c in AllCoordinators(t);
    if d.AddCoordinator? || d.UpdateCoordinatorBoltServer? {
      DeclaredAndRetiringDiffer(t, d.coordinator, c);
    } else if d.RegisterInstance? || d.UpdateInstanceBoltServer? {
      assert d.instance in AllInstances(t);
    } else if d.UnregisterInstance? {
      var i :| i in t.retiringDataInstances && i.name == d.name;
      assert i in AllInstances(t);
    }
  }

  /** Only a retiring leader and a retiring MAIN are left of the cluster. */
  function LeftOver(c: CoordinatorSpec, i: DataInstanceSpec): seq<Instance> {
    [Member(c, "leader"), Instance(i.name, i.boltServer, "", i.managementServer, "up", "main")]
  }

  lemma LeadsAndServes(leader: Instance, main: Instance)
    requires leader.role == "leader" && main.role == "main"
    ensures leader.IsLeader() && !leader.IsMain() && !main.IsLeader() && main.IsMain() && !main.IsFollower()
  {
    assert EqualFold("leader", "leader") && EqualFold("main", "main");
    assert |"main"| == 4 && |"leader"| == 6 && |"follower"| == 8;
  }

  lemma TwoRowsAreValid(t: Topology, rows: Rows, leader: string, main: string)
    requires rows.Keys == {leader, main} && leader != main
    requires rows[leader].name == leader != "" && rows[main].name == main != ""
    requires rows[leader].IsLeader() && !rows[leader].IsMain() && rows[leader].boltServer != ""
    requires rows[main].IsMain() && !rows[main].IsLeader() && !rows[main].IsFollower()
    requires (forall c :: c in AllCoordinators(t) ==> c.Name() != main) && (forall i :: i in AllInstances(t) ==> i.name != leader)
    ensures ValidRows(t, rows)
  {
    assert forall n :: n in rows <==> n == leader || n == main;
    assert IsLeader(rows, leader);
  }

  lemma LeftOverRows(c: CoordinatorSpec, i: DataInstanceSpec)
    requires c.Name() != i.name
    ensures var rows := Index(LeftOver(c, i));
      UniqueNames(LeftOver(c, i)) && rows.Keys == {c.Name(), i.name}
      && rows[c.Name()] == LeftOver(c, i)[0] && rows[i.name] == LeftOver(c, i)[1]
  {
    var view := LeftOver(c, i);
    assert view[0].name == c.Name() && view[1].name == i.name;
    IndexOfUniqueNames(view);
  }

  lemma LeftOverIsValid(t: Topology, c: CoordinatorSpec, i: DataInstanceSpec)
    requires ValidTopology(t) && c in t.retiringCoordinators && i in t.retiringDataInstances
    ensures var rows := Index(LeftOver(c, i));
      && UniqueNames(LeftOver(c, i)) && ValidRows(t, rows)
      && IsLeader(rows, c.Name()) && Announced(rows, c.Name()) && IsMain(rows, i.name)
      && rows.Keys == {c.Name(), i.name}
  {
    assert c in AllCoordinators(t) && i in AllInstances(t);
    LeftOverRows(c, i);
    LeadsAndServes(LeftOver(c, i)[0], LeftOver(c, i)[1]);
    TwoRowsAreValid(t, Index(LeftOver(c, i)), c.Name(), i.name);
  }

  /** A pass that hands nothing over, and one after it. */
  lemma NobodyTakesOver(t: Topology, pass: Pass, main: string)
    requires RetiringMainIn(t, pass, main) && pass.lag == []
    ensures BlockedIn(t, pass, main)
  {
    assert IndexLag([]) == map[];
  }

  function OneCaughtUp(name: string): seq<ReplicationLag> {
    [ReplicationLag(name, [DatabaseLag("memgraph", 0, 0)])]
  }

  lemma SomebodyTakesOver(t: Topology, pass: Pass, main: string, name: string)
    requires Names(t.dataInstances, name) && Reachable(Index(pass.view), name) && pass.lag == OneCaughtUp(name)
    ensures !BlockedIn(t, pass, main)
  {
    var lag := IndexLag(pass.lag);
    assert pass.lag[..0] == [];
    assert CaughtUp(lag, name);
    assert Candidate(t, Index(pass.view), lag, name);
  }

  /** The next pass over what a pass left. */
  lemma NextPass(t: Topology, pass: Pass, lag: seq<ReplicationLag>) returns (next: Pass)
    requires ValidTopology(t) && Good(t, pass)
    ensures Followed(t, pass, next) && Good(t, next) && next.lag == lag
  {
    OnePass(t, pass.view, pass.lag, pass.env);
    var view := ViewOf(Ran(t, pass).rows);
    GrantingIsWilling();
    next := Pass(view, lag, Granting());
  }

  /** A declared instance that had no row is up once it has been registered. */
  lemma RegisteredIsUp(t: Topology, first: Pass, second: Pass, third: Pass, name: string)
    requires ValidTopology(t) && Good(t, first) && Good(t, second)
    requires Followed(t, first, second) && Followed(t, second, third)
    requires Names(t.dataInstances, name) && name !in Index(first.view)
    ensures Reachable(Index(third.view), name)
  {
    LeavesInPlace(t, first, second);
    LeavesInPlace(t, second, third);
    OneInPlace(t, Index(second.view), name);
    OneInPlace(t, Index(third.view), name);
    PlanHealth(first.env, Index(first.view), 0, PlanFor(t, first.view, first.lag), name);
    PassHealth(t, second, name);
    assert EqualFold("up", "up");
  }

  lemma StaysBlocked(t: Topology, pass: Pass, next: Pass, main: string)
    requires ValidTopology(t) && Good(t, pass) && Followed(t, pass, next) && BlockedIn(t, pass, main)
    ensures RetiringMainIn(t, next, main)
  {
    SituationReads(t, pass.view, pass.lag);
    OnePass(t, pass.view, pass.lag, pass.env);
    RetiresIs(t, main);
    assert main == Situate(t, pass.view, pass.lag).retiringMain;
  }

  lemma NotIdle(t: Topology, pass: Pass)
    requires ValidTopology(t) && Good(t, pass)
    requires (exists c :: c in t.coordinators && c.Name() !in Index(pass.view))
          || (exists c :: c in t.retiringCoordinators && Announced(Index(pass.view), c.Name()))
    ensures !Idle(t, pass)
  {
    EmptyPlanMeans(t, pass.view, pass.lag);
  }

  /** In every topology that retires a coordinator and a data instance three plans can be needed. The
      retiring members alone are left, leading and MAIN. The first plan adds the declared members and
      yields the leadership; the second, with no lag read yet, removes the coordinator that led; and
      once a declared instance is read to be caught up, the third hands MAIN over. */
  lemma ThreePlansHappen(t: Topology) returns (first: Pass, second: Pass, third: Pass)
    requires ValidTopology(t) && t.retiringCoordinators != [] && t.retiringDataInstances != []
    ensures Good(t, first) && Followed(t, first, second) && Followed(t, second, third)
    ensures !Idle(t, first) && !Idle(t, second) && !Idle(t, third)
  {
    var c, i, name := t.retiringCoordinators[0], t.retiringDataInstances[0].name, t.dataInstances[0].name;
    first := PassOverLeftOver(t);
    second := NextPass(t, first, []);
    third := NextPass(t, second, OneCaughtUp(name));
    LeaderStays(t, first, c);
    NotIdle(t, second);
    RegisteredIsUp(t, first, second, third, name);
    MovesLate(t, first, second, third, i, name);
  }

  lemma PassOverLeftOver(t: Topology) returns (first: Pass)
    requires ValidTopology(t) && t.retiringCoordinators != [] && t.retiringDataInstances != []
    ensures Good(t, first) && first.lag == [] && !Idle(t, first)
    ensures var c := t.retiringCoordinators[0];
      c in t.retiringCoordinators && IsLeader(Index(first.view), c.Name()) && Announced(Index(first.view), c.Name())
    ensures RetiringMainIn(t, first, t.retiringDataInstances[0].name)
    ensures Names(t.dataInstances, t.dataInstances[0].name) && t.dataInstances[0].name !in Index(first.view)
  {
    var c, i := t.retiringCoordinators[0], t.retiringDataInstances[0];
    LeftOverIsValid(t, c, i);
    GrantingIsWilling();
    first := Pass(LeftOver(c, i), [], Granting());
    DeclaredMissing(t, c, i);
    NotIdle(t, first);
  }

  lemma DeclaredMissing(t: Topology, c: CoordinatorSpec, i: DataInstanceSpec)
    requires ValidTopology(t) && c in t.retiringCoordinators && i in t.retiringDataInstances
    ensures t.coordinators[0] in t.coordinators && t.coordinators[0].Name() !in {c.Name(), i.name}
    ensures Names(t.dataInstances, t.dataInstances[0].name) && t.dataInstances[0].name !in {c.Name(), i.name}
  {
    var a, d := t.coordinators[0], t.dataInstances[0];
    assert a in t.coordinators && d in t.dataInstances;
    DeclaredAndRetiringDiffer(t, a, c);
    assert a in AllCoordinators(t) && c in AllCoordinators(t) && d in AllInstances(t) && i in AllInstances(t);
    var k :| 0 <= k < |t.retiringDataInstances| && t.retiringDataInstances[k] == i;
    assert AllInstances(t)[0] == d && AllInstances(t)[|t.dataInstances| + k] == i;
  }

  lemma MovesLate(t: Topology, first: Pass, second: Pass, third: Pass, main: string, name: string)
    requires ValidTopology(t) && Good(t, first) && Good(t, second)
    requires Followed(t, first, second) && Followed(t, second, third)
    requires first.lag == [] && second.lag == [] && third.lag == OneCaughtUp(name)
    requires RetiringMainIn(t, first, main) && Names(t.dataInstances, name) && Reachable(Index(third.view), name)
    ensures !Idle(t, third)
  {
    NobodyTakesOver(t, first, main);
    StaysBlocked(t, first, second, main);
    NobodyTakesOver(t, second, main);
    SomebodyTakesOver(t, third, main, name);
    ConvergesInTwo(t, first, second, third);
  }
}
