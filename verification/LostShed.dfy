/** A run in which the answer to a shrink is lost: the next pass undoes it, and a later one, with no
    retirement under way, lowers the count again. */
module LostShed {
  import opened Text
  import opened Memgraph
  import opened Planner
  import opened Resources
  import opened Cluster
  import opened PlannerMeaning
  import opened Expectations
  import opened Replicas
  import opened Retirement
  import opened StaleCache
  import opened Convergence

  lemma {:induction false} TryingIsClockless(rows: Rows, clock: nat, names: seq<string>)
    ensures var a, b := TryPromotions(Granting(), rows, clock, names), TryPromotions(Granting(), rows, 0, names);
      a.rows == b.rows && a.ok == b.ok
    decreases |names|
  {
    if names != [] {
      var first, other := Issue(Granting(), rows, clock, Promote(names[0])), Issue(Granting(), rows, 0, Promote(names[0]));
      assert first.rows == other.rows && first.ok == other.ok;
      TryingIsClockless(first.rows, first.clock, names[1..]);
      TryingIsClockless(first.rows, other.clock, names[1..]);
    }
  }

  lemma RunningIsClockless(rows: Rows, clock: nat, c: Command)
    ensures var a, b := Run(Granting(), rows, clock, c), Run(Granting(), rows, 0, c);
      a.rows == b.rows && a.ok == b.ok
  {
    if c.SetInstanceToMain? {
      TryingIsClockless(rows, clock, c.candidates);
    }
  }

  lemma {:induction false} RunningAllIsClockless(rows: Rows, clock: nat, commands: seq<Command>)
    ensures var a, b := RunAll(Granting(), rows, clock, commands), RunAll(Granting(), rows, 0, commands);
      a.rows == b.rows && a.ok == b.ok
    decreases |commands|
  {
    if commands != [] {
      RunningIsClockless(rows, clock, commands[0]);
      var first, other := Run(Granting(), rows, clock, commands[0]), Run(Granting(), rows, 0, commands[0]);
      RunningAllIsClockless(first.rows, first.clock, commands[1..]);
      RunningAllIsClockless(first.rows, other.clock, commands[1..]);
    }
  }

  /* ---- Building a run ---- */

  ghost predicate RunTo(worlds: seq<World>, actions: seq<Action>, w: World) {
    Runs(worlds, actions) && worlds[|worlds| - 1] == w
  }

  ghost predicate IsReachable(w: World) { exists worlds, actions :: RunTo(worlds, actions, w) }

  lemma Extend(worlds: seq<World>, actions: seq<Action>, w: World, a: Action, w': World)
    requires RunTo(worlds, actions, w) && Step(w, a, w')
    ensures RunTo(worlds + [w'], actions + [a], w')
  {
    var more, acts := worlds + [w'], actions + [a];
    forall k: nat | k < |acts| ensures Retirement.Steps(more, acts, k) {
      if k < |actions| {
        assert Retirement.Steps(worlds, actions, k);
      }
    }
  }

  lemma Reaches(w: World, a: Action, w': World)
    requires IsReachable(w) && Step(w, a, w')
    ensures IsReachable(w')
  {
    var worlds, actions :| RunTo(worlds, actions, w);
    Extend(worlds, actions, w, a, w');
  }

  /** Every command of a plan executed in turn, with nothing refused. */
  lemma {:induction false} ReachesExecuted(w: World, commands: seq<Command>)
    requires IsReachable(w) && commands != [] && w.phase == Executing(commands)
    requires RunAll(Granting(), w.rows, 0, commands).ok
    ensures IsReachable(w.(rows := RunAll(Granting(), w.rows, 0, commands).rows, phase := Idle))
    decreases |commands|
  {
    var first := Run(Granting(), w.rows, 0, commands[0]);
    var rest := RunAll(Granting(), first.rows, first.clock, commands[1..]);
    RunningAllIsClockless(first.rows, first.clock, commands[1..]);
    var next := w.(rows := first.rows, phase := if |commands| > 1 then Executing(commands[1..]) else Idle);
    Reaches(w, Executes(Granting()), next);
    if |commands| > 1 {
      ReachesExecuted(next, commands[1..]);
    } else {
      assert commands[1..] == [];
    }
  }

  /* ---- Up to the retirement ---- */

  function One(replicas: nat): StatefulSet { StatefulSet(1, 1, Some(replicas)) }

  /** The operator in a cluster of `coordinators` and `many` data pods of which `few` are declared. */
  function Shrinking(spec: Spec, external: ExternalAddresses, coordinators: nat, few: nat, many: nat, rows: Rows): World {
    World(spec, external, RoleState([One(coordinators)], 1, coordinators), RoleState([One(many)], 1, few), map[], rows, Idle)
  }

  lemma NobodyIsMember(t: Topology, spec: Spec, external: ExternalAddresses)
    requires ValidTopology(t)
    ensures forall role, o: nat :: !Retirement.Member(Index(FreshView(t)), role, o)
  {
    FreshViewIsValid(t);
    IndexOfUniqueNames(FreshView(t));
    var row := FreshView(t)[0];
    assert forall n :: n in Index(FreshView(t)) ==> Index(FreshView(t))[n] == row && n == t.coordinators[0].Name();
    forall o: nat ensures DataInstanceName(o) != t.coordinators[0].Name() {
      RolesNeverShareAName(t.coordinators[0], o);
    }
  }

  /** Both StatefulSets are created, the pass dies, the cache catches up and the data count is lowered
      before anything was registered. */
  lemma ShrinkingIsReachable(spec: Spec, external: ExternalAddresses, coordinators: nat, few: nat, many: nat, rows: Rows)
    requires coordinators > 0 && 0 < few < many && forall role, o: nat :: !Retirement.Member(rows, role, o)
    ensures IsReachable(Shrinking(spec, external, coordinators, few, many, rows))
  {
    var w0 := World(spec, external, RoleState([], 0, coordinators), RoleState([], 0, many), map[], rows, Idle);
    assert RunTo([w0], [], w0);
    var w1 := w0.(coordinators := RoleState([One(coordinators)], 0, coordinators), data := RoleState([One(many)], 0, many),
                  phase := Observing(coordinators, many));
    Reaches(w0, Applies(0, 0, Accepted, Accepted, false), w1);
    var w2 := w1.(phase := Idle);
    Reaches(w1, GivesUp, w2);
    var w3 := w2.(coordinators := w2.coordinators.(seen := 1));
    Reaches(w2, CacheAdvances(CoordinatorRole, 1), w3);
    var w4 := w3.(data := w3.data.(seen := 1));
    Reaches(w3, CacheAdvances(DataRole, 1), w4);
    Reaches(w4, CountChanges(DataRole, few), Shrinking(spec, external, coordinators, few, many, rows));
  }

  /** A pass that holds the larger count and goes on to observe. */
  lemma ReachesObserving(w: World, coordinators: nat, few: nat, many: nat)
    requires IsReachable(w) && coordinators > 0 && 0 < few < many
    requires w == Shrinking(w.spec, w.external, coordinators, few, many, w.rows)
    ensures IsReachable(w.(phase := Observing(coordinators, many)))
  {
    Reaches(w, Applies(0, 0, Accepted, Accepted, false), w.(phase := Observing(coordinators, many)));
  }

  /** The declared members registered and a MAIN elected, the retiring instances never registered: the
      pass is about to shed them. */
  ghost predicate SetUp(w: World, coordinators: nat, few: nat, many: nat, t: Topology) {
    && w == Shrinking(w.spec, w.external, coordinators, few, many, w.rows)
    && t == w.Topology(coordinators, many)
    && ValidRows(t, w.rows) && AllDeclaredInPlace(t, w.rows) && HasMain(w.rows)
    && forall i :: i in t.retiringDataInstances ==> i.name !in w.rows
  }

  lemma ReachesSetUp(spec: Spec, external: ExternalAddresses, coordinators: nat, few: nat, many: nat) returns (w: World)
    requires coordinators > 0 && 0 < few < many
    ensures IsReachable(w) && SetUp(w, coordinators, few, many, w.Topology(coordinators, many))
  {
    var declared := spec.(coordinators := coordinators, dataInstances := few);
    var t := TopologyFor(declared, external, coordinators, many);
    TopologiesAreValid(declared, external, coordinators, many);
    FreshViewIsValid(t);
    var view := FreshView(t);
    NobodyIsMember(t, spec, external);
    var w0 := Shrinking(spec, external, coordinators, few, many, Index(view));
    ShrinkingIsReachable(spec, external, coordinators, few, many, Index(view));
    ReachesObserving(w0, coordinators, few, many);
    assert w0.Topology(coordinators, many) == t;
    var commands := PlanFor(t, view, []);
    NoMainYet(t);
    EmptyPlanMeans(t, view, []);
    GrantingIsWilling();
    OnePass(t, view, [], Granting());
    Reaches(w0.(phase := Observing(coordinators, many)), Observes(view, []), w0.(phase := Executing(commands)));
    ReachesExecuted(w0.(phase := Executing(commands)), commands);
    var rows := RunAll(Granting(), Index(view), 0, commands).rows;
    w := w0.(rows := rows);
    NothingRetiringJoins(t, rows);
  }

  lemma NoMainYet(t: Topology)
    requires ValidTopology(t)
    ensures !HasMain(Index(FreshView(t)))
  {
    IndexOfUniqueNames(FreshView(t));
    assert |"main"| == 4 && |"leader"| == 6;
    forall n | n in Index(FreshView(t)) ensures !IsMain(Index(FreshView(t)), n) {
      assert Index(FreshView(t))[n] in FreshView(t);
    }
  }

  lemma NothingRetiringJoins(t: Topology, rows: Rows)
    requires ValidTopology(t) && Advanced(t, Situate(t, FreshView(t), []), rows)
    ensures forall i :: i in t.retiringDataInstances ==> i.name !in rows
  {
    FreshViewIsValid(t);
    SituationReads(t, FreshView(t), []);
    NoMainYet(t);
    var s := Situate(t, FreshView(t), []);
    assert s.retiringMain == "" by {
      assert forall n :: !IsMain(Index(FreshView(t)), n);
    }
  }

  lemma ReachesShedding(w: World, coordinators: nat, few: nat, many: nat)
    requires IsReachable(w) && coordinators > 0 && 0 < few < many && SetUp(w, coordinators, few, many, w.Topology(coordinators, many))
    ensures IsReachable(w.(phase := Shedding(false, true)))
  {
    var t := w.Topology(coordinators, many);
    TopologiesAreValid(w.Declares(), w.external, coordinators, many);
    TopologyRetires(w, coordinators, many);
    ReachesObserving(w, coordinators, few, many);
    var view := ViewOf(w.rows);
    EmptyPlanMeans(t, view, []);
    assert PlanFor(t, view, []) == [] && Retired(t, view);
    Reaches(w.(phase := Observing(coordinators, many)), Observes(view, []), w.(phase := Shedding(false, true)));
  }

  /* ---- The lost answer and what follows ---- */

  /** Step k sheds the role and loses the answer; the next pass acts, counts what it should not, and
      raises the count again; and a pass that sheds nothing lowers it after all. */
  ghost predicate UndoneAndRedone(worlds: seq<World>, actions: seq<Action>, role: Role, k: nat) {
    && k + 5 <= |actions| < |worlds| && LosesShed(actions[k], role)
    && actions[k + 1].Applies? && Acts(worlds[k + 1]) && !CountsFresh(worlds, actions, role, k + 1)
    && worlds[k + 2].Of(role).Newest() > worlds[k + 1].Of(role).Newest()
    && actions[k + 4].Applies? && Acts(worlds[k + 4])
    && worlds[k + 5].Of(role).Newest() < worlds[k + 4].Of(role).Newest()
  }

  function Two(few: nat): StatefulSet { StatefulSet(1, 2, Some(few)) }
  function Three(many: nat): StatefulSet { StatefulSet(1, 3, Some(many)) }
  function Four(few: nat): StatefulSet { StatefulSet(1, 4, Some(few)) }

  lemma FiveSteps(w0: World, w1: World, w2: World, w3: World, w4: World, w5: World, coordinators: nat, few: nat, many: nat)
    requires coordinators > 0 && 0 < few < many
    requires w0 == Shrinking(w0.spec, w0.external, coordinators, few, many, w0.rows).(phase := Shedding(false, true))
    requires w1 == w0.(data := RoleState([One(many), Two(few)], 1, few), phase := Idle)
    requires w2 == w1.(data := RoleState([One(many), Two(few), Three(many)], 1, few), phase := Observing(coordinators, many))
    requires w3 == w2.(phase := Idle) && w4 == w3.(data := w3.data.(seen := 2))
    requires w5 == w4.(data := RoleState([One(many), Two(few), Three(many), Four(few)], 2, few), phase := Observing(coordinators, few))
    ensures Step(w0, Sheds(DataRole, Lost), w1) && Step(w1, Applies(0, 0, Accepted, Accepted, false), w2) && Step(w2, GivesUp, w3)
    ensures Step(w3, CacheAdvances(DataRole, 2), w4) && Step(w4, Applies(0, 0, Accepted, Accepted, false), w5)
    ensures Acts(w1) && Acts(w4) && Count(w1, DataRole, 0) == many
  {
  }

  /** More steps of a run. */
  lemma ExtendBy(worlds: seq<World>, actions: seq<Action>, ws: seq<World>, acts: seq<Action>)
    requires |ws| == |acts| + 1 && RunTo(worlds, actions, ws[0])
    requires forall i: nat :: i < |acts| ==> Retirement.Steps(ws, acts, i)
    ensures Runs(worlds + ws[1..], actions + acts)
    ensures forall i: nat :: i < |ws| ==> (worlds + ws[1..])[|actions| + i] == ws[i]
  {
    var more, all := worlds + ws[1..], actions + acts;
    forall i: nat | i < |ws| ensures more[|actions| + i] == ws[i] {}
    forall k: nat | k < |all| ensures Retirement.Steps(more, all, k) {
      if k < |actions| {
        assert Retirement.Steps(worlds, actions, k);
      } else {
        assert Retirement.Steps(ws, acts, k - |actions|);
        assert more[|actions| + (k - |actions| + 1)] == ws[k - |actions| + 1];
      }
    }
  }

  lemma SheddingIsReachable(spec: Spec, external: ExternalAddresses, coordinators: nat, few: nat, many: nat) returns (w: World)
    requires coordinators > 0 && 0 < few < many
    ensures IsReachable(w) && w == Shrinking(w.spec, w.external, coordinators, few, many, w.rows).(phase := Shedding(false, true))
  {
    var ready := ReachesSetUp(spec, external, coordinators, few, many);
    ReachesShedding(ready, coordinators, few, many);
    w := ready.(phase := Shedding(false, true));
  }

  function LossAndAfter(): seq<Action> {
    [Sheds(DataRole, Lost), Applies(0, 0, Accepted, Accepted, false), GivesUp, CacheAdvances(DataRole, 2),
     Applies(0, 0, Accepted, Accepted, false)]
  }

  lemma LossRuns(w0: World, coordinators: nat, few: nat, many: nat) returns (ws: seq<World>)
    requires coordinators > 0 && 0 < few < many
    requires w0 == Shrinking(w0.spec, w0.external, coordinators, few, many, w0.rows).(phase := Shedding(false, true))
    ensures |ws| == 6 && ws[0] == w0 && forall i: nat :: i < 5 ==> Retirement.Steps(ws, LossAndAfter(), i)
    ensures UndoneAndRedone(ws, LossAndAfter(), DataRole, 0)
  {
    var w1 := w0.(data := RoleState([One(many), Two(few)], 1, few), phase := Idle);
    var w2 := w1.(data := RoleState([One(many), Two(few), Three(many)], 1, few), phase := Observing(coordinators, many));
    var w3 := w2.(phase := Idle);
    var w4 := w3.(data := w3.data.(seen := 2));
    var w5 := w4.(data := RoleState([One(many), Two(few), Three(many), Four(few)], 2, few), phase := Observing(coordinators, few));
    FiveSteps(w0, w1, w2, w3, w4, w5, coordinators, few, many);
    ws := [w0, w1, w2, w3, w4, w5];
    forall i: nat | i < 5 ensures Retirement.Steps(ws, LossAndAfter(), i) {
      assert i == 0 || i == 1 || i == 2 || i == 3 || i == 4;
    }
  }

  lemma ShowsLater(worlds: seq<World>, actions: seq<Action>, ws: seq<World>, k: nat)
    requires |ws| == 6 && UndoneAndRedone(ws, LossAndAfter(), DataRole, 0)
    requires k + 5 == |actions| < |worlds| && actions[k..] == LossAndAfter()
    requires forall i: nat :: i < 6 ==> worlds[k + i] == ws[i]
    ensures UndoneAndRedone(worlds, actions, DataRole, k)
  {
    assert worlds[k + 1] == ws[1] && worlds[k + 2] == ws[2] && worlds[k + 4] == ws[4] && worlds[k + 5] == ws[5];
    assert actions[k] == actions[k..][0] && actions[k + 1] == actions[k..][1] && actions[k + 4] == actions[k..][4];
  }

  lemma LossFollows(worlds: seq<World>, actions: seq<Action>, w0: World, coordinators: nat, few: nat, many: nat)
    requires RunTo(worlds, actions, w0) && coordinators > 0 && 0 < few < many
    requires w0 == Shrinking(w0.spec, w0.external, coordinators, few, many, w0.rows).(phase := Shedding(false, true))
    ensures exists more, all, k :: Runs(more, all) && UndoneAndRedone(more, all, DataRole, k)
  {
    var ws := LossRuns(w0, coordinators, few, many);
    ExtendBy(worlds, actions, ws, LossAndAfter());
    assert (actions + LossAndAfter())[|actions|..] == LossAndAfter();
    ShowsLater(worlds + ws[1..], actions + LossAndAfter(), ws, |actions|);
  }

  /** However an operator is to lower a data count, in whatever cluster: it can lose the answer, have
      the next pass undo the shrink because its cache does not show it, and have a later pass, which
      retires nothing, lower the count again. */
  lemma LostShedIsUndoneAndRedone(spec: Spec, external: ExternalAddresses, coordinators: nat, few: nat, many: nat)
    requires coordinators > 0 && 0 < few < many
    ensures exists worlds, actions, k :: Runs(worlds, actions) && UndoneAndRedone(worlds, actions, DataRole, k)
  {
    var w0 := SheddingIsReachable(spec, external, coordinators, few, many);
    var worlds, actions :| RunTo(worlds, actions, w0);
    LossFollows(worlds, actions, w0, coordinators, few, many);
  }
}
