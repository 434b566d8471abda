/** Whole runs of the operator against two StatefulSets and a cluster that moves on its own: passes
    that read a lagging cache, apply replica counts, plan, execute and shed, interleaved with
    failovers, elections, lost registrations, refusals, lost answers, crashes and restarts. */
module Retirement {
  import opened Text
  import opened Memgraph
  import opened Planner
  import opened Resources
  import opened Cluster
  import opened PlannerMeaning
  import opened Expectations
  import opened Replicas

  datatype Role = CoordinatorRole | DataRole

  /** One role's StatefulSet. `versions` is every version of its spec ever written, oldest first; the
      cache shows version number `seen`, none while it is zero. */
  datatype RoleState = RoleState(versions: seq<StatefulSet>, seen: nat, declared: nat) {
    function Newest(): nat {
      if versions == [] || versions[|versions| - 1].replicas.None? then 0 else versions[|versions| - 1].replicas.value
    }

    function Version(k: nat): Option<StatefulSet>
      requires k <= |versions|
    {
      if k == 0 then None else Some(versions[k - 1])
    }

    function Cached(): Option<StatefulSet> {
      if seen <= |versions| then Version(seen) else None
    }

    /** An apply that asks for what the spec already says writes nothing; any other is a new
        generation. */
    function Write(replicas: nat, edited: bool): RoleState {
      if versions != [] && !edited && Newest() == replicas then this
      else this.(versions := versions + [StatefulSet(1, |versions| + 1, Some(replicas))])
    }
  }

  /** Where the operator is in a pass. */
  datatype Phase =
    | Idle
    | Observing(appliedCoordinators: nat, appliedData: nat)
    | Executing(commands: seq<Command>)
    | Shedding(coordinators: bool, data: bool)

  datatype World = World(
    spec: Spec,
    external: ExternalAddresses,
    coordinators: RoleState,
    data: RoleState,
    expected: Expected,
    rows: Rows,
    phase: Phase)
  {
    function Of(role: Role): RoleState { if role == CoordinatorRole then coordinators else data }

    function With(role: Role, state: RoleState): World {
      if role == CoordinatorRole then this.(coordinators := state) else this.(data := state)
    }

    function Name(role: Role): NamespacedName {
      NamespacedName(spec.namespace, if role == CoordinatorRole then CoordinatorSetName(spec) else DataSetName(spec))
    }

    function Declares(): Spec { spec.(coordinators := coordinators.declared, dataInstances := data.declared) }

    function Topology(appliedCoordinators: nat, appliedData: nat): Topology {
      TopologyFor(Declares(), external, appliedCoordinators, appliedData)
    }
  }

  /** Whether the role's member on a pod ordinal is one of the cluster's. */
  predicate Member(rows: Rows, role: Role, ordinal: nat) {
    match role
    case CoordinatorRole => Announced(rows, CoordinatorInstanceName(ordinal))
    case DataRole => DataInstanceName(ordinal) in rows
  }

  /* ---- What can happen ---- */

  datatype Action =
    | ClusterMoves
    | CacheAdvances(role: Role, to: nat)
    | CountChanges(role: Role, declared: nat)
    | Restarts
    | Applies(runningCoordinators: nat, runningData: nat, first: Outcome, second: Outcome, edited: bool)
    | GivesUp
    | Observes(view: seq<Instance>, lag: seq<ReplicationLag>)
    | Executes(env: Environment)
    | Sheds(role: Role, outcome: Outcome)

  /** Failovers, elections, health, and registrations lost to a wiped volume; nobody but the operator
      registers a member. A coordinator may come to report itself. */
  ghost predicate MovedOnItsOwn(rows: Rows, rows': Rows) {
    forall role, o: nat :: Member(rows', role, o) ==> Member(rows, role, o)
  }

  /** The count of a role whose StatefulSet the cache does not show is read off pods that some version
      of it ran. */
  ghost predicate RanThem(state: RoleState, running: nat) {
    running == 0 || exists k :: 0 <= k < |state.versions| && state.versions[k].replicas.Some?
                                && running <= state.versions[k].replicas.value
  }

  function Count(w: World, role: Role, running: nat): nat {
    Applied(w.Of(role).declared, w.Of(role).Cached(), running)
  }

  ghost predicate Unseen(w: World, role: Role) {
    !Trusted(w.expected, w.Name(role), w.Of(role).Cached())
  }

  /** The expectations after a pass looked at both: satisfied ones are forgotten. */
  ghost function Looked(w: World): Expected {
    var e := if Unseen(w, CoordinatorRole) then w.expected else w.expected - {w.Name(CoordinatorRole)};
    if Unseen(w, DataRole) then e else e - {w.Name(DataRole)}
  }

  /** The start of a pass: deferred while a shrink is unseen, otherwise both StatefulSets are applied,
      coordinators first, and the pass goes on only when both answers came back. */
  ghost predicate StepApplies(w: World, a: Action, w': World)
    requires a.Applies?
  {
    && w.phase == Idle && RanThem(w.coordinators, a.runningCoordinators) && RanThem(w.data, a.runningData)
    && var looked := w.(expected := Looked(w));
       if Unseen(w, CoordinatorRole) || Unseen(w, DataRole) then w' == looked
       else
         var c, d := Count(w, CoordinatorRole, a.runningCoordinators), Count(w, DataRole, a.runningData);
         var one := if a.first == Refused then looked else looked.With(CoordinatorRole, w.coordinators.Write(c, a.edited));
         if a.first != Accepted then w' == one
         else
           var two := if a.second == Refused then one else one.With(DataRole, w.data.Write(d, a.edited));
           w' == if a.second != Accepted then two else two.(phase := Observing(c, d))
  }

  /** The middle of a pass: plan on the view the leader serves; execute, shed, or end. */
  ghost predicate StepObserves(w: World, a: Action, w': World)
    requires a.Observes?
  {
    && w.phase.Observing? && Index(a.view) == w.rows
    && var t := w.Topology(w.phase.appliedCoordinators, w.phase.appliedData);
       var commands := PlanFor(t, a.view, a.lag);
       w' == w.(phase :=
         if commands != [] then Executing(commands)
         else if (t.retiringCoordinators != [] || t.retiringDataInstances != []) && Retired(t, a.view) then
           Shedding(t.retiringCoordinators != [], t.retiringDataInstances != [])
         else Idle)
  }

  ghost predicate StepExecutes(w: World, a: Action, w': World)
    requires a.Executes?
  {
    && w.phase.Executing? && w.phase.commands != []
    && var e := Run(a.env, w.rows, 0, w.phase.commands[0]);
       w' == w.(rows := e.rows, phase :=
         if e.ok && |w.phase.commands| > 1 then Executing(w.phase.commands[1..]) else Idle)
  }

  /** The end of a retirement: the declared count is applied, and the write expected back once its
      answer is in. */
  ghost predicate StepSheds(w: World, a: Action, w': World)
    requires a.Sheds?
  {
    && w.phase.Shedding?
    && (if a.role == CoordinatorRole then w.phase.coordinators else !w.phase.coordinators && w.phase.data)
    && var shrunk := w.Of(a.role).Write(w.Of(a.role).declared, false);
       match a.outcome
       case Refused => w' == w.(phase := Idle)
       case Lost => w' == w.With(a.role, shrunk).(phase := Idle)
       case Accepted =>
         w' == w.With(a.role, shrunk).(
           expected := w.expected[w.Name(a.role) := Written(1, |shrunk.versions|)],
           phase := if a.role == CoordinatorRole && w.phase.data then Shedding(false, true) else Idle)
  }

  ghost predicate Step(w: World, a: Action, w': World) {
    match a
    case ClusterMoves => w' == w.(rows := w'.rows) && MovedOnItsOwn(w.rows, w'.rows)
    case CacheAdvances(role, to) =>
      w.Of(role).seen <= to <= |w.Of(role).versions| && w' == w.With(role, w.Of(role).(seen := to))
    case CountChanges(role, declared) =>
      // Counts change between passes, while the cache shows the newest write.
      w.phase == Idle && w.Of(role).seen == |w.Of(role).versions| && declared > 0
      && w' == w.With(role, w.Of(role).(declared := declared))
    case Restarts =>
      // A new process starts from a fresh list, with no expectations.
      w' == w.(coordinators := w.coordinators.(seen := |w.coordinators.versions|),
               data := w.data.(seen := |w.data.versions|), expected := map[], phase := Idle)
    case Applies(_, _, _, _, _) => StepApplies(w, a, w')
    case GivesUp => w' == w.(phase := Idle)
    case Observes(_, _) => StepObserves(w, a, w')
    case Executes(_) => StepExecutes(w, a, w')
    case Sheds(_, _) => StepSheds(w, a, w')
  }

  /** A fresh operator before anything exists. */
  ghost predicate Initial(w: World) {
    && w.coordinators.versions == [] && w.data.versions == [] && w.coordinators.seen == 0 && w.data.seen == 0
    && w.coordinators.declared > 0 && w.data.declared > 0
    && w.expected == map[] && w.phase == Idle
    && forall role, o: nat :: !Member(w.rows, role, o)
  }

  ghost predicate Steps(worlds: seq<World>, actions: seq<Action>, k: nat)
    requires k < |actions| < |worlds|
  {
    Step(worlds[k], actions[k], worlds[k + 1])
  }

  ghost predicate Runs(worlds: seq<World>, actions: seq<Action>) {
    && |worlds| == |actions| + 1 && Initial(worlds[0])
    && forall k: nat :: k < |actions| ==> Steps(worlds, actions, k)
  }

  /* ---- Safety: no pod is shed while its member is registered ---- */

  ghost predicate VersionsNumbered(state: RoleState) {
    && state.seen <= |state.versions| && state.declared > 0
    && forall k :: 0 <= k < |state.versions| ==>
         state.versions[k].uid == 1 && state.versions[k].generation == k + 1 && state.versions[k].replicas.Some?
  }

  /** The count a pass would hold to, reading version k. */
  function Held(state: RoleState, k: nat): nat
    requires k <= |state.versions|
  {
    Applied(state.declared, state.Version(k), 0)
  }

  /** A member on an ordinal is covered by the newest count, and by whatever count a pass could still
      read and hold to. */
  ghost predicate Covered(state: RoleState, o: nat)
    requires state.seen <= |state.versions|
  {
    o < state.Newest() && forall k :: state.seen <= k <= |state.versions| ==> o < Held(state, k)
  }

  /** A command adds nobody but declared members. */
  ghost predicate AddsDeclared(w: World, c: Command) {
    && (c.AddCoordinator? ==> c.coordinator.id < w.coordinators.declared)
    && (c.RegisterInstance? || c.UpdateInstanceBoltServer? ==> DeclaresInstance(w, c.instance.name))
  }

  ghost predicate PhaseSound(w: World) {
    match w.phase
    case Idle => true
    case Observing(c, d) => c == w.coordinators.Newest() >= w.coordinators.declared && d == w.data.Newest() >= w.data.declared
    case Executing(commands) =>
      && w.coordinators.Newest() >= w.coordinators.declared && w.data.Newest() >= w.data.declared
      && forall c :: c in commands ==> AddsDeclared(w, c)
    case Shedding(coordinators, data) =>
      && (coordinators ==> forall o: nat :: Member(w.rows, CoordinatorRole, o) ==> o < w.coordinators.declared)
      && (data ==> forall o: nat :: Member(w.rows, DataRole, o) ==> o < w.data.declared)
  }

  ghost predicate Inv(w: World) {
    && VersionsNumbered(w.coordinators) && VersionsNumbered(w.data)
    && (forall role, o: nat :: Member(w.rows, role, o) ==> Covered(w.Of(role), o))
    && PhaseSound(w)
  }

  lemma InitialInv(w: World)
    requires Initial(w)
    ensures Inv(w)
  {
  }

  lemma WriteKeepsNumbers(state: RoleState, replicas: nat, edited: bool)
    requires VersionsNumbered(state)
    ensures VersionsNumbered(state.Write(replicas, edited)) && state.Write(replicas, edited).Newest() == replicas
  {
  }

  /** Writing a count above a covered ordinal keeps it covered. */
  lemma WriteKeepsCovered(state: RoleState, replicas: nat, edited: bool, o: nat)
    requires VersionsNumbered(state) && Covered(state, o) && o < replicas
    ensures Covered(state.Write(replicas, edited), o)
  {
    var written := state.Write(replicas, edited);
    forall k | state.seen <= k <= |written.versions| ensures o < Held(written, k) {
      if k <= |state.versions| {
        assert o < Held(state, k);
      }
    }
  }

  lemma CountsCover(w: World, role: Role, running: nat, o: nat)
    requires Inv(w) && Member(w.rows, role, o)
    ensures o < Count(w, role, running)
  {
    assert Covered(w.Of(role), o);
    assert o < Held(w.Of(role), w.Of(role).seen);
  }

  lemma AppliesKeepsInv(w: World, a: Action, w': World)
    requires Inv(w) && a.Applies? && StepApplies(w, a, w')
    ensures Inv(w')
  {
    if !Unseen(w, CoordinatorRole) && !Unseen(w, DataRole) {
      var c, d := Count(w, CoordinatorRole, a.runningCoordinators), Count(w, DataRole, a.runningData);
      WriteKeepsNumbers(w.coordinators, c, a.edited);
      WriteKeepsNumbers(w.data, d, a.edited);
      forall o: nat | Member(w.rows, CoordinatorRole, o) ensures Covered(w.coordinators.Write(c, a.edited), o) {
        CountsCover(w, CoordinatorRole, a.runningCoordinators, o);
        WriteKeepsCovered(w.coordinators, c, a.edited, o);
      }
      forall o: nat | Member(w.rows, DataRole, o) ensures Covered(w.data.Write(d, a.edited), o) {
        CountsCover(w, DataRole, a.runningData, o);
        WriteKeepsCovered(w.data, d, a.edited, o);
      }
    }
  }

  ghost predicate RetiresCoordinator(t: Topology, o: nat) {
    exists r :: r in t.retiringCoordinators && r.Name() == CoordinatorInstanceName(o)
  }

  ghost predicate RetiresInstance(t: Topology, o: nat) {
    exists r :: r in t.retiringDataInstances && r.name == DataInstanceName(o)
  }

  ghost predicate DeclaresInstance(w: World, name: string) {
    exists o :: 0 <= o < w.data.declared && name == DataInstanceName(o)
  }

  lemma RetiringCoordinatorOrdinal(w: World, c: nat, d: nat, o: nat)
    requires w.coordinators.declared <= o < c
    ensures RetiresCoordinator(w.Topology(c, d), o)
  {
    var r := w.Topology(c, d).retiringCoordinators[o - w.coordinators.declared];
    assert r == Coordinator(w.Declares(), o, "");
    assert r in w.Topology(c, d).retiringCoordinators;
  }

  lemma RetiringInstanceOrdinal(w: World, c: nat, d: nat, o: nat)
    requires w.data.declared <= o < d
    ensures RetiresInstance(w.Topology(c, d), o)
  {
    var r := w.Topology(c, d).retiringDataInstances[o - w.data.declared];
    assert r == DataInstance(w.Declares(), o, "");
    assert r in w.Topology(c, d).retiringDataInstances;
  }

  lemma TopologyRetires(w: World, c: nat, d: nat)
    ensures var t := w.Topology(c, d);
      && (forall o: nat :: w.coordinators.declared <= o < c ==> RetiresCoordinator(t, o))
      && (forall o: nat :: w.data.declared <= o < d ==> RetiresInstance(t, o))
      && (t.retiringCoordinators == [] <==> c <= w.coordinators.declared)
      && (t.retiringDataInstances == [] <==> d <= w.data.declared)
  {
    forall o: nat | w.coordinators.declared <= o < c ensures RetiresCoordinator(w.Topology(c, d), o) {
      RetiringCoordinatorOrdinal(w, c, d, o);
    }
    forall o: nat | w.data.declared <= o < d ensures RetiresInstance(w.Topology(c, d), o) {
      RetiringInstanceOrdinal(w, c, d, o);
    }
  }

  lemma TopologyDeclares(w: World, c: nat, d: nat)
    ensures var t := w.Topology(c, d);
      && (forall m :: m in t.coordinators ==> m.id < w.coordinators.declared)
      && (forall m :: m in t.dataInstances ==> DeclaresInstance(w, m.name))
  {
    var t := w.Topology(c, d);
    forall m | m in t.dataInstances ensures DeclaresInstance(w, m.name) {
      var k :| 0 <= k < |t.dataInstances| && t.dataInstances[k] == m;
      assert m.name == DataInstanceName(k);
    }
  }

  lemma PlanAddsDeclared(w: World, c: nat, d: nat, view: seq<Instance>, lag: seq<ReplicationLag>)
    ensures forall job :: job in PlanFor(w.Topology(c, d), view, lag) ==> AddsDeclared(w, job)
  {
    var t := w.Topology(c, d);
    var s := Situate(t, view, lag);
    SelectHolds(s, Jobs(t, s));
    TopologyDeclares(w, c, d);
    forall job | job in PlanFor(t, view, lag) ensures AddsDeclared(w, job) {
      JobsAreOnly(t, s, job);
    }
  }

  lemma ObservesKeepsInv(w: World, a: Action, w': World)
    requires Inv(w) && a.Observes? && StepObserves(w, a, w')
    ensures Inv(w')
  {
    var c, d := w.phase.appliedCoordinators, w.phase.appliedData;
    var t := w.Topology(c, d);
    PlanAddsDeclared(w, c, d, a.view, a.lag);
    TopologyRetires(w, c, d);
    if w'.phase.Shedding? {
      forall o: nat | Member(w.rows, CoordinatorRole, o) ensures o < w.coordinators.declared {
        assert Covered(w.coordinators, o);
        assert !RetiresCoordinator(t, o);
      }
      forall o: nat | Member(w.rows, DataRole, o) ensures o < w.data.declared {
        assert Covered(w.data, o);
        assert !RetiresInstance(t, o);
      }
    }
  }

  /* ---- Commands add only who they name ---- */

  predicate Adds(c: Command, role: Role, o: nat) {
    match role
    case CoordinatorRole => c.AddCoordinator? && c.coordinator.Name() == CoordinatorInstanceName(o)
    case DataRole => c.RegisterInstance? && c.instance.name == DataInstanceName(o)
  }

  lemma NamesDiffer(m: nat, n: nat)
    ensures CoordinatorInstanceName(m) != DataInstanceName(n)
  {
    RolesNeverShareAName(CoordinatorSpec(m, "", "", ""), n);
  }

  lemma {:induction false} PromotionsAddNobody(env: Environment, rows: Rows, clock: nat, names: seq<string>)
    ensures var e := TryPromotions(env, rows, clock, names);
      e.rows.Keys == rows.Keys && forall n :: n in rows ==> e.rows[n].boltServer == rows[n].boltServer
    decreases |names|
  {
    if names != [] {
      var first := Issue(env, rows, clock, Promote(names[0]));
      if !first.ok {
        PromotionsAddNobody(env, first.rows, first.clock, names[1..]);
      }
    }
  }

  lemma OneCallAdds(env: Environment, rows: Rows, clock: nat, call: Call, role: Role, o: nat)
    requires call.Register? || call.MoveInstance? ==> exists k: nat :: call.instance.name == DataInstanceName(k)
    requires Member(Issue(env, rows, clock, call).rows, role, o)
    ensures || Member(rows, role, o)
            || (role == CoordinatorRole && call.Add? && call.coordinator.Name() == CoordinatorInstanceName(o))
            || (role == DataRole && call.Register? && call.instance.name == DataInstanceName(o))
  {
    if call.Add? {
      NamesDiffer(call.coordinator.id, o);
    }
    if call.Register? || call.MoveInstance? {
      var k :| call.instance.name == DataInstanceName(k);
      NamesDiffer(o, k);
    }
  }

  lemma CommandAdds(w: World, env: Environment, rows: Rows, c: Command, role: Role, o: nat)
    requires AddsDeclared(w, c) && Member(Run(env, rows, 0, c).rows, role, o)
    ensures Member(rows, role, o) || Adds(c, role, o)
  {
    match c
    case AddCoordinator(x) => OneCallAdds(env, rows, 0, Add(x), role, o);
    case RegisterInstance(x) => OneCallAdds(env, rows, 0, Register(x), role, o);
    case UpdateCoordinatorBoltServer(x) => OneCallAdds(env, rows, 0, MoveCoordinator(x), role, o);
    case UpdateInstanceBoltServer(x) => OneCallAdds(env, rows, 0, MoveInstance(x), role, o);
    case SetInstanceToMain(candidates, restore) =>
      PromotionsAddNobody(env, rows, 0, candidates);
      var tried := TryPromotions(env, rows, 0, candidates);
      if !tried.ok && restore != "" {
        OneCallAdds(env, tried.rows, tried.clock, Promote(restore), role, o);
      }
    case DemoteInstance(name) => OneCallAdds(env, rows, 0, Demote(name), role, o);
    case UnregisterInstance(name) => OneCallAdds(env, rows, 0, Unregister(name), role, o);
    case RemoveCoordinator(x) => OneCallAdds(env, rows, 0, Remove(x), role, o);
    case YieldLeadership(_) => OneCallAdds(env, rows, 0, Yield, role, o);
  }

  lemma ExecutesKeepsInv(w: World, a: Action, w': World)
    requires Inv(w) && a.Executes? && StepExecutes(w, a, w')
    ensures Inv(w')
  {
    var command := w.phase.commands[0];
    assert AddsDeclared(w, command);
    assert forall c :: c in w.phase.commands[1..] ==> c in w.phase.commands;
    forall role, o: nat | Member(w'.rows, role, o) ensures Covered(w'.Of(role), o) {
      CommandAdds(w, a.env, w.rows, command, role, o);
      if !Member(w.rows, role, o) {
        AddedIsDeclared(w, command, role, o);
      }
    }
  }

  lemma AddedIsDeclared(w: World, c: Command, role: Role, o: nat)
    requires AddsDeclared(w, c) && Adds(c, role, o)
    ensures o < w.Of(role).declared
  {
    if role == CoordinatorRole {
      CoordinatorNamesAreInjective(c.coordinator, CoordinatorSpec(o, "", "", ""));
    } else {
      var k :| 0 <= k < w.data.declared && c.instance.name == DataInstanceName(k);
      InstanceNamesAreInjective(k, o);
    }
  }

  lemma ShedsKeepsInv(w: World, a: Action, w': World)
    requires Inv(w) && a.Sheds? && StepSheds(w, a, w')
    ensures Inv(w')
  {
    var state := w.Of(a.role);
    WriteKeepsNumbers(state, state.declared, false);
    forall o: nat | Member(w.rows, a.role, o) ensures Covered(state.Write(state.declared, false), o) {
      WriteKeepsCovered(state, state.declared, false, o);
    }
  }

  /** Reading a later version, or declaring another count with the newest one in sight, uncovers
      nobody. */
  lemma StaysCovered(state: RoleState, state': RoleState, o: nat)
    requires VersionsNumbered(state) && Covered(state, o)
    requires state'.versions == state.versions && state.seen <= state'.seen <= |state.versions|
    requires state'.declared == state.declared || state.seen == |state.versions|
    ensures Covered(state', o)
  {
    forall k | state'.seen <= k <= |state'.versions| ensures o < Held(state', k) {
      assert o < Held(state, k);
    }
  }

  /** What the actions outside a pass do to one role. */
  ghost predicate Drifts(state: RoleState, state': RoleState) {
    && state'.versions == state.versions && state.seen <= state'.seen <= |state.versions|
    && state'.declared > 0
    && (state'.declared == state.declared || state.seen == |state.versions|)
  }

  lemma DriftKeepsInv(w: World, w': World)
    requires Inv(w) && Drifts(w.coordinators, w'.coordinators) && Drifts(w.data, w'.data)
    requires MovedOnItsOwn(w.rows, w'.rows) && PhaseSound(w')
    ensures Inv(w')
  {
    forall role, o: nat | Member(w'.rows, role, o) ensures Covered(w'.Of(role), o) {
      assert Member(w.rows, role, o);
      StaysCovered(w.Of(role), w'.Of(role), o);
    }
  }

  lemma OthersKeepInv(w: World, a: Action, w': World)
    requires Inv(w) && Step(w, a, w') && (a.ClusterMoves? || a.CacheAdvances? || a.CountChanges? || a.Restarts? || a.GivesUp?)
    ensures Inv(w')
  {
    assert a.CacheAdvances? ==> w'.phase == w.phase && w'.rows == w.rows;
    if !a.CountChanges? {
      assert forall c :: AddsDeclared(w, c) ==> AddsDeclared(w', c);
    }
    DriftKeepsInv(w, w');
  }

  lemma StepKeepsInv(w: World, a: Action, w': World)
    requires Inv(w) && Step(w, a, w')
    ensures Inv(w')
  {
    match a
    case Applies(_, _, _, _, _) => AppliesKeepsInv(w, a, w');
    case Observes(_, _) => ObservesKeepsInv(w, a, w');
    case Executes(_) => ExecutesKeepsInv(w, a, w');
    case Sheds(_, _) => ShedsKeepsInv(w, a, w');
    case ClusterMoves => OthersKeepInv(w, a, w');
    case CacheAdvances(_, _) => OthersKeepInv(w, a, w');
    case CountChanges(_, _) => OthersKeepInv(w, a, w');
    case Restarts => OthersKeepInv(w, a, w');
    case GivesUp => OthersKeepInv(w, a, w');
  }

  lemma {:induction false} RunsKeepInv(worlds: seq<World>, actions: seq<Action>, k: nat)
    requires Runs(worlds, actions) && k < |worlds|
    ensures Inv(worlds[k])
    decreases k
  {
    if k == 0 {
      InitialInv(worlds[0]);
    } else {
      RunsKeepInv(worlds, actions, k - 1);
      assert Steps(worlds, actions, k - 1);
      StepKeepsInv(worlds[k - 1], actions[k - 1], worlds[k]);
    }
  }

  /** At every moment of every run, each member of the cluster has its pod: its ordinal is below the
      newest replica count of its role. So no count is ever lowered past a member still registered. */
  lemma NoRegisteredPodIsShed(worlds: seq<World>, actions: seq<Action>, k: nat, role: Role, o: nat)
    requires Runs(worlds, actions) && k < |worlds| && Member(worlds[k].rows, role, o)
    ensures o < worlds[k].Of(role).Newest()
  {
    RunsKeepInv(worlds, actions, k);
  }
}
