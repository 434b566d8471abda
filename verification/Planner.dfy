/** The registration planner: the declared topology and an observed view in, the commands still
    needed out, in the order they are to run. */
module Planner {
  import opened Text
  import opened Memgraph

  datatype Topology = Topology(
    coordinators: seq<CoordinatorSpec>,
    dataInstances: seq<DataInstanceSpec>,
    retiringCoordinators: seq<CoordinatorSpec>,
    retiringDataInstances: seq<DataInstanceSpec>)

  datatype Command =
    | AddCoordinator(coordinator: CoordinatorSpec)
    | RegisterInstance(instance: DataInstanceSpec)
    | UpdateCoordinatorBoltServer(coordinator: CoordinatorSpec)
    | UpdateInstanceBoltServer(instance: DataInstanceSpec)
    | SetInstanceToMain(candidates: seq<string>, restore: string)
    | DemoteInstance(name: string)
    | UnregisterInstance(name: string)
    | RemoveCoordinator(coordinator: CoordinatorSpec)
    | YieldLeadership(leader: string)

  type Rows = map<string, Instance>

  /** Presence alone does not prove membership: a fresh coordinator reports itself, with no bolt
      address, before it is ever added. */
  predicate CoordinatorRegistered(rows: Rows, coordinator: CoordinatorSpec) {
    coordinator.Name() in rows && rows[coordinator.Name()].boltServer != ""
  }

  predicate Retires(declared: Topology, name: string) {
    exists i :: 0 <= i < |declared.retiringDataInstances| && declared.retiringDataInstances[i].name == name
  }

  /* ---- What the planner reads off the view ---- */

  /** The retiring instance reported as MAIN, empty when there is none. */
  function RetiringMain(declared: Topology, view: seq<Instance>): string {
    if view == [] then ""
    else
      var last := view[|view| - 1];
      if last.IsMain() && Retires(declared, last.name) then last.name
      else RetiringMain(declared, view[..|view| - 1])
  }

  predicate HasStayingMain(declared: Topology, view: seq<Instance>) {
    exists i :: 0 <= i < |view| && view[i].IsMain() && !Retires(declared, view[i].name)
  }

  /** The first row reported as Raft leader, empty when there is none. */
  function LeaderName(view: seq<Instance>): string {
    if view == [] then ""
    else if view[0].IsLeader() then view[0].name
    else LeaderName(view[1..])
  }

  /** The survivors that may take MAIN over: reachable, and caught up with the MAIN. */
  function HandoverCandidates(instances: seq<DataInstanceSpec>, rows: Rows, lag: map<string, ReplicationLag>)
    : seq<string>
  {
    if instances == [] then []
    else
      var name := instances[|instances| - 1].name;
      HandoverCandidates(instances[..|instances| - 1], rows, lag)
        + if name in rows && rows[name].IsUp() && CaughtUp(lag, name) then [name] else []
  }

  /** The instance to promote when there is no MAIN: the first declared one observed up, or else
      the first declared one. */
  function PromotionTarget(instances: seq<DataInstanceSpec>, rows: Rows): string
    requires instances != []
  {
    if exists i :: 0 <= i < |instances| && Reachable(rows, instances[i].name) then FirstReachable(instances, rows)
    else instances[0].name
  }

  predicate Reachable(rows: Rows, name: string) { name in rows && rows[name].IsUp() }

  function FirstReachable(instances: seq<DataInstanceSpec>, rows: Rows): string
    requires exists i :: 0 <= i < |instances| && Reachable(rows, instances[i].name)
  {
    if Reachable(rows, instances[0].name) then instances[0].name
    else
      assert exists i :: 0 <= i < |instances[1..]| && Reachable(rows, instances[1..][i].name) by {
        var i :| 0 <= i < |instances| && Reachable(rows, instances[i].name);
        assert instances[1..][i - 1] == instances[i];
      }
      FirstReachable(instances[1..], rows)
  }

  /** Everything a plan is decided from. */
  datatype Situation = Situation(
    rows: Rows,
    retiringMain: string,
    stayingMain: bool,
    successors: seq<string>,
    leader: string)
  {
    predicate Handover() { retiringMain != "" && successors != [] }
  }

  function Situate(declared: Topology, view: seq<Instance>, lag: seq<ReplicationLag>): Situation {
    var rows := Index(view);
    var retiringMain := RetiringMain(declared, view);
    Situation(rows, retiringMain, HasStayingMain(declared, view),
      if retiringMain == "" then [] else HandoverCandidates(declared.dataInstances, rows, IndexLag(lag)),
      LeaderName(view))
  }

  /* ---- The plan, as the jobs that are still needed ---- */

  /** Whether one job still has to be done. */
  predicate Needed(s: Situation, job: Command) {
    match job
    case AddCoordinator(c) => !CoordinatorRegistered(s.rows, c)
    case RegisterInstance(i) => i.name !in s.rows
    case UpdateCoordinatorBoltServer(c) => Announced(s.rows, c.Name()) && s.rows[c.Name()].boltServer != c.boltServer
    case UpdateInstanceBoltServer(i) => Announced(s.rows, i.name) && s.rows[i.name].boltServer != i.boltServer
    case DemoteInstance(_) => s.Handover()
    case SetInstanceToMain(_, restore) =>
      !s.stayingMain && if restore == "" then s.retiringMain == "" else s.Handover()
    case UnregisterInstance(name) => name in s.rows && !(name == s.retiringMain && !s.Handover())
    case RemoveCoordinator(c) => c.Name() != s.leader && CoordinatorRegistered(s.rows, c)
    case YieldLeadership(name) => name == s.leader
  }

  predicate Announced(rows: Rows, name: string) { name in rows && rows[name].boltServer != "" }

  function Adds(cs: seq<CoordinatorSpec>): seq<Command> {
    seq(|cs|, i requires 0 <= i < |cs| => AddCoordinator(cs[i]))
  }
  function Registers(ds: seq<DataInstanceSpec>): seq<Command> {
    seq(|ds|, i requires 0 <= i < |ds| => RegisterInstance(ds[i]))
  }
  function CoordinatorUpdates(cs: seq<CoordinatorSpec>): seq<Command> {
    seq(|cs|, i requires 0 <= i < |cs| => UpdateCoordinatorBoltServer(cs[i]))
  }
  function InstanceUpdates(ds: seq<DataInstanceSpec>): seq<Command> {
    seq(|ds|, i requires 0 <= i < |ds| => UpdateInstanceBoltServer(ds[i]))
  }
  function Unregisters(ds: seq<DataInstanceSpec>): seq<Command> {
    seq(|ds|, i requires 0 <= i < |ds| => UnregisterInstance(ds[i].name))
  }
  function Removes(cs: seq<CoordinatorSpec>): seq<Command> {
    seq(|cs|, i requires 0 <= i < |cs| => RemoveCoordinator(cs[i]))
  }
  /** Leadership is yielded at most once, by the retiring coordinator that holds it. */
  function Yields(cs: seq<CoordinatorSpec>, leader: string): seq<Command> {
    if exists i :: 0 <= i < |cs| && cs[i].Name() == leader then [YieldLeadership(leader)] else []
  }

  function Memberships(declared: Topology): seq<Command> {
    Adds(declared.coordinators) + Registers(declared.dataInstances)
      + CoordinatorUpdates(declared.coordinators) + InstanceUpdates(declared.dataInstances)
  }

  function Promotions(declared: Topology, s: Situation): seq<Command> {
    if s.retiringMain != "" then
      [DemoteInstance(s.retiringMain), SetInstanceToMain(s.successors, s.retiringMain)]
    else if declared.dataInstances != [] then
      [SetInstanceToMain([PromotionTarget(declared.dataInstances, s.rows)], "")]
    else []
  }

  function Departures(declared: Topology, s: Situation): seq<Command> {
    Unregisters(declared.retiringDataInstances) + Removes(declared.retiringCoordinators)
      + Yields(declared.retiringCoordinators, s.leader)
  }

  /** Every job a plan may hold, in the order they are to run. */
  function Jobs(declared: Topology, s: Situation): seq<Command> {
    Memberships(declared) + Promotions(declared, s) + Departures(declared, s)
  }

  function Select(s: Situation, jobs: seq<Command>): seq<Command> {
    if jobs == [] then []
    else Select(s, jobs[..|jobs| - 1]) + if Needed(s, jobs[|jobs| - 1]) then [jobs[|jobs| - 1]] else []
  }

  /** The plan for a topology against a view. */
  function PlanFor(declared: Topology, view: seq<Instance>, lag: seq<ReplicationLag>): seq<Command> {
    var s := Situate(declared, view, lag);
    Select(s, Jobs(declared, s))
  }

  lemma {:induction false} SelectConcat(s: Situation, a: seq<Command>, b: seq<Command>)
    ensures Select(s, a + b) == Select(s, a) + Select(s, b)
  {
    if b == [] {
      assert a + b == a;
    } else {
      assert (a + b)[..|a + b| - 1] == a + b[..|b| - 1];
      SelectConcat(s, a, b[..|b| - 1]);
    }
  }

  lemma {:induction false} SelectHolds(s: Situation, jobs: seq<Command>)
    ensures forall c :: c in Select(s, jobs) <==> c in jobs && Needed(s, c)
  {
    if jobs != [] {
      SelectHolds(s, jobs[..|jobs| - 1]);
      assert jobs == jobs[..|jobs| - 1] + [jobs[|jobs| - 1]];
    }
  }

  /* ---- The planner as it runs ---- */

  /** Which retiring instance holds MAIN, and whether a staying one does. */
  method FindMain(declared: Topology, view: seq<Instance>) returns (retiringMain: string, hasMain: bool)
    ensures retiringMain == RetiringMain(declared, view)
    ensures hasMain == HasStayingMain(declared, view)
  {
    retiringMain, hasMain := "", false;
    for k := 0 to |view|
      invariant retiringMain == RetiringMain(declared, view[..k])
      invariant hasMain == HasStayingMain(declared, view[..k])
    {
      assert view[..k + 1][..k] == view[..k];
      if view[k].IsMain() {
        if Retires(declared, view[k].name) {
          retiringMain := view[k].name;
        } else {
          hasMain := true;
          assert view[..k + 1][k] == view[k];
        }
      }
      assert forall i :: 0 <= i < k ==> view[..k + 1][i] == view[..k][i];
    }
    assert view[..|view|] == view;
  }

  method CollectCandidates(instances: seq<DataInstanceSpec>, rows: Rows, lag: map<string, ReplicationLag>)
    returns (candidates: seq<string>)
    ensures candidates == HandoverCandidates(instances, rows, lag)
  {
    candidates := [];
    for k := 0 to |instances|
      invariant candidates == HandoverCandidates(instances[..k], rows, lag)
    {
      assert instances[..k + 1][..k] == instances[..k];
      var name := instances[k].name;
      if name in rows && rows[name].IsUp() {
        if CaughtUp(lag, name) {
          candidates := candidates + [name];
        }
      }
    }
    assert instances[..|instances|] == instances;
  }

  method Registrations(declared: Topology, rows: Rows, ghost s: Situation) returns (commands: seq<Command>)
    requires rows == s.rows
    ensures commands == Select(s, Adds(declared.coordinators)) + Select(s, Registers(declared.dataInstances))
  {
    commands := [];
    ghost var jobs := Adds(declared.coordinators);
    for k := 0 to |declared.coordinators|
      invariant commands == Select(s, jobs[..k])
    {
      Extend(s, jobs, k);
      if !CoordinatorRegistered(rows, declared.coordinators[k]) {
        commands := commands + [AddCoordinator(declared.coordinators[k])];
      }
    }
    assert jobs[..|jobs|] == jobs;
    ghost var done := commands;
    jobs := Registers(declared.dataInstances);
    for k := 0 to |declared.dataInstances|
      invariant commands == done + Select(s, jobs[..k])
    {
      Extend(s, jobs, k);
      if declared.dataInstances[k].name !in rows {
        commands := commands + [RegisterInstance(declared.dataInstances[k])];
      }
    }
    assert jobs[..|jobs|] == jobs;
  }

  /** The address updates of declared members announced somewhere else; a view that reports no
      address moves nobody. */
  method BoltServerUpdates(declared: Topology, rows: Rows, ghost s: Situation) returns (commands: seq<Command>)
    requires rows == s.rows
    ensures commands == Select(s, CoordinatorUpdates(declared.coordinators))
                        + Select(s, InstanceUpdates(declared.dataInstances))
  {
    commands := [];
    ghost var jobs := CoordinatorUpdates(declared.coordinators);
    for k := 0 to |declared.coordinators|
      invariant commands == Select(s, jobs[..k])
    {
      Extend(s, jobs, k);
      var name := declared.coordinators[k].Name();
      if Announced(rows, name) && rows[name].boltServer != declared.coordinators[k].boltServer {
        commands := commands + [UpdateCoordinatorBoltServer(declared.coordinators[k])];
      }
    }
    assert jobs[..|jobs|] == jobs;
    ghost var done := commands;
    jobs := InstanceUpdates(declared.dataInstances);
    for k := 0 to |declared.dataInstances|
      invariant commands == done + Select(s, jobs[..k])
    {
      Extend(s, jobs, k);
      var name := declared.dataInstances[k].name;
      if Announced(rows, name) && rows[name].boltServer != declared.dataInstances[k].boltServer {
        commands := commands + [UpdateInstanceBoltServer(declared.dataInstances[k])];
      }
    }
    assert jobs[..|jobs|] == jobs;
  }

  method Plan(declared: Topology, view: seq<Instance>, lag: seq<ReplicationLag>) returns (commands: seq<Command>)
    ensures commands == PlanFor(declared, view, lag)
  {
    var rows := Index(view);
    var retiringMain, hasMain := FindMain(declared, view);
    var successors: seq<string> := [];
    if retiringMain != "" {
      successors := CollectCandidates(declared.dataInstances, rows, IndexLag(lag));
    }
    var handover := retiringMain != "" && successors != [];
    ghost var s := Situate(declared, view, lag);

    commands := Registrations(declared, rows, s);
    var updates := BoltServerUpdates(declared, rows, s);
    commands := commands + updates;
    assert commands == Select(s, Memberships(declared)) by {
      MembershipsSplit(declared, s);
    }

    var instances := declared.dataInstances;
    ghost var done := commands;
    if handover {
      commands := commands + [DemoteInstance(retiringMain)];
    }
    if handover && !hasMain {
      commands := commands + [SetInstanceToMain(successors, retiringMain)];
    } else if retiringMain == "" && !hasMain && instances != [] {
      commands := commands + [SetInstanceToMain([PromotionTarget(instances, rows)], "")];
    }
    assert commands == done + Select(s, Promotions(declared, s)) by {
      PromotionsSelected(declared, s);
    }

    var departures := PlanDepartures(declared, rows, retiringMain, handover, LeaderName(view), s);
    commands := commands + departures;
    assert commands == Select(s, Jobs(declared, s)) by {
      SelectConcat(s, Memberships(declared), Promotions(declared, s));
      SelectConcat(s, Memberships(declared) + Promotions(declared, s), Departures(declared, s));
    }
  }

  method PlanDepartures(declared: Topology, rows: Rows, retiringMain: string, handover: bool, leader: string,
                        ghost s: Situation)
    returns (commands: seq<Command>)
    requires rows == s.rows && retiringMain == s.retiringMain && handover == s.Handover() && leader == s.leader
    ensures commands == Select(s, Departures(declared, s))
  {
    commands := [];
    ghost var jobs := Unregisters(declared.retiringDataInstances);
    for k := 0 to |declared.retiringDataInstances|
      invariant commands == Select(s, jobs[..k])
    {
      Extend(s, jobs, k);
      var name := declared.retiringDataInstances[k].name;
      if name in rows && !(name == retiringMain && !handover) {
        commands := commands + [UnregisterInstance(name)];
      }
    }
    assert jobs[..|jobs|] == jobs;
    var removals, yieldFrom := PlanRemovals(declared.retiringCoordinators, rows, leader, s);
    commands := commands + removals;
    if yieldFrom {
      commands := commands + [YieldLeadership(leader)];
    }
    DeparturesSplit(declared, s);
  }

  /** The removals of the retiring coordinators that do not lead, and whether one of them does. */
  method PlanRemovals(retiring: seq<CoordinatorSpec>, rows: Rows, leader: string, ghost s: Situation)
    returns (commands: seq<Command>, yieldFrom: bool)
    requires rows == s.rows && leader == s.leader
    ensures commands == Select(s, Removes(retiring))
    ensures yieldFrom <==> exists i :: 0 <= i < |retiring| && retiring[i].Name() == leader
  {
    commands, yieldFrom := [], false;
    ghost var jobs := Removes(retiring);
    for k := 0 to |retiring|
      invariant commands == Select(s, jobs[..k])
      invariant yieldFrom <==> exists i :: 0 <= i < k && retiring[i].Name() == leader
    {
      Extend(s, jobs, k);
      if retiring[k].Name() == leader {
        yieldFrom := true;
      } else if CoordinatorRegistered(rows, retiring[k]) {
        commands := commands + [RemoveCoordinator(retiring[k])];
      }
    }
    assert jobs[..|jobs|] == jobs;
  }

  lemma DeparturesSplit(declared: Topology, s: Situation)
    ensures Select(s, Departures(declared, s)) ==
              Select(s, Unregisters(declared.retiringDataInstances)) + Select(s, Removes(declared.retiringCoordinators))
              + Yields(declared.retiringCoordinators, s.leader)
  {
    var u, r, y := Unregisters(declared.retiringDataInstances), Removes(declared.retiringCoordinators),
        Yields(declared.retiringCoordinators, s.leader);
    SelectConcat(s, u, r);
    SelectConcat(s, u + r, y);
    if y != [] {
      Extend(s, y, 0);
      assert y[..1] == y;
    }
  }

  lemma Extend(s: Situation, jobs: seq<Command>, k: nat)
    requires k < |jobs|
    ensures Select(s, jobs[..k + 1]) == Select(s, jobs[..k]) + if Needed(s, jobs[k]) then [jobs[k]] else []
  {
    assert jobs[..k + 1][..k] == jobs[..k];
  }

  lemma MembershipsSplit(declared: Topology, s: Situation)
    ensures Select(s, Memberships(declared)) ==
              Select(s, Adds(declared.coordinators)) + Select(s, Registers(declared.dataInstances))
              + Select(s, CoordinatorUpdates(declared.coordinators)) + Select(s, InstanceUpdates(declared.dataInstances))
  {
    var a, r, u, v := Adds(declared.coordinators), Registers(declared.dataInstances),
        CoordinatorUpdates(declared.coordinators), InstanceUpdates(declared.dataInstances);
    SelectConcat(s, a, r);
    SelectConcat(s, a + r, u);
    SelectConcat(s, a + r + u, v);
  }

  lemma PromotionsSelected(declared: Topology, s: Situation)
    ensures Select(s, Promotions(declared, s)) ==
              (if s.Handover() then [DemoteInstance(s.retiringMain)] else [])
              + (if s.Handover() && !s.stayingMain then [SetInstanceToMain(s.successors, s.retiringMain)]
                 else if s.retiringMain == "" && !s.stayingMain && declared.dataInstances != [] then
                   [SetInstanceToMain([PromotionTarget(declared.dataInstances, s.rows)], "")]
                 else [])
  {
    var jobs := Promotions(declared, s);
    if s.retiringMain != "" {
      assert jobs == [jobs[0]] + [jobs[1]];
      SelectConcat(s, [jobs[0]], [jobs[1]]);
      Extend(s, [jobs[0]], 0);
      Extend(s, [jobs[1]], 0);
      assert [jobs[0]][..1] == [jobs[0]] && [jobs[1]][..1] == [jobs[1]];
    }
  }

  /** Whether every member a lowered count sheds has left the cluster. */
  predicate Retired(declared: Topology, view: seq<Instance>) {
    var rows := Index(view);
    && (forall i :: i in declared.retiringDataInstances ==> i.name !in rows)
    && (forall c :: c in declared.retiringCoordinators ==> !CoordinatorRegistered(rows, c))
  }

  ghost function Counted(counts: int -> bool, n: nat): set<int> { set i | 0 <= i < n && counts(i) }

  lemma OneMoreCounted(counts: int -> bool, n: nat)
    ensures |Counted(counts, n + 1)| == |Counted(counts, n)| + if counts(n) then 1 else 0
  {
    assert Counted(counts, n + 1) == Counted(counts, n) + if counts(n) then {n as int} else {};
  }

  ghost function CoordinatorsIn(cs: seq<CoordinatorSpec>, rows: Rows): int -> bool {
    i => 0 <= i < |cs| && CoordinatorRegistered(rows, cs[i])
  }

  ghost function InstancesIn(ds: seq<DataInstanceSpec>, rows: Rows): int -> bool { i => 0 <= i < |ds| && ds[i].name in rows }

  /** How many of the declared members the view has registered. */
  method Registered(declared: Topology, view: seq<Instance>) returns (coordinators: nat, dataInstances: nat)
    ensures coordinators == |Counted(CoordinatorsIn(declared.coordinators, Index(view)), |declared.coordinators|)|
    ensures dataInstances == |Counted(InstancesIn(declared.dataInstances, Index(view)), |declared.dataInstances|)|
  {
    var rows := Index(view);
    coordinators, dataInstances := 0, 0;
    for k := 0 to |declared.coordinators|
      invariant coordinators == |Counted(CoordinatorsIn(declared.coordinators, rows), k)|
    {
      OneMoreCounted(CoordinatorsIn(declared.coordinators, rows), k);
      if CoordinatorRegistered(rows, declared.coordinators[k]) {
        coordinators := coordinators + 1;
      }
    }
    for k := 0 to |declared.dataInstances|
      invariant dataInstances == |Counted(InstancesIn(declared.dataInstances, rows), k)|
    {
      OneMoreCounted(InstancesIn(declared.dataInstances, rows), k);
      if declared.dataInstances[k].name in rows {
        dataInstances := dataInstances + 1;
      }
    }
  }
}
