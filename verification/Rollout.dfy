/** The rolling restart: from both roles' pods, the leader's view and the lag, the next step of it. */
module Rollout {
  import opened Text
  import opened Memgraph
  import opened Planner
  import opened Cluster

  datatype Pod = Pod(
    name: string,
    uid: string,
    instance: string,
    ordinal: nat,
    revisionHash: string,
    current: bool,
    ready: bool)

  datatype Role = Role(replicas: nat, updateRevision: string, stale: bool, pods: seq<Pod>)

  datatype Reason =
    | WorkloadsNotReady
    | NoMainElected
    | NoCaughtUpSurvivor
    | WaitingForCatchUp
    | NoCoordinatorLeader

  datatype Decision = Done | Wait(reason: Reason) | Delete(pod: Pod)

  type Lags = map<string, ReplicationLag>

  /* ---- What is read off a role's pods ---- */

  /** A pod the roll still has to restart. Without a revision, or without a label, nothing is. */
  predicate IsOutdated(revision: string, pod: Pod) {
    revision != "" && pod.revisionHash != "" && pod.revisionHash != revision && !pod.current
  }

  /** A pod the roll has restarted, or need not restart. */
  predicate IsUpdated(revision: string, pod: Pod) {
    revision != "" && (pod.revisionHash == revision || pod.current)
  }

  function OutdatedAmong(revision: string, pods: seq<Pod>): (pending: seq<Pod>)
    ensures forall p :: p in pending <==> p in pods && IsOutdated(revision, p)
    ensures revision == "" ==> pending == []
  {
    if pods == [] then []
    else
      OutdatedAmong(revision, pods[..|pods| - 1])
      + if IsOutdated(revision, pods[|pods| - 1]) then [pods[|pods| - 1]] else []
  }

  function UpdatedAmong(revision: string, pods: seq<Pod>): (done: seq<Pod>)
    ensures forall p :: p in done <==> p in pods && IsUpdated(revision, p)
    ensures revision == "" ==> done == []
  {
    if pods == [] then []
    else
      UpdatedAmong(revision, pods[..|pods| - 1])
      + if IsUpdated(revision, pods[|pods| - 1]) then [pods[|pods| - 1]] else []
  }

  function OutdatedPods(role: Role): seq<Pod> { OutdatedAmong(role.updateRevision, role.pods) }
  function UpdatedPods(role: Role): seq<Pod> { UpdatedAmong(role.updateRevision, role.pods) }

  method Outdated(role: Role) returns (pending: seq<Pod>)
    ensures pending == OutdatedPods(role)
    ensures forall p :: p in pending <==> p in role.pods && IsOutdated(role.updateRevision, p)
  {
    pending := [];
    if role.updateRevision == "" {
      return;
    }
    for k := 0 to |role.pods|
      invariant pending == OutdatedAmong(role.updateRevision, role.pods[..k])
    {
      assert role.pods[..k + 1][..k] == role.pods[..k];
      var pod := role.pods[k];
      if pod.revisionHash != "" && pod.revisionHash != role.updateRevision && !pod.current {
        pending := pending + [pod];
      }
    }
    assert role.pods[..|role.pods|] == role.pods;
  }

  method Updated(role: Role) returns (done: seq<Pod>)
    ensures done == UpdatedPods(role)
    ensures forall p :: p in done <==> p in role.pods && IsUpdated(role.updateRevision, p)
  {
    done := [];
    if role.updateRevision == "" {
      return;
    }
    for k := 0 to |role.pods|
      invariant done == UpdatedAmong(role.updateRevision, role.pods[..k])
    {
      assert role.pods[..k + 1][..k] == role.pods[..k];
      var pod := role.pods[k];
      if pod.revisionHash == role.updateRevision || pod.current {
        done := done + [pod];
      }
    }
    assert role.pods[..|role.pods|] == role.pods;
  }

  /** The first pod of the highest ordinal not running the named instance. */
  function HighestExcept(pending: seq<Pod>, instance: string): (next: Option<Pod>)
    ensures next.None? <==> forall p :: p in pending ==> p.instance == instance
    ensures next.Some? ==> next.value in pending && next.value.instance != instance
    ensures next.Some? ==> forall p :: p in pending && p.instance != instance ==> p.ordinal <= next.value.ordinal
  {
    if pending == [] then None
    else
      var before := HighestExcept(pending[..|pending| - 1], instance);
      var pod := pending[|pending| - 1];
      if pod.instance == instance then before
      else if before.None? || pod.ordinal > before.value.ordinal then Some(pod)
      else before
  }

  /** Of several of the same ordinal it is the first. */
  ghost predicate FirstOfItsOrdinal(pending: seq<Pod>, instance: string, pod: Pod, i: nat) {
    && i < |pending| && pending[i] == pod
    && forall j :: 0 <= j < i ==> pending[j].instance == instance || pending[j].ordinal < pod.ordinal
  }

  lemma {:induction false} HighestIsFirst(pending: seq<Pod>, instance: string)
    ensures HighestExcept(pending, instance).Some? ==>
              exists i: nat :: FirstOfItsOrdinal(pending, instance, HighestExcept(pending, instance).value, i)
  {
    if pending != [] {
      var shorter, pod := pending[..|pending| - 1], pending[|pending| - 1];
      HighestIsFirst(shorter, instance);
      var before, next := HighestExcept(shorter, instance), HighestExcept(pending, instance);
      if next.Some? && next == before {
        var i: nat :| FirstOfItsOrdinal(shorter, instance, before.value, i);
        assert FirstOfItsOrdinal(pending, instance, next.value, i);
      } else if next.Some? {
        forall j | 0 <= j < |shorter| ensures pending[j].instance == instance || pending[j].ordinal < pod.ordinal {
          assert pending[j] == shorter[j] && shorter[j] in shorter;
        }
        assert FirstOfItsOrdinal(pending, instance, next.value, |pending| - 1);
      }
    }
  }

  method HighestOrdinalExcept(pending: seq<Pod>, instance: string) returns (next: Option<Pod>)
    ensures next == HighestExcept(pending, instance)
  {
    next := None;
    for k := 0 to |pending|
      invariant next == HighestExcept(pending[..k], instance)
    {
      assert pending[..k + 1][..k] == pending[..k];
      var pod := pending[k];
      if pod.instance != instance {
        if next.None? || pod.ordinal > next.value.ordinal {
          next := Some(pod);
        }
      }
    }
    assert pending[..|pending|] == pending;
  }

  /* ---- What is read off the leader's view ---- */

  /** A name the view does not cover reads as an instance nobody can reach. */
  predicate Up(rows: Rows, instance: string) { instance in rows && rows[instance].IsUp() }

  /** The instance reported as MAIN, reachable or not; empty when none is. Should several be
      reported, any one of them: iteration over the rows has no order. */
  ghost function MainInstance(rows: Rows): (name: string)
    ensures (exists n :: IsMain(rows, n)) ==> IsMain(rows, name)
    ensures (forall n :: !IsMain(rows, n)) ==> name == ""
  {
    if exists n :: IsMain(rows, n) then var n :| IsMain(rows, n); n else ""
  }

  ghost function LeaderInstance(rows: Rows): (name: string)
    ensures (exists n :: IsLeader(rows, n)) ==> IsLeader(rows, name)
    ensures (forall n :: !IsLeader(rows, n)) ==> name == ""
  {
    if exists n :: IsLeader(rows, n) then var n :| IsLeader(rows, n); n else ""
  }

  /* ---- The gates ---- */

  /** Every pod of the role exists and is ready. */
  predicate Present(role: Role) {
    |role.pods| == role.replicas && forall p :: p in role.pods ==> p.ready
  }

  /** Back in replication: reachable, and holding every transaction the MAIN has committed. */
  predicate Replicating(rows: Rows, lags: Lags, pod: Pod) {
    Up(rows, pod.instance) && CaughtUp(lags, pod.instance)
  }

  function FirstNot(pods: seq<Pod>, ok: Pod -> bool): (first: Option<Pod>)
    ensures first.None? <==> forall p :: p in pods ==> ok(p)
    ensures first.Some? ==> first.value in pods && !ok(first.value)
  {
    if pods == [] then None
    else if !ok(pods[0]) then Some(pods[0])
    else FirstNot(pods[1..], ok)
  }

  /** The reason the restarted pods hold the roll up, read off the first that does. */
  function Holdup(rows: Rows, pod: Pod): Reason {
    if !Up(rows, pod.instance) then WorkloadsNotReady else WaitingForCatchUp
  }

  /** The data role's step, once an instance is taken for the MAIN. */
  function NextDataInstance(data: Role, rows: Rows, lags: Lags, main: string): Decision
    requires OutdatedPods(data) != []
  {
    if !Present(data) then Wait(WorkloadsNotReady)
    else if main == "" then Wait(NoMainElected)
    else
      var next := HighestExcept(OutdatedPods(data), main);
      if next.Some? then
        var late := FirstNot(UpdatedPods(data), p => Replicating(rows, lags, p));
        if late.Some? then Wait(Holdup(rows, late.value)) else Delete(next.value)
      else
        var mainPod := OutdatedPods(data)[0];
        if data.replicas == 1 then Delete(mainPod)
        else if !Up(rows, main) then Wait(WorkloadsNotReady)
        else if exists p :: p in data.pods && p.instance != main && Replicating(rows, lags, p) then Delete(mainPod)
        else Wait(NoCaughtUpSurvivor)
  }

  function NextCoordinator(coordinators: Role, rows: Rows, leader: string): Decision
    requires OutdatedPods(coordinators) != []
  {
    if !Present(coordinators) then Wait(WorkloadsNotReady)
    else if exists p :: p in UpdatedPods(coordinators) && !Up(rows, p.instance) then Wait(WorkloadsNotReady)
    else if leader == "" then Wait(NoCoordinatorLeader)
    else
      var next := HighestExcept(OutdatedPods(coordinators), leader);
      Delete(if next.Some? then next.value else OutdatedPods(coordinators)[0])
  }

  /** The one action toward both roles running their StatefulSets' current pod template, once an
      instance is taken for the MAIN and one for the leader. */
  function NextFor(data: Role, coordinators: Role, view: seq<Instance>, lag: seq<ReplicationLag>, main: string, leader: string): Decision {
    if data.stale || coordinators.stale then Wait(WorkloadsNotReady)
    else if OutdatedPods(data) != [] then NextDataInstance(data, Index(view), IndexLag(lag), main)
    else if OutdatedPods(coordinators) == [] then Done
    else if !Present(data) then Wait(WorkloadsNotReady)
    else NextCoordinator(coordinators, Index(view), leader)
  }

  ghost function Next(data: Role, coordinators: Role, view: seq<Instance>, lag: seq<ReplicationLag>): Decision {
    NextFor(data, coordinators, view, lag, MainInstance(Index(view)), LeaderInstance(Index(view)))
  }

  predicate InProgress(role: Role) { OutdatedPods(role) != [] }

  /* ---- The decision, step by step ---- */

  /** An instance the rows report as MAIN, or none when they report none. */
  ghost predicate PicksMain(rows: Rows, name: string) {
    if exists n :: IsMain(rows, n) then IsMain(rows, name) else name == ""
  }

  ghost predicate PicksLeader(rows: Rows, name: string) {
    if exists n :: IsLeader(rows, n) then IsLeader(rows, name) else name == ""
  }

  method FindMainInstance(rows: Rows) returns (name: string)
    ensures PicksMain(rows, name)
  {
    var left := rows.Keys;
    while left != {}
      invariant left <= rows.Keys
      invariant forall n :: n in rows && n !in left ==> !IsMain(rows, n)
      decreases |left|
    {
      var n :| n in left;
      if rows[n].IsMain() {
        assert IsMain(rows, n);
        return n;
      }
      left := left - {n};
    }
    name := "";
  }

  method FindLeaderInstance(rows: Rows) returns (name: string)
    ensures PicksLeader(rows, name)
  {
    var left := rows.Keys;
    while left != {}
      invariant left <= rows.Keys
      invariant forall n :: n in rows && n !in left ==> !IsLeader(rows, n)
      decreases |left|
    {
      var n :| n in left;
      if rows[n].IsLeader() {
        assert IsLeader(rows, n);
        return n;
      }
      left := left - {n};
    }
    name := "";
  }

  method RestartDataInstance(data: Role, rows: Rows, lags: Lags) returns (d: Decision)
    requires OutdatedPods(data) != []
    ensures exists main :: PicksMain(rows, main) && d == NextDataInstance(data, rows, lags, main)
  {
    var main := FindMainInstance(rows);
    if !Present(data) {
      return Wait(WorkloadsNotReady);
    }
    if main == "" {
      return Wait(NoMainElected);
    }
    var pending := Outdated(data);
    var next := HighestOrdinalExcept(pending, main);
    if next.Some? {
      var done := Updated(data);
      var late := FirstNot(done, p => Replicating(rows, lags, p));
      return if late.Some? then Wait(Holdup(rows, late.value)) else Delete(next.value);
    }
    if data.replicas == 1 {
      return Delete(pending[0]);
    }
    if !Up(rows, main) {
      return Wait(WorkloadsNotReady);
    }
    for k := 0 to |data.pods|
      invariant forall i :: 0 <= i < k ==> data.pods[i].instance == main || !Replicating(rows, lags, data.pods[i])
    {
      if data.pods[k].instance != main && Replicating(rows, lags, data.pods[k]) {
        assert data.pods[k] in data.pods;
        return Delete(pending[0]);
      }
    }
    return Wait(NoCaughtUpSurvivor);
  }

  method RestartCoordinator(coordinators: Role, rows: Rows) returns (d: Decision)
    requires OutdatedPods(coordinators) != []
    ensures exists leader :: PicksLeader(rows, leader) && d == NextCoordinator(coordinators, rows, leader)
  {
    var leader := FindLeaderInstance(rows);
    if !Present(coordinators) {
      return Wait(WorkloadsNotReady);
    }
    var done := Updated(coordinators);
    for k := 0 to |done|
      invariant forall i :: 0 <= i < k ==> Up(rows, done[i].instance)
    {
      if !Up(rows, done[k].instance) {
        assert done[k] in UpdatedPods(coordinators);
        return Wait(WorkloadsNotReady);
      }
    }
    if leader == "" {
      return Wait(NoCoordinatorLeader);
    }
    var pending := Outdated(coordinators);
    var next := HighestOrdinalExcept(pending, leader);
    return Delete(if next.Some? then next.value else pending[0]);
  }

  /** The decision for one of the instances reported as MAIN and one of those reported as leader; for
      the MAIN and the leader, where the view names one of each at most. */
  method NextRestart(data: Role, coordinators: Role, view: seq<Instance>, lag: seq<ReplicationLag>) returns (d: Decision)
    ensures exists main, leader :: PicksMain(Index(view), main) && PicksLeader(Index(view), leader)
                                   && d == NextFor(data, coordinators, view, lag, main, leader)
    ensures AtMostOneMain(Index(view)) && AtMostOneLeader(Index(view)) ==> d == Next(data, coordinators, view, lag)
  {
    var rows, lags := Index(view), IndexLag(lag);
    ghost var main, leader := MainInstance(rows), LeaderInstance(rows);
    assert PicksMain(rows, main) && PicksLeader(rows, leader);
    if data.stale {
      assert Wait(WorkloadsNotReady) == NextFor(data, coordinators, view, lag, main, leader);
      return Wait(WorkloadsNotReady);
    }
    if coordinators.stale {
      assert Wait(WorkloadsNotReady) == NextFor(data, coordinators, view, lag, main, leader);
      return Wait(WorkloadsNotReady);
    }
    var pending := Outdated(data);
    if pending != [] {
      d := RestartDataInstance(data, rows, lags);
      ghost var picked :| PicksMain(rows, picked) && d == NextDataInstance(data, rows, lags, picked);
      assert d == NextFor(data, coordinators, view, lag, picked, leader);
      return;
    }
    pending := Outdated(coordinators);
    if pending == [] {
      assert Done == NextFor(data, coordinators, view, lag, main, leader);
      return Done;
    }
    if !Present(data) {
      assert Wait(WorkloadsNotReady) == NextFor(data, coordinators, view, lag, main, leader);
      return Wait(WorkloadsNotReady);
    }
    d := RestartCoordinator(coordinators, rows);
    ghost var picked :| PicksLeader(rows, picked) && d == NextCoordinator(coordinators, rows, picked);
    assert d == NextFor(data, coordinators, view, lag, main, picked);
  }

  /* ---- What a decision means ---- */

  /** Exactly the pods still to restart, but for those on the named instance. */
  ghost predicate OnlyOn(pods: seq<Pod>, instance: string) {
    forall p :: p in pods ==> p.instance == instance
  }

  /** The pod is the next of its role: the highest ordinal off the held instance, or on the held
      instance with nothing else left. */
  ghost predicate NextOf(pod: Pod, pending: seq<Pod>, held: string) {
    && pod in pending
    && (pod.instance == held ==> OnlyOn(pending, held))
    && (pod.instance != held ==> forall p :: p in pending && p.instance != held ==> p.ordinal <= pod.ordinal)
  }

  /** The step past the presence of every data pod and a MAIN: off the MAIN, all the pods already
      restarted replicate; on the MAIN, it is the only instance, or the MAIN is reachable and some
      other pod replicates. */
  ghost predicate DataStepIsSafe(data: Role, rows: Rows, lags: Lags, main: string) {
    if OnlyOn(OutdatedPods(data), main) then
      data.replicas == 1 || (Up(rows, main) && exists p :: p in data.pods && p.instance != main && Replicating(rows, lags, p))
    else
      forall p :: p in data.pods && IsUpdated(data.updateRevision, p) ==> Replicating(rows, lags, p)
  }

  /** A data pod goes exactly while every data pod is present, there is a MAIN, and the step is safe;
      then it is the one whose turn it is. */
  lemma DataInstanceRestarts(data: Role, rows: Rows, lags: Lags, main: string)
    requires OutdatedPods(data) != []
    ensures var d := NextDataInstance(data, rows, lags, main);
      && (d.Delete? <==> Present(data) && main != "" && DataStepIsSafe(data, rows, lags, main))
      && (d.Delete? ==> NextOf(d.pod, OutdatedPods(data), main))
      && d != Done
  {
    var pending := OutdatedPods(data);
    assert pending[0] in pending;
    var next := HighestExcept(pending, main);
    assert next.None? <==> OnlyOn(pending, main);
    var late := FirstNot(UpdatedPods(data), p => Replicating(rows, lags, p));
    assert late.None? <==> forall p :: p in UpdatedPods(data) ==> Replicating(rows, lags, p);
  }

  /** Data first: while a data pod is outdated, the decision is about a data pod alone. */
  lemma DataRestarts(data: Role, coordinators: Role, view: seq<Instance>, lag: seq<ReplicationLag>)
    requires OutdatedPods(data) != []
    ensures var rows, d := Index(view), Next(data, coordinators, view, lag);
      && (d.Delete? <==>
            && !data.stale && !coordinators.stale && Present(data)
            && MainInstance(rows) != "" && DataStepIsSafe(data, rows, IndexLag(lag), MainInstance(rows)))
      && (d.Delete? ==> NextOf(d.pod, OutdatedPods(data), MainInstance(rows)))
      && d != Done
  {
    DataInstanceRestarts(data, Index(view), IndexLag(lag), MainInstance(Index(view)));
  }

  lemma CoordinatorsRestart(coordinators: Role, rows: Rows, leader: string)
    requires OutdatedPods(coordinators) != []
    ensures var d := NextCoordinator(coordinators, rows, leader);
      && (d.Delete? <==>
            && Present(coordinators) && leader != ""
            && forall p :: p in coordinators.pods && IsUpdated(coordinators.updateRevision, p) ==> Up(rows, p.instance))
      && (d.Delete? ==> NextOf(d.pod, OutdatedPods(coordinators), leader))
      && d != Done
  {
    var pending := OutdatedPods(coordinators);
    assert pending[0] in pending;
    assert forall p :: p in UpdatedPods(coordinators) <==> p in coordinators.pods && IsUpdated(coordinators.updateRevision, p);
  }

  /** A coordinator pod goes only once no data pod is outdated and every data pod is present; lag and
      the data instances' health do not matter to it. */
  lemma CoordinatorRestarts(data: Role, coordinators: Role, view: seq<Instance>, lag: seq<ReplicationLag>)
    requires OutdatedPods(data) == []
    ensures var rows, d := Index(view), Next(data, coordinators, view, lag);
      && (d.Delete? <==>
            && !data.stale && !coordinators.stale && OutdatedPods(coordinators) != []
            && Present(data) && Present(coordinators) && LeaderInstance(rows) != ""
            && forall p :: p in coordinators.pods && IsUpdated(coordinators.updateRevision, p) ==> Up(rows, p.instance))
      && (d.Delete? ==> NextOf(d.pod, OutdatedPods(coordinators), LeaderInstance(rows)))
      && (d.Done? <==> !data.stale && !coordinators.stale && OutdatedPods(coordinators) == [])
  {
    if OutdatedPods(coordinators) != [] {
      CoordinatorsRestart(coordinators, Index(view), LeaderInstance(Index(view)));
    }
  }

  /* ---- The decision, said of pods, rows and lag rows ---- */

  ghost predicate IsOld(role: Role, p: Pod) {
    p in role.pods && role.updateRevision != "" && p.revisionHash !in {"", role.updateRevision} && !p.current
  }

  ghost predicate IsNew(role: Role, p: Pod) {
    p in role.pods && role.updateRevision != "" && (p.revisionHash == role.updateRevision || p.current)
  }

  ghost predicate AllThere(role: Role) {
    |role.pods| == role.replicas && forall i :: 0 <= i < |role.pods| ==> role.pods[i].ready
  }

  ghost predicate Answers(rows: Rows, instance: string) { instance in rows && rows[instance].IsUp() }

  ghost predicate Follows(rows: Rows, lags: Lags, instance: string) {
    && Answers(rows, instance)
    && instance in lags && lags[instance].databases != [] && forall d :: d in lags[instance].databases ==> d.txnsBehindMain <= 0
  }

  /** The first restarted pod that does not follow yet, or answer at all, and what the wait for it is
      called. */
  ghost predicate WaitsForRestarted(data: Role, rows: Rows, lags: Lags, reason: Reason) {
    exists i :: 0 <= i < |data.pods| && IsNew(data, data.pods[i]) && !Follows(rows, lags, data.pods[i].instance)
      && (forall j :: 0 <= j < i && IsNew(data, data.pods[j]) ==> Follows(rows, lags, data.pods[j].instance))
      && reason == if Answers(rows, data.pods[i].instance) then WaitingForCatchUp else WorkloadsNotReady
  }

  /** What the data role's step comes to while some data pod is old. */
  ghost predicate DataDecides(data: Role, rows: Rows, lags: Lags, main: string, d: Decision) {
    if !AllThere(data) then d == Wait(WorkloadsNotReady)
    else if main == "" then d == Wait(NoMainElected)
    else if exists p :: IsOld(data, p) && p.instance != main then
      if forall p :: IsNew(data, p) ==> Follows(rows, lags, p.instance) then
        d.Delete? && IsOld(data, d.pod) && d.pod.instance != main
        && forall p :: IsOld(data, p) && p.instance != main ==> p.ordinal <= d.pod.ordinal
      else d.Wait? && WaitsForRestarted(data, rows, lags, d.reason)
    else if data.replicas == 1 then d.Delete? && IsOld(data, d.pod)
    else if !Answers(rows, main) then d == Wait(WorkloadsNotReady)
    else if exists p :: p in data.pods && p.instance != main && Follows(rows, lags, p.instance) then d.Delete? && IsOld(data, d.pod)
    else d == Wait(NoCaughtUpSurvivor)
  }

  ghost predicate CoordinatorsDecide(coordinators: Role, rows: Rows, leader: string, d: Decision) {
    if !AllThere(coordinators) || exists p :: IsNew(coordinators, p) && !Answers(rows, p.instance) then d == Wait(WorkloadsNotReady)
    else if leader == "" then d == Wait(NoCoordinatorLeader)
    else
      d.Delete? && IsOld(coordinators, d.pod)
      && ((exists p :: IsOld(coordinators, p) && p.instance != leader) ==>
            d.pod.instance != leader
            && forall p :: IsOld(coordinators, p) && p.instance != leader ==> p.ordinal <= d.pod.ordinal)
  }

  ghost predicate Decides(data: Role, coordinators: Role, rows: Rows, lags: Lags, main: string, leader: string, d: Decision) {
    if data.stale || coordinators.stale then d == Wait(WorkloadsNotReady)
    else if exists p :: IsOld(data, p) then DataDecides(data, rows, lags, main, d)
    else if forall p :: !IsOld(coordinators, p) then d == Done
    else if !AllThere(data) then d == Wait(WorkloadsNotReady)
    else CoordinatorsDecide(coordinators, rows, leader, d)
  }

  lemma OldAndNew(role: Role)
    ensures forall p :: p in OutdatedPods(role) <==> IsOld(role, p)
    ensures forall p :: p in UpdatedPods(role) <==> IsNew(role, p)
    ensures Present(role) <==> AllThere(role)
    ensures OutdatedPods(role) == [] <==> forall p :: !IsOld(role, p)
  {
    if OutdatedPods(role) != [] {
      assert OutdatedPods(role)[0] in OutdatedPods(role);
    }
    if AllThere(role) {
      forall p | p in role.pods ensures p.ready {
        var i :| 0 <= i < |role.pods| && role.pods[i] == p;
      }
    }
  }

  lemma {:induction false} FirstNotConcat(a: seq<Pod>, b: seq<Pod>, ok: Pod -> bool)
    ensures FirstNot(a + b, ok) == if FirstNot(a, ok).Some? then FirstNot(a, ok) else FirstNot(b, ok)
  {
    if a == [] {
      assert a + b == b;
    } else {
      assert (a + b)[1..] == a[1..] + b;
      FirstNotConcat(a[1..], b, ok);
    }
  }

  /** The first updated pod that fails a test is the first of all pods to be updated and fail it. */
  lemma {:induction false} FirstNotUpdated(revision: string, pods: seq<Pod>, ok: Pod -> bool)
    ensures FirstNot(UpdatedAmong(revision, pods), ok).Some? ==>
              exists i :: 0 <= i < |pods| && pods[i] == FirstNot(UpdatedAmong(revision, pods), ok).value
                && forall j :: 0 <= j < i && IsUpdated(revision, pods[j]) ==> ok(pods[j])
  {
    if pods != [] {
      var shorter, last := pods[..|pods| - 1], pods[|pods| - 1];
      FirstNotUpdated(revision, shorter, ok);
      FirstNotConcat(UpdatedAmong(revision, shorter), if IsUpdated(revision, last) then [last] else [], ok);
      if FirstNot(UpdatedAmong(revision, shorter), ok).Some? {
        var i :| 0 <= i < |shorter| && shorter[i] == FirstNot(UpdatedAmong(revision, shorter), ok).value
                 && forall j :: 0 <= j < i && IsUpdated(revision, shorter[j]) ==> ok(shorter[j]);
        assert pods[i] == shorter[i];
        assert forall j :: 0 <= j < i ==> pods[j] == shorter[j];
      } else {
        assert forall j :: 0 <= j < |shorter| && IsUpdated(revision, pods[j]) ==> pods[j] in UpdatedAmong(revision, shorter) by {
          forall j | 0 <= j < |shorter| && IsUpdated(revision, pods[j]) ensures pods[j] in UpdatedAmong(revision, shorter) {
            assert pods[j] == shorter[j] && shorter[j] in shorter;
          }
        }
      }
    }
  }

  lemma LateWaits(data: Role, rows: Rows, lags: Lags, ok: Pod -> bool, late: Pod)
    requires forall p :: ok(p) <==> Follows(rows, lags, p.instance)
    requires FirstNot(UpdatedPods(data), ok) == Some(late)
    ensures WaitsForRestarted(data, rows, lags, Holdup(rows, late))
  {
    FirstNotUpdated(data.updateRevision, data.pods, ok);
    var i :| 0 <= i < |data.pods| && data.pods[i] == late
             && forall j :: 0 <= j < i && IsUpdated(data.updateRevision, data.pods[j]) ==> ok(data.pods[j]);
    assert data.pods[i] in data.pods && IsNew(data, data.pods[i]);
    forall j | 0 <= j < i && IsNew(data, data.pods[j]) ensures Follows(rows, lags, data.pods[j].instance) {
      assert ok(data.pods[j]);
    }
  }

  lemma SomebodyIsLate(data: Role, rows: Rows, lags: Lags, ok: Pod -> bool)
    requires forall p :: ok(p) <==> Follows(rows, lags, p.instance)
    ensures FirstNot(UpdatedPods(data), ok).None? <==> forall p :: IsNew(data, p) ==> Follows(rows, lags, p.instance)
  {
    OldAndNew(data);
    if FirstNot(UpdatedPods(data), ok).None? {
      forall p | IsNew(data, p) ensures Follows(rows, lags, p.instance) {
        assert p in UpdatedPods(data) && ok(p);
      }
    } else {
      assert IsNew(data, FirstNot(UpdatedPods(data), ok).value);
    }
  }

  lemma DataStepReads(data: Role, rows: Rows, lags: Lags, main: string)
    requires OutdatedPods(data) != []
    ensures DataDecides(data, rows, lags, main, NextDataInstance(data, rows, lags, main))
  {
    OldAndNew(data);
    assert OutdatedPods(data)[0] in OutdatedPods(data);
    var next := HighestExcept(OutdatedPods(data), main);
    if next.Some? {
      var ok := p => Replicating(rows, lags, p);
      SomebodyIsLate(data, rows, lags, ok);
      if FirstNot(UpdatedPods(data), ok).Some? {
        LateWaits(data, rows, lags, ok, FirstNot(UpdatedPods(data), ok).value);
      }
    }
  }

  lemma CoordinatorStepReads(coordinators: Role, rows: Rows, leader: string)
    requires OutdatedPods(coordinators) != []
    ensures CoordinatorsDecide(coordinators, rows, leader, NextCoordinator(coordinators, rows, leader))
  {
    OldAndNew(coordinators);
    assert OutdatedPods(coordinators)[0] in OutdatedPods(coordinators);
  }

  /** The whole decision, delete, wait and its reason, or done, for any instances taken for the MAIN and
      the leader. */
  lemma DecisionReads(data: Role, coordinators: Role, view: seq<Instance>, lag: seq<ReplicationLag>, main: string, leader: string)
    ensures Decides(data, coordinators, Index(view), IndexLag(lag), main, leader, NextFor(data, coordinators, view, lag, main, leader))
  {
    OldAndNew(data);
    OldAndNew(coordinators);
    if OutdatedPods(data) != [] {
      DataStepReads(data, Index(view), IndexLag(lag), main);
    } else if OutdatedPods(coordinators) != [] {
      CoordinatorStepReads(coordinators, Index(view), leader);
    }
  }
}
