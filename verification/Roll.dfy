/** A whole rolling restart: passes that read both roles' pods and StatefulSets, whose status may
    trail, and delete at most one pod each, between steps in which pods go, return and become ready
    and MAIN, leadership, health and lag move as they like. */
module Roll {
  import opened Text
  import opened Decimal
  import opened Memgraph
  import opened Planner
  import opened Resources
  import opened Cluster
  import opened Rollout
  import opened Observation

  datatype Kind = Data | Coordinators
  datatype Place = Place(kind: Kind, ordinal: nat)

  /** What stays fixed during the roll: the counts, the revisions rolled to, and the identities of
      the pods that need no restart for them. */
  datatype Setup = Setup(
    data: nat, coordinators: nat,
    dataRevision: string, coordinatorRevision: string,
    exempt: set<string>)
  {
    function Replicas(kind: Kind): nat { if kind == Data then data else coordinators }
    function Revision(kind: Kind): string { if kind == Data then dataRevision else coordinatorRevision }

    predicate Has(p: Place) { p.ordinal < Replicas(p.kind) }

    predicate NeedsRestart(kind: Kind, pod: PodObject) {
      pod.revisionHash != "" && pod.revisionHash != Revision(kind) && pod.uid !in exempt
    }
  }

  /** One delete: where, and whether the pod's instance was MAIN (or Raft leader) in the view the
      pass decided on. */
  datatype Restart = Restart(place: Place, pod: PodObject, held: bool)

  datatype World = World(pods: map<Place, PodObject>, log: seq<Restart>) {
    predicate IsUp(p: Place) { p in pods && pods[p].IsReady() }
  }

  function Instance(kind: Kind): nat -> string {
    (o: nat) => if kind == Data then DataInstanceName(o) else CoordinatorInstanceName(o)
  }

  function FindIn(w: World, kind: Kind): Find {
    (o: nat) => if Place(kind, o) in w.pods then Some(w.pods[Place(kind, o)]) else None
  }

  /* ---- A pass ---- */

  datatype Reads = Reads(
    dataSet: Option<SetObject>, dataGeneration: int,
    coordinatorSet: Option<SetObject>, coordinatorGeneration: int,
    view: seq<Memgraph.Instance>, lag: seq<ReplicationLag>)
  {
    function StatefulSet(kind: Kind): Option<SetObject> { if kind == Data then dataSet else coordinatorSet }
    function Generation(kind: Kind): int { if kind == Data then dataGeneration else coordinatorGeneration }
  }

  /** A status that does not show itself stale names the revision being rolled to; the view has at
      most one MAIN and one leader. Everything else about the reads is free. */
  ghost predicate Reading(setup: Setup, r: Reads) {
    && (forall kind: Kind :: r.StatefulSet(kind).Some? && !IsStale(r.StatefulSet(kind).value, r.Generation(kind)) ==>
          r.StatefulSet(kind).value.updateRevision == setup.Revision(kind))
    && AtMostOneMain(Index(r.view)) && AtMostOneLeader(Index(r.view))
  }

  function RawRole(setup: Setup, w: World, kind: Kind, r: Reads): Role {
    RoleOf(r.StatefulSet(kind), setup.Replicas(kind), r.Generation(kind), FindIn(w, kind), Instance(kind))
  }

  function RoleSeen(setup: Setup, w: World, kind: Kind, r: Reads): Role {
    Exempting(RawRole(setup, w, kind, r), setup.exempt)
  }

  ghost predicate GateOpen(setup: Setup, w: World, r: Reads) {
    forall kind: Kind :: RoleReady(setup.Replicas(kind), r.StatefulSet(kind), RawRole(setup, w, kind, r))
  }

  ghost function Decide(setup: Setup, w: World, r: Reads): Decision {
    if !GateOpen(setup, w, r) then Wait(WorkloadsNotReady)
    else Next(RoleSeen(setup, w, Data, r), RoleSeen(setup, w, Coordinators, r), r.view, r.lag)
  }

  /** The role a decision is about: data while any data pod is outdated. */
  ghost function Acting(setup: Setup, w: World, r: Reads): Kind {
    if OutdatedPods(RoleSeen(setup, w, Data, r)) != [] then Data else Coordinators
  }

  ghost predicate Holds(kind: Kind, view: seq<Memgraph.Instance>, instance: string) {
    if kind == Data then IsMain(Index(view), instance) else IsLeader(Index(view), instance)
  }

  /* ---- What can happen ---- */

  datatype Action =
    | Goes(place: Place)
    | IsRecreated(place: Place, pod: PodObject)
    | Probes(place: Place, ready: bool)
    | Passes(seen: Reads, lands: bool)

  /** The StatefulSet recreates a pod at its current revision. A pod goes only once deleted, and one
      that is ready stays so until it is. */
  ghost predicate Step(setup: Setup, w: World, a: Action, w': World) {
    match a
    case Goes(p) =>
      p in w.pods && w.pods[p].deleting && w' == w.(pods := w.pods - {p})
    case IsRecreated(p, pod) =>
      && setup.Has(p) && p !in w.pods && pod.revisionHash == setup.Revision(p.kind)
      && !pod.deleting && !pod.ready && w' == w.(pods := w.pods[p := pod])
    case Probes(p, ready) =>
      && p in w.pods && (w.pods[p].deleting || ready)
      && w' == w.(pods := w.pods[p := w.pods[p].(ready := ready)])
    case Passes(r, lands) =>
      && Reading(setup, r)
      && var d := Decide(setup, w, r);
         w' == if d.Delete? && lands then Deleted(w, Acting(setup, w, r), d.pod, r) else w
  }

  ghost function Deleted(w: World, kind: Kind, pod: Pod, r: Reads): World {
    var p := Place(kind, pod.ordinal);
    if p in w.pods && w.pods[p].uid == pod.uid then
      World(w.pods[p := w.pods[p].(deleting := true)],
            w.log + [Restart(p, w.pods[p], Holds(kind, r.view, pod.instance))])
    else w
  }

  /** The roll starts with every pod up, some of them outdated. */
  ghost predicate Initial(setup: Setup, w: World) {
    && setup.data > 0 && setup.dataRevision != "" && setup.coordinatorRevision != ""
    && w.log == []
    && (forall p :: p in w.pods <==> setup.Has(p))
    && (forall p :: p in w.pods ==> w.pods[p].IsReady())
  }

  ghost predicate Steps(setup: Setup, states: seq<World>, actions: seq<Action>, k: nat)
    requires k < |actions| < |states|
  {
    Step(setup, states[k], actions[k], states[k + 1])
  }

  ghost predicate Run(setup: Setup, states: seq<World>, actions: seq<Action>) {
    && |states| == |actions| + 1 && Initial(setup, states[0])
    && forall k: nat :: k < |actions| ==> Steps(setup, states, actions, k)
  }

  /* ---- What a run keeps ---- */

  function Places(log: seq<Restart>): set<Place> { set i | 0 <= i < |log| :: log[i].place }

  /** The pods to restart, decided once: those outdated when the roll began. */
  function ToDo(setup: Setup, init: World): set<Place> {
    set p | p in init.pods && setup.NeedsRestart(p.kind, init.pods[p])
  }

  ghost predicate OneDown(setup: Setup, w: World) {
    forall p, q :: setup.Has(p) && setup.Has(q) && !w.IsUp(p) && !w.IsUp(q) ==> p == q
  }

  /** A pod not deleted is the one the roll began with; one deleted was outdated, and whatever is in
      its place, once up, is not. */
  ghost predicate PlaceKept(setup: Setup, init: World, w: World, p: Place) {
    if p in Places(w.log) then
      p in ToDo(setup, init) && (w.IsUp(p) ==> w.pods[p].revisionHash == setup.Revision(p.kind))
      && (p in w.pods && !w.pods[p].deleting ==> w.pods[p].revisionHash == setup.Revision(p.kind))
    else
      p in w.pods && p in init.pods && w.pods[p] == init.pods[p]
  }

  ghost predicate AllKept(setup: Setup, init: World, w: World) {
    && (forall p :: p in w.pods ==> setup.Has(p))
    && (forall p :: setup.Has(p) ==> PlaceKept(setup, init, w, p))
  }

  /** Each delete was of a different pod, one the roll began with. */
  ghost predicate EachOnce(init: World, log: seq<Restart>) {
    && (forall i, j :: 0 <= i < j < |log| ==> log[i].place != log[j].place)
    && (forall i :: 0 <= i < |log| ==> log[i].place in init.pods && log[i].pod == init.pods[log[i].place])
  }

  /** Every pod of the role that needs a restart is among the first `n` deletes. */
  ghost predicate RoleDone(setup: Setup, init: World, log: seq<Restart>, kind: Kind, n: nat)
    requires n <= |log|
  {
    forall p :: p in ToDo(setup, init) && p.kind == kind ==> p in Places(log[..n])
  }

  /** No coordinator before the last data pod. */
  ghost predicate DataFirst(setup: Setup, init: World, log: seq<Restart>) {
    forall i :: 0 <= i < |log| && log[i].place.kind == Coordinators ==> RoleDone(setup, init, log, Data, i)
  }

  /** The pod that was MAIN's, or the leader's, when it was deleted was the last of its role. */
  ghost predicate HeldLast(setup: Setup, init: World, log: seq<Restart>) {
    forall i :: 0 <= i < |log| && log[i].held ==> RoleDone(setup, init, log, log[i].place.kind, i + 1)
  }

  ghost predicate Inv(setup: Setup, init: World, w: World) {
    && OneDown(setup, w) && AllKept(setup, init, w)
    && EachOnce(init, w.log) && DataFirst(setup, init, w.log) && HeldLast(setup, init, w.log)
  }

  lemma PlacesGrow(log: seq<Restart>, x: Restart)
    ensures Places(log + [x]) == Places(log) + {x.place}
  {
    assert forall i :: 0 <= i < |log| ==> (log + [x])[i] == log[i];
    assert (log + [x])[|log|] == x;
    forall p | p in Places(log) ensures p in Places(log + [x]) {
      var i :| 0 <= i < |log| && log[i].place == p;
      assert (log + [x])[i].place == p;
    }
  }

  /* ---- What a pass sees ---- */

  /** The role's revision is known and not stale, so what the pass reads of it is the roll's own. */
  ghost predicate SeenFresh(setup: Setup, kind: Kind, r: Reads) {
    && r.StatefulSet(kind).Some? && !IsStale(r.StatefulSet(kind).value, r.Generation(kind))
    && r.StatefulSet(kind).value.updateRevision == setup.Revision(kind) != ""
  }

  lemma FreshUnlessStale(setup: Setup, w: World, kind: Kind, r: Reads)
    requires Reading(setup, r) && setup.Revision(kind) != ""
    requires r.StatefulSet(kind).Some? && !RoleSeen(setup, w, kind, r).stale
    ensures SeenFresh(setup, kind, r)
  {
  }

  ghost predicate AllUp(setup: Setup, w: World, kind: Kind) {
    forall p :: setup.Has(p) && p.kind == kind ==> w.IsUp(p)
  }

  lemma SeenPresent(setup: Setup, w: World, kind: Kind, r: Reads)
    requires r.StatefulSet(kind).Some?
    ensures Present(RoleSeen(setup, w, kind, r)) <==> AllUp(setup, w, kind)
  {
    var raw := RawRole(setup, w, kind, r);
    var find := FindIn(w, kind);
    ExemptingHolds(raw, setup.exempt);
    PresentExactly(r.StatefulSet(kind).value, setup.Replicas(kind), r.Generation(kind), find, Instance(kind));
    assert forall o: nat :: find(o) == if Place(kind, o) in w.pods then Some(w.pods[Place(kind, o)]) else None;
    if Present(raw) {
      forall p | setup.Has(p) && p.kind == kind ensures w.IsUp(p) {
        assert find(p.ordinal).Some? && p == Place(kind, p.ordinal);
      }
    }
    if AllUp(setup, w, kind) {
      forall o: nat | o < setup.Replicas(kind) ensures find(o).Some? && find(o).value.IsReady() {
        assert w.IsUp(Place(kind, o));
      }
    }
  }

  /** An outdated pod as a pass sees it is one the world has, at its ordinal, in need of a restart. */
  ghost predicate SeenAt(setup: Setup, w: World, kind: Kind, pod: Pod) {
    var p := Place(kind, pod.ordinal);
    && setup.Has(p) && p in w.pods && pod.uid == w.pods[p].uid && pod.instance == Instance(kind)(pod.ordinal)
    && setup.NeedsRestart(kind, w.pods[p])
  }

  lemma OutdatedSeen(setup: Setup, w: World, kind: Kind, r: Reads, pod: Pod)
    requires SeenFresh(setup, kind, r) && pod in OutdatedPods(RoleSeen(setup, w, kind, r))
    ensures SeenAt(setup, w, kind, pod)
  {
    var raw := RawRole(setup, w, kind, r);
    ListedExactly(FindIn(w, kind), Instance(kind), setup.Replicas(kind));
    ExemptingHolds(raw, setup.exempt);
    assert pod in RoleSeen(setup, w, kind, r).pods;
    assert forall p :: p in raw.pods ==> !p.current;
    assert pod.(current := false) in raw.pods;
  }

  lemma NeedySeen(setup: Setup, w: World, kind: Kind, r: Reads, p: Place)
    requires SeenFresh(setup, kind, r) && setup.Has(p) && p.kind == kind && p in w.pods
    requires setup.NeedsRestart(kind, w.pods[p])
    ensures exists pod :: pod in OutdatedPods(RoleSeen(setup, w, kind, r)) && pod.ordinal == p.ordinal && pod.instance == Instance(kind)(p.ordinal)
  {
    var raw := RawRole(setup, w, kind, r);
    var find := FindIn(w, kind);
    ListedExactly(find, Instance(kind), setup.Replicas(kind));
    ExemptingHolds(raw, setup.exempt);
    assert p == Place(kind, p.ordinal) && find(p.ordinal) == Some(w.pods[p]);
    var pod := PodOf(w.pods[p], Instance(kind)(p.ordinal), p.ordinal);
    assert pod in raw.pods;
    assert pod.(current := pod.uid in setup.exempt) == pod;
    assert pod in RoleSeen(setup, w, kind, r).pods;
    assert pod in OutdatedPods(RoleSeen(setup, w, kind, r));
  }

  /* ---- A delete ---- */

  /** What is true of the world whenever a pass deletes a pod of it. */
  ghost predicate MayRestart(setup: Setup, w: World, kind: Kind, pod: Pod, r: Reads) {
    && SeenAt(setup, w, kind, pod) && AllUp(setup, w, kind) && AllUp(setup, w, Data)
    && (kind == Coordinators ==> NoneLeft(setup, w, Data, pod, false))
    && (Holds(kind, r.view, pod.instance) ==> NoneLeft(setup, w, kind, pod, true))
  }

  /** No pod of the role needs a restart, but for this one. */
  ghost predicate NoneLeft(setup: Setup, w: World, kind: Kind, pod: Pod, except: bool) {
    forall p :: setup.Has(p) && p.kind == kind && p in w.pods && setup.NeedsRestart(kind, w.pods[p]) ==>
      except && p.ordinal == pod.ordinal
  }

  lemma NoneLeftWhenNoneSeen(setup: Setup, w: World, kind: Kind, r: Reads, pod: Pod)
    requires SeenFresh(setup, kind, r) && OutdatedPods(RoleSeen(setup, w, kind, r)) == []
    ensures NoneLeft(setup, w, kind, pod, false)
  {
    forall p | setup.Has(p) && p.kind == kind && p in w.pods && setup.NeedsRestart(kind, w.pods[p]) ensures false {
      NeedySeen(setup, w, kind, r, p);
    }
  }

  lemma InstancesDiffer(kind: Kind, m: nat, n: nat)
    ensures Instance(kind)(m) == Instance(kind)(n) ==> m == n
  {
    InstanceNamesAreInjective(m, n);
    if CoordinatorInstanceName(m) == CoordinatorInstanceName(n) {
      assert FormatInt(m) == CoordinatorInstanceName(m)[|"coordinator_"|..];
      assert FormatInt(n) == CoordinatorInstanceName(n)[|"coordinator_"|..];
      FormatIsInjective(m, n);
    }
  }

  lemma NoneLeftWhenHeld(setup: Setup, w: World, kind: Kind, r: Reads, pod: Pod)
    requires SeenFresh(setup, kind, r) && pod in OutdatedPods(RoleSeen(setup, w, kind, r))
    requires OnlyOn(OutdatedPods(RoleSeen(setup, w, kind, r)), pod.instance)
    ensures NoneLeft(setup, w, kind, pod, true)
  {
    OutdatedSeen(setup, w, kind, r, pod);
    forall p | setup.Has(p) && p.kind == kind && p in w.pods && setup.NeedsRestart(kind, w.pods[p]) ensures p.ordinal == pod.ordinal {
      NeedySeen(setup, w, kind, r, p);
      InstancesDiffer(kind, p.ordinal, pod.ordinal);
    }
  }

  lemma DataDeleteMayRestart(setup: Setup, w: World, r: Reads)
    requires Reading(setup, r) && setup.dataRevision != ""
    requires Decide(setup, w, r).Delete? && Acting(setup, w, r) == Data
    ensures MayRestart(setup, w, Data, Decide(setup, w, r).pod, r)
  {
    var data, coordinators := RoleSeen(setup, w, Data, r), RoleSeen(setup, w, Coordinators, r);
    var pod := Decide(setup, w, r).pod;
    DataRestarts(data, coordinators, r.view, r.lag);
    assert RoleReady(setup.Replicas(Data), r.StatefulSet(Data), RawRole(setup, w, Data, r));
    FreshUnlessStale(setup, w, Data, r);
    SeenPresent(setup, w, Data, r);
    OutdatedSeen(setup, w, Data, r, pod);
    if Holds(Data, r.view, pod.instance) {
      assert pod.instance == MainInstance(Index(r.view));
      NoneLeftWhenHeld(setup, w, Data, r, pod);
    }
  }

  lemma CoordinatorDeleteMayRestart(setup: Setup, w: World, r: Reads)
    requires Reading(setup, r) && setup.dataRevision != "" && setup.coordinatorRevision != ""
    requires Decide(setup, w, r).Delete? && Acting(setup, w, r) == Coordinators
    ensures MayRestart(setup, w, Coordinators, Decide(setup, w, r).pod, r)
  {
    var data, coordinators := RoleSeen(setup, w, Data, r), RoleSeen(setup, w, Coordinators, r);
    var pod := Decide(setup, w, r).pod;
    CoordinatorRestarts(data, coordinators, r.view, r.lag);
    assert RoleReady(setup.Replicas(Data), r.StatefulSet(Data), RawRole(setup, w, Data, r));
    assert RoleReady(setup.Replicas(Coordinators), r.StatefulSet(Coordinators), RawRole(setup, w, Coordinators, r));
    FreshUnlessStale(setup, w, Data, r);
    FreshUnlessStale(setup, w, Coordinators, r);
    SeenPresent(setup, w, Data, r);
    SeenPresent(setup, w, Coordinators, r);
    OutdatedSeen(setup, w, Coordinators, r, pod);
    NoneLeftWhenNoneSeen(setup, w, Data, r, pod);
    if Holds(Coordinators, r.view, pod.instance) {
      assert pod.instance == LeaderInstance(Index(r.view));
      NoneLeftWhenHeld(setup, w, Coordinators, r, pod);
    }
  }

  lemma DeleteMayRestart(setup: Setup, w: World, r: Reads)
    requires Reading(setup, r) && setup.dataRevision != "" && setup.coordinatorRevision != ""
    requires Decide(setup, w, r).Delete?
    ensures MayRestart(setup, w, Acting(setup, w, r), Decide(setup, w, r).pod, r)
  {
    if Acting(setup, w, r) == Data {
      DataDeleteMayRestart(setup, w, r);
    } else {
      CoordinatorDeleteMayRestart(setup, w, r);
    }
  }

  /* ---- What a delete keeps ---- */

  /** A pod that is up and needs a restart has not been deleted, and is the one the roll began with. */
  lemma NeedyIsUndone(setup: Setup, init: World, w: World, p: Place)
    requires AllKept(setup, init, w) && setup.Has(p) && w.IsUp(p) && setup.NeedsRestart(p.kind, w.pods[p])
    ensures p !in Places(w.log) && p in init.pods && w.pods[p] == init.pods[p] && p in ToDo(setup, init)
  {
    assert PlaceKept(setup, init, w, p);
  }

  /** With no pod of the role left in need of a restart, the log has all that were. */
  lemma NoneLeftIsDone(setup: Setup, init: World, w: World, kind: Kind, pod: Pod, except: bool, p: Place)
    requires AllKept(setup, init, w) && NoneLeft(setup, w, kind, pod, except)
    requires (forall q :: q in init.pods ==> setup.Has(q)) && p in ToDo(setup, init) && p.kind == kind
    ensures p in Places(w.log) || (except && p.ordinal == pod.ordinal)
  {
    assert PlaceKept(setup, init, w, p);
  }

  lemma EveryoneElseUp(setup: Setup, init: World, w: World, kind: Kind, pod: Pod, r: Reads, q: Place)
    requires Inv(setup, init, w) && MayRestart(setup, w, kind, pod, r) && setup.Has(q)
    requires forall p :: p in init.pods ==> init.pods[p].IsReady()
    ensures w.IsUp(q)
  {
    if q.kind == Coordinators && kind == Data {
      var p := Place(Data, pod.ordinal);
      NeedyIsUndone(setup, init, w, p);
      if q in Places(w.log) {
        var i :| 0 <= i < |w.log| && w.log[i].place == q;
        assert RoleDone(setup, init, w.log, Data, i);
        assert p in Places(w.log[..i]);
        PrefixPlaces(w.log, i, p);
        assert false;
      }
      assert PlaceKept(setup, init, w, q);
    }
  }

  lemma PrefixPlaces(log: seq<Restart>, n: nat, p: Place)
    requires n <= |log| && p in Places(log[..n])
    ensures p in Places(log)
  {
    var i :| 0 <= i < n && log[..n][i].place == p;
    assert log[i].place == p;
  }

  lemma DeleteKeepsPlaces(setup: Setup, init: World, w: World, kind: Kind, pod: Pod, r: Reads)
    requires Inv(setup, init, w) && MayRestart(setup, w, kind, pod, r)
    requires forall p :: p in init.pods ==> init.pods[p].IsReady()
    ensures var w' := Deleted(w, kind, pod, r);
      && OneDown(setup, w') && AllKept(setup, init, w') && EachOnce(init, w'.log)
      && w'.log == w.log + [Restart(Place(kind, pod.ordinal), init.pods[Place(kind, pod.ordinal)], Holds(kind, r.view, pod.instance))]
  {
    var w' := Deleted(w, kind, pod, r);
    var p := Place(kind, pod.ordinal);
    NeedyIsUndone(setup, init, w, p);
    PlacesGrow(w.log, w'.log[|w.log|]);
    forall q | setup.Has(q) && q != p ensures w'.IsUp(q) && PlaceKept(setup, init, w', q) {
      EveryoneElseUp(setup, init, w, kind, pod, r, q);
      assert PlaceKept(setup, init, w, q);
    }
    forall i | 0 <= i < |w.log| ensures w.log[i].place != p {
      assert w.log[i].place in Places(w.log);
    }
  }

  /** The log of a delete: the earlier log, and one more. */
  ghost predicate Extends(log: seq<Restart>, log': seq<Restart>, kind: Kind, pod: Pod, held: bool) {
    |log'| == |log| + 1 && log'[..|log|] == log
    && log'[|log|].place == Place(kind, pod.ordinal) && log'[|log|].held == held
  }

  lemma DeleteExtends(setup: Setup, w: World, kind: Kind, pod: Pod, r: Reads)
    requires MayRestart(setup, w, kind, pod, r)
    ensures Extends(w.log, Deleted(w, kind, pod, r).log, kind, pod, Holds(kind, r.view, pod.instance))
  {
  }

  lemma RoleDoneStays(setup: Setup, init: World, log: seq<Restart>, log': seq<Restart>, kind: Kind, n: nat)
    requires n <= |log| <= |log'| && log'[..|log|] == log && RoleDone(setup, init, log, kind, n)
    ensures RoleDone(setup, init, log', kind, n)
  {
    assert log'[..n] == log[..n];
  }

  lemma DeleteKeepsDataFirst(setup: Setup, init: World, w: World, log': seq<Restart>, kind: Kind, pod: Pod, held: bool)
    requires AllKept(setup, init, w) && DataFirst(setup, init, w.log) && Extends(w.log, log', kind, pod, held)
    requires forall p :: p in init.pods ==> setup.Has(p)
    requires kind == Coordinators ==> NoneLeft(setup, w, Data, pod, false)
    ensures DataFirst(setup, init, log')
  {
    var log := w.log;
    forall i: nat | i < |log'| && log'[i].place.kind == Coordinators ensures RoleDone(setup, init, log', Data, i) {
      if i < |log| {
        assert log'[..|log|][i] == log[i];
        RoleDoneStays(setup, init, log, log', Data, i);
      } else {
        forall p | p in ToDo(setup, init) && p.kind == Data ensures p in Places(log'[..i]) {
          NoneLeftIsDone(setup, init, w, Data, pod, false, p);
        }
      }
    }
  }

  lemma DeleteKeepsHeldLast(setup: Setup, init: World, w: World, log': seq<Restart>, kind: Kind, pod: Pod, held: bool)
    requires AllKept(setup, init, w) && HeldLast(setup, init, w.log) && Extends(w.log, log', kind, pod, held)
    requires forall p :: p in init.pods ==> setup.Has(p)
    requires held ==> NoneLeft(setup, w, kind, pod, true)
    ensures HeldLast(setup, init, log')
  {
    var log := w.log;
    assert log' == log + [log'[|log|]];
    PlacesGrow(log, log'[|log|]);
    forall i: nat | i < |log'| && log'[i].held ensures RoleDone(setup, init, log', log'[i].place.kind, i + 1) {
      if i < |log| {
        assert log'[..|log|][i] == log[i];
        RoleDoneStays(setup, init, log, log', log[i].place.kind, i + 1);
      } else {
        assert log'[..i + 1] == log';
        forall p | p in ToDo(setup, init) && p.kind == kind ensures p in Places(log') {
          NoneLeftIsDone(setup, init, w, kind, pod, true, p);
        }
      }
    }
  }

  lemma DeleteKeepsInv(setup: Setup, init: World, w: World, kind: Kind, pod: Pod, r: Reads)
    requires Initial(setup, init) && Inv(setup, init, w) && MayRestart(setup, w, kind, pod, r)
    ensures Inv(setup, init, Deleted(w, kind, pod, r))
  {
    var log' := Deleted(w, kind, pod, r).log;
    DeleteExtends(setup, w, kind, pod, r);
    DeleteKeepsPlaces(setup, init, w, kind, pod, r);
    DeleteKeepsDataFirst(setup, init, w, log', kind, pod, Holds(kind, r.view, pod.instance));
    DeleteKeepsHeldLast(setup, init, w, log', kind, pod, Holds(kind, r.view, pod.instance));
  }

  lemma StepKeepsInv(setup: Setup, init: World, w: World, a: Action, w': World)
    requires Initial(setup, init) && Inv(setup, init, w) && Step(setup, w, a, w')
    ensures Inv(setup, init, w')
  {
    match a
    case Passes(r, lands) =>
      var d := Decide(setup, w, r);
      if d.Delete? && lands {
        DeleteMayRestart(setup, w, r);
        DeleteKeepsInv(setup, init, w, Acting(setup, w, r), d.pod, r);
      }
    case Goes(p) => PodMovesKeepInv(setup, init, w, p, w');
    case IsRecreated(p, pod) => PodMovesKeepInv(setup, init, w, p, w');
    case Probes(p, ready) => PodMovesKeepInv(setup, init, w, p, w');
  }

  /** One place changes by itself: it was down, or does not change at all. */
  lemma PodMovesKeepInv(setup: Setup, init: World, w: World, p: Place, w': World)
    requires Initial(setup, init) && Inv(setup, init, w) && w'.log == w.log
    requires forall q :: q != p ==> (q in w'.pods <==> q in w.pods) && (q in w.pods ==> w'.pods[q] == w.pods[q])
    requires p in w'.pods ==> setup.Has(p)
    requires w.IsUp(p) ==> p in w'.pods && w'.pods[p] == w.pods[p]
    requires p in w'.pods && !w'.pods[p].deleting ==>
               w'.pods[p].revisionHash == setup.Revision(p.kind) || (p in w.pods && !w.pods[p].deleting && w'.pods[p].revisionHash == w.pods[p].revisionHash)
    ensures Inv(setup, init, w')
  {
    forall q | setup.Has(q) ensures PlaceKept(setup, init, w', q) && (w.IsUp(q) ==> w'.IsUp(q)) {
      assert PlaceKept(setup, init, w, q);
    }
  }

  lemma InitialInv(setup: Setup, init: World)
    requires Initial(setup, init)
    ensures Inv(setup, init, init)
  {
  }

  lemma RunStepKeepsInv(setup: Setup, states: seq<World>, actions: seq<Action>, k: nat)
    requires Run(setup, states, actions) && k < |actions| && Inv(setup, states[0], states[k])
    ensures Inv(setup, states[0], states[k + 1])
  {
    assert Steps(setup, states, actions, k);
    StepKeepsInv(setup, states[0], states[k], actions[k], states[k + 1]);
  }

  lemma {:induction false} RunKeepsInvUpTo(setup: Setup, states: seq<World>, actions: seq<Action>, k: nat)
    requires Run(setup, states, actions) && k < |states|
    ensures forall j: nat :: j <= k ==> Inv(setup, states[0], states[j])
  {
    if k == 0 {
      InitialInv(setup, states[0]);
    } else {
      RunKeepsInvUpTo(setup, states, actions, k - 1);
      RunStepKeepsInv(setup, states, actions, k - 1);
    }
  }

  /** What holds in every state of every run. */
  lemma RunKeepsInv(setup: Setup, states: seq<World>, actions: seq<Action>, k: nat)
    requires Run(setup, states, actions) && k < |states|
    ensures Inv(setup, states[0], states[k])
  {
    RunKeepsInvUpTo(setup, states, actions, k);
  }

  /* ---- The whole roll ---- */

  /** In every state of every run, wherever failovers and elections put MAIN and leadership between
      passes: at most one pod of both roles is down; every delete was of a different pod, outdated when
      the roll began; the coordinators' came after all the data pods'; and a pod deleted while it was
      MAIN's, or the leader's, was the last of its role, so that each is restarted at most once. */
  lemma RollIsSafe(setup: Setup, states: seq<World>, actions: seq<Action>, k: nat)
    requires Run(setup, states, actions) && k < |states|
    ensures OneDown(setup, states[k])
    ensures EachOnce(states[0], states[k].log) && Places(states[k].log) <= ToDo(setup, states[0])
    ensures forall i :: 0 <= i < |states[k].log| && states[k].log[i].place.kind == Coordinators ==>
              RoleDone(setup, states[0], states[k].log, Data, i)
    ensures forall i, j :: 0 <= i < j < |states[k].log| && states[k].log[i].held ==>
              states[k].log[j].place.kind != states[k].log[i].place.kind
  {
    var init, log := states[0], states[k].log;
    RunKeepsInv(setup, states, actions, k);
    forall p | p in Places(log) ensures p in ToDo(setup, init) {
      var i :| 0 <= i < |log| && log[i].place == p;
      assert setup.Has(p) && PlaceKept(setup, init, states[k], p);
    }
    forall i, j | 0 <= i < j < |log| && log[i].held ensures log[j].place.kind != log[i].place.kind {
      assert RoleDone(setup, init, log, log[i].place.kind, i + 1);
      assert log[j].place in Places(log);
    }
  }

  lemma {:induction false} DistinctPlaces(init: World, log: seq<Restart>)
    requires EachOnce(init, log)
    ensures |Places(log)| == |log|
  {
    if log == [] {
      assert Places(log) == {};
    } else {
      var shorter, last := log[..|log| - 1], log[|log| - 1];
      assert log == shorter + [last];
      assert forall i :: 0 <= i < |shorter| ==> shorter[i] == log[i];
      DistinctPlaces(init, shorter);
      PlacesGrow(shorter, last);
      assert last.place !in Places(shorter);
    }
  }

  /** A pass in a cluster that has healed: every pod is up and counted, no status is stale, the MAIN
      and the leader are members, and every member is reachable and caught up. */
  ghost predicate Healed(setup: Setup, w: World, r: Reads) {
    && Reading(setup, r)
    && (forall p :: setup.Has(p) ==> w.IsUp(p) && Up(Index(r.view), Instance(p.kind)(p.ordinal)))
    && (forall kind: Kind ::
          && r.StatefulSet(kind).Some? && !IsStale(r.StatefulSet(kind).value, r.Generation(kind))
          && r.StatefulSet(kind).value.readyReplicas >= setup.Replicas(kind))
    && (forall o: nat :: o < setup.data ==> CaughtUp(IndexLag(r.lag), DataInstanceName(o)))
    && (exists o: nat :: o < setup.data && IsMain(Index(r.view), DataInstanceName(o)))
    && (exists o: nat :: o < setup.coordinators && IsLeader(Index(r.view), CoordinatorInstanceName(o)))
  }

  /** The pods a pass lists of a role are members. */
  lemma ListedAreMembers(setup: Setup, w: World, kind: Kind, r: Reads, pod: Pod)
    requires pod in RoleSeen(setup, w, kind, r).pods
    ensures pod.ordinal < setup.Replicas(kind) && pod.instance == Instance(kind)(pod.ordinal)
  {
    var raw := RawRole(setup, w, kind, r);
    ListedExactly(FindIn(w, kind), Instance(kind), setup.Replicas(kind));
    ExemptingHolds(raw, setup.exempt);
    assert forall p :: p in raw.pods ==> !p.current;
    assert pod.(current := false) in raw.pods;
  }

  lemma MembersAreListed(setup: Setup, w: World, kind: Kind, r: Reads, o: nat)
    requires r.StatefulSet(kind).Some? && o < setup.Replicas(kind) && Place(kind, o) in w.pods
    ensures exists pod :: pod in RoleSeen(setup, w, kind, r).pods && pod.instance == Instance(kind)(o)
  {
    var raw := RawRole(setup, w, kind, r);
    ListedExactly(FindIn(w, kind), Instance(kind), setup.Replicas(kind));
    ExemptingHolds(raw, setup.exempt);
    var pod := PodOf(w.pods[Place(kind, o)], Instance(kind)(o), o);
    assert FindIn(w, kind)(o) == Some(w.pods[Place(kind, o)]);
    assert pod in raw.pods && pod.(current := pod.uid in setup.exempt) in RoleSeen(setup, w, kind, r).pods;
  }

  lemma HealedDataStep(setup: Setup, w: World, r: Reads)
    requires Healed(setup, w, r)
    ensures MainInstance(Index(r.view)) != ""
    ensures DataStepIsSafe(RoleSeen(setup, w, Data, r), Index(r.view), IndexLag(r.lag), MainInstance(Index(r.view)))
  {
    var data, rows, lags := RoleSeen(setup, w, Data, r), Index(r.view), IndexLag(r.lag);
    var o: nat :| o < setup.data && IsMain(rows, DataInstanceName(o));
    var main := DataInstanceName(o);
    assert main == MainInstance(rows);
    assert main[0] == 'i';
    forall p | p in data.pods ensures Replicating(rows, lags, p) {
      ListedAreMembers(setup, w, Data, r, p);
      assert setup.Has(Place(Data, p.ordinal));
    }
    assert setup.Has(Place(Data, o)) && Up(rows, Instance(Data)(o));
    if setup.data > 1 {
      var other := if o == 0 then 1 else 0;
      assert setup.Has(Place(Data, other)) && w.IsUp(Place(Data, other));
      MembersAreListed(setup, w, Data, r, other);
      InstanceNamesAreInjective(o, other);
    }
  }

  lemma HealedGate(setup: Setup, w: World, r: Reads)
    requires Healed(setup, w, r)
    ensures GateOpen(setup, w, r)
    ensures Present(RoleSeen(setup, w, Data, r)) && Present(RoleSeen(setup, w, Coordinators, r))
    ensures !RoleSeen(setup, w, Data, r).stale && !RoleSeen(setup, w, Coordinators, r).stale
  {
    SeenPresent(setup, w, Data, r);
    SeenPresent(setup, w, Coordinators, r);
  }

  lemma HealedCoordinatorStep(setup: Setup, w: World, r: Reads)
    requires Healed(setup, w, r)
    ensures LeaderInstance(Index(r.view)) != ""
    ensures forall p :: p in RoleSeen(setup, w, Coordinators, r).pods ==> Up(Index(r.view), p.instance)
  {
    var o: nat :| o < setup.coordinators && IsLeader(Index(r.view), CoordinatorInstanceName(o));
    assert CoordinatorInstanceName(o)[0] == 'c';
    forall p | p in RoleSeen(setup, w, Coordinators, r).pods ensures Up(Index(r.view), p.instance) {
      ListedAreMembers(setup, w, Coordinators, r, p);
      assert setup.Has(Place(Coordinators, p.ordinal));
    }
  }

  lemma HealedDecides(setup: Setup, w: World, r: Reads)
    requires Healed(setup, w, r)
    ensures Decide(setup, w, r).Done? <==>
              OutdatedPods(RoleSeen(setup, w, Data, r)) == [] && OutdatedPods(RoleSeen(setup, w, Coordinators, r)) == []
    ensures Decide(setup, w, r).Delete? <==> !Decide(setup, w, r).Done?
  {
    var data, coordinators := RoleSeen(setup, w, Data, r), RoleSeen(setup, w, Coordinators, r);
    HealedGate(setup, w, r);
    if OutdatedPods(data) != [] {
      DataRestarts(data, coordinators, r.view, r.lag);
      HealedDataStep(setup, w, r);
    } else {
      CoordinatorRestarts(data, coordinators, r.view, r.lag);
      HealedCoordinatorStep(setup, w, r);
    }
  }

  lemma UndoneIsSeen(setup: Setup, init: World, w: World, r: Reads, p: Place)
    requires Initial(setup, init) && AllKept(setup, init, w) && SeenFresh(setup, p.kind, r)
    requires p in ToDo(setup, init) && p !in Places(w.log)
    ensures OutdatedPods(RoleSeen(setup, w, p.kind, r)) != []
  {
    assert PlaceKept(setup, init, w, p);
    NeedySeen(setup, w, p.kind, r, p);
  }

  lemma SeenIsUndone(setup: Setup, init: World, w: World, r: Reads, kind: Kind)
    requires Initial(setup, init) && AllKept(setup, init, w) && SeenFresh(setup, kind, r) && AllUp(setup, w, kind)
    requires OutdatedPods(RoleSeen(setup, w, kind, r)) != []
    ensures exists p :: p in ToDo(setup, init) && p !in Places(w.log)
  {
    var pod := OutdatedPods(RoleSeen(setup, w, kind, r))[0];
    OutdatedSeen(setup, w, kind, r, pod);
    NeedyIsUndone(setup, init, w, Place(kind, pod.ordinal));
  }

  /** The roll is over when a pass says so: a pass that reads statuses that are not stale reports Done
      only once every pod that was outdated has been restarted. */
  lemma DoneMeansDone(setup: Setup, states: seq<World>, actions: seq<Action>, k: nat, r: Reads)
    requires Run(setup, states, actions) && k < |states| && Reading(setup, r)
    requires Decide(setup, states[k], r).Done?
    ensures Places(states[k].log) == ToDo(setup, states[0])
  {
    var init, w := states[0], states[k];
    RunKeepsInv(setup, states, actions, k);
    RollIsSafe(setup, states, actions, k);
    assert forall kind: Kind :: RoleReady(setup.Replicas(kind), r.StatefulSet(kind), RawRole(setup, w, kind, r));
    FreshUnlessStale(setup, w, Data, r);
    FreshUnlessStale(setup, w, Coordinators, r);
    DoneSeesNothing(setup, w, r);
    forall p | p in ToDo(setup, init) ensures p in Places(w.log) {
      if p !in Places(w.log) {
        UndoneIsSeen(setup, init, w, r, p);
        assert false;
      }
    }
  }

  lemma DoneSeesNothing(setup: Setup, w: World, r: Reads)
    requires Decide(setup, w, r).Done?
    ensures forall kind: Kind :: OutdatedPods(RoleSeen(setup, w, kind, r)) == []
  {
    var data, coordinators := RoleSeen(setup, w, Data, r), RoleSeen(setup, w, Coordinators, r);
    if OutdatedPods(data) != [] {
      DataRestarts(data, coordinators, r.view, r.lag);
      assert false;
    }
    CoordinatorRestarts(data, coordinators, r.view, r.lag);
  }

  /** How many passes so far ran in a healed cluster and had their delete land. */
  ghost function HealedPasses(setup: Setup, states: seq<World>, actions: seq<Action>, k: nat): nat
    requires k <= |actions| < |states|
  {
    if k == 0 then 0
    else
      HealedPasses(setup, states, actions, k - 1)
      + if IsHealedPass(setup, states[k - 1], actions[k - 1]) then 1 else 0
  }

  lemma HealedIsFresh(setup: Setup, w: World, r: Reads)
    requires Healed(setup, w, r) && setup.dataRevision != "" && setup.coordinatorRevision != ""
    ensures forall kind: Kind :: SeenFresh(setup, kind, r) && AllUp(setup, w, kind)
  {
  }

  /** In a healed cluster a pass sees something to restart exactly while something is left undone. */
  lemma HealedSees(setup: Setup, init: World, w: World, r: Reads)
    requires Initial(setup, init) && AllKept(setup, init, w) && Healed(setup, w, r)
    ensures OutdatedPods(RoleSeen(setup, w, Data, r)) == [] && OutdatedPods(RoleSeen(setup, w, Coordinators, r)) == [] <==>
              ToDo(setup, init) <= Places(w.log)
  {
    HealedIsFresh(setup, w, r);
    forall p | p in ToDo(setup, init) && p !in Places(w.log) ensures OutdatedPods(RoleSeen(setup, w, p.kind, r)) != [] {
      UndoneIsSeen(setup, init, w, r, p);
    }
    forall kind: Kind | OutdatedPods(RoleSeen(setup, w, kind, r)) != [] ensures !(ToDo(setup, init) <= Places(w.log)) {
      SeenIsUndone(setup, init, w, r, kind);
    }
  }

  lemma HealedPassIsDone(setup: Setup, init: World, w: World, r: Reads)
    requires Initial(setup, init) && AllKept(setup, init, w) && Healed(setup, w, r)
    ensures Decide(setup, w, r).Done? <==> ToDo(setup, init) <= Places(w.log)
    ensures Decide(setup, w, r).Delete? <==> !Decide(setup, w, r).Done?
  {
    HealedDecides(setup, w, r);
    HealedSees(setup, init, w, r);
  }

  lemma DecidedDeleteIsLogged(setup: Setup, w: World, r: Reads)
    requires Reading(setup, r) && setup.dataRevision != "" && setup.coordinatorRevision != ""
    requires Decide(setup, w, r).Delete?
    ensures |Deleted(w, Acting(setup, w, r), Decide(setup, w, r).pod, r).log| == |w.log| + 1
  {
    DeleteMayRestart(setup, w, r);
    DeleteExtends(setup, w, Acting(setup, w, r), Decide(setup, w, r).pod, r);
  }

  lemma LogGrows(setup: Setup, w: World, a: Action, w': World)
    requires Step(setup, w, a, w')
    ensures Places(w.log) <= Places(w'.log) && |w.log| <= |w'.log|
  {
    if w'.log != w.log {
      PlacesGrow(w.log, w'.log[|w.log|]);
    }
  }

  ghost predicate IsHealedPass(setup: Setup, w: World, a: Action) {
    a.Passes? && a.lands && Healed(setup, w, a.seen)
  }

  lemma HealedStep(setup: Setup, init: World, w: World, a: Action, w': World)
    requires Initial(setup, init) && AllKept(setup, init, w) && Step(setup, w, a, w') && IsHealedPass(setup, w, a)
    ensures |w'.log| == |w.log| + 1 || ToDo(setup, init) <= Places(w.log)
  {
    HealedPassIsDone(setup, init, w, a.seen);
    if Decide(setup, w, a.seen).Delete? {
      DecidedDeleteIsLogged(setup, w, a.seen);
    }
  }

  lemma {:induction false} HealedPassesDelete(setup: Setup, states: seq<World>, actions: seq<Action>, k: nat)
    requires Run(setup, states, actions) && k < |states|
    ensures HealedPasses(setup, states, actions, k) <= |states[k].log| || ToDo(setup, states[0]) <= Places(states[k].log)
  {
    if k > 0 {
      HealedPassesDelete(setup, states, actions, k - 1);
      assert Steps(setup, states, actions, k - 1);
      LogGrows(setup, states[k - 1], actions[k - 1], states[k]);
      if IsHealedPass(setup, states[k - 1], actions[k - 1]) {
        RunKeepsInv(setup, states, actions, k - 1);
        HealedStep(setup, states[0], states[k - 1], actions[k - 1], states[k]);
      }
    }
  }

  /** A roll ends: once as many healed passes have had their delete land as there were outdated pods,
      each of these has been restarted, with exactly one delete each, and a healed pass reports Done. */
  lemma RollFinishes(setup: Setup, states: seq<World>, actions: seq<Action>, k: nat)
    requires Run(setup, states, actions) && k < |states|
    requires HealedPasses(setup, states, actions, k) >= |ToDo(setup, states[0])|
    ensures Places(states[k].log) == ToDo(setup, states[0]) && |states[k].log| == |ToDo(setup, states[0])|
    ensures forall r: Reads :: Healed(setup, states[k], r) ==> Decide(setup, states[k], r).Done?
  {
    var todo, done := ToDo(setup, states[0]), Places(states[k].log);
    HealedPassesDelete(setup, states, actions, k);
    RollIsSafe(setup, states, actions, k);
    RunKeepsInv(setup, states, actions, k);
    DistinctPlaces(states[0], states[k].log);
    if !(todo <= done) {
      SmallerIsFewer(done, todo);
      assert false;
    }
    assert done == todo;
    forall r: Reads | Healed(setup, states[k], r) ensures Decide(setup, states[k], r).Done? {
      HealedPassIsDone(setup, states[0], states[k], r);
    }
  }

  lemma SmallerIsFewer(a: set<Place>, b: set<Place>)
    requires a < b
    ensures |a| < |b|
  {
    assert b == a + (b - a);
    assert b - a != {};
  }
}
