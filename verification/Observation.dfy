/** What a pass reads of a role's StatefulSet and pods before it decides on a restart. */
module Observation {
  import opened Text
  import opened Decimal
  import opened Memgraph
  import opened Resources
  import opened Rollout

  /** A pod as the API server lists it. */
  datatype PodObject = PodObject(
    name: string,
    uid: string,
    revisionHash: string,
    deleting: bool,
    ready: bool,
    flags: string,
    template: string)
  {
    /** Readiness, of a pod that is not being deleted. */
    predicate IsReady() { !deleting && ready }
  }

  /** A StatefulSet as a pass reads it: its generation, and the status that trails it. */
  datatype SetObject = SetObject(
    generation: int,
    observedGeneration: int,
    updateRevision: string,
    replicas: int,
    readyReplicas: int)

  type Find = nat -> Option<PodObject>

  function PodOf(pod: PodObject, instance: string, ordinal: nat): Pod {
    Pod(pod.name, pod.uid, instance, ordinal, pod.revisionHash, false, pod.IsReady())
  }

  /** The role's pods below a count, by ordinal; one that does not exist is left out. */
  function Listed(find: Find, instance: nat -> string, count: nat): seq<Pod> {
    if count == 0 then []
    else
      Listed(find, instance, count - 1)
      + match find(count - 1)
        case None => []
        case Some(pod) => [PodOf(pod, instance(count - 1), count - 1)]
  }

  predicate IsStale(sts: SetObject, appliedGeneration: int) {
    sts.generation < appliedGeneration || sts.observedGeneration != sts.generation
  }

  function RoleOf(sts: Option<SetObject>, applied: nat, appliedGeneration: int, find: Find, instance: nat -> string): Role {
    match sts
    case None => Role(applied, "", false, [])
    case Some(set_) =>
      Role(applied, set_.updateRevision, IsStale(set_, appliedGeneration), Listed(find, instance, applied))
  }

  function ByName(pods: seq<PodObject>): map<string, PodObject> {
    if pods == [] then map[]
    else ByName(pods[..|pods| - 1])[pods[|pods| - 1].name := pods[|pods| - 1]]
  }

  /** The pod of an ordinal is the one that bears its name. */
  function Named(pods: map<string, PodObject>, statefulSet: string): Find {
    (ordinal: nat) =>
      var name := PodName(statefulSet, ordinal);
      if name in pods then Some(pods[name]) else None
  }

  method ObserveRolloutRole(statefulSet: string, sts: Option<SetObject>, applied: nat, appliedGeneration: int,
                            pods: seq<PodObject>, instance: nat -> string)
    returns (role: Role)
    ensures role == RoleOf(sts, applied, appliedGeneration, Named(ByName(pods), statefulSet), instance)
    ensures ReadsRole(role, sts, applied, appliedGeneration, Named(ByName(pods), statefulSet), instance)
  {
    RoleReadsExactly(sts, applied, appliedGeneration, Named(ByName(pods), statefulSet), instance);
    if sts.None? {
      return Role(applied, "", false, []);
    }
    var byName: map<string, PodObject> := map[];
    for i := 0 to |pods|
      invariant byName == ByName(pods[..i])
    {
      assert pods[..i + 1][..i] == pods[..i];
      byName := byName[pods[i].name := pods[i]];
    }
    assert pods[..|pods|] == pods;
    var listed: seq<Pod> := [];
    for ordinal := 0 to applied
      invariant listed == Listed(Named(byName, statefulSet), instance, ordinal)
    {
      var name := PodName(statefulSet, ordinal);
      assert Named(byName, statefulSet)(ordinal) == if name in byName then Some(byName[name]) else None;
      if name in byName {
        listed := listed + [PodOf(byName[name], instance(ordinal), ordinal)];
      }
    }
    role := Role(applied, sts.value.updateRevision, IsStale(sts.value, appliedGeneration), listed);
  }

  /** The pod as a decision reads it, off the object of that ordinal. */
  ghost predicate ReadFrom(pod: Pod, listed: PodObject, ordinal: nat, instance: string) {
    && pod.name == listed.name && pod.uid == listed.uid && pod.revisionHash == listed.revisionHash
    && pod.ordinal == ordinal && pod.instance == instance && !pod.current
    && (pod.ready <==> listed.ready && !listed.deleting)
  }

  /** The role as read: its pods in ordinal order, each off its own object, none left out that exists;
      its revision the status's; and stale when the cache has not the apply yet or the status not the
      cached generation. */
  ghost predicate ReadsRole(role: Role, sts: Option<SetObject>, applied: nat, appliedGeneration: int, find: Find, instance: nat -> string) {
    && role.replicas == applied
    && (sts.None? ==> role.pods == [] && role.updateRevision == "" && !role.stale)
    && (sts.Some? ==>
          && role.updateRevision == sts.value.updateRevision
          && (!role.stale <==> sts.value.generation >= appliedGeneration && sts.value.observedGeneration == sts.value.generation)
          && (forall p :: p in role.pods ==>
                p.ordinal < applied && find(p.ordinal).Some? && ReadFrom(p, find(p.ordinal).value, p.ordinal, instance(p.ordinal)))
          && (forall o: nat :: o < applied && find(o).Some? ==> exists p :: p in role.pods && p.ordinal == o)
          && forall i, j :: 0 <= i < j < |role.pods| ==> role.pods[i].ordinal < role.pods[j].ordinal)
  }

  lemma {:induction false} ListedAscend(find: Find, instance: nat -> string, count: nat)
    ensures var pods := Listed(find, instance, count);
      forall i, j :: 0 <= i < j < |pods| ==> pods[i].ordinal < pods[j].ordinal
  {
    if count > 0 {
      ListedAscend(find, instance, count - 1);
      ListedExactly(find, instance, count - 1);
      var before := Listed(find, instance, count - 1);
      forall i | 0 <= i < |before| ensures before[i].ordinal < count - 1 {
        assert before[i] in before;
      }
    }
  }

  lemma RoleReadsExactly(sts: Option<SetObject>, applied: nat, appliedGeneration: int, find: Find, instance: nat -> string)
    ensures ReadsRole(RoleOf(sts, applied, appliedGeneration, find, instance), sts, applied, appliedGeneration, find, instance)
  {
    ListedExactly(find, instance, applied);
    ListedAscend(find, instance, applied);
    var pods := Listed(find, instance, applied);
    forall o: nat | o < applied && find(o).Some? ensures exists p :: p in pods && p.ordinal == o {
      assert PodOf(find(o).value, instance(o), o) in pods;
    }
  }

  /** What is found at an ordinal is the last listed object of that ordinal's name. */
  lemma {:induction false} NamedExactly(pods: seq<PodObject>, statefulSet: string, o: nat)
    ensures Named(ByName(pods), statefulSet)(o).None? <==> forall i :: 0 <= i < |pods| ==> pods[i].name != statefulSet + "-" + FormatInt(o)
    ensures Named(ByName(pods), statefulSet)(o).Some? ==>
              exists i :: 0 <= i < |pods| && pods[i] == Named(ByName(pods), statefulSet)(o).value && pods[i].name == statefulSet + "-" + FormatInt(o)
                && forall j :: i < j < |pods| ==> pods[j].name != pods[i].name
  {
    if pods != [] {
      NamedExactly(pods[..|pods| - 1], statefulSet, o);
    }
  }

  /** The list holds exactly the pods that exist below the count, and is full exactly when all do. */
  lemma {:induction false} ListedExactly(find: Find, instance: nat -> string, count: nat)
    ensures forall o: nat :: o < count && find(o).Some? ==> PodOf(find(o).value, instance(o), o) in Listed(find, instance, count)
    ensures forall p :: p in Listed(find, instance, count) ==>
              p.ordinal < count && find(p.ordinal).Some? && p == PodOf(find(p.ordinal).value, instance(p.ordinal), p.ordinal)
    ensures |Listed(find, instance, count)| <= count
    ensures |Listed(find, instance, count)| == count <==> forall o: nat :: o < count ==> find(o).Some?
  {
    if count > 0 {
      ListedExactly(find, instance, count - 1);
    }
  }

  /** Present says what it should: below the count every pod exists and is ready. */
  lemma PresentExactly(sts: SetObject, applied: nat, appliedGeneration: int, find: Find, instance: nat -> string)
    ensures Present(RoleOf(Some(sts), applied, appliedGeneration, find, instance)) <==>
              forall o: nat :: o < applied ==> find(o).Some? && find(o).value.IsReady()
  {
    ListedExactly(find, instance, applied);
    var role := RoleOf(Some(sts), applied, appliedGeneration, find, instance);
    if Present(role) {
      forall o: nat | o < applied ensures find(o).Some? && find(o).value.IsReady() {
        assert PodOf(find(o).value, instance(o), o) in role.pods;
      }
    }
  }

  /* ---- Exempted pods ---- */

  /** The role with the pods of these identities declared current. */
  function Exempting(role: Role, exempt: set<string>): Role {
    role.(pods := ExemptingAll(role.pods, exempt))
  }

  function ExemptingAll(pods: seq<Pod>, exempt: set<string>): (marked: seq<Pod>)
    ensures |marked| == |pods|
    ensures forall i :: 0 <= i < |pods| ==> marked[i] == pods[i].(current := pods[i].uid in exempt)
  {
    seq(|pods|, i requires 0 <= i < |pods| => pods[i].(current := pods[i].uid in exempt))
  }

  lemma ExemptingHolds(role: Role, exempt: set<string>)
    ensures forall p :: p in role.pods ==> p.(current := p.uid in exempt) in Exempting(role, exempt).pods
    ensures forall p :: p in Exempting(role, exempt).pods ==>
              exists q :: q in role.pods && p == q.(current := q.uid in exempt)
    ensures (forall p :: p in role.pods ==> !p.current) ==>
              forall p :: p in Exempting(role, exempt).pods ==> p.(current := false) in role.pods && (p.current <==> p.uid in exempt)
    ensures Present(Exempting(role, exempt)) <==> Present(role)
  {
    var marked := Exempting(role, exempt);
    forall p | p in role.pods ensures p.(current := p.uid in exempt) in marked.pods {
      var i :| 0 <= i < |role.pods| && role.pods[i] == p;
      assert marked.pods[i] in marked.pods;
    }
    forall p | p in marked.pods
      ensures exists q :: q in role.pods && p == q.(current := q.uid in exempt)
    {
      var i :| 0 <= i < |role.pods| && marked.pods[i] == p;
      assert role.pods[i] in role.pods;
    }
  }

  /* ---- The readiness gate ---- */

  /** Every role has its pods ready, but for one that a restart under way has taken down. */
  predicate RoleReady(applied: nat, sts: Option<SetObject>, role: Role) {
    sts.Some?
    && var required := if InProgress(role) && sts.value.replicas == applied then applied - 1 else applied;
       sts.value.readyReplicas >= required
  }

  /** The role is up to the replicas applied; or one short of them in a StatefulSet that has them all,
      while a restart is under way: some pod that has a label is neither on the revision nor exempted. */
  ghost predicate HasItsPodsReady(applied: nat, sts: Option<SetObject>, role: Role) {
    && sts.Some?
    && (sts.value.readyReplicas >= applied
        || (sts.value.readyReplicas == applied - 1 && sts.value.replicas == applied && role.updateRevision != ""
            && exists p :: p in role.pods && p.revisionHash !in {"", role.updateRevision} && !p.current))
  }

  lemma RoleReadyExactly(applied: nat, sts: Option<SetObject>, role: Role)
    ensures RoleReady(applied, sts, role) <==> HasItsPodsReady(applied, sts, role)
  {
    var pending := OutdatedPods(role);
    if pending != [] {
      assert pending[0] in pending;
    }
  }

  method WorkloadsReady(appliedCoordinators: nat, coordinatorSet: Option<SetObject>, coordinators: Role,
                        appliedData: nat, dataSet: Option<SetObject>, data: Role)
    returns (ready: bool)
    ensures ready <==> HasItsPodsReady(appliedCoordinators, coordinatorSet, coordinators) && HasItsPodsReady(appliedData, dataSet, data)
    ensures dataSet.Some? && dataSet.value.replicas < appliedData && dataSet.value.readyReplicas < appliedData ==> !ready
  {
    RoleReadyExactly(appliedCoordinators, coordinatorSet, coordinators);
    RoleReadyExactly(appliedData, dataSet, data);
    var roles := [(appliedCoordinators, coordinatorSet, coordinators), (appliedData, dataSet, data)];
    for k := 0 to 2
      invariant forall i :: 0 <= i < k ==> RoleReady(roles[i].0, roles[i].1, roles[i].2)
    {
      var (applied, sts, role) := roles[k];
      if sts.None? {
        return false;
      }
      var required: int := applied;
      var pending := Outdated(role);
      if pending != [] && sts.value.replicas == required {
        required := required - 1;
      }
      if sts.value.readyReplicas < required {
        assert !RoleReady(roles[k].0, roles[k].1, roles[k].2);
        return false;
      }
    }
    assert RoleReady(roles[0].0, roles[0].1, roles[0].2) && RoleReady(roles[1].0, roles[1].1, roles[1].2);
    ready := true;
  }

  /* ---- Status that trails ---- */

  /** What Kubernetes promises of a StatefulSet whose templates, by generation, hash to `revisions`:
      a status that says it describes the object's generation names that template's revision. Any
      other status, and how far behind it is, is unconstrained. */
  ghost predicate Reports(sts: SetObject, revisions: seq<string>) {
    && 1 <= sts.generation <= |revisions|
    && (sts.observedGeneration == sts.generation ==> sts.updateRevision == revisions[sts.generation - 1] != "")
  }

  /** On the template the pass applied, exempted from the restart, or without the label that tells. */
  ghost predicate Settled(pod: PodObject, revision: string, exempt: set<string>) {
    pod.revisionHash == revision || pod.uid in exempt || pod.revisionHash == ""
  }

  /** A decision to restart anything but a data pod was made with nothing left to do on the data. */
  lemma CoordinatorsGoAfterData(data: Role, coordinators: Role, view: seq<Instance>, lag: seq<ReplicationLag>)
    requires var d := Next(data, coordinators, view, lag); d.Delete? && d.pod !in data.pods
    ensures !data.stale && OutdatedPods(data) == [] && Present(data)
    ensures Next(data, coordinators, view, lag).pod in OutdatedPods(coordinators)
  {
    if OutdatedPods(data) != [] {
      DataRestarts(data, coordinators, view, lag);
      assert false;
    }
    CoordinatorRestarts(data, coordinators, view, lag);
  }

  /** A pod that exists is seen, marked as it is exempted. */
  lemma SeenMarked(sts: SetObject, applied: nat, appliedGeneration: int, find: Find, exempt: set<string>, o: nat)
    requires o < applied && find(o).Some?
    ensures PodOf(find(o).value, DataInstanceName(o), o).(current := find(o).value.uid in exempt)
              in Exempting(RoleOf(Some(sts), applied, appliedGeneration, find, DataInstanceName), exempt).pods
  {
    var observed := RoleOf(Some(sts), applied, appliedGeneration, find, DataInstanceName);
    ListedExactly(find, DataInstanceName, applied);
    var pod := PodOf(find(o).value, DataInstanceName(o), o);
    var i :| 0 <= i < |observed.pods| && observed.pods[i] == pod;
    assert ExemptingAll(observed.pods, exempt)[i] in ExemptingAll(observed.pods, exempt);
  }

  lemma SettledOnceNoneOutdated(sts: SetObject, applied: nat, find: Find, revisions: seq<string>, exempt: set<string>, o: nat)
    requires |revisions| > 0 && Reports(sts, revisions) && !IsStale(sts, |revisions|)
    requires o < applied && find(o).Some?
    requires OutdatedPods(Exempting(RoleOf(Some(sts), applied, |revisions|, find, DataInstanceName), exempt)) == []
    ensures Settled(find(o).value, revisions[|revisions| - 1], exempt)
  {
    SeenMarked(sts, applied, |revisions|, find, exempt, o);
    var marked := PodOf(find(o).value, DataInstanceName(o), o).(current := find(o).value.uid in exempt);
    assert !IsOutdated(sts.updateRevision, marked);
  }

  lemma AllSettledOnceNoneOutdated(dataSet: Option<SetObject>, applied: nat, find: Find, revisions: seq<string>, exempt: set<string>)
    requires applied > 0 && |revisions| > 0 && (dataSet.Some? ==> Reports(dataSet.value, revisions))
    requires var data := Exempting(RoleOf(dataSet, applied, |revisions|, find, DataInstanceName), exempt);
      !data.stale && OutdatedPods(data) == [] && Present(data)
    ensures forall o: nat :: o < applied ==>
              && find(o).Some? && find(o).value.IsReady()
              && Settled(find(o).value, revisions[|revisions| - 1], exempt)
  {
    var observed := RoleOf(dataSet, applied, |revisions|, find, DataInstanceName);
    ExemptingHolds(observed, exempt);
    assert Present(observed);
    PresentExactly(dataSet.value, applied, |revisions|, find, DataInstanceName);
    forall o: nat | o < applied
      ensures Settled(find(o).value, revisions[|revisions| - 1], exempt)
    {
      SettledOnceNoneOutdated(dataSet.value, applied, find, revisions, exempt, o);
    }
  }

  /** However far each StatefulSet's status trails its template, a coordinator pod goes only when
      every data pod exists, is ready and is settled on the template this pass applied. */
  lemma StatusLagKeepsTheOrder(dataSet: Option<SetObject>, applied: nat, find: Find, revisions: seq<string>,
                               exempt: set<string>, coordinators: Role, view: seq<Instance>, lag: seq<ReplicationLag>)
    requires applied > 0 && |revisions| > 0
    requires dataSet.Some? ==> Reports(dataSet.value, revisions)
    requires var data := Exempting(RoleOf(dataSet, applied, |revisions|, find, DataInstanceName), exempt);
      var d := Next(data, coordinators, view, lag);
      d.Delete? && d.pod !in data.pods
    ensures forall o: nat :: o < applied ==>
              && find(o).Some? && find(o).value.IsReady()
              && Settled(find(o).value, revisions[|revisions| - 1], exempt)
  {
    var data := Exempting(RoleOf(dataSet, applied, |revisions|, find, DataInstanceName), exempt);
    CoordinatorsGoAfterData(data, coordinators, view, lag);
    AllSettledOnceNoneOutdated(dataSet, applied, find, revisions, exempt);
  }
}
