/** The Ready condition: what a pass concludes from its verdict on serving, the other conditions, and
    what was published before. */
module Readiness {
  import opened Text

  const READY := "Ready"
  const CONVERGED := "Converged"
  const UPDATED := "Updated"
  const LICENSE_APPLIED := "LicenseApplied"
  const SERVING := "Serving"

  const RECONCILING := "Reconciling"
  const RECONCILED := "Reconciled"

  datatype Status = True | False | Unknown

  datatype Condition = Condition(status: Status, reason: string, observedGeneration: int)

  /** The conditions on the resource, by type. */
  type Conditions = map<string, Condition>

  predicate IsServingReason(reason: string) {
    || reason == "ApplyFailed"
    || reason == "WorkloadsNotReady"
    || reason == "CoordinatorUnreachable"
    || reason == "NoCoordinatorLeader"
    || reason == "NoMainElected"
  }

  /** What a pass sets: a condition of a type other than Ready. */
  datatype Setting = Setting(kind: string, status: Status, reason: string)

  function WithUnknown(conditions: Conditions, kind: string, generation: int): Conditions {
    if kind in conditions then conditions else conditions[kind := Condition(Unknown, RECONCILING, generation)]
  }

  function Initialized(conditions: Conditions, generation: int): Conditions {
    WithUnknown(WithUnknown(WithUnknown(WithUnknown(conditions, READY, generation), CONVERGED, generation), UPDATED, generation),
                LICENSE_APPLIED, generation)
  }

  function SetAll(conditions: Conditions, settings: seq<Setting>, generation: int): Conditions {
    if settings == [] then conditions
    else
      var last := settings[|settings| - 1];
      SetAll(conditions, settings[..|settings| - 1], generation)[last.kind := Condition(last.status, last.reason, generation)]
  }

  /** The first of the summarized conditions that is not True for this generation. */
  function Holdup(conditions: Conditions, generation: int, kinds: seq<string>): (holdup: Option<Condition>)
    ensures holdup.None? <==> forall k :: k in kinds ==> Current(conditions, k, generation)
    ensures holdup.Some? ==> holdup.value.status != True && holdup.value.observedGeneration == generation
  {
    if kinds == [] then None
    else
      assert kinds[0] in kinds && forall k :: k in kinds <==> k == kinds[0] || k in kinds[1..];
      if kinds[0] !in conditions || conditions[kinds[0]].observedGeneration != generation then
        Some(Condition(Unknown, RECONCILING, generation))
      else if conditions[kinds[0]].status != True then
        Some(Condition(conditions[kinds[0]].status, conditions[kinds[0]].reason, generation))
      else Holdup(conditions, generation, kinds[1..])
  }

  const SUMMARIZED := [LICENSE_APPLIED, CONVERGED, UPDATED]

  /** A published Ready that says the cluster was not serving, or was not decided. */
  predicate SaysNotServing(conditions: Conditions) {
    READY in conditions && conditions[READY].status != True
    && (IsServingReason(conditions[READY].reason) || conditions[READY].reason == RECONCILING)
  }

  function ReadyCondition(serving: Option<Condition>, conditions: Conditions, generation: int): (ready: Condition)
    ensures ready.observedGeneration == generation
  {
    if serving.None? && SaysNotServing(conditions) then conditions[READY].(observedGeneration := generation)
    else if serving.Some? && serving.value.status != True then serving.value.(observedGeneration := generation)
    else SumOf(conditions, generation)
  }

  /** What the license, convergence and the roll add up to in a cluster that serves. */
  function SumOf(conditions: Conditions, generation: int): (sum: Condition)
    ensures sum.observedGeneration == generation
    ensures sum.status == True <==> forall k :: k in SUMMARIZED ==> Current(conditions, k, generation)
  {
    match Holdup(conditions, generation, SUMMARIZED)
    case Some(condition) => condition
    case None => Condition(True, RECONCILED, generation)
  }

  function Verdict(conditions: Conditions): Option<Condition> {
    if SERVING in conditions then Some(conditions[SERVING]) else None
  }

  function Summarized(conditions: Conditions, generation: int): Conditions {
    (conditions - {SERVING})[READY := ReadyCondition(Verdict(conditions), conditions - {SERVING}, generation)]
  }

  /* ---- What each of these comes to ---- */

  /** Why a pass can find that the cluster does not serve. */
  datatype Obstacle = ApplyRejected | PodsNotReady | NobodyAnswers | NobodyLeads | NobodyIsMain

  function ReasonFor(o: Obstacle): string {
    match o
    case ApplyRejected => "ApplyFailed"
    case PodsNotReady => "WorkloadsNotReady"
    case NobodyAnswers => "CoordinatorUnreachable"
    case NobodyLeads => "NoCoordinatorLeader"
    case NobodyIsMain => "NoMainElected"
  }

  /** The reasons that read as not serving are exactly those a pass gives for not serving. */
  lemma ServingReasonsExactly(reason: string)
    ensures IsServingReason(reason) <==> exists o: Obstacle :: reason == ReasonFor(o)
  {
    if IsServingReason(reason) {
      assert reason == ReasonFor(ApplyRejected) || reason == ReasonFor(PodsNotReady) || reason == ReasonFor(NobodyAnswers)
          || reason == ReasonFor(NobodyLeads) || reason == ReasonFor(NobodyIsMain);
    }
  }

  /** Before a pass the four conditions exist: those that did as they were, the others undecided; and no
      other is touched. */
  ghost predicate StartsFrom(after: Conditions, before: Conditions, generation: int) {
    && (forall k :: k in before ==> k in after && after[k] == before[k])
    && (forall k :: k in after <==> k in before || k in {"Ready", "Converged", "Updated", "LicenseApplied"})
    && (forall k :: k in after && k !in before ==> after[k] == Condition(Unknown, "Reconciling", generation))
  }

  lemma InitializedExactly(conditions: Conditions, generation: int)
    ensures StartsFrom(Initialized(conditions, generation), conditions, generation)
  {
    assert READY != CONVERGED && READY != UPDATED && READY != LICENSE_APPLIED;
    assert CONVERGED != UPDATED && CONVERGED != LICENSE_APPLIED && UPDATED != LICENSE_APPLIED;
  }

  /** A condition is what the last setting of its type says, for this generation; one that nothing sets
      is as it was. */
  lemma {:induction false} SetAllExactly(conditions: Conditions, settings: seq<Setting>, generation: int, i: nat)
    requires i < |settings| && forall j :: i < j < |settings| ==> settings[j].kind != settings[i].kind
    ensures var after := SetAll(conditions, settings, generation);
      settings[i].kind in after && after[settings[i].kind] == Condition(settings[i].status, settings[i].reason, generation)
  {
    if i < |settings| - 1 {
      SetAllExactly(conditions, settings[..|settings| - 1], generation, i);
    }
  }

  lemma {:induction false} SetAllLeaves(conditions: Conditions, settings: seq<Setting>, generation: int, kind: string)
    requires forall j :: 0 <= j < |settings| ==> settings[j].kind != kind
    ensures var after := SetAll(conditions, settings, generation);
      (kind in after <==> kind in conditions) && (kind in after ==> after[kind] == conditions[kind])
  {
    if settings != [] {
      SetAllLeaves(conditions, settings[..|settings| - 1], generation, kind);
    }
  }

  /** Summarizing changes Ready, takes the verdict away, and leaves every other condition. */
  lemma SummarizedLeaves(conditions: Conditions, generation: int)
    ensures var after := Summarized(conditions, generation);
      && "Ready" in after && "Serving" !in after
      && (forall k :: k !in {"Ready", "Serving"} ==> (k in after <==> k in conditions) && (k in after ==> after[k] == conditions[k]))
  {
    assert READY != SERVING;
  }

  /** The resource as a pass works on it. */
  class ClusterStatus {
    var conditions: Conditions
    const generation: int

    constructor (published: Conditions, generation: int)
      ensures conditions == published && this.generation == generation
    {
      conditions, this.generation := published, generation;
    }

    method InitializeConditions()
      modifies this
      ensures conditions == Initialized(old(conditions), generation)
      ensures StartsFrom(conditions, old(conditions), generation)
    {
      InitializedExactly(conditions, generation);
      var kinds := [READY, CONVERGED, UPDATED, LICENSE_APPLIED];
      ghost var steps := [old(conditions), WithUnknown(old(conditions), READY, generation),
                          WithUnknown(WithUnknown(old(conditions), READY, generation), CONVERGED, generation),
                          WithUnknown(WithUnknown(WithUnknown(old(conditions), READY, generation), CONVERGED, generation), UPDATED, generation),
                          Initialized(old(conditions), generation)];
      for i := 0 to 4
        invariant conditions == steps[i]
      {
        if kinds[i] !in conditions {
          conditions := conditions[kinds[i] := Condition(Unknown, RECONCILING, generation)];
        }
      }
    }

    method SetStatus(settings: seq<Setting>)
      modifies this
      ensures conditions == SetAll(old(conditions), settings, generation)
    {
      for i := 0 to |settings|
        invariant conditions == SetAll(old(conditions), settings[..i], generation)
      {
        assert settings[..i + 1][..i] == settings[..i];
        conditions := conditions[settings[i].kind := Condition(settings[i].status, settings[i].reason, generation)];
      }
      assert settings[..|settings|] == settings;
    }

    method SummarizeReady()
      modifies this
      ensures conditions == Summarized(old(conditions), generation)
    {
      var serving: Option<Condition> := None;
      if SERVING in conditions {
        serving := Some(conditions[SERVING]);
        conditions := conditions - {SERVING};
      }
      assert conditions == old(conditions) - {SERVING};
      var ready := ReadyCondition(serving, conditions, generation);
      conditions := conditions[READY := ready.(observedGeneration := generation)];
    }
  }

  /* ---- One pass ---- */

  /** The condition is True, for this generation. */
  predicate Current(conditions: Conditions, kind: string, generation: int) {
    kind in conditions && conditions[kind].status == True && conditions[kind].observedGeneration == generation
  }

  ghost predicate AllCurrent(conditions: Conditions, generation: int) {
    && Current(conditions, LICENSE_APPLIED, generation)
    && Current(conditions, CONVERGED, generation)
    && Current(conditions, UPDATED, generation)
  }

  lemma NoHoldup(conditions: Conditions, generation: int)
    ensures Holdup(conditions, generation, SUMMARIZED).None? <==> AllCurrent(conditions, generation)
  {
    assert LICENSE_APPLIED in SUMMARIZED && CONVERGED in SUMMARIZED && UPDATED in SUMMARIZED;
  }

  /** Ready is True exactly when all three conditions are True for the current generation, and the
      cluster serves: by this pass's verdict, or, without one, by the published Ready not saying
      otherwise. */
  lemma ReadyExactly(conditions: Conditions, generation: int)
    ensures var after, serving := Summarized(conditions, generation), Verdict(conditions);
      && (after[READY].status == True <==>
            && AllCurrent(after, generation)
            && if serving.Some? then serving.value.status == True else !SaysNotServing(conditions))
      && after[READY].observedGeneration == generation
      && SERVING !in after
  {
    assert READY != SERVING && LICENSE_APPLIED != SERVING && CONVERGED != SERVING && UPDATED != SERVING;
    var rest := conditions - {SERVING};
    NoHoldup(rest, generation);
    assert SaysNotServing(rest) <==> SaysNotServing(conditions);
  }

  /** The condition Ready is copied from: undecided for this generation, or decided against. */
  ghost predicate CopiedFrom(ready: Condition, conditions: Conditions, kind: string, generation: int) {
    if kind in conditions && conditions[kind].observedGeneration == generation then
      ready.status == conditions[kind].status && ready.reason == conditions[kind].reason
    else
      ready.status == Unknown && ready.reason == RECONCILING
  }

  /** Otherwise Ready names what stands in the way, in order: not serving, then the license, then
      convergence, then the roll. */
  lemma ReadyNamesTheFirst(conditions: Conditions, generation: int)
    ensures var after, serving := Summarized(conditions, generation), Verdict(conditions);
      after[READY].status != True ==>
        if serving.None? && SaysNotServing(conditions) then CopiedFrom(after[READY], conditions, READY, conditions[READY].observedGeneration)
        else if serving.Some? && serving.value.status != True then after[READY].status == serving.value.status && after[READY].reason == serving.value.reason
        else if !Current(after, LICENSE_APPLIED, generation) then CopiedFrom(after[READY], after, LICENSE_APPLIED, generation)
        else if !Current(after, CONVERGED, generation) then CopiedFrom(after[READY], after, CONVERGED, generation)
        else CopiedFrom(after[READY], after, UPDATED, generation)
  {
    assert READY != SERVING && LICENSE_APPLIED != SERVING && CONVERGED != SERVING && UPDATED != SERVING;
    assert READY != LICENSE_APPLIED && READY != CONVERGED && READY != UPDATED;
    assert SUMMARIZED[1..] == [CONVERGED, UPDATED] && [CONVERGED, UPDATED][1..] == [UPDATED] && [UPDATED][1..] == [];
    var rest := conditions - {SERVING};
    assert SaysNotServing(rest) <==> SaysNotServing(conditions);
    assert Current(rest, LICENSE_APPLIED, generation) ==> Holdup(rest, generation, SUMMARIZED) == Holdup(rest, generation, [CONVERGED, UPDATED]);
    assert Current(rest, CONVERGED, generation) ==> Holdup(rest, generation, [CONVERGED, UPDATED]) == Holdup(rest, generation, [UPDATED]);
    assert Current(rest, UPDATED, generation) ==> Holdup(rest, generation, [UPDATED]) == None;
  }

  /** One condition a pass may set: a verdict that the cluster serves, or does not for one of the reasons
      it can have; or anything about the other three. */
  ghost predicate ValidSetting(s: Setting) {
    if s.kind == SERVING then s.status == True || (s.status == False && IsServingReason(s.reason))
    else s.kind == LICENSE_APPLIED || s.kind == CONVERGED || s.kind == UPDATED
  }

  const VOLUME_EXPANSION := "VolumeExpansionInProgress"

  const EXPANDING := [Setting(CONVERGED, False, VOLUME_EXPANSION)]

  /** What a whole pass may set. One that reaches no verdict failed or was put off before it set
      anything, recreated a StatefulSet for a grown volume, or failed right after the license. */
  ghost predicate ValidSettings(settings: seq<Setting>) {
    && (forall s :: s in settings ==> ValidSetting(s))
    && (VerdictOf(settings).None? ==>
          settings == [] || settings == EXPANDING || (|settings| == 1 && settings[0].kind == LICENSE_APPLIED))
  }

  /** The status a pass leaves, whichever conditions it set on its way to whichever return. */
  function Passed(published: Conditions, settings: seq<Setting>, generation: int): Conditions {
    Summarized(SetAll(Initialized(published, generation), settings, generation), generation)
  }

  function VerdictOf(settings: seq<Setting>): Option<Status> {
    if settings == [] then None
    else if settings[|settings| - 1].kind == SERVING then Some(settings[|settings| - 1].status)
    else VerdictOf(settings[..|settings| - 1])
  }

  lemma {:induction false} SetAllFrame(conditions: Conditions, settings: seq<Setting>, generation: int)
    requires forall s :: s in settings ==> ValidSetting(s)
    requires SERVING !in conditions && READY in conditions
    ensures var after := SetAll(conditions, settings, generation);
      && READY in after && after[READY] == conditions[READY]
      && (Verdict(after).Some? <==> VerdictOf(settings).Some?)
      && (Verdict(after).Some? ==> Verdict(after).value.status == VerdictOf(settings).value)
      && (Verdict(after).Some? && Verdict(after).value.status != True ==> IsServingReason(Verdict(after).value.reason))
  {
    if settings != [] {
      var last := settings[|settings| - 1];
      assert last in settings;
      assert forall s :: s in settings[..|settings| - 1] ==> s in settings;
      SetAllFrame(conditions, settings[..|settings| - 1], generation);
      assert READY != SERVING && READY != LICENSE_APPLIED && READY != CONVERGED && READY != UPDATED;
      assert SERVING != LICENSE_APPLIED && SERVING != CONVERGED && SERVING != UPDATED;
    }
  }

  /* ---- Every sequence of passes ---- */

  /** What is published, the spec's generation, and the latest verdict of a pass whose status was
      written. */
  datatype World = World(published: Conditions, generation: int, latest: Option<Status>)

  datatype Action = SpecChanges(generation: int) | Passes(settings: seq<Setting>, written: bool)

  ghost predicate Step(w: World, a: Action, w': World) {
    match a
    case SpecChanges(generation) => generation > w.generation && w' == w.(generation := generation)
    case Passes(settings, written) =>
      && ValidSettings(settings)
      && w' == if !written then w
               else World(Passed(w.published, settings, w.generation), w.generation,
                          if VerdictOf(settings).Some? then VerdictOf(settings) else w.latest)
  }

  ghost predicate Steps(states: seq<World>, actions: seq<Action>, k: nat)
    requires k < |actions| < |states|
  {
    Step(states[k], actions[k], states[k + 1])
  }

  ghost predicate Run(states: seq<World>, actions: seq<Action>) {
    && |states| == |actions| + 1 && states[0].published == map[] && states[0].latest == None
    && forall k: nat :: k < |actions| ==> Steps(states, actions, k)
  }

  /** Ready=True is backed by the latest verdict and by the three conditions of its own generation; and
      whenever the latest verdict is that the cluster does not serve, or there never was one, the
      published Ready says so. */
  ghost predicate Honest(w: World) {
    && SERVING !in w.published
    && (READY in w.published && w.published[READY].status == True ==>
          && w.latest == Some(True) && w.published[READY].observedGeneration <= w.generation
          && AllCurrent(w.published, w.published[READY].observedGeneration))
    && (READY in w.published && w.latest != Some(True) ==> SaysNotServing(w.published))
  }

  lemma StartsNotServing(published: Conditions, generation: int)
    requires SERVING !in published
    ensures var begun := Initialized(published, generation);
      && SERVING !in begun && READY in begun
      && (READY in published ==> begun[READY] == published[READY])
      && (READY !in published ==> SaysNotServing(begun))
  {
    assert READY != SERVING && READY != LICENSE_APPLIED && READY != CONVERGED && READY != UPDATED;
    assert SERVING != LICENSE_APPLIED && SERVING != CONVERGED && SERVING != UPDATED;
  }

  lemma PassKeepsHonest(w: World, a: Action, w': World)
    requires Honest(w) && a.Passes? && Step(w, a, w')
    ensures Honest(w')
    ensures a.written ==> READY in w'.published && w'.published[READY].observedGeneration == w'.generation
  {
    if a.written {
      var begun := Initialized(w.published, w.generation);
      var set_ := SetAll(begun, a.settings, w.generation);
      StartsNotServing(w.published, w.generation);
      SetAllFrame(begun, a.settings, w.generation);
      ReadyExactly(set_, w.generation);
      assert w'.published == Summarized(set_, w.generation);
      assert SaysNotServing(set_) <==> SaysNotServing(begun);
      assert SaysNotServing(set_ - {SERVING}) <==> SaysNotServing(set_) by {
        assert READY != SERVING;
      }
    }
  }

  lemma {:induction false} RunKeepsHonest(states: seq<World>, actions: seq<Action>, k: nat)
    requires Run(states, actions) && k < |states|
    ensures Honest(states[k])
  {
    if k > 0 {
      RunKeepsHonest(states, actions, k - 1);
      assert Steps(states, actions, k - 1);
      if actions[k - 1].Passes? {
        PassKeepsHonest(states[k - 1], actions[k - 1], states[k]);
      }
    }
  }

  /** Over every sequence of passes and spec edits, passes that end before observing anything and
      passes whose status is not written included: a published Ready=True means that the latest
      verdict written was that the cluster serves, and that the license, convergence and the roll were
      all True for the generation Ready describes, which a pass just written makes the current one;
      and the verdict itself is never published. */
  lemma ReadyIsHonest(states: seq<World>, actions: seq<Action>, k: nat)
    requires Run(states, actions) && k < |states|
    ensures SERVING !in states[k].published
    ensures READY in states[k].published && states[k].published[READY].status == True ==>
              states[k].latest == Some(True) && AllCurrent(states[k].published, states[k].published[READY].observedGeneration)
    ensures k > 0 && actions[k - 1].Passes? && actions[k - 1].written ==>
              READY in states[k].published
              && (states[k].published[READY].status == True ==> AllCurrent(states[k].published, states[k].generation))
  {
    RunKeepsHonest(states, actions, k);
    if k > 0 && actions[k - 1].Passes? {
      RunKeepsHonest(states, actions, k - 1);
      assert Steps(states, actions, k - 1);
      PassKeepsHonest(states[k - 1], actions[k - 1], states[k]);
    }
  }

  /* ---- Verdicts that are not written ---- */

  /** The latest verdict any pass came to, and whether its status was written. */
  datatype Said = Said(verdict: Status, written: bool)

  function LatestSaid(actions: seq<Action>): Option<Said> {
    if actions == [] then None
    else
      var last := actions[|actions| - 1];
      if last.Passes? && VerdictOf(last.settings).Some? then Some(Said(VerdictOf(last.settings).value, last.written))
      else LatestSaid(actions[..|actions| - 1])
  }

  lemma {:induction false} WrittenIsLatest(states: seq<World>, actions: seq<Action>, k: nat)
    requires Run(states, actions) && k < |states|
    ensures LatestSaid(actions[..k]).None? ==> states[k].latest.None?
    ensures LatestSaid(actions[..k]).Some? && LatestSaid(actions[..k]).value.written ==>
              states[k].latest == Some(LatestSaid(actions[..k]).value.verdict)
  {
    if k > 0 {
      assert actions[..k][..k - 1] == actions[..k - 1] && actions[..k][k - 1] == actions[k - 1];
      WrittenIsLatest(states, actions, k - 1);
      assert Steps(states, actions, k - 1);
    }
  }

  /** Over every run, whichever status writes are refused: behind a published Ready=True some pass came
      to a verdict, and if the latest one was written, it is that the cluster serves. */
  lemma TrueIsBackedOnceWritten(states: seq<World>, actions: seq<Action>, k: nat)
    requires Run(states, actions) && k < |states|
    requires READY in states[k].published && states[k].published[READY].status == True
    ensures LatestSaid(actions[..k]).Some?
    ensures LatestSaid(actions[..k]).value.written ==> LatestSaid(actions[..k]).value.verdict == True
  {
    ReadyIsHonest(states, actions, k);
    WrittenIsLatest(states, actions, k);
  }

  /* ---- Passes without a verdict ---- */

  /** The published Ready is what the other three conditions add up to. */
  ghost predicate Follows(conditions: Conditions) {
    READY in conditions && conditions[READY] == SumOf(conditions, conditions[READY].observedGeneration)
  }

  /** No condition is ahead of Ready, nor Ready of the spec. */
  ghost predicate Dated(w: World) {
    && (READY in w.published ==> w.published[READY].observedGeneration <= w.generation)
    && forall k :: k in w.published ==> READY in w.published && w.published[k].observedGeneration <= w.published[READY].observedGeneration
  }

  lemma {:induction false} SetAllDates(conditions: Conditions, settings: seq<Setting>, generation: int, k: string)
    requires k in SetAll(conditions, settings, generation)
    requires k in conditions ==> conditions[k].observedGeneration <= generation
    ensures SetAll(conditions, settings, generation)[k].observedGeneration <= generation
  {
    if settings != [] && settings[|settings| - 1].kind != k {
      SetAllDates(conditions, settings[..|settings| - 1], generation, k);
    }
  }

  lemma {:induction false} RunKeepsDated(states: seq<World>, actions: seq<Action>, k: nat)
    requires Run(states, actions) && k < |states|
    ensures Dated(states[k])
  {
    if k > 0 {
      RunKeepsDated(states, actions, k - 1);
      assert Steps(states, actions, k - 1);
      var w, w' := states[k - 1], states[k];
      if actions[k - 1].Passes? && actions[k - 1].written {
        var begun := Initialized(w.published, w.generation);
        var set_ := SetAll(begun, actions[k - 1].settings, w.generation);
        forall t | t in w'.published ensures w'.published[t].observedGeneration <= w.generation {
          if t != READY {
            SetAllDates(begun, actions[k - 1].settings, w.generation, t);
          }
        }
      }
    }
  }

  /** A condition as the summary reads it: undecided unless it is about this generation. */
  function Reading(conditions: Conditions, kind: string, generation: int): Condition {
    if kind in conditions && conditions[kind].observedGeneration == generation then conditions[kind]
    else Condition(Unknown, RECONCILING, generation)
  }

  lemma {:induction false} HoldupReads(conditions: Conditions, others: Conditions, generation: int, kinds: seq<string>)
    requires forall k :: k in kinds ==> Reading(conditions, k, generation) == Reading(others, k, generation)
    ensures Holdup(conditions, generation, kinds) == Holdup(others, generation, kinds)
  {
    if kinds != [] {
      assert kinds[0] in kinds && forall k :: k in kinds[1..] ==> k in kinds;
      assert Reading(conditions, kinds[0], generation) == Reading(others, kinds[0], generation);
      HoldupReads(conditions, others, generation, kinds[1..]);
    }
  }

  /** What a pass without a verdict publishes: Ready is kept if it says that the cluster is not serving,
      and is what the others add up to otherwise. */
  lemma WithoutAVerdict(published: Conditions, settings: seq<Setting>, generation: int)
    requires SERVING !in published && READY in published
    requires ValidSettings(settings) && VerdictOf(settings).None?
    ensures var after := Passed(published, settings, generation);
      && SumOf(after, generation) == SumOf(SetAll(Initialized(published, generation), settings, generation), generation)
      && READY in after
      && after[READY] == if SaysNotServing(published) then published[READY].(observedGeneration := generation)
                         else SumOf(after, generation)
  {
    var begun := Initialized(published, generation);
    var set_ := SetAll(begun, settings, generation);
    StartsNotServing(published, generation);
    SetAllFrame(begun, settings, generation);
    assert READY != SERVING && LICENSE_APPLIED != SERVING && CONVERGED != SERVING && UPDATED != SERVING;
    assert READY != LICENSE_APPLIED && READY != CONVERGED && READY != UPDATED;
    assert set_ - {SERVING} == set_;
    HoldupReads(Passed(published, settings, generation), set_, generation, SUMMARIZED);
  }

  /** An early end: the others say what they said, or are undecided for a newer spec. */
  lemma SumAfterAnEarlyEnd(w: World)
    requires SERVING !in w.published && READY in w.published && Dated(w)
    ensures var ready := w.published[READY];
      SumOf(Initialized(w.published, w.generation), w.generation) ==
        if ready.observedGeneration == w.generation then SumOf(w.published, w.generation)
        else Condition(Unknown, RECONCILING, w.generation)
  {
    var begun := Initialized(w.published, w.generation);
    assert READY != LICENSE_APPLIED && READY != CONVERGED && READY != UPDATED;
    assert LICENSE_APPLIED != CONVERGED && LICENSE_APPLIED != UPDATED && CONVERGED != UPDATED;
    if w.published[READY].observedGeneration == w.generation {
      HoldupReads(begun, w.published, w.generation, SUMMARIZED);
    } else {
      assert Reading(begun, LICENSE_APPLIED, w.generation) == Condition(Unknown, RECONCILING, w.generation);
    }
  }

  /** An expansion: convergence now stands in the way, unless the license does. */
  lemma SumAfterAnExpansion(published: Conditions, generation: int)
    requires Current(published, LICENSE_APPLIED, generation)
    ensures SumOf(SetAll(Initialized(published, generation), EXPANDING, generation), generation) ==
              Condition(False, VOLUME_EXPANSION, generation)
  {
    assert READY != LICENSE_APPLIED && LICENSE_APPLIED != CONVERGED;
    assert EXPANDING[..0] == [];
    var begun := Initialized(published, generation);
    assert begun[LICENSE_APPLIED] == published[LICENSE_APPLIED];
    assert SetAll(begun, EXPANDING, generation) == begun[CONVERGED := Condition(False, VOLUME_EXPANSION, generation)];
    var set_ := SetAll(begun, EXPANDING, generation);
    assert SUMMARIZED[1..] == [CONVERGED, UPDATED];
    assert Holdup(set_, generation, SUMMARIZED) == Holdup(set_, generation, [CONVERGED, UPDATED]);
  }

  lemma ExpansionSets(published: Conditions, generation: int)
    requires SERVING !in published
    ensures var after := Passed(published, EXPANDING, generation);
      CONVERGED in after && after[CONVERGED] == Condition(False, VOLUME_EXPANSION, generation)
    ensures LICENSE_APPLIED in published && published[LICENSE_APPLIED].observedGeneration != generation ==>
              SumOf(SetAll(Initialized(published, generation), EXPANDING, generation), generation)
                == Condition(Unknown, RECONCILING, generation)
  {
    assert READY != CONVERGED && CONVERGED != SERVING && LICENSE_APPLIED != READY && LICENSE_APPLIED != CONVERGED;
    assert EXPANDING[..0] == [];
    var begun := Initialized(published, generation);
    assert SetAll(begun, EXPANDING, generation) == begun[CONVERGED := Condition(False, VOLUME_EXPANSION, generation)];
  }

  /** Over every run: after a pass without a verdict, in a cluster whose latest verdict is that it
      serves, Ready follows the other three conditions if and only if the published Ready did not read
      as not serving, or happens to read what they add up to now. For a pass that recreates a
      StatefulSet under a license already applied, that is if and only if it did not read as not
      serving; for one that ended early on a Ready that followed, if and only if it did not, or the
      spec is the one it describes, or it was still undecided. */
  lemma ReadyFollowsExactly(states: seq<World>, actions: seq<Action>, k: nat)
    requires Run(states, actions) && k < |actions|
    requires actions[k].Passes? && actions[k].written && VerdictOf(actions[k].settings).None?
    requires READY in states[k].published && states[k].latest == Some(True)
    ensures var w, settings := states[k], actions[k].settings;
      var ready := w.published[READY];
      && (Follows(states[k + 1].published) <==>
            || !SaysNotServing(w.published)
            || ready.(observedGeneration := w.generation) == SumOf(states[k + 1].published, w.generation))
      && (settings == EXPANDING && Current(w.published, LICENSE_APPLIED, w.generation) ==>
            (Follows(states[k + 1].published) <==> !SaysNotServing(w.published)))
      && (settings == [] && Follows(w.published) ==>
            (Follows(states[k + 1].published) <==>
               || !SaysNotServing(w.published)
               || ready.observedGeneration == w.generation
               || (ready.status == Unknown && ready.reason == RECONCILING)))
  {
    var w, settings := states[k], actions[k].settings;
    RunKeepsHonest(states, actions, k);
    RunKeepsDated(states, actions, k);
    assert Steps(states, actions, k);
    WithoutAVerdict(w.published, settings, w.generation);
    if settings == EXPANDING && Current(w.published, LICENSE_APPLIED, w.generation) {
      SumAfterAnExpansion(w.published, w.generation);
    }
    if settings == [] {
      SumAfterAnEarlyEnd(w);
    }
  }

  /** What a pass sets that finds the license applied and the cluster serving. */
  function ServingSettings(converged: Setting, updated: Setting): seq<Setting> {
    [Setting(LICENSE_APPLIED, True, "LicenseMatchesSecret"), Setting(SERVING, True, "MainElected"), converged, updated]
  }

  lemma SetMore(conditions: Conditions, settings: seq<Setting>, s: Setting, generation: int)
    ensures SetAll(conditions, settings + [s], generation) ==
              SetAll(conditions, settings, generation)[s.kind := Condition(s.status, s.reason, generation)]
    ensures VerdictOf(settings + [s]) == if s.kind == SERVING then Some(s.status) else VerdictOf(settings)
  {
    assert (settings + [s])[..|settings|] == settings;
  }

  /** What those settings come to. */
  lemma ServingSets(converged: Setting, updated: Setting, generation: int)
    requires converged.kind == CONVERGED && updated.kind == UPDATED
    ensures var settings := ServingSettings(converged, updated);
      && VerdictOf(settings) == Some(True)
      && SetAll(Initialized(map[], generation), settings, generation)
           == Initialized(map[], generation)
                [LICENSE_APPLIED := Condition(True, "LicenseMatchesSecret", generation)]
                [SERVING := Condition(True, "MainElected", generation)]
                [CONVERGED := Condition(converged.status, converged.reason, generation)]
                [UPDATED := Condition(updated.status, updated.reason, generation)]
  {
    var begun := Initialized(map[], generation);
    var license, serving := Setting(LICENSE_APPLIED, True, "LicenseMatchesSecret"), Setting(SERVING, True, "MainElected");
    SetMore(begun, [], license, generation);
    SetMore(begun, [license], serving, generation);
    SetMore(begun, [license, serving], converged, generation);
    SetMore(begun, [license, serving, converged], updated, generation);
    assert [] + [license] == [license] && [license] + [serving] == [license, serving]
        && [license, serving] + [converged] == [license, serving, converged]
        && [license, serving, converged] + [updated] == ServingSettings(converged, updated);
    assert SERVING != CONVERGED && SERVING != UPDATED;
  }

  lemma ServingIsValid(converged: Setting, updated: Setting)
    requires converged.kind == CONVERGED && updated.kind == UPDATED
    ensures ValidSettings(ServingSettings(converged, updated))
  {
    ServingSets(converged, updated, 1);
    assert SERVING != LICENSE_APPLIED && SERVING != CONVERGED && SERVING != UPDATED;
  }

  lemma FirstPass(converged: Setting, updated: Setting, generation: int)
    requires converged.kind == CONVERGED && updated.kind == UPDATED
    ensures var after := Passed(map[], ServingSettings(converged, updated), generation);
      && SERVING !in after && Current(after, LICENSE_APPLIED, generation)
      && READY in after
      && after[READY] == if converged.status != True then Condition(converged.status, converged.reason, generation)
                         else if updated.status != True then Condition(updated.status, updated.reason, generation)
                         else Condition(True, RECONCILED, generation)
  {
    ServingSets(converged, updated, generation);
    assert READY != LICENSE_APPLIED && READY != SERVING;
    assert LICENSE_APPLIED != CONVERGED && LICENSE_APPLIED != UPDATED && CONVERGED != UPDATED;
    assert SERVING != LICENSE_APPLIED && SERVING != CONVERGED && SERVING != UPDATED;
    var rest := SetAll(Initialized(map[], generation), ServingSettings(converged, updated), generation) - {SERVING};
    assert SUMMARIZED[1..] == [CONVERGED, UPDATED] && [CONVERGED, UPDATED][1..] == [UPDATED] && [UPDATED][1..] == [];
    assert Holdup(rest, generation, SUMMARIZED) == Holdup(rest, generation, [CONVERGED, UPDATED]);
    assert Current(rest, CONVERGED, generation) ==> Holdup(rest, generation, [CONVERGED, UPDATED]) == Holdup(rest, generation, [UPDATED]);
  }

  /** Such a pass, then perhaps an edit of the spec, then one that recreates a StatefulSet. */
  function ThenExpands(converged: Setting, updated: Setting, edited: bool): seq<Action> {
    [Passes(ServingSettings(converged, updated), true)] + (if edited then [SpecChanges(2)] else []) + [Passes(EXPANDING, true)]
  }

  /** The cluster served when last observed, an expansion is under way, and Ready says the reason. */
  ghost predicate KeepsOver(w: World, reason: string) {
    && w.latest == Some(True)
    && READY in w.published && w.published[READY].reason == reason && !Follows(w.published)
    && CONVERGED in w.published && w.published[CONVERGED] == Condition(False, VOLUME_EXPANSION, w.generation)
  }

  /** The pass that recreates, at a published Ready of an earlier pass. */
  lemma KeptThroughAnExpansion(w: World)
    requires SERVING !in w.published && READY in w.published && w.latest == Some(True)
    requires LICENSE_APPLIED in w.published
    requires Current(w.published, LICENSE_APPLIED, w.generation) || w.published[LICENSE_APPLIED].observedGeneration != w.generation
    requires w.published[READY].status != True && IsServingReason(w.published[READY].reason)
    ensures ValidSettings(EXPANDING) && VerdictOf(EXPANDING).None?
    ensures KeepsOver(w.(published := Passed(w.published, EXPANDING, w.generation)), w.published[READY].reason)
  {
    assert EXPANDING[..0] == [] && CONVERGED != SERVING;
    ExpansionSets(w.published, w.generation);
    WithoutAVerdict(w.published, EXPANDING, w.generation);
    if Current(w.published, LICENSE_APPLIED, w.generation) {
      SumAfterAnExpansion(w.published, w.generation);
    }
  }

  lemma KeptOverAnExpansion(converged: Setting, updated: Setting, edited: bool) returns (states: seq<World>)
    requires converged.kind == CONVERGED && updated.kind == UPDATED
    requires var ready := if converged.status != True then converged else updated;
      ready.status != True && IsServingReason(ready.reason)
    ensures Run(states, ThenExpands(converged, updated, edited))
    ensures KeepsOver(states[|states| - 1], (if converged.status != True then converged else updated).reason)
  {
    FirstPass(converged, updated, 1);
    ServingIsValid(converged, updated);
    ServingSets(converged, updated, 1);
    var actions := ThenExpands(converged, updated, edited);
    var first := World(map[], 1, None);
    var second := World(Passed(map[], ServingSettings(converged, updated), 1), 1, Some(True));
    var third := second.(generation := if edited then 2 else 1);
    KeptThroughAnExpansion(third);
    var last := third.(published := Passed(third.published, EXPANDING, third.generation));
    states := if edited then [first, second, third, last] else [first, second, last];
    assert Step(first, Passes(ServingSettings(converged, updated), true), second);
    assert edited ==> Step(second, SpecChanges(2), third);
    assert Step(third, Passes(EXPANDING, true), last);
    forall k: nat | k < |actions| ensures Steps(states, actions, k) {}
  }

  /** Two runs in which Ready does not follow. A roll waits for a pod, the spec grows a volume, and the
      pass that recreates the StatefulSet keeps Ready at the roll's reason; and an exposure the cluster
      cannot serve, with Ready at ApplyFailed over the expansion under the same spec. */
  lemma ReadyCanStaySet()
    ensures exists states: seq<World>, actions :: Run(states, actions) && |actions| == 3 && KeepsOver(states[3], "WorkloadsNotReady")
    ensures exists states: seq<World>, actions :: Run(states, actions) && |actions| == 2 && KeepsOver(states[2], "ApplyFailed")
  {
    var registered, unservable := Setting(CONVERGED, True, "AllInstancesRegistered"), Setting(CONVERGED, False, "ApplyFailed");
    var waiting, done := Setting(UPDATED, False, "WorkloadsNotReady"), Setting(UPDATED, True, "AllPodsUpdated");
    var states := KeptOverAnExpansion(registered, waiting, true);
    assert |ThenExpands(registered, waiting, true)| == 3;
    var states' := KeptOverAnExpansion(unservable, done, false);
    assert |ThenExpands(unservable, done, false)| == 2;
  }

  /* ---- A verdict that is not written ---- */

  /** What a pass sets that finds no leader. */
  function NoLeaderSettings(): seq<Setting> {
    [Setting(LICENSE_APPLIED, True, "LicenseMatchesSecret"), Setting(SERVING, False, "NoCoordinatorLeader"),
     Setting(CONVERGED, False, "NoCoordinatorLeader")]
  }

  lemma NoLeaderIsValid()
    ensures ValidSettings(NoLeaderSettings()) && VerdictOf(NoLeaderSettings()) == Some(False)
  {
    var settings := NoLeaderSettings();
    assert SERVING != LICENSE_APPLIED && SERVING != CONVERGED;
    assert VerdictOf(settings) == VerdictOf(settings[..2]) && settings[..2][1].kind == SERVING;
  }

  /** That it was written is needed: a run with Ready=True after a pass that found the cluster not
      serving, because its status was not written. */
  lemma TrueOutlivesAnUnwrittenVerdict()
    ensures exists states: seq<World>, actions :: Run(states, actions) && |states| == 3
              && READY in states[2].published && states[2].published[READY].status == True
              && LatestSaid(actions) == Some(Said(False, false))
  {
    var registered, done := Setting(CONVERGED, True, "AllInstancesRegistered"), Setting(UPDATED, True, "AllPodsUpdated");
    var settings := ServingSettings(registered, done);
    FirstPass(registered, done, 1);
    ServingIsValid(registered, done);
    ServingSets(registered, done, 1);
    NoLeaderIsValid();
    var first := World(map[], 1, None);
    var second := World(Passed(map[], settings, 1), 1, Some(True));
    var states, actions := [first, second, second], [Passes(settings, true), Passes(NoLeaderSettings(), false)];
    assert Step(first, actions[0], second) && Step(second, actions[1], second);
    forall k: nat | k < |actions| ensures Steps(states, actions, k) {}
    assert Run(states, actions);
  }
}
