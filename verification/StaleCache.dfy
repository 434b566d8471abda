/** A pass that reads a lagging cache through its expectations, against one whose cache never lags:
    over which runs the two count the same replicas. */
module StaleCache {
  import opened Text
  import opened Memgraph
  import opened Resources
  import opened Cluster
  import opened Expectations
  import opened Replicas
  import opened Retirement

  /* ---- One role's part of the operator's world ---- */

  /** A role's StatefulSet, what is expected of it, and where the pass is. */
  datatype Part = Part(state: RoleState, expected: Option<Written>, phase: Phase)

  function PartOf(w: World, role: Role): Part {
    Part(w.Of(role), if w.Name(role) in w.expected then Some(w.expected[w.Name(role)]) else None, w.phase)
  }

  /** Whether a pass that read version k would act on it. */
  predicate ActsOn(p: Part, k: nat)
    requires k <= |p.state.versions|
  {
    p.expected.Some? && k > 0 && p.state.versions[k - 1].uid == p.expected.value.uid ==>
      p.state.versions[k - 1].generation >= p.expected.value.generation
  }

  predicate Trusts(p: Part)
    requires p.state.seen <= |p.state.versions|
  {
    ActsOn(p, p.state.seen)
  }

  function CountOf(p: Part, running: nat): nat { Applied(p.state.declared, p.state.Cached(), running) }

  /** The count a pass with a perfectly fresh cache would hold to. */
  function Fresh(state: RoleState): nat { Held(state, |state.versions|) }

  predicate CaughtUp(state: RoleState) { state.seen == |state.versions| }

  /** The pass is about to shed this role. */
  predicate AboutToShed(phase: Phase, role: Role) {
    phase.Shedding? && if role == CoordinatorRole then phase.coordinators else phase.data
  }

  function Running(a: Action, role: Role): nat
    requires a.Applies?
  {
    if role == CoordinatorRole then a.runningCoordinators else a.runningData
  }

  predicate LosesShed(a: Action, role: Role) { a == Sheds(role, Lost) }

  /** A step as one role sees it. `acts` says that the pass trusts what it read of both roles. */
  ghost predicate PartStep(p: Part, a: Action, acts: bool, role: Role, p': Part)
    requires p.state.seen <= |p.state.versions|
  {
    match a
    case ClusterMoves => p' == p
    case GivesUp => p' == p.(phase := Idle)
    case Restarts => p' == Part(p.state.(seen := |p.state.versions|), None, Idle)
    case CacheAdvances(r, to) =>
      if r == role then p.state.seen <= to <= |p.state.versions| && p' == p.(state := p.state.(seen := to)) else p' == p
    case CountChanges(r, declared) =>
      if r == role then p.phase == Idle && CaughtUp(p.state) && declared > 0 && p' == p.(state := p.state.(declared := declared))
      else p' == p
    case Observes(_, _) =>
      && p.phase.Observing? && p' == p.(phase := p'.phase) && !p'.phase.Observing?
      && (AboutToShed(p'.phase, role) ==> p.state.Newest() > p.state.declared)
    case Executes(_) => p.phase.Executing? && p' == p.(phase := p'.phase) && (p'.phase.Idle? || p'.phase.Executing?)
    case Applies(_, _, _, _, _) =>
      && p.phase == Idle && RanThem(p.state, Running(a, role))
      && if acts then
           && Trusts(p) && p'.expected == None && (p'.phase.Idle? || p'.phase.Observing?)
           && (p'.state == p.state || p'.state == p.state.Write(CountOf(p, Running(a, role)), a.edited))
         else p' == p.(expected := if Trusts(p) then None else p.expected)
    case Sheds(r, outcome) =>
      && p.phase.Shedding? && AboutToShed(p.phase, r)
      && (p'.phase == Idle || (r == CoordinatorRole && p.phase.data && p'.phase == Shedding(false, true)))
      && if r != role then p' == p.(phase := p'.phase)
         else
           var shrunk := p.state.Write(p.state.declared, false);
           match outcome
           case Refused => p' == p.(phase := Idle)
           case Lost => p' == p.(state := shrunk, phase := Idle)
           case Accepted => p' == Part(shrunk, Some(Written(1, |shrunk.versions|)), p'.phase)
  }

  ghost predicate Acts(w: World) { !Unseen(w, CoordinatorRole) && !Unseen(w, DataRole) }

  /* ---- From the operator's steps to a role's ---- */

  lemma SetNamesDiffer(w: World)
    ensures w.Name(CoordinatorRole) != w.Name(DataRole)
  {
    var c, d := CoordinatorSetName(w.spec), DataSetName(w.spec);
    assert c[|c| - 1] == 'r' && d[|d| - 1] == 'a';
  }

  lemma TrustsExactly(w: World, role: Role)
    requires w.Of(role).seen <= |w.Of(role).versions|
    ensures Trusts(PartOf(w, role)) <==> !Unseen(w, role)
  {
  }

  lemma AppliesIsPart(w: World, a: Action, w': World, role: Role)
    requires a.Applies? && StepApplies(w, a, w') && w.Of(role).seen <= |w.Of(role).versions|
    ensures PartStep(PartOf(w, role), a, Acts(w), role, PartOf(w', role))
  {
    SetNamesDiffer(w);
    TrustsExactly(w, role);
    assert w'.spec == w.spec && w'.expected == Looked(w);
  }

  lemma ShedsIsPart(w: World, a: Action, w': World, role: Role)
    requires a.Sheds? && StepSheds(w, a, w') && w.Of(role).seen <= |w.Of(role).versions|
    ensures PartStep(PartOf(w, role), a, Acts(w), role, PartOf(w', role))
  {
    SetNamesDiffer(w);
  }

  lemma ObservesIsPart(w: World, a: Action, w': World, role: Role)
    requires a.Observes? && StepObserves(w, a, w') && PhaseSound(w) && w.Of(role).seen <= |w.Of(role).versions|
    ensures PartStep(PartOf(w, role), a, Acts(w), role, PartOf(w', role))
  {
    TopologyRetires(w, w.phase.appliedCoordinators, w.phase.appliedData);
  }

  lemma StepIsPart(w: World, a: Action, w': World, role: Role)
    requires Inv(w) && Step(w, a, w')
    ensures PartStep(PartOf(w, role), a, Acts(w), role, PartOf(w', role))
  {
    match a
    case Applies(_, _, _, _, _) => AppliesIsPart(w, a, w', role);
    case Sheds(_, _) => ShedsIsPart(w, a, w', role);
    case Observes(_, _) => ObservesIsPart(w, a, w', role);
    case _ =>
  }

  /* ---- Freshness ---- */

  ghost predicate AllDeclared(state: RoleState) {
    forall k :: 0 <= k < |state.versions| ==> state.versions[k].replicas == Some(state.declared)
  }

  /** Every version a pass may still read and would act on holds to the same count the newest does. */
  ghost predicate IsFresh(p: Part) {
    && VersionsNumbered(p.state)
    && (p.state.seen == 0 ==> AllDeclared(p.state))
    && (forall k :: p.state.seen <= k <= |p.state.versions| && ActsOn(p, k) ==> Held(p.state, k) == Fresh(p.state))
    && (p.expected.Some? ==> p.expected.value.uid == 1 && p.expected.value.generation <= |p.state.versions|)
  }

  /** Past its start a pass expects nothing of the role, and sheds it only to lower its count. */
  ghost predicate Clear(p: Part, role: Role) {
    && (p.phase.Observing? || p.phase.Executing? || AboutToShed(p.phase, role) ==> p.expected == None)
    && (AboutToShed(p.phase, role) ==> p.state.Newest() > p.state.declared)
  }

  /** A shrink is written, nobody expects it, and every older version the cache may still show holds to
      a higher count. */
  ghost predicate Pending(p: Part) {
    && p.phase == Idle && p.expected == None && VersionsNumbered(p.state)
    && 1 <= p.state.seen < |p.state.versions| && p.state.Newest() == p.state.declared
    && forall k :: p.state.seen <= k < |p.state.versions| ==> Held(p.state, k) > p.state.declared
  }

  /** What a pass counts, when it acts on what it read, is the fresh count. */
  lemma CountIsFresh(p: Part, running: nat)
    requires IsFresh(p) && Trusts(p) && RanThem(p.state, running)
    ensures CountOf(p, running) == Fresh(p.state) == Max(p.state.declared, p.state.Newest())
  {
    assert Held(p.state, p.state.seen) == Fresh(p.state);
  }

  /** A pass that acts on a shrink it cannot see holds to the count before it. */
  lemma PendingMiscounts(p: Part, running: nat)
    requires Pending(p)
    ensures CountOf(p, running) > p.state.declared == Max(p.state.declared, p.state.Newest())
    ensures !IsFresh(p)
  {
    assert p.state.Cached() == Some(p.state.versions[p.state.seen - 1]);
    assert Held(p.state, p.state.seen) == CountOf(p, running);
    assert ActsOn(p, p.state.seen) && Fresh(p.state) == p.state.declared;
  }

  /* ---- One step ---- */

  /** Forgetting a satisfied expectation lets a pass act on nothing older than it already would. */
  lemma ForgettingKeepsFresh(p: Part)
    requires IsFresh(p) && Trusts(p)
    ensures IsFresh(p.(expected := None))
  {
    forall k | p.state.seen <= k <= |p.state.versions| ensures p.state.seen == 0 || ActsOn(p, k) {
      if p.state.seen > 0 {
        assert p.state.versions[k - 1].generation == k && p.state.versions[p.state.seen - 1].generation == p.state.seen;
      }
    }
  }

  /** Applying the fresh count keeps every readable version at it. */
  lemma WritingFreshKeepsFresh(p: Part, edited: bool)
    requires IsFresh(p)
    ensures IsFresh(p.(state := p.state.Write(Fresh(p.state), edited)))
  {
    var state := p.state;
    var written := state.Write(Fresh(state), edited);
    var p' := p.(state := written);
    forall k | written.seen <= k <= |written.versions| && ActsOn(p', k) ensures Held(written, k) == Fresh(written) {
      if k <= |state.versions| {
        assert ActsOn(p, k) && Held(written, k) == Held(state, k);
      }
    }
  }

  /** Expecting the shrink just written leaves nothing older to act on. */
  lemma ShrinkingKeepsFresh(p: Part, p': Part)
    requires IsFresh(p) && p'.state == p.state.Write(p.state.declared, false)
    requires p'.expected == Some(Written(1, |p'.state.versions|))
    ensures IsFresh(p')
  {
    forall k | p'.state.seen <= k <= |p'.state.versions| && ActsOn(p', k) ensures Held(p'.state, k) == Fresh(p'.state) {
      assert k > 0 ==> p'.state.versions[k - 1].generation == k;
    }
  }

  lemma DriftKeepsFresh(p: Part, p': Part)
    requires IsFresh(p) && Drifts(p.state, p'.state)
    requires p'.expected == p.expected || (p'.expected == None && CaughtUp(p'.state))
    ensures IsFresh(p')
  {
    forall k | p'.state.seen <= k <= |p'.state.versions| && ActsOn(p', k) ensures Held(p'.state, k) == Fresh(p'.state) {
      if k < |p'.state.versions| {
        assert ActsOn(p, k) && Held(p'.state, k) == Held(p.state, k);
      }
    }
  }

  lemma AppliesKeepsFresh(p: Part, a: Action, acts: bool, role: Role, p': Part)
    requires IsFresh(p) && a.Applies? && PartStep(p, a, acts, role, p')
    ensures IsFresh(p')
  {
    if Trusts(p) {
      ForgettingKeepsFresh(p);
    }
    if acts {
      CountIsFresh(p, Running(a, role));
      WritingFreshKeepsFresh(p.(expected := None), a.edited);
    }
  }

  /** Before a shrink, whatever the cache could show held to the count being lowered. */
  lemma OlderVersionsHold(p: Part, k: nat)
    requires IsFresh(p) && p.expected == None && p.state.Newest() > p.state.declared
    requires p.state.seen <= k <= |p.state.versions|
    ensures p.state.seen > 0 && Held(p.state, k) > p.state.declared
  {
    assert p.state.versions[|p.state.versions| - 1].replicas != Some(p.state.declared);
    assert ActsOn(p, k);
  }

  lemma LostShedIsPending(p: Part, p': Part)
    requires IsFresh(p) && p.expected == None && p.state.Newest() > p.state.declared
    requires p' == p.(state := p.state.Write(p.state.declared, false), phase := Idle)
    ensures Pending(p')
  {
    OlderVersionsHold(p, p.state.seen);
    forall k | p'.state.seen <= k < |p'.state.versions| ensures Held(p'.state, k) > p'.state.declared {
      OlderVersionsHold(p, k);
      assert Held(p'.state, k) == Held(p.state, k);
    }
  }

  lemma FreshStep(p: Part, a: Action, acts: bool, role: Role, p': Part)
    requires IsFresh(p) && Clear(p, role) && PartStep(p, a, acts, role, p')
    ensures if LosesShed(a, role) then Pending(p') else IsFresh(p')
  {
    match a
    case Applies(_, _, _, _, _) => AppliesKeepsFresh(p, a, acts, role, p');
    case Sheds(r, outcome) =>
      if LosesShed(a, role) {
        LostShedIsPending(p, p');
      } else if r == role && outcome == Accepted {
        ShrinkingKeepsFresh(p, p');
      } else {
        DriftKeepsFresh(p, p');
      }
    case _ => DriftKeepsFresh(p, p');
  }

  lemma StepKeepsClear(p: Part, a: Action, acts: bool, role: Role, p': Part)
    requires Clear(p, role) && p.state.seen <= |p.state.versions| && PartStep(p, a, acts, role, p')
    ensures Clear(p', role)
  {
  }

  /** A shrink stays pending until the cache shows it, which a restart makes it do, or a pass acts. */
  lemma PendingStep(p: Part, a: Action, role: Role, p': Part)
    requires Pending(p) && PartStep(p, a, false, role, p')
    ensures !LosesShed(a, role) && p'.phase == Idle
    ensures if CaughtUp(p'.state) then IsFresh(p') else Pending(p')
  {
    forall k | 0 <= k <= |p.state.versions| ensures p'.state.declared == p.state.declared ==> Held(p'.state, k) == Held(p.state, k) {}
  }

  /** Once the cache shows the newest version, it does until a pass writes another. */
  lemma CaughtUpStep(p: Part, a: Action, role: Role, p': Part)
    requires p.phase == Idle && CaughtUp(p.state) && PartStep(p, a, false, role, p')
    ensures p'.phase == Idle && CaughtUp(p'.state)
  {
  }

  /* ---- Whole runs, as one role sees them ---- */

  /** A run's parts, its actions, and the steps at which a pass acts. */
  datatype Trace = Trace(parts: seq<Part>, actions: seq<Action>, acting: set<nat>)

  ghost predicate TraceStep(t: Trace, role: Role, k: nat)
    requires k < |t.actions| < |t.parts|
  {
    VersionsNumbered(t.parts[k].state) && PartStep(t.parts[k], t.actions[k], k in t.acting, role, t.parts[k + 1])
  }

  ghost predicate IsTrace(t: Trace, role: Role) {
    && |t.parts| == |t.actions| + 1
    && IsFresh(t.parts[0]) && Clear(t.parts[0], role)
    && (forall k: nat :: k < |t.actions| ==> TraceStep(t, role, k))
    && (forall k: nat :: k in t.acting ==> k < |t.actions| && t.actions[k].Applies?)
  }

  ghost predicate NoneActs(t: Trace, i: nat, j: nat) { forall m: nat :: i < m < j ==> m !in t.acting }

  /** Step j is the next pass to act after the answer to a shrink was lost in step i. */
  ghost predicate NextAfterLoss(t: Trace, role: Role, i: nat, j: nat) {
    i < j < |t.actions| && LosesShed(t.actions[i], role) && j in t.acting && NoneActs(t, i, j)
  }

  /** After every shrink of the role whose answer was lost, the cache shows the newest version by the
      time the next pass acts. */
  ghost predicate CatchesUpInTime(t: Trace, role: Role) {
    forall i: nat, j: nat :: NextAfterLoss(t, role, i, j) && j < |t.parts| ==> CaughtUp(t.parts[j].state)
  }

  /** A pass that acts counts what a perfectly fresh cache would have it count. */
  ghost predicate CountsFreshAt(t: Trace, role: Role, j: nat)
    requires j < |t.actions| < |t.parts| && t.actions[j].Applies?
  {
    CountOf(t.parts[j], Running(t.actions[j], role)) == Max(t.parts[j].state.declared, t.parts[j].state.Newest())
  }

  /** Before step k no pass has acted on a shrink it could not see. */
  ghost predicate NeverBlind(t: Trace, k: nat) {
    forall j: nat :: j in t.acting && j < k && j < |t.parts| ==> !Pending(t.parts[j])
  }

  ghost predicate LostBefore(t: Trace, role: Role, k: nat) {
    exists i: nat :: i < k && i < |t.actions| && LosesShed(t.actions[i], role) && NoneActs(t, i, k)
  }

  /** What is known at a step of a run that has never been blind. */
  ghost predicate Known(t: Trace, role: Role, k: nat)
    requires k < |t.parts|
  {
    && Clear(t.parts[k], role) && (IsFresh(t.parts[k]) || Pending(t.parts[k]))
    && (Pending(t.parts[k]) ==> LostBefore(t, role, k))
  }

  lemma LostBeforeStep(t: Trace, role: Role, k: nat)
    requires k < |t.actions| && (LosesShed(t.actions[k], role) || (LostBefore(t, role, k) && k !in t.acting))
    ensures LostBefore(t, role, k + 1)
  {
    if LosesShed(t.actions[k], role) {
      assert NoneActs(t, k, k + 1);
    } else {
      var i: nat :| i < k && LosesShed(t.actions[i], role) && NoneActs(t, i, k);
      assert NoneActs(t, i, k + 1);
    }
  }

  lemma KnownStep(t: Trace, role: Role, k: nat)
    requires k < |t.actions| < |t.parts| && TraceStep(t, role, k) && Known(t, role, k)
    requires k in t.acting ==> !Pending(t.parts[k])
    ensures Known(t, role, k + 1)
  {
    var p, a, p' := t.parts[k], t.actions[k], t.parts[k + 1];
    StepKeepsClear(p, a, k in t.acting, role, p');
    if Pending(p) {
      PendingStep(p, a, role, p');
    } else {
      FreshStep(p, a, k in t.acting, role, p');
    }
    if Pending(p') {
      PendingMiscounts(p', 0);
      LostBeforeStep(t, role, k);
    }
  }

  lemma {:induction false} NeverBlindIsKnown(t: Trace, role: Role, k: nat)
    requires IsTrace(t, role) && k < |t.parts| && NeverBlind(t, k)
    ensures Known(t, role, k)
    decreases k
  {
    if k == 0 {
      if Pending(t.parts[0]) {
        PendingMiscounts(t.parts[0], 0);
      }
    } else {
      NeverBlindIsKnown(t, role, k - 1);
      assert TraceStep(t, role, k - 1);
      KnownStep(t, role, k - 1);
    }
  }

  /** A pass that acts in time acts on nothing pending. */
  lemma InTimeIsNotPending(t: Trace, role: Role, j: nat)
    requires IsTrace(t, role) && j in t.acting && CatchesUpInTime(t, role) && NeverBlind(t, j)
    ensures !Pending(t.parts[j])
  {
    NeverBlindIsKnown(t, role, j);
    if LostBefore(t, role, j) {
      var i: nat :| i < j && LosesShed(t.actions[i], role) && NoneActs(t, i, j);
      assert NextAfterLoss(t, role, i, j);
    }
  }

  lemma {:induction false} InTimeIsNeverBlind(t: Trace, role: Role, k: nat)
    requires IsTrace(t, role) && CatchesUpInTime(t, role)
    ensures NeverBlind(t, k)
    decreases k
  {
    if k > 0 {
      InTimeIsNeverBlind(t, role, k - 1);
      if k - 1 in t.acting {
        InTimeIsNotPending(t, role, k - 1);
      }
    }
  }

  /** Since an answer was lost and until a pass acts: still unseen, or caught up. */
  ghost predicate Waits(p: Part) { Pending(p) || (p.phase == Idle && CaughtUp(p.state)) }

  lemma WaitsStep(t: Trace, role: Role, k: nat)
    requires k < |t.actions| < |t.parts| && TraceStep(t, role, k) && k !in t.acting && Waits(t.parts[k])
    ensures Waits(t.parts[k + 1])
  {
    if Pending(t.parts[k]) {
      PendingStep(t.parts[k], t.actions[k], role, t.parts[k + 1]);
    } else {
      CaughtUpStep(t.parts[k], t.actions[k], role, t.parts[k + 1]);
    }
  }

  lemma LossWaits(t: Trace, role: Role, i: nat)
    requires i < |t.actions| < |t.parts| && TraceStep(t, role, i) && Known(t, role, i) && LosesShed(t.actions[i], role)
    ensures Waits(t.parts[i + 1])
  {
    FreshStep(t.parts[i], t.actions[i], i in t.acting, role, t.parts[i + 1]);
  }

  lemma {:induction false} WaitsUntilActing(t: Trace, role: Role, i: nat, j: nat)
    requires IsTrace(t, role) && NeverBlind(t, |t.actions|)
    requires i < j <= |t.actions| && LosesShed(t.actions[i], role) && NoneActs(t, i, j)
    ensures Waits(t.parts[j])
    decreases j
  {
    assert TraceStep(t, role, j - 1);
    if j == i + 1 {
      NeverBlindIsKnown(t, role, i);
      LossWaits(t, role, i);
    } else {
      WaitsUntilActing(t, role, i, j - 1);
      WaitsStep(t, role, j - 1);
    }
  }

  lemma NeverBlindCountsFresh(t: Trace, role: Role, j: nat)
    requires IsTrace(t, role) && NeverBlind(t, |t.actions|) && j in t.acting
    ensures CountsFreshAt(t, role, j)
  {
    NeverBlindIsKnown(t, role, j);
    assert TraceStep(t, role, j);
    CountIsFresh(t.parts[j], Running(t.actions[j], role));
  }

  lemma CountingFreshIsNeverBlind(t: Trace, role: Role)
    requires IsTrace(t, role) && forall j: nat :: j in t.acting ==> CountsFreshAt(t, role, j)
    ensures NeverBlind(t, |t.actions|)
  {
    forall j: nat | j in t.acting ensures !Pending(t.parts[j]) {
      assert CountsFreshAt(t, role, j);
      if Pending(t.parts[j]) {
        PendingMiscounts(t.parts[j], Running(t.actions[j], role));
      }
    }
  }

  lemma TracesCountFresh(t: Trace, role: Role)
    requires IsTrace(t, role)
    ensures (forall j: nat :: j in t.acting ==> CountsFreshAt(t, role, j)) <==> CatchesUpInTime(t, role)
  {
    if CatchesUpInTime(t, role) {
      InTimeIsNeverBlind(t, role, |t.actions|);
      forall j: nat | j in t.acting ensures CountsFreshAt(t, role, j) {
        NeverBlindCountsFresh(t, role, j);
      }
    }
    if forall j: nat :: j in t.acting ==> CountsFreshAt(t, role, j) {
      CountingFreshIsNeverBlind(t, role);
      forall i: nat, j: nat | NextAfterLoss(t, role, i, j) ensures CaughtUp(t.parts[j].state) {
        WaitsUntilActing(t, role, i, j);
      }
    }
  }

  /* ---- Whole runs ---- */

  ghost function TraceOf(worlds: seq<World>, actions: seq<Action>, role: Role): Trace
    requires |actions| < |worlds|
  {
    Trace(seq(|worlds|, k requires 0 <= k < |worlds| => PartOf(worlds[k], role)), actions,
          set k: nat | k < |actions| && actions[k].Applies? && Acts(worlds[k]))
  }

  lemma RunStepIsTraceStep(worlds: seq<World>, actions: seq<Action>, role: Role, k: nat)
    requires Runs(worlds, actions) && k < |actions|
    ensures TraceStep(TraceOf(worlds, actions, role), role, k)
  {
    assert Steps(worlds, actions, k);
    RunsKeepInv(worlds, actions, k);
    StepIsPart(worlds[k], actions[k], worlds[k + 1], role);
    if !actions[k].Applies? {
      ActingMattersToApplies(PartOf(worlds[k], role), actions[k], Acts(worlds[k]), role, PartOf(worlds[k + 1], role));
    }
  }

  lemma InitialPart(w: World, role: Role)
    requires Initial(w)
    ensures IsFresh(PartOf(w, role)) && Clear(PartOf(w, role), role)
  {
  }

  lemma RunsAreTraces(worlds: seq<World>, actions: seq<Action>, role: Role)
    requires Runs(worlds, actions)
    ensures IsTrace(TraceOf(worlds, actions, role), role)
  {
    InitialPart(worlds[0], role);
    forall k: nat | k < |actions| ensures TraceStep(TraceOf(worlds, actions, role), role, k) {
      RunStepIsTraceStep(worlds, actions, role, k);
    }
  }

  lemma ActingMattersToApplies(p: Part, a: Action, acts: bool, role: Role, p': Part)
    requires p.state.seen <= |p.state.versions| && !a.Applies?
    ensures PartStep(p, a, acts, role, p') <==> PartStep(p, a, false, role, p')
  {
  }

  /** A pass that acts in step k counts, for the role, what a perfectly fresh cache would have it count. */
  ghost predicate CountsFresh(worlds: seq<World>, actions: seq<Action>, role: Role, k: nat)
    requires k < |actions| < |worlds| && actions[k].Applies?
  {
    Count(worlds[k], role, Running(actions[k], role)) == Max(worlds[k].Of(role).declared, worlds[k].Of(role).Newest())
  }

  /** Over every run, operator restarts included: each pass that acts counts, for a role, exactly what a
      perfectly fresh cache would have it count, if and only if after every shrink of the role whose
      answer was lost the cache has caught up by the time the next pass acts. */
  lemma StaleCacheWritesFresh(worlds: seq<World>, actions: seq<Action>, role: Role)
    requires Runs(worlds, actions)
    ensures (forall k: nat :: k < |actions| && actions[k].Applies? && Acts(worlds[k]) ==> CountsFresh(worlds, actions, role, k)) <==>
              CatchesUpInTime(TraceOf(worlds, actions, role), role)
  {
    var t := TraceOf(worlds, actions, role);
    RunsAreTraces(worlds, actions, role);
    TracesCountFresh(t, role);
    assert forall k: nat :: k in t.acting ==> (CountsFreshAt(t, role, k) <==> CountsFresh(worlds, actions, role, k));
  }

  lemma OnlyShedLowers(p: Part, a: Action, acts: bool, role: Role, p': Part)
    requires p.state.seen <= |p.state.versions| && PartStep(p, a, acts, role, p') && p'.state.Newest() < p.state.Newest()
    requires a.Applies? && acts ==> CountOf(p, Running(a, role)) >= p.state.Newest()
    ensures a.Sheds? && a.role == role
  {
  }

  /** And then shedding is the one place a replica count is ever lowered. */
  lemma OnlyShedsLower(worlds: seq<World>, actions: seq<Action>, role: Role, k: nat)
    requires Runs(worlds, actions) && CatchesUpInTime(TraceOf(worlds, actions, role), role) && k < |actions|
    ensures worlds[k + 1].Of(role).Newest() < worlds[k].Of(role).Newest() ==> actions[k].Sheds? && actions[k].role == role
  {
    StaleCacheWritesFresh(worlds, actions, role);
    assert Steps(worlds, actions, k);
    RunsKeepInv(worlds, actions, k);
    StepIsPart(worlds[k], actions[k], worlds[k + 1], role);
    if worlds[k + 1].Of(role).Newest() < worlds[k].Of(role).Newest() {
      assert actions[k].Applies? && Acts(worlds[k]) ==> CountsFresh(worlds, actions, role, k);
      OnlyShedLowers(PartOf(worlds[k], role), actions[k], Acts(worlds[k]), role, PartOf(worlds[k + 1], role));
    }
  }
}
