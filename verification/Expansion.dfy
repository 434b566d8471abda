/** Whole runs of one role's storage expansion: sizes that grow, claims that appear, bind and move,
    passes that may read a StatefulSet already replaced, and patches, deletes and applies that may be
    refused or conflict. */
module Expansion {
  import opened Text
  import opened Volumes

  /** `born` is every StatefulSet the role ever had, by UID, with the template sizes Kubernetes never
      lets it change; `alive` is the one that exists, on its way out once `deleting`. The last three
      count what happened. */
  datatype World = World(
    desired: Sizes,
    born: map<nat, Sizes>,
    alive: Option<nat>,
    deleting: bool,
    claims: seq<Claim>,
    growths: nat,
    recreates: nat,
    staleCreations: nat)
  {
    ghost predicate Valid() {
      && DistinctClaims(claims)
      && (alive.Some? ==> alive.value in born)
      && (forall u :: u in born ==> born[u].Keys == desired.Keys)
    }

    /** The StatefulSet that exists is still to be recreated. */
    predicate Owed() {
      alive.Some? && !deleting && alive.value in born && TemplatesGrew(desired, born[alive.value])
    }

    /** The claims asking for less than they are to, by position. */
    function Under(): set<nat> {
      set i: nat | i < |claims| && UnderAsks(desired, claims[i])
    }
  }

  /* ---- A pass ---- */

  /** A refused patch is reported and left for the next pass, a conflicting one is passed over, and
      any other error, landed or not, ends the pass. */
  datatype PatchOutcome = Lands | Conflicts | IsRefused | Errs(landed: bool)

  datatype Reads = Reads(
    cached: Option<nat>,
    cachedDeleting: bool,
    pods: seq<Mount>,
    patched: nat -> PatchOutcome,
    deleteLands: bool,
    applies: bool)

  function WithRequest(claims: seq<Claim>, patch: Patch): (grown: seq<Claim>)
    ensures |grown| == |claims|
    ensures forall i :: 0 <= i < |claims| ==>
              grown[i] == if claims[i].name == patch.claim then claims[i].(request := patch.size) else claims[i]
  {
    seq(|claims|, i requires 0 <= i < |claims| =>
      if claims[i].name == patch.claim then claims[i].(request := patch.size) else claims[i])
  }

  predicate Landed(outcome: PatchOutcome) { outcome.Lands? || (outcome.Errs? && outcome.landed) }

  /** The claims after the first `n` patches, and whether the pass is still going. */
  function PatchedAll(claims: seq<Claim>, patches: seq<Patch>, outcomes: nat -> PatchOutcome, n: nat): (seq<Claim>, bool)
    requires n <= |patches|
  {
    if n == 0 then (claims, true)
    else
      var (before, ok) := PatchedAll(claims, patches, outcomes, n - 1);
      if !ok then (before, false)
      else
        var o := outcomes(n - 1);
        (if Landed(o) then WithRequest(before, patches[n - 1]) else before, !o.Errs?)
  }

  lemma {:induction false} StoppedStays(claims: seq<Claim>, patches: seq<Patch>, outcomes: nat -> PatchOutcome, m: nat, n: nat)
    requires m <= n <= |patches| && !PatchedAll(claims, patches, outcomes, m).1
    ensures PatchedAll(claims, patches, outcomes, n) == PatchedAll(claims, patches, outcomes, m)
  {
    if m < n {
      StoppedStays(claims, patches, outcomes, m, n - 1);
    }
  }

  function RoleRead(w: World, r: Reads): Role {
    Role("", w.desired, if r.cached.Some? && r.cached.value in w.born then Some(w.born[r.cached.value]) else None, w.claims, r.pods)
  }

  /** The delete is conditioned on the UID that was read. */
  function Orphan(w: World, uid: nat, lands: bool): World {
    if lands && w.alive == Some(uid) && !w.deleting then w.(deleting := true, recreates := w.recreates + 1) else w
  }

  /** Kubernetes refuses an apply that would change a live StatefulSet's templates. */
  function Apply(w: World, restated: Option<Sizes>, uid: nat): World {
    if w.alive.Some? then w
    else
      var sizes := Kept(w.desired, restated);
      w.(born := w.born[uid := sizes], alive := Some(uid), deleting := false,
         staleCreations := w.staleCreations + if TemplatesGrew(w.desired, sizes) then 1 else 0)
  }

  function Pass(w: World, r: Reads, uid: nat): World {
    if r.cached.Some? && r.cachedDeleting then w
    else
      var role := RoleRead(w, r);
      var d := Decided(role);
      var (claims, ok) := PatchedAll(w.claims, d.patches, r.patched, |d.patches|);
      var patched := w.(claims := claims);
      if !ok then patched
      else if d.recreate then Orphan(patched, if r.cached.Some? then r.cached.value else 0, r.deleteLands)
      else if r.applies then Apply(patched, role.live, uid)
      else patched
  }

  /** The role's objects as the API server holds them. */
  class Store {
    var world: World

    constructor (initial: World)
      ensures world == initial
    {
      world := initial;
    }

    method Grow(patch: Patch, outcome: PatchOutcome)
      modifies this
      ensures world == old(world).(claims := if Landed(outcome) then WithRequest(old(world).claims, patch) else old(world).claims)
    {
      if Landed(outcome) {
        world := world.(claims := WithRequest(world.claims, patch));
      }
    }

    /** Issues the patches of a decision in order; says which were refused. */
    method PatchClaims(patches: seq<Patch>, outcomes: nat -> PatchOutcome) returns (ok: bool, refused: seq<string>)
      modifies this
      ensures world == old(world).(claims := PatchedAll(old(world).claims, patches, outcomes, |patches|).0)
      ensures ok == PatchedAll(old(world).claims, patches, outcomes, |patches|).1
      ensures ok ==> forall n :: n in refused <==> exists k: nat :: k < |patches| && outcomes(k).IsRefused? && patches[k].claim == n
    {
      refused := [];
      for k := 0 to |patches|
        invariant world == old(world).(claims := world.claims)
        invariant (world.claims, true) == PatchedAll(old(world).claims, patches, outcomes, k)
        invariant forall n :: n in refused <==> exists i: nat :: i < k && outcomes(i).IsRefused? && patches[i].claim == n
      {
        var o := outcomes(k);
        Grow(patches[k], o);
        if o.Errs? {
          StoppedStays(old(world).claims, patches, outcomes, k + 1, |patches|);
          return false, refused;
        }
        if o.IsRefused? {
          refused := refused + [patches[k].claim];
        }
      }
      ok := true;
    }

    /** One pass over the role: patch, or recreate, or go on to the apply. */
    method Reconcile(r: Reads, uid: nat) returns (refused: seq<string>)
      modifies this
      ensures world == Pass(old(world), r, uid)
      ensures refused != [] ==> world.recreates == old(world).recreates
    {
      refused := [];
      if r.cached.Some? && r.cachedDeleting {
        return;
      }
      var decision := Decide(RoleRead(world, r));
      var live := RoleRead(world, r).live;
      var ok, names := PatchClaims(decision.patches, r.patched);
      refused := names;
      if !ok {
        return;
      }
      if decision.recreate {
        HasMember(refused);
        if r.deleteLands && r.cached.Some? && world.alive == r.cached && !world.deleting {
          world := world.(deleting := true, recreates := world.recreates + 1);
        }
        return;
      }
      if r.applies {
        world := Apply(world, live, uid);
      }
    }
  }

  /* ---- What can happen ---- */

  datatype Action =
    | Grows(desired: Sizes)
    | ClaimsMove(claims: seq<Claim>)
    | Goes
    | Passes(r: Reads, uid: nat)

  /** The same claims, none asking for less, perhaps with more after them. */
  ghost predicate NoneShrinks(claims: seq<Claim>, claims': seq<Claim>) {
    && |claims| <= |claims'|
    && forall i :: 0 <= i < |claims| ==>
         && claims'[i].name == claims[i].name && claims'[i].template == claims[i].template
         && claims'[i].ordinal == claims[i].ordinal && claims'[i].request >= claims[i].request
  }

  /** A StatefulSet a pass read existed at some time. */
  ghost predicate Existed(w: World, r: Reads) { r.cached.Some? ==> r.cached.value in w.born }

  ghost predicate Step(w: World, a: Action, w': World) {
    match a
    case Grows(desired) =>
      && desired.Keys == w.desired.Keys && (forall t :: t in desired ==> desired[t] >= w.desired[t])
      && w' == w.(desired := desired, growths := w.growths + 1)
    case ClaimsMove(claims) => NoneShrinks(w.claims, claims) && DistinctClaims(claims) && w' == w.(claims := claims)
    case Goes => w.alive.Some? && w.deleting && w' == w.(alive := None, deleting := false)
    case Passes(r, uid) => Existed(w, r) && uid !in w.born && w' == Pass(w, r, uid)
  }

  ghost predicate Steps(states: seq<World>, actions: seq<Action>, k: nat)
    requires k < |actions| < |states|
  {
    Step(states[k], actions[k], states[k + 1])
  }

  ghost predicate Run(states: seq<World>, actions: seq<Action>) {
    && |states| == |actions| + 1 && states[0].Valid()
    && forall k: nat :: k < |actions| ==> Steps(states, actions, k)
  }

  /* ---- Requests ---- */

  lemma NoneShrinksTransitively(a: seq<Claim>, b: seq<Claim>, c: seq<Claim>)
    requires NoneShrinks(a, b) && NoneShrinks(b, c)
    ensures NoneShrinks(a, c)
  {
  }

  lemma NamesStayDistinct(claims: seq<Claim>, claims': seq<Claim>)
    requires DistinctClaims(claims) && |claims| == |claims'|
    requires forall i :: 0 <= i < |claims| ==> claims'[i].name == claims[i].name
    ensures DistinctClaims(claims')
  {
  }

  /** What the patches of a decision do to the claims: each position changes only from asking too
      little to asking exactly enough, and only when its patch landed. */
  ghost predicate OnlyRaised(desired: Sizes, claims: seq<Claim>, claims': seq<Claim>) {
    |claims'| == |claims|
    && forall i :: 0 <= i < |claims| ==>
         claims'[i] == claims[i]
         || (UnderAsks(desired, claims[i]) && claims'[i] == claims[i].(request := desired[claims[i].template]))
  }

  lemma {:induction false} PatchingRaises(desired: Sizes, claims: seq<Claim>, patches: seq<Patch>, outcomes: nat -> PatchOutcome, n: nat)
    requires DistinctClaims(claims) && n <= |patches|
    requires forall p :: p in patches ==> exists c :: c in claims && IsPatchOf(desired, c, p)
    ensures OnlyRaised(desired, claims, PatchedAll(claims, patches, outcomes, n).0)
  {
    if n > 0 {
      PatchingRaises(desired, claims, patches, outcomes, n - 1);
      var p := patches[n - 1];
      assert p in patches;
      var c :| c in claims && IsPatchOf(desired, c, p);
      var before := PatchedAll(claims, patches, outcomes, n - 1).0;
      forall i | 0 <= i < |claims| && before[i].name == p.claim ensures claims[i] == c {
        var j :| 0 <= j < |claims| && claims[j] == c;
        assert claims[i].name == claims[j].name;
      }
    }
  }

  /** The patch got as far as being issued, and landed. */
  ghost predicate TookEffect(outcomes: nat -> PatchOutcome, k: nat) {
    && (outcomes(k) == Lands || outcomes(k) == Errs(true))
    && forall j: nat :: j < k ==> !outcomes(j).Errs?
  }

  /** A decision's patches are issued in order until one fails in a way that is neither a refusal nor a
      conflict; a claim comes to ask for a patch's size exactly when its patch took effect, and is
      otherwise as it was. */
  lemma {:induction false} PatchesIssued(claims: seq<Claim>, patches: seq<Patch>, outcomes: nat -> PatchOutcome, n: nat)
    requires n <= |patches| && forall i, j :: 0 <= i < j < |patches| ==> patches[i].claim != patches[j].claim
    ensures var (after, ok) := PatchedAll(claims, patches, outcomes, n);
      && (ok <==> forall k: nat :: k < n ==> !outcomes(k).Errs?)
      && |after| == |claims|
      && (forall i, k: nat :: 0 <= i < |claims| && k < n && patches[k].claim == claims[i].name && TookEffect(outcomes, k) ==>
            after[i] == claims[i].(request := patches[k].size))
      && (forall i :: 0 <= i < |claims| && (forall k: nat :: k < n && TookEffect(outcomes, k) ==> patches[k].claim != claims[i].name) ==>
            after[i] == claims[i])
  {
    if n > 0 {
      PatchesIssued(claims, patches, outcomes, n - 1);
      var (before, ok) := PatchedAll(claims, patches, outcomes, n - 1);
      forall i | 0 <= i < |claims| ensures before[i].name == claims[i].name {
        if k: nat :| k < n - 1 && TookEffect(outcomes, k) && patches[k].claim == claims[i].name {
          assert before[i] == claims[i].(request := patches[k].size);
        }
      }
      assert TookEffect(outcomes, n - 1) <==> ok && Landed(outcomes(n - 1));
    }
  }

  lemma PassRaises(w: World, r: Reads, uid: nat)
    requires w.Valid()
    ensures OnlyRaised(w.desired, w.claims, Pass(w, r, uid).claims)
    ensures NoneShrinks(w.claims, Pass(w, r, uid).claims) && DistinctClaims(Pass(w, r, uid).claims)
  {
    var role := RoleRead(w, r);
    var d := Decided(role);
    DecidedExactly(role);
    PatchingRaises(w.desired, w.claims, d.patches, r.patched, |d.patches|);
    NamesStayDistinct(w.claims, PatchedAll(w.claims, d.patches, r.patched, |d.patches|).0);
  }

  lemma PassKeepsValid(w: World, r: Reads, uid: nat)
    requires w.Valid() && Existed(w, r) && uid !in w.born
    ensures Pass(w, r, uid).Valid()
  {
    PassRaises(w, r, uid);
    KeptKeys(w, r);
  }

  lemma KeptKeys(w: World, r: Reads)
    requires w.Valid()
    ensures Kept(w.desired, RoleRead(w, r).live).Keys == w.desired.Keys
  {
  }

  lemma StepKeepsValid(w: World, a: Action, w': World)
    requires w.Valid() && Step(w, a, w')
    ensures w'.Valid() && NoneShrinks(w.claims, w'.claims)
  {
    if a.Passes? {
      PassRaises(w, a.r, a.uid);
      PassKeepsValid(w, a.r, a.uid);
    }
  }

  lemma {:induction false} RunKeepsValid(states: seq<World>, actions: seq<Action>, k: nat)
    requires Run(states, actions) && k < |states|
    ensures states[k].Valid()
  {
    if k > 0 {
      RunKeepsValid(states, actions, k - 1);
      assert Steps(states, actions, k - 1);
      StepKeepsValid(states[k - 1], actions[k - 1], states[k]);
    }
  }

  /** No claim ever asks for less than it did. */
  lemma {:induction false} RequestsNeverShrink(states: seq<World>, actions: seq<Action>, i: nat, j: nat)
    requires Run(states, actions) && i <= j < |states|
    ensures NoneShrinks(states[i].claims, states[j].claims)
    decreases j
  {
    if i < j {
      RequestsNeverShrink(states, actions, i, j - 1);
      RunKeepsValid(states, actions, j - 1);
      assert Steps(states, actions, j - 1);
      StepKeepsValid(states[j - 1], actions[j - 1], states[j]);
      NoneShrinksTransitively(states[i].claims, states[j - 1].claims, states[j].claims);
    }
  }

  /* ---- Recreates ---- */

  /** Every patch is accepted, and so is the delete. */
  ghost predicate Accepted(r: Reads) {
    r.deleteLands && forall n :: r.patched(n).Lands?
  }

  lemma PatchesOneClaim(desired: Sizes, claims: seq<Claim>, p: Patch, i: nat)
    requires DistinctClaims(claims) && (exists c :: c in claims && IsPatchOf(desired, c, p))
    requires i < |claims| && claims[i].name == p.claim
    ensures IsPatchOf(desired, claims[i], p)
  {
    var c :| c in claims && IsPatchOf(desired, c, p);
    var j :| 0 <= j < |claims| && claims[j] == c;
    assert claims[i].name == claims[j].name;
  }

  lemma {:induction false} AllPatchesLand(desired: Sizes, claims: seq<Claim>, patches: seq<Patch>, outcomes: nat -> PatchOutcome, n: nat)
    requires DistinctClaims(claims) && n <= |patches| && (forall k :: outcomes(k).Lands?)
    requires forall p :: p in patches ==> exists c :: c in claims && IsPatchOf(desired, c, p)
    ensures PatchedAll(claims, patches, outcomes, n).1
    ensures OnlyRaised(desired, claims, PatchedAll(claims, patches, outcomes, n).0)
    ensures forall i, k :: 0 <= i < |claims| && 0 <= k < n && patches[k].claim == claims[i].name ==>
              !UnderAsks(desired, PatchedAll(claims, patches, outcomes, n).0[i])
  {
    PatchingRaises(desired, claims, patches, outcomes, n);
    if n > 0 {
      AllPatchesLand(desired, claims, patches, outcomes, n - 1);
      var p, after := patches[n - 1], PatchedAll(claims, patches, outcomes, n).0;
      assert p in patches;
      forall i: nat | i < |claims| && claims[i].name == p.claim ensures !UnderAsks(desired, after[i]) {
        PatchesOneClaim(desired, claims, p, i);
        assert after[i].request == p.size;
      }
    }
  }

  /** A StatefulSet is deleted only when it is the one that was read, one of its templates is to grow,
      and every bound claim of its templates already asks for the desired size: so never in a pass
      with a patch to issue, refused or not. */
  lemma RecreateComesLast(w: World, r: Reads, uid: nat)
    requires w.Valid() && Existed(w, r)
    ensures Pass(w, r, uid).recreates > w.recreates ==>
              && w.Owed() && w.alive == r.cached && w.Under() == {}
              && Decided(RoleRead(w, r)).patches == []
              && Pass(w, r, uid) == w.(deleting := true, recreates := w.recreates + 1)
  {
    var role := RoleRead(w, r);
    DecidedExactly(role);
    if Pass(w, r, uid).recreates > w.recreates {
      forall i: nat | i < |w.claims| ensures !UnderAsks(w.desired, w.claims[i]) {
        assert w.claims[i] in role.claims;
      }
    }
  }

  /** A delete decided on a StatefulSet that has been replaced, or is already going, changes nothing. */
  lemma StaleDeleteIsHarmless(w: World, r: Reads, uid: nat)
    requires w.Valid() && Existed(w, r) && Decided(RoleRead(w, r)).recreate
    requires w.alive != r.cached || w.deleting
    ensures Pass(w, r, uid) == w
  {
  }

  /** An apply to the StatefulSet that was read asks for exactly the template sizes it has, whatever
      sizes the spec describes, and so is not one Kubernetes refuses. */
  lemma AppliesRestate(w: World, r: Reads)
    requires w.Valid() && w.alive.Some? && r.cached == w.alive
    ensures Kept(w.desired, RoleRead(w, r).live) == w.born[w.alive.value]
  {
  }

  /** A pass brings a StatefulSet back with old sizes exactly when it finds none, still reads the one
      that is gone as if it were there, with a template to grow, and finds a claim to patch; had it
      found none, the stale delete would have ended it. */
  ghost predicate BringsBackOldSizes(w: World, r: Reads) {
    && w.alive.None? && r.cached.Some? && !r.cachedDeleting && r.cached.value in w.born
    && TemplatesGrew(w.desired, w.born[r.cached.value]) && w.Under() != {}
  }

  lemma UnderIsRead(w: World, r: Reads)
    ensures w.Under() == {} <==> forall c :: c in RoleRead(w, r).claims ==> !UnderAsks(w.desired, c)
  {
    if w.Under() == {} {
      forall c | c in w.claims ensures !UnderAsks(w.desired, c) {
        var i :| 0 <= i < |w.claims| && w.claims[i] == c;
        assert i !in w.Under();
      }
    } else {
      var i :| i in w.Under();
      assert w.claims[i] in w.claims;
    }
  }

  lemma OldSizesNeedAStaleRead(w: World, r: Reads, uid: nat)
    requires w.Valid() && Existed(w, r) && uid !in w.born
    ensures Pass(w, r, uid).staleCreations > w.staleCreations ==> BringsBackOldSizes(w, r)
    ensures BringsBackOldSizes(w, r) && Accepted(r) && r.applies ==>
              Pass(w, r, uid).staleCreations == w.staleCreations + 1 && Pass(w, r, uid).Owed()
    ensures Pass(w, r, uid).staleCreations <= w.staleCreations + 1
  {
    var role := RoleRead(w, r);
    var d := Decided(role);
    DecidedExactly(role);
    UnderIsRead(w, r);
    var sizes := Kept(w.desired, role.live);
    assert role.live.Some? && role.live.value.Keys == w.desired.Keys ==> sizes == role.live.value;
    if Accepted(r) {
      AllPatchesLand(w.desired, w.claims, d.patches, r.patched, |d.patches|);
    }
  }

  /** The sizes a StatefulSet is created with: of each template what the one that was read has, if it has
      the template, and what is desired otherwise. */
  ghost predicate CreatedSizes(w: World, r: Reads, sizes: Sizes)
    requires Existed(w, r)
  {
    && sizes.Keys == w.desired.Keys
    && forall t :: t in sizes ==>
         sizes[t] == if r.cached.Some? && t in w.born[r.cached.value] then w.born[r.cached.value][t] else w.desired[t]
  }

  ghost predicate GrewPast(w: World, r: Reads)
    requires Existed(w, r)
  {
    r.cached.Some? && exists t :: t in w.desired && t in w.born[r.cached.value] && w.born[r.cached.value][t] < w.desired[t]
  }

  /** Everything a pass does to the role's objects: nothing while it reads the StatefulSet going; the
      patches alone when one of them fails; the delete, where there is nothing to patch and a template to
      grow, of the StatefulSet that was read and no other; and otherwise the apply, which creates one only
      where there is none. */
  lemma PassExactly(w: World, r: Reads, uid: nat)
    requires w.Valid() && Existed(w, r)
    ensures var w', patches := Pass(w, r, uid), Decided(RoleRead(w, r)).patches;
      if r.cached.Some? && r.cachedDeleting then w' == w
      else if exists k: nat :: k < |patches| && r.patched(k).Errs? then w' == w.(claims := w'.claims)
      else if w.Under() == {} && GrewPast(w, r) then
        w' == if r.deleteLands && w.alive == r.cached && !w.deleting then w.(deleting := true, recreates := w.recreates + 1) else w
      else if r.applies && w.alive.None? then
        && w'.alive == Some(uid) && !w'.deleting && uid in w'.born && CreatedSizes(w, r, w'.born[uid])
        && w' == w.(claims := w'.claims, born := w.born[uid := w'.born[uid]], alive := Some(uid), deleting := false,
                    staleCreations := w'.staleCreations)
      else w' == w.(claims := w'.claims)
  {
    var role := RoleRead(w, r);
    var d := Decided(role);
    DecidedExactly(role);
    UnderIsRead(w, r);
    ErrsStop(w.claims, d.patches, r.patched, |d.patches|);
    assert GrewPast(w, r) <==> role.live.Some? && TemplatesGrew(w.desired, role.live.value);
  }

  lemma {:induction false} ErrsStop(claims: seq<Claim>, patches: seq<Patch>, outcomes: nat -> PatchOutcome, n: nat)
    requires n <= |patches|
    ensures PatchedAll(claims, patches, outcomes, n).1 <==> forall k: nat :: k < n ==> !outcomes(k).Errs?
  {
    if n > 0 {
      ErrsStop(claims, patches, outcomes, n - 1);
    }
  }

  /** A role that has no StatefulSet gets one with the desired sizes from a pass that reads none. */
  lemma GoneIsRecreated(w: World, r: Reads, uid: nat)
    requires w.Valid() && uid !in w.born && w.alive.None? && r.cached.None? && Accepted(r) && r.applies
    ensures var w' := Pass(w, r, uid); w'.alive == Some(uid) && w'.born[uid] == w.desired && !w'.Owed()
  {
    var d := Decided(RoleRead(w, r));
    DecidedExactly(RoleRead(w, r));
    AllPatchesLand(w.desired, w.claims, d.patches, r.patched, |d.patches|);
  }

  function Debt(w: World): nat { if w.Owed() then 1 else 0 }

  lemma PassPaysItsDebt(w: World, r: Reads, uid: nat)
    requires w.Valid() && Existed(w, r) && uid !in w.born
    ensures var w' := Pass(w, r, uid);
      && w'.growths == w.growths
      && w'.recreates + Debt(w') + w.staleCreations <= w.recreates + Debt(w) + w'.staleCreations
  {
    RecreateComesLast(w, r, uid);
    var w' := Pass(w, r, uid);
    if w'.recreates == w.recreates && w.alive.None? && w'.alive.Some? {
      assert w'.born[uid] == Kept(w.desired, RoleRead(w, r).live);
    }
  }

  lemma StepPaysItsDebt(w: World, a: Action, w': World)
    requires w.Valid() && Step(w, a, w')
    ensures w'.recreates + Debt(w') + w.growths + w.staleCreations <= w.recreates + Debt(w) + w'.growths + w'.staleCreations
  {
    if a.Passes? {
      PassPaysItsDebt(w, a.r, a.uid);
    }
  }

  /** At most one recreate for each time the sizes grow, one more for a StatefulSet found too small at
      the start, and one more for each that a stale read brought back with old sizes. */
  lemma {:induction false} OneRecreatePerGrowth(states: seq<World>, actions: seq<Action>, k: nat)
    requires Run(states, actions) && k < |states|
    ensures states[k].recreates + Debt(states[k]) - states[0].recreates <=
              Debt(states[0]) + (states[k].growths - states[0].growths) + (states[k].staleCreations - states[0].staleCreations)
  {
    if k > 0 {
      OneRecreatePerGrowth(states, actions, k - 1);
      RunKeepsValid(states, actions, k - 1);
      assert Steps(states, actions, k - 1);
      StepPaysItsDebt(states[k - 1], actions[k - 1], states[k]);
    }
  }

  /* ---- Convergence ---- */

  /** A pass that reads the StatefulSet as it is. */
  ghost predicate Fresh(w: World, r: Reads) { r.cached == w.alive && (w.alive.Some? ==> r.cachedDeleting == w.deleting) }

  /** Whether the pass proposes to change anything. */
  predicate Proposes(w: World, r: Reads) {
    !(r.cached.Some? && r.cachedDeleting) && (Decided(RoleRead(w, r)).patches != [] || Decided(RoleRead(w, r)).recreate)
  }

  /** A pass proposes nothing exactly when no claim is left to grow and no StatefulSet to recreate. */
  lemma ProposesExactly(w: World, r: Reads)
    requires w.Valid() && Fresh(w, r) && !(w.alive.Some? && w.deleting)
    ensures Proposes(w, r) <==> w.Under() != {} || w.Owed()
    ensures Decided(RoleRead(w, r)).patches == [] <==> w.Under() == {}
    ensures Decided(RoleRead(w, r)).recreate <==> w.Under() == {} && w.Owed()
  {
    var role := RoleRead(w, r);
    var d := Decided(role);
    DecidedExactly(role);
    UnderIsRead(w, r);
    if d.patches != [] {
      assert d.patches[0] in d.patches;
    }
    if w.Under() != {} {
      var c :| c in role.claims && UnderAsks(role.desired, c);
      assert IsPatchOf(role.desired, c, Patch(c.name, role.desired[c.template]));
    }
  }

  /** Nothing a pass does adds to the claims left to grow, and only landing changes anything: the pair
      of the claims under-asking and the recreate owed never grows under fresh reads, whatever is
      refused, and shrinks with every patch or delete that lands. */
  lemma PassesOnlyShrinkTheMeasure(w: World, r: Reads, uid: nat)
    requires w.Valid() && Fresh(w, r) && uid !in w.born
    ensures var w' := Pass(w, r, uid);
      && w'.Under() <= w.Under() && Debt(w') <= Debt(w)
      && (w'.claims != w.claims ==> w'.Under() < w.Under())
      && (w'.deleting && !w.deleting ==> Debt(w') < Debt(w))
  {
    var w' := Pass(w, r, uid);
    PassRaises(w, r, uid);
    RecreateComesLast(w, r, uid);
    OldSizesNeedAStaleRead(w, r, uid);
    if w'.claims != w.claims {
      var i: nat :| i < |w.claims| && w'.claims[i] != w.claims[i];
      assert i in w.Under() && i !in w'.Under();
    }
  }

  lemma AcceptedPatchesFinish(w: World, r: Reads, uid: nat)
    requires w.Valid() && !(r.cached.Some? && r.cachedDeleting) && Accepted(r)
    ensures Pass(w, r, uid).Under() == {}
  {
    var role := RoleRead(w, r);
    var d := Decided(role);
    DecidedExactly(role);
    AllPatchesLand(w.desired, w.claims, d.patches, r.patched, |d.patches|);
    var claims := PatchedAll(w.claims, d.patches, r.patched, |d.patches|).0;
    forall i: nat | i < |claims| ensures !UnderAsks(w.desired, claims[i]) {
      if UnderAsks(w.desired, w.claims[i]) {
        var p := Patch(w.claims[i].name, w.desired[w.claims[i].template]);
        assert w.claims[i] in role.claims && IsPatchOf(w.desired, w.claims[i], p);
        var k :| 0 <= k < |d.patches| && d.patches[k] == p;
        assert d.patches[k].claim == w.claims[i].name;
      }
    }
    assert Pass(w, r, uid).claims == claims;
  }

  /** Two steps at most: growing the claims, and recreating the StatefulSet. */
  ghost function Left(w: World): nat { (if w.Under() != {} then 1 else 0) + Debt(w) }

  /** Nothing but the operator and what answers it: the sizes stay, no claim comes to ask for too
      little, and every pass reads the StatefulSet as it is and is accepted. */
  ghost predicate Undisturbed(w: World, a: Action, w': World) {
    match a
    case Grows(_) => false
    case ClaimsMove(_) => w'.Under() <= w.Under()
    case Goes => true
    case Passes(r, _) => Fresh(w, r) && Accepted(r)
  }

  ghost predicate UndisturbedAt(states: seq<World>, actions: seq<Action>, k: nat)
    requires k < |actions| < |states|
  {
    Undisturbed(states[k], actions[k], states[k + 1])
  }

  lemma ProposalsCount(w: World, a: Action, w': World)
    requires w.Valid() && Step(w, a, w') && Undisturbed(w, a, w')
    ensures Left(w') + (if a.Passes? && Proposes(w, a.r) then 1 else 0) <= Left(w)
  {
    if a.Passes? {
      PassesOnlyShrinkTheMeasure(w, a.r, a.uid);
      if !(w.alive.Some? && w.deleting) {
        ProposesExactly(w, a.r);
        AcceptedPatchesFinish(w, a.r, a.uid);
      }
    }
  }

  ghost function Proposals(states: seq<World>, actions: seq<Action>, k: nat): nat
    requires k <= |actions| < |states|
  {
    if k == 0 then 0
    else
      Proposals(states, actions, k - 1) + if actions[k - 1].Passes? && Proposes(states[k - 1], actions[k - 1].r) then 1 else 0
  }

  /** Left alone, an expansion takes two proposals at most, one to grow the claims and one to recreate
      the StatefulSet, and after them proposes nothing ever again. */
  lemma {:induction false} ExpansionConverges(states: seq<World>, actions: seq<Action>, k: nat)
    requires Run(states, actions) && k < |states|
    requires forall i: nat :: i < |actions| ==> UndisturbedAt(states, actions, i)
    ensures Proposals(states, actions, k) + Left(states[k]) <= Left(states[0]) <= 2
  {
    if k > 0 {
      ExpansionConverges(states, actions, k - 1);
      RunKeepsValid(states, actions, k - 1);
      assert Steps(states, actions, k - 1);
      assert UndisturbedAt(states, actions, k - 1);
      ProposalsCount(states[k - 1], actions[k - 1], states[k]);
    }
  }

  lemma FreshPassPaysExactly(w: World, r: Reads, uid: nat)
    requires w.Valid() && Fresh(w, r) && uid !in w.born
    ensures Pass(w, r, uid).recreates + Debt(Pass(w, r, uid)) == w.recreates + Debt(w)
  {
    RecreateComesLast(w, r, uid);
    OldSizesNeedAStaleRead(w, r, uid);
    var w' := Pass(w, r, uid);
    if w'.recreates == w.recreates && w.alive.None? && w'.alive.Some? {
      assert w'.born[uid] == Kept(w.desired, RoleRead(w, r).live) == w.desired;
    }
  }

  lemma UndisturbedPaysExactly(w: World, a: Action, w': World)
    requires w.Valid() && Step(w, a, w') && Undisturbed(w, a, w')
    ensures w'.recreates + Debt(w') == w.recreates + Debt(w)
  {
    if a.Passes? {
      FreshPassPaysExactly(w, a.r, a.uid);
    }
  }

  /** A pass that finds no StatefulSet on its way out. */
  predicate ATurn(w: World, a: Action) { a.Passes? && !(w.alive.Some? && w.deleting) }

  ghost function Turns(states: seq<World>, actions: seq<Action>, k: nat): nat
    requires k <= |actions| < |states|
  {
    if k == 0 then 0 else Turns(states, actions, k - 1) + if ATurn(states[k - 1], actions[k - 1]) then 1 else 0
  }

  lemma TurnsCount(w: World, a: Action, w': World)
    requires w.Valid() && Step(w, a, w') && Undisturbed(w, a, w')
    ensures Left(w') <= Left(w) && (ATurn(w, a) && Left(w) > 0 ==> Left(w') < Left(w))
  {
    ProposalsCount(w, a, w');
    if ATurn(w, a) {
      ProposesExactly(w, a.r);
    }
  }

  /** Left alone after the sizes grew, a run has made exactly as many recreates as the StatefulSet that
      was there owed and no longer owes: one if it was too small and has been recreated, none
      otherwise; and after two passes that did not find one on its way out, it owes none. */
  lemma {:induction false} GrowthCostsItsDebt(states: seq<World>, actions: seq<Action>, k: nat)
    requires Run(states, actions) && k < |states|
    requires forall i: nat :: i < |actions| ==> UndisturbedAt(states, actions, i)
    ensures states[k].recreates == states[0].recreates + Debt(states[0]) - Debt(states[k])
    ensures Left(states[k]) == 0 || Left(states[k]) + Turns(states, actions, k) <= 2
    ensures Turns(states, actions, k) >= 2 ==>
              states[k].Under() == {} && (states[k].recreates == states[0].recreates + 1 <==> states[0].Owed())
  {
    if k > 0 {
      GrowthCostsItsDebt(states, actions, k - 1);
      RunKeepsValid(states, actions, k - 1);
      assert Steps(states, actions, k - 1);
      assert UndisturbedAt(states, actions, k - 1);
      UndisturbedPaysExactly(states[k - 1], actions[k - 1], states[k]);
      TurnsCount(states[k - 1], actions[k - 1], states[k]);
    }
  }

  /* ---- A growth that recreates twice ---- */

  /** A pass whose every call is accepted, over what the cache showed. */
  function Granted(cached: nat): Reads {
    Reads(Some(cached), false, [], (n: nat) => Lands, true, true)
  }

  /** Fresh and accepted, with nothing to patch: the StatefulSet goes. */
  lemma GrantedRecreates(w: World, cached: nat, uid: nat)
    requires w.Valid() && w.alive == Some(cached) && !w.deleting && w.Owed() && w.Under() == {}
    ensures Pass(w, Granted(cached), uid) == w.(deleting := true, recreates := w.recreates + 1)
  {
    var r := Granted(cached);
    ProposesExactly(w, r);
    assert PatchedAll(w.claims, [], r.patched, 0) == (w.claims, true);
  }

  /** One that reads the StatefulSet that is gone, with a claim to patch, brings its sizes back. */
  lemma GrantedBringsBack(w: World, cached: nat, uid: nat)
    requires w.Valid() && BringsBackOldSizes(w, Granted(cached)) && uid !in w.born
    ensures var w' := Pass(w, Granted(cached), uid);
      && w'.alive == Some(uid) && !w'.deleting && w'.Owed() && w'.Under() == {} && w'.Valid()
      && w'.recreates == w.recreates && w'.growths == w.growths && w'.staleCreations == w.staleCreations + 1
  {
    var r := Granted(cached);
    assert Accepted(r);
    OldSizesNeedAStaleRead(w, r, uid);
    AcceptedPatchesFinish(w, r, uid);
    PassKeepsValid(w, r, uid);
  }

  /** One claim, at a size, perhaps not bound yet. */
  function Asking(size: int, bound: bool): Claim { Claim("claim", "data", 0, bound, size, size, false, "", "") }

  function Small(): World { World(map["data" := 1], map[0 := map["data" := 1]], Some(0), false, [Asking(1, false)], 0, 0, 0) }

  lemma SmallGrows(grown: World)
    requires grown == Small().(desired := map["data" := 2], growths := 1)
    ensures Small().Valid() && !Small().Owed()
    ensures grown.Valid() && grown.Owed() && grown.Under() == {}
  {
    assert "data" in grown.desired && grown.born[0]["data"] < grown.desired["data"];
  }

  lemma BoundAsksTooLittle(w: World)
    requires w.desired == map["data" := 2] && w.born == map[0 := map["data" := 1]] && w.alive.None? && w.claims == [Asking(1, true)]
    ensures w.Valid() && BringsBackOldSizes(w, Granted(0))
  {
    assert "data" in w.desired && w.born[0]["data"] < w.desired["data"];
    assert 0 in w.Under();
  }

  ghost predicate RunTo(states: seq<World>, actions: seq<Action>, last: World) {
    Run(states, actions) && states[0] == Small() && states[|states| - 1] == last
  }

  /** Some run from the small StatefulSet ends there. */
  ghost predicate Reached(w: World) { exists states, actions :: RunTo(states, actions, w) }

  lemma Extend(states: seq<World>, actions: seq<Action>, w: World, a: Action, w': World)
    requires RunTo(states, actions, w) && Step(w, a, w')
    ensures RunTo(states + [w'], actions + [a], w')
  {
    var more, all := states + [w'], actions + [a];
    forall k: nat | k < |all| ensures Steps(more, all, k) {
      if k < |actions| {
        assert Steps(states, actions, k);
        assert more[k] == states[k] && more[k + 1] == states[k + 1] && all[k] == actions[k];
      } else {
        assert more[k] == w && more[k + 1] == w' && all[k] == a;
      }
    }
  }

  lemma Onward(w: World, a: Action, w': World)
    requires Reached(w) && Step(w, a, w')
    ensures Reached(w')
  {
    var states, actions :| RunTo(states, actions, w);
    Extend(states, actions, w, a, w');
  }

  lemma Starts()
    requires Small().Valid()
    ensures Reached(Small())
  {
    assert RunTo([Small()], [], Small());
  }

  /** The StatefulSet goes for its larger sizes, and its pending claim binds. */
  lemma GoesAndBinds() returns (bound: World)
    ensures Reached(bound) && BringsBackOldSizes(bound, Granted(0)) && bound.Valid()
    ensures bound.born.Keys == {0} && bound.growths == 1 && bound.recreates == 1
  {
    var grown := Small().(desired := map["data" := 2], growths := 1);
    SmallGrows(grown);
    Starts();
    Onward(Small(), Grows(grown.desired), grown);
    GrantedRecreates(grown, 0, 1);
    var going := grown.(deleting := true, recreates := 1);
    Onward(grown, Passes(Granted(0), 1), going);
    var gone := going.(alive := None, deleting := false);
    Onward(going, Goes, gone);
    bound := gone.(claims := [Asking(1, true)]);
    Onward(gone, ClaimsMove(bound.claims), bound);
    BoundAsksTooLittle(bound);
  }

  /** It comes back with the old sizes, and goes again. */
  lemma ComesBackSmall(bound: World) returns (last: World)
    requires Reached(bound) && BringsBackOldSizes(bound, Granted(0)) && bound.Valid() && bound.born.Keys == {0}
    ensures Reached(last) && last.growths == bound.growths && last.recreates == bound.recreates + 1
  {
    GrantedBringsBack(bound, 0, 1);
    var back := Pass(bound, Granted(0), 1);
    GrantedRecreates(back, 1, 2);
    last := back.(deleting := true, recreates := back.recreates + 1);
    assert 1 in back.born && 2 !in back.born;
    Onward(bound, Passes(Granted(0), 1), back);
    Onward(back, Passes(Granted(1), 2), last);
  }

  /** A run from a StatefulSet of the desired sizes: they grow once, and it is recreated twice. The claim
      of a pod still pending when the StatefulSet goes binds at its old size, and a pass that still
      reads the StatefulSet patches it and brings the old sizes back. */
  lemma RecreatedTwice() returns (states: seq<World>, actions: seq<Action>)
    ensures Run(states, actions) && Debt(states[0]) == 0
    ensures var last := states[|states| - 1];
      last.growths == states[0].growths + 1 && last.recreates == states[0].recreates + 2
  {
    var bound := GoesAndBinds();
    var last := ComesBackSmall(bound);
    states, actions :| RunTo(states, actions, last);
    SmallGrows(Small().(desired := map["data" := 2], growths := 1));
  }
}
