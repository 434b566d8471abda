/** Volume expansion as one decision about a role, and the reading of claims it is decided from. */
module Volumes {
  import opened Text
  import opened Decimal
  import opened Resources

  /** A size of each claim template, by template name. */
  type Sizes = map<string, int>

  datatype Claim = Claim(
    name: string,
    template: string,
    ordinal: nat,
    bound: bool,
    request: int,
    capacity: int,
    resizePending: bool,
    infeasible: string,
    resizeError: string)

  datatype Mount = Mount(name: string, ordinal: nat)

  datatype Role = Role(statefulSet: string, desired: Sizes, live: Option<Sizes>, claims: seq<Claim>, pods: seq<Mount>)

  datatype Patch = Patch(claim: string, size: int)

  datatype Decision = Decision(
    patches: seq<Patch>,
    recreate: bool,
    growing: seq<string>,
    errors: seq<string>,
    failed: seq<string>)

  /* ---- Claims in name order ---- */

  ghost predicate DistinctClaims(claims: seq<Claim>) {
    forall i, j :: 0 <= i < j < |claims| ==> claims[i].name != claims[j].name
  }

  function ClaimNames(claims: seq<Claim>): set<string> { set c | c in claims :: c.name }

  function ClaimNamed(claims: seq<Claim>, name: string): (claim: Claim)
    requires name in ClaimNames(claims)
    ensures claim in claims && claim.name == name
  {
    if claims[|claims| - 1].name == name then claims[|claims| - 1]
    else
      assert forall c :: c in claims ==> c in claims[..|claims| - 1] || c == claims[|claims| - 1];
      ClaimNamed(claims[..|claims| - 1], name)
  }

  function InNameOrder(claims: seq<Claim>): (ordered: seq<Claim>)
    ensures |ordered| == |Sorted(ClaimNames(claims))|
    ensures forall i :: 0 <= i < |ordered| ==> ordered[i] in claims && ordered[i].name == Sorted(ClaimNames(claims))[i]
  {
    var names := Sorted(ClaimNames(claims));
    seq(|names|, i requires 0 <= i < |names| => assert names[i] in names; ClaimNamed(claims, names[i]))
  }

  ghost predicate NameOrder(claims: seq<Claim>) {
    forall i, j :: 0 <= i < j < |claims| ==> Less(claims[i].name, claims[j].name)
  }

  lemma OrderedExactly(claims: seq<Claim>)
    requires DistinctClaims(claims)
    ensures forall c :: c in InNameOrder(claims) <==> c in claims
    ensures NameOrder(InNameOrder(claims))
  {
    var ordered, names := InNameOrder(claims), Sorted(ClaimNames(claims));
    forall c | c in claims ensures c in ordered {
      assert c.name in names;
      var i :| 0 <= i < |names| && names[i] == c.name;
      assert ordered[i] in claims && ordered[i].name == c.name;
    }
  }

  /* ---- One role's step ---- */

  function PodsByOrdinal(pods: seq<Mount>): map<nat, Mount> {
    if pods == [] then map[]
    else PodsByOrdinal(pods[..|pods| - 1])[pods[|pods| - 1].ordinal := pods[|pods| - 1]]
  }

  /** A claim as the user knows it: with the pod mounting it, if one does. */
  function Described(pods: map<nat, Mount>, claim: Claim): string {
    if claim.ordinal in pods then claim.name + " (pod " + pods[claim.ordinal].name + ")" else claim.name
  }

  datatype Verdict = Ignored | Undersized | GivenUp | Holding | Growing

  /** A claim nothing mounts holds its size once its volume has grown. */
  function Judge(desired: Sizes, pods: map<nat, Mount>, claim: Claim): Verdict {
    if claim.template !in desired || !claim.bound then Ignored
    else if claim.request < desired[claim.template] then Undersized
    else if claim.infeasible != "" then GivenUp
    else if claim.capacity >= claim.request then Holding
    else if claim.ordinal in pods || !claim.resizePending then Growing
    else Holding
  }

  /** The decision with one more claim judged. */
  function Weighed(before: Decision, desired: Sizes, pods: map<nat, Mount>, claim: Claim): Decision {
    var named := Described(pods, claim);
    match Judge(desired, pods, claim)
    case Ignored => before
    case Undersized =>
      assert claim.template in desired;
      before.(patches := before.patches + [Patch(claim.name, desired[claim.template])], growing := before.growing + [named])
    case GivenUp => before.(failed := before.failed + [named + ": " + claim.infeasible])
    case Holding => before
    case Growing =>
      before.(growing := before.growing + [named],
              errors := if claim.resizeError == "" then before.errors else before.errors + [claim.name + ": " + claim.resizeError])
  }

  function Judged(desired: Sizes, pods: map<nat, Mount>, claims: seq<Claim>): Decision {
    if claims == [] then Decision([], false, [], [], [])
    else Weighed(Judged(desired, pods, claims[..|claims| - 1]), desired, pods, claims[|claims| - 1])
  }

  /** Some template is to be larger than the live one. */
  predicate TemplatesGrew(desired: Sizes, live: Sizes) {
    exists t :: t in desired && t in live && live[t] < desired[t]
  }

  function Decided(role: Role): Decision {
    var claims := Judged(role.desired, PodsByOrdinal(role.pods), InNameOrder(role.claims));
    claims.(recreate := role.live.Some? && claims.patches == [] && TemplatesGrew(role.desired, role.live.value))
  }

  method IndexPods(mounts: seq<Mount>) returns (pods: map<nat, Mount>)
    ensures pods == PodsByOrdinal(mounts)
  {
    pods := map[];
    for k := 0 to |mounts|
      invariant pods == PodsByOrdinal(mounts[..k])
    {
      assert mounts[..k + 1][..k] == mounts[..k];
      pods := pods[mounts[k].ordinal := mounts[k]];
    }
    assert mounts[..|mounts|] == mounts;
  }

  method Weigh(before: Decision, desired: Sizes, pods: map<nat, Mount>, claim: Claim) returns (decision: Decision)
    ensures decision == Weighed(before, desired, pods, claim)
  {
    decision := before;
    if claim.template !in desired || !claim.bound {
      return;
    }
    var want, mounted := desired[claim.template], claim.ordinal in pods;
    var named := claim.name;
    if mounted {
      named := claim.name + " (pod " + pods[claim.ordinal].name + ")";
    }
    if claim.request < want {
      decision := decision.(patches := decision.patches + [Patch(claim.name, want)], growing := decision.growing + [named]);
    } else if claim.infeasible != "" {
      decision := decision.(failed := decision.failed + [named + ": " + claim.infeasible]);
    } else if claim.capacity >= claim.request {
    } else if mounted || !claim.resizePending {
      decision := decision.(growing := decision.growing + [named]);
      if claim.resizeError != "" {
        decision := decision.(errors := decision.errors + [claim.name + ": " + claim.resizeError]);
      }
    }
  }

  method Decide(role: Role) returns (decision: Decision)
    ensures decision == Decided(role)
  {
    var pods := IndexPods(role.pods);
    decision := Decision([], false, [], [], []);
    var claims := InNameOrder(role.claims);
    for k := 0 to |claims|
      invariant decision == Judged(role.desired, pods, claims[..k])
    {
      assert claims[..k + 1][..k] == claims[..k];
      decision := Weigh(decision, role.desired, pods, claims[k]);
    }
    assert claims[..|claims|] == claims;
    decision := decision.(recreate := role.live.Some? && decision.patches == [] && TemplatesGrew(role.desired, role.live.value));
  }

  /** A claim asks for less than it is to. */
  predicate UnderAsks(desired: Sizes, claim: Claim) {
    claim.bound && claim.template in desired && claim.request < desired[claim.template]
  }

  ghost predicate IsPatchOf(desired: Sizes, c: Claim, p: Patch) {
    UnderAsks(desired, c) && p == Patch(c.name, desired[c.template])
  }

  ghost predicate PatchOrder(patches: seq<Patch>) {
    forall i, j :: 0 <= i < j < |patches| ==> Less(patches[i].claim, patches[j].claim)
  }

  lemma {:induction false} PatchesExactly(desired: Sizes, pods: map<nat, Mount>, claims: seq<Claim>)
    ensures forall c, p :: c in claims && IsPatchOf(desired, c, p) ==> p in Judged(desired, pods, claims).patches
    ensures forall p :: p in Judged(desired, pods, claims).patches ==> exists c :: c in claims && IsPatchOf(desired, c, p)
  {
    if claims != [] {
      var shorter, last := claims[..|claims| - 1], claims[|claims| - 1];
      PatchesExactly(desired, pods, shorter);
      var before, after := Judged(desired, pods, shorter).patches, Judged(desired, pods, claims).patches;
      assert after == before + if UnderAsks(desired, last) then [Patch(last.name, desired[last.template])] else [];
      assert forall c :: c in claims <==> c in shorter || c == last;
      forall p | p in after ensures exists c :: c in claims && IsPatchOf(desired, c, p) {
        if p in before {
          var c :| c in shorter && IsPatchOf(desired, c, p);
          assert c in claims;
        } else {
          assert IsPatchOf(desired, last, p);
        }
      }
    }
  }

  lemma {:induction false} PatchesAscend(desired: Sizes, pods: map<nat, Mount>, claims: seq<Claim>)
    requires NameOrder(claims)
    ensures PatchOrder(Judged(desired, pods, claims).patches)
  {
    if claims != [] {
      var shorter, last := claims[..|claims| - 1], claims[|claims| - 1];
      PatchesAscend(desired, pods, shorter);
      PatchesExactly(desired, pods, shorter);
      var before, after := Judged(desired, pods, shorter).patches, Judged(desired, pods, claims).patches;
      assert after == before + if UnderAsks(desired, last) then [Patch(last.name, desired[last.template])] else [];
      forall i | 0 <= i < |before| ensures Less(before[i].claim, last.name) {
        assert before[i] in before;
        var c :| c in shorter && IsPatchOf(desired, c, before[i]);
        var k :| 0 <= k < |shorter| && shorter[k] == c;
        assert claims[k] == c;
      }
    }
  }

  lemma {:induction false} ReportsExactly(desired: Sizes, pods: map<nat, Mount>, claims: seq<Claim>)
    ensures var d := Judged(desired, pods, claims);
      && (d.failed == [] <==> forall c :: c in claims ==> Judge(desired, pods, c) != GivenUp)
      && (d.growing == [] <==> forall c :: c in claims ==> Judge(desired, pods, c) !in {Undersized, Growing})
  {
    if claims != [] {
      var shorter, last := claims[..|claims| - 1], claims[|claims| - 1];
      ReportsExactly(desired, pods, shorter);
      assert forall c :: c in claims <==> c in shorter || c == last;
    }
  }

  /** The patches are exactly the bound claims asking for less than their template is to, each to the
      desired size, in name order; and the StatefulSet is to be recreated exactly when it exists, one
      of its templates is to grow and no claim is left to patch. */
  lemma DecidedExactly(role: Role)
    requires DistinctClaims(role.claims)
    ensures forall c, p :: c in role.claims && IsPatchOf(role.desired, c, p) ==> p in Decided(role).patches
    ensures forall p :: p in Decided(role).patches ==> exists c :: c in role.claims && IsPatchOf(role.desired, c, p)
    ensures PatchOrder(Decided(role).patches)
    ensures Decided(role).recreate <==>
              && role.live.Some? && TemplatesGrew(role.desired, role.live.value)
              && forall c :: c in role.claims ==> !UnderAsks(role.desired, c)
    ensures Decided(role).recreate ==> exists t :: t in role.desired && t in role.live.value && role.desired[t] > role.live.value[t]
    ensures (forall c :: c in role.claims && c.bound && c.template in role.desired ==> c.request >= role.desired[c.template])
            && (exists t :: role.live.Some? && t in role.desired && t in role.live.value && role.desired[t] > role.live.value[t]) ==>
              Decided(role).recreate
  {
    OrderedExactly(role.claims);
    PatchesExactly(role.desired, PodsByOrdinal(role.pods), InNameOrder(role.claims));
    PatchesAscend(role.desired, PodsByOrdinal(role.pods), InNameOrder(role.claims));
    var d := Decided(role);
    if d.patches == [] {
      forall c | c in role.claims && UnderAsks(role.desired, c) ensures false {
        assert IsPatchOf(role.desired, c, Patch(c.name, role.desired[c.template]));
      }
    } else {
      assert d.patches[0] in d.patches;
    }
  }

  /** A claim has all it is ever going to need: nothing is to be asked of it, the provider has not
      given up on it, and its filesystem holds what it asks for, or will once a pod mounts it. */
  predicate Settled(role: Role, claim: Claim) {
    claim.bound && claim.template in role.desired ==>
      && claim.request >= role.desired[claim.template]
      && claim.infeasible == ""
      && (claim.capacity >= claim.request || (claim.resizePending && forall p :: p in role.pods ==> p.ordinal != claim.ordinal))
  }

  lemma {:induction false} MountedExactly(pods: seq<Mount>, ordinal: nat)
    ensures ordinal in PodsByOrdinal(pods) <==> exists p :: p in pods && p.ordinal == ordinal
  {
    if pods != [] {
      MountedExactly(pods[..|pods| - 1], ordinal);
      assert forall p :: p in pods <==> p in pods[..|pods| - 1] || p == pods[|pods| - 1];
    }
  }

  /** Nothing is left to do, to wait for or to report exactly when every claim is settled. */
  lemma QuietExactly(role: Role)
    requires DistinctClaims(role.claims)
    ensures Decided(role).growing == [] && Decided(role).failed == [] <==> forall c :: c in role.claims ==> Settled(role, c)
  {
    var pods := PodsByOrdinal(role.pods);
    OrderedExactly(role.claims);
    ReportsExactly(role.desired, pods, InNameOrder(role.claims));
    forall c | c in role.claims ensures Settled(role, c) <==> Judge(role.desired, pods, c) in {Ignored, Holding} {
      MountedExactly(role.pods, c.ordinal);
    }
    if forall c :: c in role.claims ==> Settled(role, c) {
      forall c | c in InNameOrder(role.claims) ensures Judge(role.desired, pods, c) in {Ignored, Holding} {}
    }
    if Decided(role).growing == [] && Decided(role).failed == [] {
      forall c | c in role.claims ensures Settled(role, c) {
        assert c in InNameOrder(role.claims);
      }
    }
  }

  /* ---- What is reported ---- */

  ghost predicate Mounted(role: Role, claim: Claim) { exists p :: p in role.pods && p.ordinal == claim.ordinal }

  ghost predicate OfATemplate(role: Role, claim: Claim) { claim.bound && claim.template in role.desired }

  /** Asked to grow in this pass. */
  ghost predicate IsAsked(role: Role, claim: Claim) {
    OfATemplate(role, claim) && claim.request < role.desired[claim.template]
  }

  /** The provider has given up on what it already asks for. */
  ghost predicate GaveUp(role: Role, claim: Claim) {
    OfATemplate(role, claim) && claim.request >= role.desired[claim.template] && claim.infeasible != ""
  }

  /** Asked before, and not there yet, unless all it waits for is a pod to mount it. */
  ghost predicate IsGrowing(role: Role, claim: Claim) {
    && OfATemplate(role, claim) && claim.request >= role.desired[claim.template] && claim.infeasible == ""
    && claim.capacity < claim.request && (Mounted(role, claim) || !claim.resizePending)
  }

  /** The claim by its name, with the last listed pod of its ordinal. */
  ghost predicate Names(role: Role, claim: Claim, text: string) {
    || (!Mounted(role, claim) && text == claim.name)
    || exists i :: 0 <= i < |role.pods| && role.pods[i].ordinal == claim.ordinal
         && (forall j :: i < j < |role.pods| ==> role.pods[j].ordinal != claim.ordinal)
         && text == claim.name + " (pod " + role.pods[i].name + ")"
  }

  /** One text for each of the claims that count, in their order. */
  ghost predicate TextsOf(texts: seq<string>, claims: seq<Claim>, counts: Claim -> bool, says: (Claim, string) -> bool)
    decreases |claims|
  {
    if claims == [] then texts == []
    else if counts(claims[|claims| - 1]) then
      texts != [] && says(claims[|claims| - 1], texts[|texts| - 1])
      && TextsOf(texts[..|texts| - 1], claims[..|claims| - 1], counts, says)
    else TextsOf(texts, claims[..|claims| - 1], counts, says)
  }

  ghost predicate NamesGrowing(role: Role, claims: seq<Claim>, texts: seq<string>) {
    TextsOf(texts, claims, (c: Claim) => IsAsked(role, c) || IsGrowing(role, c), (c: Claim, text: string) => Names(role, c, text))
  }

  ghost predicate NamesFailed(role: Role, claims: seq<Claim>, texts: seq<string>) {
    TextsOf(texts, claims, (c: Claim) => GaveUp(role, c), (c: Claim, text: string) => IsFailure(role, c, text))
  }

  ghost predicate IsFailure(role: Role, c: Claim, text: string) {
    exists name :: Names(role, c, name) && text == name + ": " + c.infeasible
  }

  ghost predicate NamesErrors(role: Role, claims: seq<Claim>, texts: seq<string>) {
    TextsOf(texts, claims, (c: Claim) => IsGrowing(role, c) && c.resizeError != "",
            (c: Claim, text: string) => text == c.name + ": " + c.resizeError)
  }

  lemma {:induction false} LastPodOf(pods: seq<Mount>, ordinal: nat)
    ensures ordinal in PodsByOrdinal(pods) ==>
              exists i :: 0 <= i < |pods| && pods[i] == PodsByOrdinal(pods)[ordinal] && pods[i].ordinal == ordinal
                && forall j :: i < j < |pods| ==> pods[j].ordinal != ordinal
  {
    if pods != [] && pods[|pods| - 1].ordinal != ordinal {
      LastPodOf(pods[..|pods| - 1], ordinal);
    }
  }

  lemma DescribedNames(role: Role, claim: Claim)
    ensures Names(role, claim, Described(PodsByOrdinal(role.pods), claim))
    ensures claim.ordinal in PodsByOrdinal(role.pods) <==> Mounted(role, claim)
  {
    MountedExactly(role.pods, claim.ordinal);
    LastPodOf(role.pods, claim.ordinal);
  }

  lemma JudgedAs(role: Role, claim: Claim)
    ensures var v := Judge(role.desired, PodsByOrdinal(role.pods), claim);
      && (v == Undersized <==> IsAsked(role, claim)) && (v == GivenUp <==> GaveUp(role, claim)) && (v == Growing <==> IsGrowing(role, claim))
  {
    MountedExactly(role.pods, claim.ordinal);
  }

  lemma {:induction false} ReportsInOrder(role: Role, claims: seq<Claim>)
    ensures var d := Judged(role.desired, PodsByOrdinal(role.pods), claims);
      NamesGrowing(role, claims, d.growing) && NamesFailed(role, claims, d.failed) && NamesErrors(role, claims, d.errors)
  {
    if claims != [] {
      var shorter, last := claims[..|claims| - 1], claims[|claims| - 1];
      ReportsInOrder(role, shorter);
      JudgedAs(role, last);
      DescribedNames(role, last);
    }
  }

  /** What a pass reports, claim by claim in name order: the claims it asks to grow or waits for, the ones
      given up on with the provider's words, and what holds up the ones it waits for. */
  lemma ReportsNameTheClaims(role: Role)
    requires DistinctClaims(role.claims)
    ensures forall c :: c in InNameOrder(role.claims) <==> c in role.claims
    ensures var d, claims := Decided(role), InNameOrder(role.claims);
      && NameOrder(claims)
      && NamesGrowing(role, claims, d.growing) && NamesFailed(role, claims, d.failed) && NamesErrors(role, claims, d.errors)
  {
    OrderedExactly(role.claims);
    ReportsInOrder(role, InNameOrder(role.claims));
  }

  /* ---- Claim templates ---- */

  datatype Template = Template(name: string, size: int)

  function TemplateSizes(templates: seq<Template>): Sizes {
    if templates == [] then map[]
    else TemplateSizes(templates[..|templates| - 1])[templates[|templates| - 1].name := templates[|templates| - 1].size]
  }

  /** Of the templates of one name the last counts. */
  lemma {:induction false} TemplateSizesExactly(templates: seq<Template>, i: nat)
    requires i < |templates| && forall j :: i < j < |templates| ==> templates[j].name != templates[i].name
    ensures templates[i].name in TemplateSizes(templates) && TemplateSizes(templates)[templates[i].name] == templates[i].size
  {
    if i < |templates| - 1 {
      TemplateSizesExactly(templates[..|templates| - 1], i);
    }
  }

  /** The sizes an apply asks for: what the live StatefulSet has, where it has the template. */
  function Kept(desired: Sizes, live: Option<Sizes>): Sizes {
    match live
    case None => desired
    case Some(sizes) => map t | t in desired :: if t in sizes then sizes[t] else desired[t]
  }

  method KeepLiveSizes(templates: array<Template>, live: Option<seq<Template>>)
    modifies templates
    ensures forall i :: 0 <= i < templates.Length ==> templates[i].name == old(templates[i].name)
    ensures TemplateSizes(templates[..]) ==
              Kept(TemplateSizes(old(templates[..])), if live.Some? then Some(TemplateSizes(live.value)) else None)
  {
    if live.None? {
      return;
    }
    var sizes := TemplateSizes(live.value);
    for i := 0 to templates.Length
      invariant forall k :: 0 <= k < i ==>
                  templates[k] == Template(old(templates[k].name),
                                           if old(templates[k].name) in sizes then sizes[old(templates[k].name)] else old(templates[k].size))
      invariant forall k :: i <= k < templates.Length ==> templates[k] == old(templates[k])
    {
      if templates[i].name in sizes {
        templates[i] := Template(templates[i].name, sizes[templates[i].name]);
      }
    }
    KeptPointwise(old(templates[..]), templates[..], sizes);
  }

  lemma {:induction false} KeptPointwise(before: seq<Template>, after: seq<Template>, live: Sizes)
    requires |before| == |after|
    requires forall k :: 0 <= k < |before| ==>
               after[k] == Template(before[k].name, if before[k].name in live then live[before[k].name] else before[k].size)
    ensures TemplateSizes(after) == Kept(TemplateSizes(before), Some(live))
  {
    if before != [] {
      KeptPointwise(before[..|before| - 1], after[..|after| - 1], live);
    }
  }

  /* ---- Which claims are a StatefulSet's ---- */

  datatype PvcCondition = PvcCondition(kind: string, isTrue: bool, message: string)

  /** A PersistentVolumeClaim as listed. `resize` is the status of its storage resize, if it has one. */
  datatype Pvc = Pvc(
    name: string,
    bound: bool,
    request: int,
    capacity: int,
    resize: Option<string>,
    conditions: seq<PvcCondition>)

  const CONTROLLER_IN_PROGRESS := "ControllerResizeInProgress"
  const CONTROLLER_INFEASIBLE := "ControllerResizeInfeasible"
  const NODE_PENDING := "NodeResizePending"
  const NODE_IN_PROGRESS := "NodeResizeInProgress"
  const NODE_INFEASIBLE := "NodeResizeInfeasible"

  const CONTROLLER_ERROR := "ControllerResizeError"
  const NODE_ERROR := "NodeResizeError"
  const FILE_SYSTEM_PENDING := "FileSystemResizePending"

  function ClaimName(template: string, statefulSet: string, ordinal: nat): string {
    template + "-" + statefulSet + "-" + FormatInt(ordinal)
  }

  /* ---- What a claim's status says about its resize ---- */

  predicate IsSpace(c: char) {
    || '\t' <= c <= '\r' || c == ' ' || c == '\U{85}' || c == '\U{A0}' || c == '\U{1680}' || '\U{2000}' <= c <= '\U{200A}'
    || c == '\U{2028}' || c == '\U{2029}' || c == '\U{202F}' || c == '\U{205F}' || c == '\U{3000}'
  }

  /** Each run of whitespace as one space, none at the front. */
  function Folded(message: string): string {
    if message == "" then ""
    else
      var before, c := Folded(message[..|message| - 1]), message[|message| - 1];
      if !IsSpace(c) then before + [c]
      else if before == "" || before[|before| - 1] == ' ' then before
      else before + " "
  }

  function TrimLast(message: string): string {
    if message != "" && message[|message| - 1] == ' ' then message[..|message| - 1] else message
  }

  function Collapse(message: string): string { TrimLast(Folded(message)) }

  /** Words with one space between them. */
  ghost predicate IsCollapsed(message: string) {
    && (forall i :: 0 <= i < |message| && IsSpace(message[i]) ==> message[i] == ' ')
    && (forall i :: 0 <= i < |message| - 1 && message[i] == ' ' ==> message[i + 1] != ' ')
    && (message != "" ==> message[0] != ' ')
  }

  lemma {:induction false} FoldedIsCollapsed(message: string)
    ensures IsCollapsed(Folded(message))
  {
    if message != "" {
      FoldedIsCollapsed(message[..|message| - 1]);
    }
  }

  lemma {:induction false} FoldedSettles(message: string)
    requires IsCollapsed(message)
    ensures Folded(message) == message
  {
    if message != "" {
      var shorter := message[..|message| - 1];
      FoldedSettles(shorter);
      if message[|message| - 1] == ' ' && shorter != "" {
        assert message[|message| - 2] != ' ';
      }
    }
  }

  /** A collapsed message is words with one space between them and none around, and collapsing it again
      changes nothing. */
  lemma CollapseSettles(message: string)
    ensures var c := Collapse(message);
      IsCollapsed(c) && (c != "" ==> c[|c| - 1] != ' ') && Collapse(c) == c
  {
    FoldedIsCollapsed(message);
    FoldedSettles(Collapse(message));
  }

  /** The words of a message, and words with one space between them. */
  function Fields(message: string): (words: seq<string>)
    ensures message != "" && !IsSpace(message[|message| - 1]) ==> words != []
  {
    if message == "" then []
    else
      var shorter, c := message[..|message| - 1], message[|message| - 1];
      var words := Fields(shorter);
      if IsSpace(c) then words
      else if shorter == "" || IsSpace(shorter[|shorter| - 1]) then words + [[c]]
      else words[..|words| - 1] + [words[|words| - 1] + [c]]
  }

  function Join(words: seq<string>): string {
    if words == [] then ""
    else if |words| == 1 then words[0]
    else Join(words[..|words| - 1]) + " " + words[|words| - 1]
  }

  ghost predicate IsWord(w: string) { w != "" && forall i :: 0 <= i < |w| ==> !IsSpace(w[i]) }

  ghost predicate AreWords(words: seq<string>) { forall k :: 0 <= k < |words| ==> IsWord(words[k]) }

  lemma {:induction false} FieldsAreWords(message: string)
    ensures AreWords(Fields(message))
  {
    if message != "" {
      var shorter, c := message[..|message| - 1], message[|message| - 1];
      FieldsAreWords(shorter);
      var words := Fields(shorter);
      if !IsSpace(c) && shorter != "" && !IsSpace(shorter[|shorter| - 1]) {
        assert IsWord(words[|words| - 1]);
        assert IsWord(words[|words| - 1] + [c]);
      } else if !IsSpace(c) {
        assert IsWord([c]);
      }
    }
  }

  lemma {:induction false} JoinedEnds(words: seq<string>)
    requires AreWords(words) && words != []
    ensures Join(words) != "" && !IsSpace(Join(words)[|Join(words)| - 1])
  {
    var last := words[|words| - 1];
    assert IsWord(last);
    assert Join(words)[|Join(words)| - 1] == last[|last| - 1];
  }

  lemma LongerWord(words: seq<string>, c: char)
    requires words != []
    ensures Join(words[..|words| - 1] + [words[|words| - 1] + [c]]) == Join(words) + [c]
  {
    var longer := words[..|words| - 1] + [words[|words| - 1] + [c]];
    assert longer[..|longer| - 1] == words[..|words| - 1];
    if |words| > 1 {
      var before, last := Join(words[..|words| - 1]), words[|words| - 1];
      assert before + " " + (last + [c]) == (before + " " + last) + [c];
    }
  }

  function Trailing(message: string): string {
    if Fields(message) != [] && IsSpace(message[|message| - 1]) then " " else ""
  }

  lemma OneMoreSpace(shorter: string, c: char)
    requires IsSpace(c) && Folded(shorter) == Join(Fields(shorter)) + Trailing(shorter)
    ensures Folded(shorter + [c]) == Join(Fields(shorter + [c])) + Trailing(shorter + [c])
  {
    var message := shorter + [c];
    assert message[..|message| - 1] == shorter;
    FieldsAreWords(shorter);
    if Fields(shorter) != [] {
      JoinedEnds(Fields(shorter));
    }
  }

  lemma OneMoreLetter(shorter: string, c: char)
    requires !IsSpace(c) && Folded(shorter) == Join(Fields(shorter)) + Trailing(shorter)
    ensures Folded(shorter + [c]) == Join(Fields(shorter + [c])) + Trailing(shorter + [c])
  {
    var message, words := shorter + [c], Fields(shorter);
    assert message[..|message| - 1] == shorter;
    if shorter == "" || IsSpace(shorter[|shorter| - 1]) {
      assert (words + [[c]])[..|words|] == words;
      if words != [] {
        assert Join(words) + " " + [c] == (Join(words) + " ") + [c];
      }
    } else {
      LongerWord(words, c);
    }
  }

  lemma {:induction false} FoldedIsJoined(message: string)
    ensures Folded(message) == Join(Fields(message)) + Trailing(message)
  {
    if message != "" {
      var shorter, c := message[..|message| - 1], message[|message| - 1];
      assert message == shorter + [c];
      FoldedIsJoined(shorter);
      if IsSpace(c) {
        OneMoreSpace(shorter, c);
      } else {
        OneMoreLetter(shorter, c);
      }
    }
  }

  /** A collapsed message is its words with one space between them. */
  lemma CollapseExactly(message: string)
    ensures Collapse(message) == Join(Fields(message)) && AreWords(Fields(message))
  {
    FoldedIsJoined(message);
    FieldsAreWords(message);
    if Fields(message) != [] {
      JoinedEnds(Fields(message));
    }
  }

  lemma SpacesAre(c: char)
    requires c < '\U{80}'
    ensures IsSpace(c) <==> c in {' ', '\t', '\n', '\U{0B}', '\U{0C}', '\r'}
  {
  }

  predicate Explains(c: PvcCondition, kind: string, evenIfFalse: bool) {
    c.kind == kind && (evenIfFalse || c.isTrue) && c.message != ""
  }

  /** The message of the first condition of that type that has one. */
  function MessageOf(conditions: seq<PvcCondition>, kind: string, evenIfFalse: bool): Option<string> {
    if conditions == [] then None
    else if Explains(conditions[0], kind, evenIfFalse) then Some(Collapse(conditions[0].message))
    else MessageOf(conditions[1..], kind, evenIfFalse)
  }

  /** The first condition of the type that has a message, and that is True unless it need not be. */
  ghost predicate FirstToExplain(conditions: seq<PvcCondition>, kind: string, evenIfFalse: bool, i: nat) {
    && i < |conditions| && conditions[i].kind == kind && conditions[i].message != "" && (conditions[i].isTrue || evenIfFalse)
    && forall j :: 0 <= j < i ==> conditions[j].kind != kind || conditions[j].message == "" || !(conditions[j].isTrue || evenIfFalse)
  }

  lemma {:induction false} MessageExactly(conditions: seq<PvcCondition>, kind: string, evenIfFalse: bool)
    ensures forall i: nat :: FirstToExplain(conditions, kind, evenIfFalse, i) ==>
              MessageOf(conditions, kind, evenIfFalse) == Some(Join(Fields(conditions[i].message)))
    ensures MessageOf(conditions, kind, evenIfFalse).None? ==>
              forall c :: c in conditions ==> !(c.kind == kind && c.message != "" && (c.isTrue || evenIfFalse))
    ensures MessageOf(conditions, kind, evenIfFalse).Some? ==> exists i: nat :: FirstToExplain(conditions, kind, evenIfFalse, i)
  {
    if conditions != [] {
      CollapseExactly(conditions[0].message);
      MessageExactly(conditions[1..], kind, evenIfFalse);
      if Explains(conditions[0], kind, evenIfFalse) {
        assert FirstToExplain(conditions, kind, evenIfFalse, 0);
      } else {
        forall i: nat | FirstToExplain(conditions, kind, evenIfFalse, i)
          ensures FirstToExplain(conditions[1..], kind, evenIfFalse, i - 1) && conditions[1..][i - 1] == conditions[i]
        {
          assert forall j :: 0 <= j < i - 1 ==> conditions[1..][j] == conditions[j + 1];
        }
        if i: nat :| FirstToExplain(conditions[1..], kind, evenIfFalse, i) {
          forall j | 0 <= j < i + 1
            ensures conditions[j].kind != kind || conditions[j].message == "" || !(conditions[j].isTrue || evenIfFalse)
          {
            assert j > 0 ==> conditions[j] == conditions[1..][j - 1];
          }
          assert conditions[i + 1] == conditions[1..][i];
          assert FirstToExplain(conditions, kind, evenIfFalse, i + 1);
        }
        assert forall c :: c in conditions ==> c == conditions[0] || c in conditions[1..];
      }
    }
  }

  function ErrorOfInfeasible(status: string): Option<string> {
    if status == CONTROLLER_INFEASIBLE then Some(CONTROLLER_ERROR)
    else if status == NODE_INFEASIBLE then Some(NODE_ERROR)
    else None
  }

  /** The provider's refusal of the resize, empty without one. */
  function Infeasible(pvc: Pvc): string {
    if pvc.resize.None? || ErrorOfInfeasible(pvc.resize.value).None? then ""
    else
      match MessageOf(pvc.conditions, ErrorOfInfeasible(pvc.resize.value).value, true)
      case Some(message) => pvc.resize.value + ": " + message
      case None => pvc.resize.value
  }

  function ErrorOfStep(status: string): Option<string> {
    if status == CONTROLLER_IN_PROGRESS then Some(CONTROLLER_ERROR)
    else if status == NODE_PENDING || status == NODE_IN_PROGRESS then Some(NODE_ERROR)
    else None
  }

  /** What holds up the step the resize is on, empty when nothing is reported to. */
  function ResizeError(pvc: Pvc): string {
    if pvc.resize.None? || ErrorOfStep(pvc.resize.value).None? then ""
    else
      match MessageOf(pvc.conditions, ErrorOfStep(pvc.resize.value).value, false)
      case Some(message) => message
      case None => ""
  }

  predicate ResizePending(pvc: Pvc) {
    || (exists i :: 0 <= i < |pvc.conditions| && pvc.conditions[i].kind == FILE_SYSTEM_PENDING && pvc.conditions[i].isTrue)
    || pvc.resize == Some(NODE_PENDING)
  }

  method FindMessage(conditions: seq<PvcCondition>, kind: string, evenIfFalse: bool) returns (message: Option<string>)
    ensures message == MessageOf(conditions, kind, evenIfFalse)
  {
    for k := 0 to |conditions|
      invariant MessageOf(conditions, kind, evenIfFalse) == MessageOf(conditions[k..], kind, evenIfFalse)
    {
      assert conditions[k..][1..] == conditions[k + 1..];
      if conditions[k].kind == kind && (evenIfFalse || conditions[k].isTrue) && conditions[k].message != "" {
        return Some(Collapse(conditions[k].message));
      }
    }
    assert conditions[|conditions|..] == [];
    message := None;
  }

  function ReadAs(pvc: Pvc, template: string, ordinal: nat): Claim {
    Claim(pvc.name, template, ordinal, pvc.bound, pvc.request, pvc.capacity, ResizePending(pvc), Infeasible(pvc),
          if Infeasible(pvc) == "" then ResizeError(pvc) else "")
  }

  /** A text that quotes the first condition of a type that has a message, with or without a word before
      it, or is the fallback when there is none. */
  ghost predicate Quotes(text: string, before: string, fallback: string, pvc: Pvc, kind: string, evenIfFalse: bool) {
    || (exists i: nat :: FirstToExplain(pvc.conditions, kind, evenIfFalse, i) && text == before + Join(Fields(pvc.conditions[i].message)))
    || (text == fallback && forall c :: c in pvc.conditions ==> !(c.kind == kind && c.message != "" && (c.isTrue || evenIfFalse)))
  }

  /** The claim says of itself what the listed object says, field by field. */
  ghost predicate ReadsPvc(claim: Claim, pvc: Pvc) {
    && claim.name == pvc.name && claim.bound == pvc.bound
    && claim.request == pvc.request && claim.capacity == pvc.capacity
    && (claim.resizePending <==>
          pvc.resize == Some("NodeResizePending") || exists c :: c in pvc.conditions && c.kind == "FileSystemResizePending" && c.isTrue)
    && (if pvc.resize == Some("ControllerResizeInfeasible") then
          Quotes(claim.infeasible, "ControllerResizeInfeasible: ", "ControllerResizeInfeasible", pvc, "ControllerResizeError", true)
        else if pvc.resize == Some("NodeResizeInfeasible") then
          Quotes(claim.infeasible, "NodeResizeInfeasible: ", "NodeResizeInfeasible", pvc, "NodeResizeError", true)
        else claim.infeasible == "")
    && (if pvc.resize == Some("ControllerResizeInProgress") then
          Quotes(claim.resizeError, "", "", pvc, "ControllerResizeError", false)
        else if pvc.resize in {Some("NodeResizePending"), Some("NodeResizeInProgress")} then
          Quotes(claim.resizeError, "", "", pvc, "NodeResizeError", false)
        else claim.resizeError == "")
  }

  lemma QuotesMessage(pvc: Pvc, kind: string, evenIfFalse: bool, before: string, fallback: string)
    ensures Quotes(match MessageOf(pvc.conditions, kind, evenIfFalse) case Some(m) => before + m case None => fallback,
                   before, fallback, pvc, kind, evenIfFalse)
  {
    MessageExactly(pvc.conditions, kind, evenIfFalse);
    if MessageOf(pvc.conditions, kind, evenIfFalse).Some? {
      var i: nat :| FirstToExplain(pvc.conditions, kind, evenIfFalse, i);
    }
  }

  lemma QuotesPlainly(pvc: Pvc, kind: string)
    ensures Quotes(match MessageOf(pvc.conditions, kind, false) case Some(m) => m case None => "", "", "", pvc, kind, false)
  {
    QuotesMessage(pvc, kind, false, "", "");
    if MessageOf(pvc.conditions, kind, false).Some? {
      var m := MessageOf(pvc.conditions, kind, false).value;
      assert "" + m == m;
    }
  }

  lemma ReadsRefusal(pvc: Pvc, status: string, kind: string)
    requires pvc.resize == Some(status) && ErrorOfInfeasible(status) == Some(kind)
    ensures Quotes(Infeasible(pvc), status + ": ", status, pvc, kind, true)
  {
    QuotesMessage(pvc, kind, true, status + ": ", status);
  }

  lemma ReadsInfeasible(pvc: Pvc)
    ensures if pvc.resize == Some("ControllerResizeInfeasible") then
              Quotes(Infeasible(pvc), "ControllerResizeInfeasible: ", "ControllerResizeInfeasible", pvc, "ControllerResizeError", true)
            else if pvc.resize == Some("NodeResizeInfeasible") then
              Quotes(Infeasible(pvc), "NodeResizeInfeasible: ", "NodeResizeInfeasible", pvc, "NodeResizeError", true)
            else Infeasible(pvc) == ""
  {
    StatusesDiffer();
    if pvc.resize == Some(CONTROLLER_INFEASIBLE) {
      ReadsRefusal(pvc, CONTROLLER_INFEASIBLE, CONTROLLER_ERROR);
      assert CONTROLLER_INFEASIBLE + ": " == "ControllerResizeInfeasible: ";
    } else if pvc.resize == Some(NODE_INFEASIBLE) {
      ReadsRefusal(pvc, NODE_INFEASIBLE, NODE_ERROR);
      assert NODE_INFEASIBLE + ": " == "NodeResizeInfeasible: ";
    }
  }

  lemma ReadsStep(pvc: Pvc, status: string, kind: string)
    requires pvc.resize == Some(status) && ErrorOfStep(status) == Some(kind)
    ensures Quotes(ResizeError(pvc), "", "", pvc, kind, false)
  {
    QuotesPlainly(pvc, kind);
  }

  lemma ReadsResizeError(pvc: Pvc)
    ensures if pvc.resize == Some("ControllerResizeInProgress") then
              Quotes(ResizeError(pvc), "", "", pvc, "ControllerResizeError", false)
            else if pvc.resize in {Some("NodeResizePending"), Some("NodeResizeInProgress")} then
              Quotes(ResizeError(pvc), "", "", pvc, "NodeResizeError", false)
            else ResizeError(pvc) == ""
  {
    StatusesDiffer();
    if pvc.resize == Some(CONTROLLER_IN_PROGRESS) {
      ReadsStep(pvc, CONTROLLER_IN_PROGRESS, CONTROLLER_ERROR);
    } else if pvc.resize in {Some(NODE_PENDING), Some(NODE_IN_PROGRESS)} {
      ReadsStep(pvc, pvc.resize.value, NODE_ERROR);
    }
  }

  lemma ReadsExactly(pvc: Pvc, template: string, ordinal: nat)
    ensures ReadsPvc(ReadAs(pvc, template, ordinal), pvc)
    ensures ReadAs(pvc, template, ordinal).template == template && ReadAs(pvc, template, ordinal).ordinal == ordinal
  {
    ReadsInfeasible(pvc);
    ReadsResizeError(pvc);
    StatusesDiffer();
    PendingInTermsOf(pvc);
    OnlyTheStepIsQuoted(pvc, template, ordinal);
  }

  method ReadClaim(pvc: Pvc, template: string, ordinal: nat) returns (claim: Claim)
    ensures claim == ReadAs(pvc, template, ordinal)
  {
    claim := Claim(pvc.name, template, ordinal, pvc.bound, pvc.request, pvc.capacity, false, "", "");
    for k := 0 to |pvc.conditions|
      invariant claim == ReadAs(pvc, template, ordinal).(resizePending := claim.resizePending, infeasible := "", resizeError := "")
      invariant claim.resizePending <==> exists i :: 0 <= i < k && pvc.conditions[i].kind == FILE_SYSTEM_PENDING && pvc.conditions[i].isTrue
    {
      if pvc.conditions[k].kind == FILE_SYSTEM_PENDING && pvc.conditions[k].isTrue {
        claim := claim.(resizePending := true);
      }
    }
    if pvc.resize == Some(NODE_PENDING) {
      claim := claim.(resizePending := true);
    }
    if pvc.resize.Some? && ErrorOfInfeasible(pvc.resize.value).Some? {
      var message := FindMessage(pvc.conditions, ErrorOfInfeasible(pvc.resize.value).value, true);
      claim := claim.(infeasible := if message.Some? then pvc.resize.value + ": " + message.value else pvc.resize.value);
    }
    if claim.infeasible == "" && pvc.resize.Some? && ErrorOfStep(pvc.resize.value).Some? {
      var message := FindMessage(pvc.conditions, ErrorOfStep(pvc.resize.value).value, false);
      claim := claim.(resizeError := if message.Some? then message.value else "");
    }
  }

  function Without(conditions: seq<PvcCondition>, kind: string): seq<PvcCondition> {
    if conditions == [] then []
    else (if conditions[0].kind == kind then [] else [conditions[0]]) + Without(conditions[1..], kind)
  }

  lemma {:induction false} OtherKindsSayNothing(conditions: seq<PvcCondition>, other: string, kind: string, evenIfFalse: bool)
    requires other != kind
    ensures MessageOf(Without(conditions, other), kind, evenIfFalse) == MessageOf(conditions, kind, evenIfFalse)
  {
    if conditions != [] {
      var rest := Without(conditions[1..], other);
      OtherKindsSayNothing(conditions[1..], other, kind, evenIfFalse);
      assert Without(conditions, other)[..] == if conditions[0].kind == other then rest else [conditions[0]] + rest;
      assert conditions[0].kind != other ==> ([conditions[0]] + rest)[1..] == rest;
    }
  }

  /** The resize is given up on exactly when its status says infeasible, with or without a message;
      otherwise only the step the resize is on is quoted: an error the other step left behind changes
      nothing a claim is read as. */
  lemma OnlyTheStepIsQuoted(pvc: Pvc, template: string, ordinal: nat)
    ensures var claim := ReadAs(pvc, template, ordinal);
      && (claim.infeasible != "" <==> pvc.resize in {Some(CONTROLLER_INFEASIBLE), Some(NODE_INFEASIBLE)})
      && (pvc.resize in {Some(NODE_PENDING), Some(NODE_IN_PROGRESS)} ==>
            claim == ReadAs(pvc.(conditions := Without(pvc.conditions, CONTROLLER_ERROR)), template, ordinal))
      && (pvc.resize == Some(CONTROLLER_IN_PROGRESS) ==>
            claim == ReadAs(pvc.(conditions := Without(pvc.conditions, NODE_ERROR)), template, ordinal))
      && (claim.resizeError != "" ==>
            pvc.resize in {Some(CONTROLLER_IN_PROGRESS), Some(NODE_PENDING), Some(NODE_IN_PROGRESS)})
  {
    StatusesDiffer();
    OtherErrorSaysNothing(pvc, CONTROLLER_ERROR, NODE_ERROR, template, ordinal);
    OtherErrorSaysNothing(pvc, NODE_ERROR, CONTROLLER_ERROR, template, ordinal);
  }

  lemma OtherErrorSaysNothing(pvc: Pvc, other: string, kind: string, template: string, ordinal: nat)
    requires other != kind && other != FILE_SYSTEM_PENDING
    requires pvc.resize.Some? && ErrorOfStep(pvc.resize.value) == Some(kind) ==> ErrorOfInfeasible(pvc.resize.value).None?
    ensures pvc.resize.Some? && ErrorOfStep(pvc.resize.value) == Some(kind) ==>
              ReadAs(pvc, template, ordinal) == ReadAs(pvc.(conditions := Without(pvc.conditions, other)), template, ordinal)
  {
    OtherKindsSayNothing(pvc.conditions, other, kind, false);
    PendingIsKept(pvc, other);
  }

  lemma StatusesDiffer()
    ensures CONTROLLER_ERROR != NODE_ERROR && CONTROLLER_ERROR != FILE_SYSTEM_PENDING && NODE_ERROR != FILE_SYSTEM_PENDING
    ensures CONTROLLER_INFEASIBLE !in {CONTROLLER_IN_PROGRESS, NODE_PENDING, NODE_IN_PROGRESS, NODE_INFEASIBLE, ""}
    ensures NODE_INFEASIBLE !in {CONTROLLER_IN_PROGRESS, NODE_PENDING, NODE_IN_PROGRESS, ""}
    ensures CONTROLLER_IN_PROGRESS !in {NODE_PENDING, NODE_IN_PROGRESS}
  {
    assert CONTROLLER_ERROR[0] == 'C' && NODE_ERROR[0] == 'N' && FILE_SYSTEM_PENDING[0] == 'F';
    assert CONTROLLER_INFEASIBLE[0] == 'C' && CONTROLLER_IN_PROGRESS[0] == 'C' && NODE_INFEASIBLE[0] == 'N';
    assert NODE_PENDING[0] == 'N' && NODE_IN_PROGRESS[0] == 'N';
    assert CONTROLLER_INFEASIBLE[18] == 'f' && CONTROLLER_IN_PROGRESS[18] == 'P';
    assert NODE_INFEASIBLE[12] == 'f' && NODE_PENDING[12] == 'n' && NODE_IN_PROGRESS[12] == 'P';
  }

  lemma {:induction false} HasPendingIsKept(conditions: seq<PvcCondition>, other: string)
    requires other != FILE_SYSTEM_PENDING
    ensures (exists c :: c in Without(conditions, other) && c.kind == FILE_SYSTEM_PENDING && c.isTrue)
              <==> exists c :: c in conditions && c.kind == FILE_SYSTEM_PENDING && c.isTrue
  {
    if conditions != [] {
      HasPendingIsKept(conditions[1..], other);
      assert forall c :: c in conditions <==> c == conditions[0] || c in conditions[1..];
      assert forall c :: c in Without(conditions, other) <==>
                         (c == conditions[0] && c.kind != other) || c in Without(conditions[1..], other);
    }
  }

  lemma PendingIsKept(pvc: Pvc, other: string)
    requires other != FILE_SYSTEM_PENDING
    ensures ResizePending(pvc.(conditions := Without(pvc.conditions, other))) <==> ResizePending(pvc)
  {
    HasPendingIsKept(pvc.conditions, other);
    PendingInTermsOf(pvc);
    PendingInTermsOf(pvc.(conditions := Without(pvc.conditions, other)));
  }

  lemma PendingInTermsOf(pvc: Pvc)
    ensures ResizePending(pvc) <==>
              (exists c :: c in pvc.conditions && c.kind == FILE_SYSTEM_PENDING && c.isTrue) || pvc.resize == Some(NODE_PENDING)
  {
    if c :| c in pvc.conditions && c.kind == FILE_SYSTEM_PENDING && c.isTrue {
      var i :| 0 <= i < |pvc.conditions| && pvc.conditions[i] == c;
    }
  }

  lemma ClaimNameSplits(t: string, m: nat, u: string, n: nat, statefulSet: string)
    requires ClaimName(t, statefulSet, m) == ClaimName(u, statefulSet, n)
    ensures t == u && m == n
  {
    assert ClaimName(t, statefulSet, m) == (t + "-" + statefulSet) + "-" + FormatInt(m);
    assert ClaimName(u, statefulSet, n) == (u + "-" + statefulSet) + "-" + FormatInt(n);
    LastHyphenSplit(t + "-" + statefulSet, m, u + "-" + statefulSet, n);
    var whole := t + "-" + statefulSet;
    assert whole == u + "-" + statefulSet;
    assert |t| == |u| && t == whole[..|t|] && u == whole[..|u|];
  }

  /** The claim is read as one the StatefulSet names: of one of its templates, at an ordinal an int32
      holds, printed as it prints. There is only one way to read it, whatever the templates are called
      and in whatever order they are tried; a claim named any other way is not the StatefulSet's. */
  method Observe(statefulSet: string, templates: seq<string>, pvc: Pvc) returns (claim: Option<Claim>)
    ensures claim.Some? <==> exists t, n: nat :: t in templates && n <= MAX_INT32 && pvc.name == ClaimName(t, statefulSet, n)
    ensures claim.Some? ==>
              && claim.value.template in templates && claim.value.ordinal <= MAX_INT32
              && pvc.name == claim.value.template + "-" + statefulSet + "-" + FormatInt(claim.value.ordinal)
    ensures claim.Some? ==> claim.value == ReadAs(pvc, claim.value.template, claim.value.ordinal) && ReadsPvc(claim.value, pvc)
    ensures forall t, n: nat :: t in templates && n <= MAX_INT32 && pvc.name == ClaimName(t, statefulSet, n) ==>
              claim == Some(ReadAs(pvc, t, n))
  {
    for k := 0 to |templates|
      invariant forall i, n: nat :: 0 <= i < k && n <= MAX_INT32 ==> pvc.name != ClaimName(templates[i], statefulSet, n)
    {
      var prefix := templates[k] + "-" + statefulSet + "-";
      var suffix := CutPrefix(pvc.name, prefix);
      var ordinal: Option<nat> := if suffix.None? then None else Ordinal(suffix.value);
      forall n: nat ensures ordinal == Some(n) <==> n <= MAX_INT32 && pvc.name == ClaimName(templates[k], statefulSet, n) {
        assert ClaimName(templates[k], statefulSet, n) == prefix + FormatInt(n);
        assert (prefix + FormatInt(n))[|prefix|..] == FormatInt(n);
        if suffix.Some? {
          OrdinalExactly(suffix.value, n);
          assert pvc.name == prefix + suffix.value;
        }
      }
      if ordinal.Some? {
        assert templates[k] in templates;
        forall t, n: nat | t in templates && n <= MAX_INT32 && pvc.name == ClaimName(t, statefulSet, n)
          ensures t == templates[k] && n == ordinal.value
        {
          ClaimNameSplits(t, n, templates[k], ordinal.value, statefulSet);
        }
        var read := ReadClaim(pvc, templates[k], ordinal.value);
        ReadsExactly(pvc, templates[k], ordinal.value);
        return Some(read);
      }
    }
    claim := None;
  }
}
