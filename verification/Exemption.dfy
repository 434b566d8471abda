/** Which outdated pods need no restart: those whose template differs only in keys that are not
    startup flags. */
module Exemption {
  import opened Text
  import opened Memgraph
  import opened Settings
  import opened Flags
  import opened Rollout

  /** What the running Memgraph said of itself; a view that could not be read, or was empty, is not
      known. */
  datatype FlagClasses = FlagClasses(
    config: map<string, string>, configKnown: bool,
    coordinatorSettings: map<string, string>, coordinatorSettingsKnown: bool)
  {
    predicate Known() { configKnown && coordinatorSettingsKnown }
  }

  /** A role's annotations as its template carries them, and each pod's, by name, as it was started. */
  datatype Annotations = Annotations(
    flags: string, template: string,
    podFlags: map<string, string>, podTemplates: map<string, string>)
  {
    /** The pod runs the role's template apart from the flags. */
    predicate OnTemplate(pod: string) {
      Get(podTemplates, pod) != "" && Get(podTemplates, pod) == template
    }

    function ChangedKeys(pod: string): set<string> {
      Changed(Parsed(Lines(Get(podFlags, pod))), Parsed(Lines(flags)))
    }

    /** Outdated by its label, and only its flags differ. */
    predicate OnlyFlagsDiffer(revision: string, pod: Pod) {
      pod.revisionHash != "" && pod.revisionHash != revision && OnTemplate(pod.name) && ChangedKeys(pod.name) != {}
    }
  }

  /** No changed key is a flag of the running Memgraph. */
  ghost predicate NoneIsFlag(keys: set<string>, classes: FlagClasses) {
    forall k :: k in keys ==> !IsAFlag(Normalize(k), classes.config)
  }

  /** What the pod is marked: a pod whose flags alone differ by whether any of them is a flag, provided
      that can be told; every other pod as it was. */
  ghost function Marked(pod: Pod, revision: string, a: Annotations, classes: FlagClasses): Pod {
    if a.OnlyFlagsDiffer(revision, pod) && classes.Known() then pod.(current := NoneIsFlag(a.ChangedKeys(pod.name), classes))
    else pod
  }

  /** The keys nobody can classify yet. */
  function UnclassifiedOf(pods: seq<Pod>, revision: string, a: Annotations, classes: FlagClasses): set<string> {
    if classes.Known() then {}
    else set p, k | p in pods && a.OnlyFlagsDiffer(revision, p) && k in a.ChangedKeys(p.name) :: k
  }

  method ExemptPod(pod: Pod, revision: string, a: Annotations, classes: FlagClasses) returns (marked: Pod, unclassified: set<string>)
    ensures marked == Marked(pod, revision, a, classes)
    ensures unclassified == UnclassifiedOf([pod], revision, a, classes)
  {
    marked, unclassified := pod, {};
    if pod.revisionHash == "" || pod.revisionHash == revision {
      return;
    }
    if !a.OnTemplate(pod.name) {
      return;
    }
    var changed := ChangedFlags(Get(a.podFlags, pod.name), a.flags);
    var keys := set k | k in changed;
    assert keys == a.ChangedKeys(pod.name);
    if changed == [] {
      return;
    }
    assert changed[0] in keys && a.OnlyFlagsDiffer(revision, pod);
    if !classes.configKnown || !classes.coordinatorSettingsKnown {
      unclassified := keys;
      assert pod in [pod];
      return;
    }
    var sorted := Classify(changed, classes.config, classes.coordinatorSettings);
    marked := pod.(current := sorted.flags == []);
  }

  method ExemptRole(pods: array<Pod>, revision: string, a: Annotations, classes: FlagClasses) returns (unclassified: set<string>)
    modifies pods
    ensures forall i :: 0 <= i < pods.Length ==> pods[i] == Marked(old(pods[i]), revision, a, classes)
    ensures unclassified == UnclassifiedOf(old(pods[..]), revision, a, classes)
  {
    unclassified := {};
    ghost var before := pods[..];
    for i := 0 to pods.Length
      invariant forall k :: 0 <= k < i ==> pods[k] == Marked(before[k], revision, a, classes)
      invariant forall k :: i <= k < pods.Length ==> pods[k] == before[k]
      invariant unclassified == UnclassifiedOf(before[..i], revision, a, classes)
    {
      assert before[..i + 1] == before[..i] + [before[i]];
      UnclassifiedGrows(before[..i], before[i], revision, a, classes);
      var marked, keys := ExemptPod(pods[i], revision, a, classes);
      pods[i], unclassified := marked, unclassified + keys;
    }
    assert before[..pods.Length] == before;
  }

  lemma UnclassifiedGrows(before: seq<Pod>, pod: Pod, revision: string, a: Annotations, classes: FlagClasses)
    ensures UnclassifiedOf(before + [pod], revision, a, classes) ==
              UnclassifiedOf(before, revision, a, classes) + UnclassifiedOf([pod], revision, a, classes)
  {
    assert forall p :: p in before + [pod] <==> p in before || p == pod;
  }

  /** Both roles, data first; the keys come back sorted, each once, and the roll waits while there are
      any. */
  method ExemptCurrentPods(data: array<Pod>, dataRevision: string, dataAnnotations: Annotations,
                           coordinators: array<Pod>, coordinatorRevision: string, coordinatorAnnotations: Annotations,
                           classes: FlagClasses)
    returns (unclassified: seq<string>, ok: bool)
    requires data != coordinators
    modifies data, coordinators
    ensures forall i :: 0 <= i < data.Length ==> data[i] == Marked(old(data[i]), dataRevision, dataAnnotations, classes)
    ensures forall i :: 0 <= i < coordinators.Length ==>
              coordinators[i] == Marked(old(coordinators[i]), coordinatorRevision, coordinatorAnnotations, classes)
    ensures unclassified == Sorted(UnclassifiedOf(old(data[..]), dataRevision, dataAnnotations, classes)
                                   + UnclassifiedOf(old(coordinators[..]), coordinatorRevision, coordinatorAnnotations, classes))
    ensures ok <==> unclassified == []
  {
    var first := ExemptRole(data, dataRevision, dataAnnotations, classes);
    assert coordinators[..] == old(coordinators[..]);
    var second := ExemptRole(coordinators, coordinatorRevision, coordinatorAnnotations, classes);
    unclassified := Sorted(first + second);
    ok := unclassified == [];
  }

  ghost function MarkedAll(role: Role, a: Annotations, classes: FlagClasses): Role {
    role.(pods := seq(|role.pods|, i requires 0 <= i < |role.pods| => Marked(role.pods[i], role.updateRevision, a, classes)))
  }

  /** The pod was started from a template that is the role's current one apart from the flags. */
  ghost predicate SameTemplate(pod: Pod, a: Annotations) {
    pod.name in a.podTemplates && a.podTemplates[pod.name] != "" && a.podTemplates[pod.name] == a.template
  }

  /** What the pod was started with says something else about the key than the template does. */
  ghost predicate KeyChanged(pod: Pod, a: Annotations, key: string) {
    key in Changed(Parsed(Lines(if pod.name in a.podFlags then a.podFlags[pod.name] else "")), Parsed(Lines(a.flags)))
  }

  /** A pod that is up to date for good reason: on the current revision, or differing from its template
      in nothing but keys that are not flags of the running Memgraph, which said so of all its flags. */
  ghost predicate UpToDate(pod: Pod, revision: string, a: Annotations, classes: FlagClasses) {
    || pod.revisionHash == revision
    || (&& SameTemplate(pod, a) && classes.configKnown && classes.coordinatorSettingsKnown
        && (exists k :: KeyChanged(pod, a, k))
        && forall k :: KeyChanged(pod, a, k) ==> !IsAFlag(Normalize(k), classes.config))
  }

  lemma MarkedExactly(pod: Pod, revision: string, a: Annotations, classes: FlagClasses)
    requires pod.revisionHash != "" && !pod.current
    ensures Marked(pod, revision, a, classes).current || pod.revisionHash == revision <==> UpToDate(pod, revision, a, classes)
    ensures Marked(pod, revision, a, classes) == pod.(current := Marked(pod, revision, a, classes).current)
  {
    var keys := a.ChangedKeys(pod.name);
    assert forall k :: k in keys <==> KeyChanged(pod, a, k);
    assert a.OnTemplate(pod.name) <==> SameTemplate(pod, a);
    if keys != {} {
      var k :| k in keys;
      assert KeyChanged(pod, a, k);
    }
  }

  /** The keys the roll waits for are exactly those that are changed on a pod of another revision with
      the same template, while either of the two views is not known. */
  lemma UnclassifiedExactly(pods: seq<Pod>, revision: string, a: Annotations, classes: FlagClasses, key: string)
    ensures key in UnclassifiedOf(pods, revision, a, classes) <==>
              && !(classes.configKnown && classes.coordinatorSettingsKnown)
              && exists p :: p in pods && p.revisionHash != "" && p.revisionHash != revision && SameTemplate(p, a) && KeyChanged(p, a, key)
  {
    forall p | p in pods
      ensures a.OnTemplate(p.name) <==> SameTemplate(p, a)
      ensures key in a.ChangedKeys(p.name) <==> KeyChanged(p, a, key)
    {
    }
    if p :| p in pods && p.revisionHash != "" && p.revisionHash != revision && SameTemplate(p, a) && KeyChanged(p, a, key) {
      assert a.OnlyFlagsDiffer(revision, p);
    }
  }

  /** Exactly which pods the roll still has to restart, read after the exemption. */
  lemma OutdatedAfterExemption(role: Role, a: Annotations, classes: FlagClasses, i: nat)
    requires i < |role.pods| && !role.pods[i].current && role.updateRevision != ""
    ensures MarkedAll(role, a, classes).pods[i] in OutdatedPods(MarkedAll(role, a, classes)) <==>
              role.pods[i].revisionHash != "" && !UpToDate(role.pods[i], role.updateRevision, a, classes)
  {
    var marked := MarkedAll(role, a, classes);
    assert marked.pods[i] in marked.pods;
    if role.pods[i].revisionHash != "" {
      MarkedExactly(role.pods[i], role.updateRevision, a, classes);
    }
  }

  /** Nothing of the role is left to restart: it has no revision yet, or every pod with a label is up to
      date. */
  ghost predicate NothingLeft(role: Role, a: Annotations, classes: FlagClasses) {
    role.updateRevision != "" ==>
      forall p :: p in role.pods && p.revisionHash != "" ==> UpToDate(p, role.updateRevision, a, classes)
  }

  /** The roll is done exactly when neither role's status is behind and every labelled pod of each role
      that has a revision is on it, or differs from its template only in keys that are no flags of the
      running Memgraph. */
  lemma DoneExactly(data: Role, dataAnnotations: Annotations, coordinators: Role, coordinatorAnnotations: Annotations,
                    classes: FlagClasses, view: seq<Instance>, lag: seq<ReplicationLag>)
    requires forall p :: p in data.pods || p in coordinators.pods ==> !p.current
    ensures Next(MarkedAll(data, dataAnnotations, classes), MarkedAll(coordinators, coordinatorAnnotations, classes), view, lag).Done? <==>
              && !data.stale && !coordinators.stale
              && NothingLeft(data, dataAnnotations, classes) && NothingLeft(coordinators, coordinatorAnnotations, classes)
  {
    NoneOutdatedExactly(data, dataAnnotations, classes);
    NoneOutdatedExactly(coordinators, coordinatorAnnotations, classes);
    DoneWhenNoneOutdated(MarkedAll(data, dataAnnotations, classes), MarkedAll(coordinators, coordinatorAnnotations, classes), view, lag);
  }

  lemma DoneWhenNoneOutdated(data: Role, coordinators: Role, view: seq<Instance>, lag: seq<ReplicationLag>)
    ensures Next(data, coordinators, view, lag).Done? <==>
              !data.stale && !coordinators.stale && OutdatedPods(data) == [] && OutdatedPods(coordinators) == []
  {
  }

  lemma NoneOutdatedExactly(role: Role, a: Annotations, classes: FlagClasses)
    requires forall p :: p in role.pods ==> !p.current
    ensures OutdatedPods(MarkedAll(role, a, classes)) == [] <==> NothingLeft(role, a, classes)
  {
    var pending := OutdatedPods(MarkedAll(role, a, classes));
    if pending != [] {
      assert pending[0] in pending;
      var i :| 0 <= i < |role.pods| && MarkedAll(role, a, classes).pods[i] == pending[0];
      OutdatedAfterExemption(role, a, classes, i);
      assert role.pods[i] in role.pods;
    } else if role.updateRevision != "" {
      forall p | p in role.pods && p.revisionHash != "" ensures UpToDate(p, role.updateRevision, a, classes) {
        var i :| 0 <= i < |role.pods| && role.pods[i] == p;
        OutdatedAfterExemption(role, a, classes, i);
      }
    }
  }

  /** A pod started with one set of flags, under a template for another: exempted, it differs from the
      template in some startup key, and in none that the running Memgraph calls a flag. */
  lemma ExemptedByItsFlags(pod: Pod, revision: string, a: Annotations, classes: FlagClasses, table: Table, digest: Digest,
                           started: map<string, string>, wanted: map<string, string>)
    requires ValidDigest(digest) && (forall k :: k in started ==> ValidKey(k)) && (forall k :: k in wanted ==> ValidKey(k))
    requires Get(a.podFlags, pod.name) == DigestsOf(table, digest, started) && a.flags == DigestsOf(table, digest, wanted)
    requires !pod.current && pod.revisionHash != "" && pod.revisionHash != revision && SameTemplate(pod, a)
    requires classes.configKnown && classes.coordinatorSettingsKnown
    ensures Marked(pod, revision, a, classes).current <==>
              && (exists k :: Differs(table, digest, started, wanted, k))
              && forall k :: Differs(table, digest, started, wanted, k) ==> !IsAFlag(Normalize(k), classes.config)
  {
    forall k ensures k in a.ChangedKeys(pod.name) <==> Differs(table, digest, started, wanted, k) {
      ChangedExactly(table, digest, started, wanted, k);
    }
    if a.ChangedKeys(pod.name) != {} {
      var k :| k in a.ChangedKeys(pod.name);
      assert Differs(table, digest, started, wanted, k);
    }
  }
}
