/** How many replicas a pass applies to each role's StatefulSet. */
module Replicas {
  import opened Text
  import opened Decimal
  import opened Resources
  import opened Expectations

  function Max(a: int, b: int): int { if a < b then b else a }

  /** int32 addition of one. */
  function Next32(n: nat): int
    requires n <= MAX_INT32
  {
    if n == MAX_INT32 then MIN_INT32 else n + 1
  }

  /** What a role's pods amount to as a count: enough to have started the last of them. */
  function RunningCount(statefulSet: string, pods: seq<string>): nat {
    if pods == [] then 0
    else
      var fewer := RunningCount(statefulSet, pods[..|pods| - 1]);
      match PodOrdinal(statefulSet, pods[|pods| - 1])
      case None => fewer
      case Some(ordinal) =>
        PodOrdinalExactly(statefulSet, pods[|pods| - 1], ordinal);
        Max(fewer, Next32(ordinal))
  }

  method RunningOrdinals(statefulSet: string, pods: seq<string>) returns (count: nat)
    ensures count == RunningCount(statefulSet, pods)
  {
    count := 0;
    for k := 0 to |pods|
      invariant count == RunningCount(statefulSet, pods[..k])
    {
      assert pods[..k + 1][..k] == pods[..k];
      var ordinal := PodOrdinal(statefulSet, pods[k]);
      if ordinal.Some? {
        PodOrdinalExactly(statefulSet, pods[k], ordinal.value);
        count := Max(count, Next32(ordinal.value));
      }
    }
    assert pods[..|pods|] == pods;
  }

  ghost predicate HasPod(statefulSet: string, pods: seq<string>, ordinal: nat) {
    PodName(statefulSet, ordinal) in pods
  }

  /** The count read off the pods is above every pod's ordinal, exactly when none sits at the very
      last ordinal an int32 has; and it is never more than one above a pod's. */
  lemma {:induction false} RunningCountCovers(statefulSet: string, pods: seq<string>)
    ensures (forall o: nat :: o <= MAX_INT32 && HasPod(statefulSet, pods, o) ==> o < RunningCount(statefulSet, pods))
              <==> !HasPod(statefulSet, pods, MAX_INT32)
    ensures RunningCount(statefulSet, pods) > 0 ==> HasPod(statefulSet, pods, RunningCount(statefulSet, pods) - 1)
    ensures RunningCount(statefulSet, pods) <= MAX_INT32
    ensures forall o: nat :: o < MAX_INT32 && HasPod(statefulSet, pods, o) ==> o < RunningCount(statefulSet, pods)
  {
    if pods != [] {
      var shorter, last := pods[..|pods| - 1], pods[|pods| - 1];
      assert pods == shorter + [last];
      RunningCountCovers(statefulSet, shorter);
      forall o: nat ensures PodOrdinal(statefulSet, last) == Some(o) <==> o <= MAX_INT32 && last == PodName(statefulSet, o) {
        PodOrdinalExactly(statefulSet, last, o);
      }
      forall o: nat ensures HasPod(statefulSet, pods, o) <==> HasPod(statefulSet, shorter, o) || last == PodName(statefulSet, o) {}
    }
  }

  /** How many replicas a role has, by its StatefulSet or else by its pods. */
  function Current(cached: Option<StatefulSet>, running: nat): nat {
    match cached
    case None => running
    case Some(sts) => if sts.replicas.Some? then sts.replicas.value else 0
  }

  /** A pass never applies fewer replicas than there are. */
  function Applied(declared: nat, cached: Option<StatefulSet>, running: nat): nat {
    Max(declared, Current(cached, running))
  }

  /** One role's count for this pass, and whether the cache still owes the operator a shrink. */
  method ResolveRole(shrinks: StatefulSets, name: NamespacedName, declared: nat, cached: Option<StatefulSet>, pods: seq<string>)
    returns (applied: nat, unseen: bool)
    modifies shrinks
    ensures applied == Applied(declared, cached, RunningCount(name.name, pods))
    ensures cached.None? ==> applied == if declared < RunningCount(name.name, pods) then RunningCount(name.name, pods) else declared
    ensures cached.Some? && cached.value.replicas.Some? ==>
              applied == if declared < cached.value.replicas.value then cached.value.replicas.value else declared
    ensures cached.Some? && cached.value.replicas.None? ==> applied == declared
    ensures unseen == !Trusted(old(shrinks.expected), name, cached)
    ensures shrinks.expected == if unseen then old(shrinks.expected) else old(shrinks.expected) - {name}
  {
    var satisfied := shrinks.Satisfied(name, cached);
    unseen := !satisfied;
    var current: nat := 0;
    if cached.Some? && cached.value.replicas.Some? {
      current := cached.value.replicas.value;
    } else if cached.None? {
      current := RunningOrdinals(name.name, pods);
    }
    applied := Max(declared, current);
  }

  /** Recreating a StatefulSet that is gone keeps every pod it left behind exactly when none sits at
      the last ordinal an int32 has, which is not counted, or the declared count is above even that. */
  lemma RecreateKeepsEveryPod(declared: nat, statefulSet: string, pods: seq<string>)
    ensures (forall o: nat :: o <= MAX_INT32 && HasPod(statefulSet, pods, o) ==>
               o < Applied(declared, None, RunningCount(statefulSet, pods)))
              <==> !HasPod(statefulSet, pods, MAX_INT32) || declared > MAX_INT32
  {
    RunningCountCovers(statefulSet, pods);
  }
}
