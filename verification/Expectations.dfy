/** The StatefulSet writes whose effect the cache has not shown back yet. */
module Expectations {
  import opened Text

  datatype NamespacedName = NamespacedName(namespace: string, name: string)

  /** A StatefulSet as a pass reads it. */
  datatype StatefulSet = StatefulSet(uid: nat, generation: int, replicas: Option<nat>)

  datatype Written = Written(uid: nat, generation: int)

  type Expected = map<NamespacedName, Written>

  /** A cached copy is believed unless it is an earlier state of the very object last written. */
  predicate Trusted(expected: Expected, name: NamespacedName, cached: Option<StatefulSet>) {
    name in expected && cached.Some? && cached.value.uid == expected[name].uid ==>
      cached.value.generation >= expected[name].generation
  }

  class StatefulSets {
    var expected: Expected

    constructor ()
      ensures expected == map[]
    {
      expected := map[];
    }

    method Expect(name: NamespacedName, uid: nat, generation: int)
      modifies this
      ensures expected == old(expected)[name := Written(uid, generation)]
    {
      expected := expected[name := Written(uid, generation)];
    }

    /** A satisfied expectation is forgotten; an unsatisfied one, and every other one, stays. */
    method Satisfied(name: NamespacedName, cached: Option<StatefulSet>) returns (ok: bool)
      modifies this
      ensures ok == Trusted(old(expected), name, cached)
      ensures ok <==>
                || name !in old(expected) || cached == None
                || cached.value.uid != old(expected)[name].uid || cached.value.generation >= old(expected)[name].generation
      ensures expected == if ok then old(expected) - {name} else old(expected)
    {
      if name !in expected {
        return true;
      }
      var want := expected[name];
      if cached == None || cached.value.uid != want.uid || cached.value.generation >= want.generation {
        expected := expected - {name};
        return true;
      }
      return false;
    }
  }

  /** What is expected after the cache has been looked at this many times. */
  ghost function LookedAt(expected: Expected, name: NamespacedName, looks: seq<StatefulSet>): Expected {
    if looks == [] then expected
    else
      var earlier := LookedAt(expected, name, looks[..|looks| - 1]);
      if Trusted(earlier, name, Some(looks[|looks| - 1])) then earlier - {name} else earlier
  }

  /** The looks show one object, and never an older copy of it than the look before. */
  ghost predicate MovesForward(looks: seq<StatefulSet>, uid: nat) {
    && (forall i :: 0 <= i < |looks| ==> looks[i].uid == uid)
    && forall i, j :: 0 <= i < j < |looks| ==> looks[i].generation <= looks[j].generation
  }

  /** After a write is expected, a cache that only moves forward is trusted in exactly the looks that
      show the write or something later: waited for until then, forgotten once, and never again the
      reason to wait. Until the first such look the expectation is all that has been recorded. */
  lemma {:induction false} TrustedFromTheWriteOn(expected: Expected, name: NamespacedName, written: Written, looks: seq<StatefulSet>, k: nat)
    requires MovesForward(looks, written.uid) && k < |looks|
    ensures var after := LookedAt(expected[name := written], name, looks[..k]);
      && (Trusted(after, name, Some(looks[k])) <==> looks[k].generation >= written.generation)
      && after == if k > 0 && looks[k - 1].generation >= written.generation then expected - {name} else expected[name := written]
  {
    if k > 0 {
      assert looks[..k][..k - 1] == looks[..k - 1];
      TrustedFromTheWriteOn(expected, name, written, looks, k - 1);
      assert expected[name := written] - {name} == expected - {name};
      assert (expected - {name}) - {name} == expected - {name};
    }
  }
}
