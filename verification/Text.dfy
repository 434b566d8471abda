/** Strings as the operator handles them: ASCII case folding, prefixes, and the byte order that
    every list it prints or diffs is sorted in. */
module Text {

  datatype Option<+T> = None | Some(value: T)

  function Lower(c: char): char {
    if 'A' <= c <= 'Z' then (c as int + 32) as char else c
  }

  /** Equality up to letter case. The words compared with it contain no letter that Unicode folds
      outside ASCII, so ASCII folding decides the same. */
  predicate EqualFold(s: string, t: string) {
    |s| == |t| && forall i :: 0 <= i < |s| ==> Lower(s[i]) == Lower(t[i])
  }

  /** The same character, or the same ASCII letter in the other case. */
  ghost predicate SameLetter(a: char, b: char) {
    || a == b
    || ('A' <= a <= 'Z' && b as int == a as int + 32)
    || ('A' <= b <= 'Z' && a as int == b as int + 32)
  }

  lemma EqualFoldExactly(s: string, t: string)
    ensures EqualFold(s, t) <==> |s| == |t| && forall i :: 0 <= i < |s| ==> SameLetter(s[i], t[i])
  {
    forall a: char, b: char ensures Lower(a) == Lower(b) <==> SameLetter(a, b) {
      assert Lower(a) as int == if 'A' <= a <= 'Z' then a as int + 32 else a as int;
      assert Lower(b) as int == if 'A' <= b <= 'Z' then b as int + 32 else b as int;
    }
  }

  function CutPrefix(s: string, prefix: string): Option<string> {
    if prefix <= s then Some(s[|prefix|..]) else None
  }

  lemma CutsExactly(s: string, prefix: string)
    ensures forall rest :: CutPrefix(s, prefix) == Some(rest) <==> s == prefix + rest
  {
    assert prefix <= s ==> s == prefix + s[|prefix|..];
    forall rest | s == prefix + rest ensures CutPrefix(s, prefix) == Some(rest) {
      assert s[|prefix|..] == rest;
    }
  }

  /** The order of Go's strings.Compare. */
  predicate Less(s: string, t: string) {
    if t == [] then false
    else if s == [] then true
    else s[0] < t[0] || (s[0] == t[0] && Less(s[1..], t[1..]))
  }

  ghost predicate DiffersUpwards(s: string, t: string, k: nat) {
    k < |s| && k < |t| && s[..k] == t[..k] && s[k] < t[k]
  }

  /** The shorter first when it is a prefix, and otherwise the one that is lower where they first differ. */
  lemma {:induction false} LessExactly(s: string, t: string)
    ensures Less(s, t) <==> (s <= t && s != t) || exists k: nat :: DiffersUpwards(s, t, k)
  {
    if s != [] && t != [] && s[0] == t[0] {
      LessExactly(s[1..], t[1..]);
      assert s == [s[0]] + s[1..] && t == [t[0]] + t[1..];
      assert s <= t <==> s[1..] <= t[1..];
      if k: nat :| DiffersUpwards(s, t, k) {
        assert s[1..][..k - 1] == s[..k][1..] && t[1..][..k - 1] == t[..k][1..];
        assert DiffersUpwards(s[1..], t[1..], k - 1);
      }
      if k: nat :| DiffersUpwards(s[1..], t[1..], k) {
        assert s[..k + 1] == [s[0]] + s[1..][..k] && t[..k + 1] == [t[0]] + t[1..][..k];
        assert DiffersUpwards(s, t, k + 1);
      }
    } else if s != [] && t != [] {
      if s[0] < t[0] {
        assert DiffersUpwards(s, t, 0);
      }
      forall k: nat | DiffersUpwards(s, t, k) ensures s[0] == t[0] || k == 0 {
        SameStart(s, t, k);
      }
    }
  }

  lemma SameStart(s: string, t: string, k: nat)
    requires DiffersUpwards(s, t, k)
    ensures k > 0 ==> s[0] == t[0]
  {
    if k > 0 {
      assert s[..k][0] == s[0] && t[..k][0] == t[0];
    }
  }

  lemma {:induction false} LessIsTransitive(s: string, t: string, u: string)
    requires Less(s, t) && Less(t, u)
    ensures Less(s, u)
  {
    if s != [] && s[0] == t[0] && t[0] == u[0] {
      LessIsTransitive(s[1..], t[1..], u[1..]);
    }
  }

  lemma {:induction false} LessIsIrreflexive(s: string)
    ensures !Less(s, s)
  {
    if s != [] {
      LessIsIrreflexive(s[1..]);
    }
  }

  lemma {:induction false} LessIsTotal(s: string, t: string)
    ensures Less(s, t) || s == t || Less(t, s)
  {
    if s != [] && t != [] && s[0] == t[0] {
      LessIsTotal(s[1..], t[1..]);
      assert s == [s[0]] + s[1..] && t == [t[0]] + t[1..];
    }
  }

  ghost predicate Ascending(names: seq<string>) {
    forall i, j :: 0 <= i < j < |names| ==> Less(names[i], names[j])
  }

  lemma {:induction false} LeastExists(names: set<string>) returns (least: string)
    requires names != {}
    ensures least in names
    ensures forall n :: n in names && n != least ==> Less(least, n)
    decreases names
  {
    var some :| some in names;
    var rest := names - {some};
    if rest == {} {
      least := some;
      assert forall n :: n in names ==> n == some || n in rest;
    } else {
      var other := LeastExists(rest);
      LessIsTotal(some, other);
      if Less(some, other) {
        least := some;
        forall n | n in names && n != least ensures Less(least, n) {
          if n != other { LessIsTransitive(some, other, n); }
        }
      } else {
        least := other;
      }
    }
  }

  predicate IsLeast(least: string, names: set<string>) {
    least in names && forall n :: n in names && n != least ==> Less(least, n)
  }

  lemma LeastIsUnique(m: string, n: string, names: set<string>)
    requires IsLeast(m, names) && IsLeast(n, names)
    ensures m == n
  {
    if m != n {
      LessIsTransitive(m, n, m);
      LessIsIrreflexive(m);
    }
  }

  /** A set of names in ascending order, each once: what sorting the keys of a map yields. */
  function Sorted(names: set<string>): (sorted: seq<string>)
    ensures Ascending(sorted)
    ensures forall n :: n in sorted <==> n in names
  {
    if names == {} then []
    else
      assert exists least :: IsLeast(least, names) by {
        var least := LeastExists(names);
        assert IsLeast(least, names);
      }
      assert forall m, n :: IsLeast(m, names) && IsLeast(n, names) ==> m == n by {
        forall m, n | IsLeast(m, names) && IsLeast(n, names) ensures m == n {
          LeastIsUnique(m, n, names);
        }
      }
      var least :| IsLeast(least, names);
      [least] + Sorted(names - {least})
  }

  lemma HasMember(s: seq<string>)
    ensures s == [] || exists n :: n in s
  {
    if s != [] {
      assert s[0] in s;
    }
  }

  /** Two ascending lists with the same elements are the same list. */
  lemma {:induction false} AscendingIsUnique(s: seq<string>, t: seq<string>)
    requires Ascending(s) && Ascending(t)
    requires forall n :: n in s <==> n in t
    ensures s == t
  {
    if s == [] {
      HasMember(t);
    } else {
      assert s[0] in t;
      assert t[0] in s;
      var i :| 0 <= i < |t| && t[i] == s[0];
      var j :| 0 <= j < |s| && s[j] == t[0];
      if i > 0 && j > 0 {
        LessIsTransitive(s[0], t[0], s[0]);
        LessIsIrreflexive(s[0]);
      }
      assert s[0] == t[0];
      forall n ensures n in s[1..] <==> n in t[1..] {
        if n in s[1..] { HeadNotInTail(s, n); assert n in s; assert n in t; assert n != t[0]; }
        if n in t[1..] { HeadNotInTail(t, n); assert n in t; assert n in s; assert n != s[0]; }
      }
      AscendingIsUnique(s[1..], t[1..]);
      assert s == [s[0]] + s[1..] && t == [t[0]] + t[1..];
    }
  }

  lemma HeadNotInTail(s: seq<string>, n: string)
    requires Ascending(s) && s != [] && n in s[1..]
    ensures n != s[0]
  {
    LessIsIrreflexive(n);
  }

  /* ---- Sorting with repetitions ---- */

  ghost predicate NonDescending(names: seq<string>) {
    forall i, j :: 0 <= i < j < |names| ==> !Less(names[j], names[i])
  }

  lemma NotLessIsTransitive(s: string, t: string, u: string)
    requires !Less(t, s) && !Less(u, t)
    ensures !Less(u, s)
  {
    LessIsTotal(s, t);
    LessIsTotal(t, u);
    if Less(s, t) && Less(t, u) { LessIsTransitive(s, t, u); }
    if Less(u, s) && Less(s, u) { LessIsTransitive(u, s, u); }
    LessIsIrreflexive(u);
  }

  function Insert(name: string, names: seq<string>): (more: seq<string>)
    ensures multiset(more) == multiset(names) + multiset{name}
  {
    if names == [] then [name]
    else
      assert names == [names[0]] + names[1..];
      if Less(names[0], name) then [names[0]] + Insert(name, names[1..])
      else [name] + names
  }

  lemma {:induction false} InsertKeepsOrder(name: string, names: seq<string>)
    requires NonDescending(names)
    ensures NonDescending(Insert(name, names))
  {
    if names != [] {
      if Less(names[0], name) {
        InsertKeepsOrder(name, names[1..]);
        var rest := Insert(name, names[1..]);
        assert names == [names[0]] + names[1..];
        forall j | 0 <= j < |rest| ensures !Less(rest[j], names[0]) {
          assert rest[j] in multiset(rest);
          if rest[j] == name {
            if Less(name, names[0]) {
              LessIsTransitive(name, names[0], name);
              LessIsIrreflexive(name);
            }
          } else {
            assert rest[j] in names[1..];
          }
        }
      } else {
        forall j | 0 <= j < |names| ensures !Less(names[j], name) {
          if j > 0 {
            NotLessIsTransitive(name, names[0], names[j]);
          }
        }
      }
    }
  }

  /** The names in order, each as often as it was there. */
  function SortedAll(names: seq<string>): (sorted: seq<string>)
    ensures NonDescending(sorted) && multiset(sorted) == multiset(names)
  {
    if names == [] then []
    else
      assert names == names[..|names| - 1] + [names[|names| - 1]];
      InsertKeepsOrder(names[|names| - 1], SortedAll(names[..|names| - 1]));
      Insert(names[|names| - 1], SortedAll(names[..|names| - 1]))
  }
}
