/** The annotation that says which startup flags a pod was started with, and what differs between two. */
module Flags {
  import opened Text
  import opened Settings

  /* ---- Lines ---- */

  function IndexOf(s: string, c: char): (i: nat)
    ensures i <= |s| && c !in s[..i] && (i < |s| ==> s[i] == c)
  {
    if s == "" || s[0] == c then 0
    else
      var i := IndexOf(s[1..], c);
      assert s[..i + 1] == [s[0]] + s[1..][..i];
      i + 1
  }

  lemma FirstIndex(before: string, c: char, after: string)
    requires c !in before
    ensures IndexOf(before + [c] + after, c) == |before|
  {
    var s := before + [c] + after;
    var i := IndexOf(s, c);
    assert s[|before|] == c;
    assert forall k :: 0 <= k < |before| ==> s[k] == before[k] && before[k] in before;
    assert forall k :: 0 <= k < i ==> s[k] in s[..i];
  }

  function Lines(s: string): (lines: seq<string>)
    decreases |s|
  {
    var i := IndexOf(s, '\n');
    if i == |s| then [s] else [s[..i]] + Lines(s[i + 1..])
  }

  /* ---- The annotation ---- */

  /** A digest of a flag's value: SHA-256 is not part of this model, only that the text is neither
      empty nor broken over lines. */
  type Digest = string -> string

  ghost predicate ValidDigest(digest: Digest) {
    forall v :: digest(v) != "" && '\n' !in digest(v)
  }

  /** A key a flag file can hold. */
  predicate ValidKey(key: string) { key != "" && '=' !in key && '\n' !in key }

  function Line(key: string, digest: string): string { key + "=" + digest + "\n" }

  function Entry(table: Table, digest: Digest, key: string, value: string): string {
    if IsRuntime(table, key) then "" else Line(key, digest(value))
  }

  function Rendered(table: Table, digest: Digest, flags: map<string, string>, keys: seq<string>): string {
    if keys == [] then ""
    else Entry(table, digest, keys[0], Get(flags, keys[0])) + Rendered(table, digest, flags, keys[1..])
  }

  function DigestsOf(table: Table, digest: Digest, flags: map<string, string>): string {
    Rendered(table, digest, flags, Sorted(flags.Keys))
  }

  lemma {:induction false} RenderedConcat(table: Table, digest: Digest, flags: map<string, string>, a: seq<string>, b: seq<string>)
    ensures Rendered(table, digest, flags, a + b) == Rendered(table, digest, flags, a) + Rendered(table, digest, flags, b)
  {
    if a == [] {
      assert a + b == b;
    } else {
      assert (a + b)[1..] == a[1..] + b;
      RenderedConcat(table, digest, flags, a[1..], b);
      var first, rest, last := Entry(table, digest, a[0], Get(flags, a[0])), Rendered(table, digest, flags, a[1..]), Rendered(table, digest, flags, b);
      assert first + (rest + last) == (first + rest) + last;
    }
  }

  lemma RenderedNext(table: Table, digest: Digest, flags: map<string, string>, keys: seq<string>, i: nat)
    requires i < |keys|
    ensures Rendered(table, digest, flags, keys[..i + 1]) ==
              Rendered(table, digest, flags, keys[..i]) + Entry(table, digest, keys[i], Get(flags, keys[i]))
  {
    assert keys[..i + 1] == keys[..i] + [keys[i]];
    RenderedConcat(table, digest, flags, keys[..i], [keys[i]]);
    assert [keys[i]][1..] == [];
    assert Rendered(table, digest, flags, [keys[i]]) == Entry(table, digest, keys[i], Get(flags, keys[i])) + "";
  }

  method FlagsDigests(table: Table, digest: Digest, flags: map<string, string>) returns (annotation: string)
    ensures annotation == DigestsOf(table, digest, flags)
  {
    var keys := Sorted(flags.Keys);
    assert forall k :: k in keys ==> k in flags.Keys;
    annotation := "";
    for i := 0 to |keys|
      invariant annotation == Rendered(table, digest, flags, keys[..i])
    {
      RenderedNext(table, digest, flags, keys, i);
      if !IsRuntime(table, keys[i]) {
        annotation := annotation + Line(keys[i], digest(flags[keys[i]]));
      }
    }
    assert keys[..|keys|] == keys;
  }

  function Parsed(lines: seq<string>): map<string, string> {
    if lines == [] then map[]
    else
      var line := lines[|lines| - 1];
      var i := IndexOf(line, '=');
      var before := Parsed(lines[..|lines| - 1]);
      if i < |line| && i > 0 then before[line[..i] := line[i + 1..]] else before
  }

  method ParseFlagsDigests(annotation: string) returns (digests: map<string, string>)
    ensures digests == Parsed(Lines(annotation))
  {
    var lines := Lines(annotation);
    digests := map[];
    for k := 0 to |lines|
      invariant digests == Parsed(lines[..k])
    {
      assert lines[..k + 1][..k] == lines[..k];
      var i := IndexOf(lines[k], '=');
      if i < |lines[k]| && lines[k][..i] != "" {
        digests := digests[lines[k][..i] := lines[k][i + 1..]];
      }
    }
    assert lines[..|lines|] == lines;
  }

  /* ---- What is read off any text ---- */

  function Joined(lines: seq<string>): string
    requires lines != []
  {
    if |lines| == 1 then lines[0] else lines[0] + "\n" + Joined(lines[1..])
  }

  lemma JoinedOne(first: string, rest: seq<string>)
    requires rest != []
    ensures Joined([first] + rest) == first + "\n" + Joined(rest)
  {
    assert ([first] + rest)[1..] == rest;
  }

  lemma CutAt(s: string, i: nat)
    requires i < |s|
    ensures s == s[..i] + [s[i]] + s[i + 1..]
  {
  }

  /** The lines are the text between the line breaks. */
  lemma {:induction false} LinesExactly(s: string)
    ensures Lines(s) != [] && Joined(Lines(s)) == s
    ensures forall k :: 0 <= k < |Lines(s)| ==> '\n' !in Lines(s)[k]
    decreases |s|
  {
    var i := IndexOf(s, '\n');
    if i < |s| {
      LinesExactly(s[i + 1..]);
      CutAt(s, i);
      JoinedOne(s[..i], Lines(s[i + 1..]));
    } else {
      assert s[..i] == s;
    }
  }

  /** The line gives the key this digest: everything up to the first equals sign, and everything after. */
  ghost predicate Gives(line: string, key: string, digest: string) {
    key != "" && '=' !in key && line == key + "=" + digest
  }

  ghost predicate GivesSome(line: string, key: string) { exists digest :: Gives(line, key, digest) }

  lemma GivenIsCut(line: string, key: string, digest: string)
    requires Gives(line, key, digest)
    ensures IndexOf(line, '=') == |key| < |line| && line[..|key|] == key && line[|key| + 1..] == digest
  {
    assert line == key + ['='] + digest;
    FirstIndex(key, '=', digest);
  }

  lemma CutIsGiven(line: string)
    ensures var i := IndexOf(line, '='); 0 < i < |line| ==> Gives(line, line[..i], line[i + 1..])
  {
    var i := IndexOf(line, '=');
    if i < |line| {
      CutAt(line, i);
    }
  }

  /** The last line that gives the key a digest gives it this one. */
  ghost predicate LastGives(lines: seq<string>, key: string, digest: string) {
    exists i :: 0 <= i < |lines| && Gives(lines[i], key, digest) && NoneGives(lines[i + 1..], key)
  }

  ghost predicate NoneGives(lines: seq<string>, key: string) { forall l :: l in lines ==> !GivesSome(l, key) }

  lemma LastLineGives(shorter: seq<string>, last: string, key: string, digest: string)
    ensures LastGives(shorter + [last], key, digest) <==>
              Gives(last, key, digest) || (!GivesSome(last, key) && LastGives(shorter, key, digest))
  {
    var lines := shorter + [last];
    if Gives(last, key, digest) {
      assert lines[|shorter|] == last && lines[|shorter| + 1..] == [];
    } else if !GivesSome(last, key) && LastGives(shorter, key, digest) {
      var i :| 0 <= i < |shorter| && Gives(shorter[i], key, digest) && NoneGives(shorter[i + 1..], key);
      assert lines[i] == shorter[i] && lines[i + 1..] == shorter[i + 1..] + [last];
    }
    if LastGives(lines, key, digest) && !Gives(last, key, digest) {
      var i :| 0 <= i < |lines| && Gives(lines[i], key, digest) && NoneGives(lines[i + 1..], key);
      assert last in lines[i + 1..];
      var rest := shorter[i + 1..];
      assert shorter[i] == lines[i] && lines[i + 1..] == rest + [last];
      assert forall l :: l in rest ==> l in rest + [last];
    }
  }

  /** A key has the digest of the last line that gives it one; a line without a key, or without an equals
      sign, gives none. */
  lemma {:induction false} ParsedExactly(lines: seq<string>, key: string, digest: string)
    ensures key in Parsed(lines) && Parsed(lines)[key] == digest <==> LastGives(lines, key, digest)
  {
    if lines != [] {
      var shorter, last := lines[..|lines| - 1], lines[|lines| - 1];
      assert lines == shorter + [last];
      ParsedExactly(shorter, key, digest);
      LastLineGives(shorter, last, key, digest);
      LastLineParses(last, key, digest);
    }
  }

  lemma LastLineParses(line: string, key: string, digest: string)
    ensures var i := IndexOf(line, '=');
      && (Gives(line, key, digest) <==> 0 < i < |line| && key == line[..i] && digest == line[i + 1..])
      && (GivesSome(line, key) <==> 0 < i < |line| && key == line[..i])
  {
    CutIsGiven(line);
    if d :| Gives(line, key, d) {
      GivenIsCut(line, key, d);
    }
    if Gives(line, key, digest) {
      GivenIsCut(line, key, digest);
    }
  }

  /* ---- Round trip ---- */

  /** What an annotation is meant to say: the startup flags, each with its digest. */
  function Startup(table: Table, digest: Digest, flags: map<string, string>): map<string, string> {
    map k | k in flags && !IsRuntime(table, k) :: digest(flags[k])
  }

  function StartupOf(table: Table, digest: Digest, flags: map<string, string>, keys: seq<string>): map<string, string>
    requires forall k :: k in keys ==> k in flags
  {
    map k | k in keys && !IsRuntime(table, k) :: digest(flags[k])
  }

  lemma {:induction false} ParsedConcat(a: seq<string>, b: seq<string>)
    ensures Parsed(a + b) == Parsed(a) + Parsed(b)
  {
    if b == [] {
      assert a + b == a;
    } else {
      assert (a + b)[..|a + b| - 1] == a + b[..|b| - 1];
      ParsedConcat(a, b[..|b| - 1]);
    }
  }

  lemma LineFirst(key: string, digest: string, rest: string)
    requires ValidKey(key) && '\n' !in digest
    ensures Lines(Line(key, digest) + rest) == [key + "=" + digest] + Lines(rest)
  {
    var line := key + "=" + digest;
    assert Line(key, digest) + rest == line + ['\n'] + rest;
    FirstIndex(line, '\n', rest);
    assert (line + ['\n'] + rest)[..|line|] == line;
    assert (line + ['\n'] + rest)[|line| + 1..] == rest;
  }

  lemma LineParses(key: string, digest: string)
    requires ValidKey(key)
    ensures Parsed([key + "=" + digest]) == map[key := digest]
  {
    var line := key + "=" + digest;
    assert line == key + ['='] + digest;
    FirstIndex(key, '=', digest);
    assert line[..|key|] == key && line[|key| + 1..] == digest;
    assert Parsed([line][..0]) == map[];
  }

  lemma {:induction false} RenderedParses(table: Table, digest: Digest, flags: map<string, string>, keys: seq<string>)
    requires forall k :: k in keys ==> k in flags && ValidKey(k)
    requires forall i, j :: 0 <= i < j < |keys| ==> keys[i] != keys[j]
    requires ValidDigest(digest)
    ensures Parsed(Lines(Rendered(table, digest, flags, keys))) == StartupOf(table, digest, flags, keys)
    decreases |keys|
  {
    if keys == [] {
      assert Lines("") == [""];
      assert Parsed([""][..0]) == map[];
      assert Parsed([""]) == map[];
    } else {
      RenderedParses(table, digest, flags, keys[1..]);
      FirstEntryParses(table, digest, keys[0], flags[keys[0]], Rendered(table, digest, flags, keys[1..]));
      FirstIsStartup(table, digest, flags, keys);
    }
  }

  lemma FirstIsStartup(table: Table, digest: Digest, flags: map<string, string>, keys: seq<string>)
    requires keys != [] && (forall k :: k in keys ==> k in flags) && (forall i, j :: 0 <= i < j < |keys| ==> keys[i] != keys[j])
    ensures StartupOf(table, digest, flags, keys) ==
              (if IsRuntime(table, keys[0]) then map[] else map[keys[0] := digest(flags[keys[0]])]) + StartupOf(table, digest, flags, keys[1..])
  {
    assert forall k :: k in keys <==> k == keys[0] || k in keys[1..];
  }

  lemma FirstEntryParses(table: Table, digest: Digest, key: string, value: string, rest: string)
    requires ValidKey(key) && ValidDigest(digest)
    ensures Parsed(Lines(Entry(table, digest, key, value) + rest)) ==
              (if IsRuntime(table, key) then map[] else map[key := digest(value)]) + Parsed(Lines(rest))
  {
    if IsRuntime(table, key) {
      assert "" + rest == rest;
    } else {
      LineFirst(key, digest(value), rest);
      LineParses(key, digest(value));
      ParsedConcat([key + "=" + digest(value)], Lines(rest));
    }
  }

  /** Parsing a rendered annotation gives back precisely the startup flags with their digests. */
  lemma AnnotationRoundTrips(table: Table, digest: Digest, flags: map<string, string>)
    requires ValidDigest(digest) && forall k :: k in flags ==> ValidKey(k)
    ensures Parsed(Lines(DigestsOf(table, digest, flags))) == Startup(table, digest, flags)
  {
    assert forall k :: k in Sorted(flags.Keys) <==> k in flags.Keys;
    forall i, j | 0 <= i < j < |Sorted(flags.Keys)| ensures Sorted(flags.Keys)[i] != Sorted(flags.Keys)[j] {
      LessIsIrreflexive(Sorted(flags.Keys)[i]);
    }
    RenderedParses(table, digest, flags, Sorted(flags.Keys));
  }

  function EntryLines(digest: Digest, flags: map<string, string>, kept: seq<string>): seq<string> {
    if kept == [] then [""] else [kept[0] + "=" + digest(Get(flags, kept[0]))] + EntryLines(digest, flags, kept[1..])
  }

  /** The text of an annotation, line by line: each startup flag's key and digest, and nothing else. */
  lemma {:induction false} RenderedLines(table: Table, digest: Digest, flags: map<string, string>, keys: seq<string>)
    requires (forall k :: k in keys ==> k in flags && ValidKey(k)) && ValidDigest(digest)
    ensures Lines(Rendered(table, digest, flags, keys)) == EntryLines(digest, flags, StartupKeys(table, keys))
    decreases |keys|
  {
    if keys == [] {
      assert Lines("") == [""];
    } else {
      RenderedLines(table, digest, flags, keys[1..]);
      FirstRenderedLine(table, digest, flags, keys);
    }
  }

  lemma FirstRenderedLine(table: Table, digest: Digest, flags: map<string, string>, keys: seq<string>)
    requires keys != [] && keys[0] in flags && ValidKey(keys[0]) && ValidDigest(digest)
    requires Lines(Rendered(table, digest, flags, keys[1..])) == EntryLines(digest, flags, StartupKeys(table, keys[1..]))
    ensures Lines(Rendered(table, digest, flags, keys)) == EntryLines(digest, flags, StartupKeys(table, keys))
  {
    var text, rest := Rendered(table, digest, flags, keys[1..]), StartupKeys(table, keys[1..]);
    if IsRuntime(table, keys[0]) {
      assert "" + text == text && [] + rest == rest;
    } else {
      LineFirst(keys[0], digest(flags[keys[0]]), text);
      assert ([keys[0]] + rest)[1..] == rest;
    }
  }

  /** A change to run-time flags alone, whichever are added, dropped or given another value, leaves the
      annotation as it is, to the letter. */
  lemma RunTimeFlagsNeverShow(table: Table, digest: Digest, flags: map<string, string>, changed: map<string, string>)
    requires forall k :: !IsRuntime(table, k) ==> (k in flags <==> k in changed) && (k in flags ==> flags[k] == changed[k])
    ensures DigestsOf(table, digest, flags) == DigestsOf(table, digest, changed)
  {
    var both := flags.Keys + changed.Keys;
    assert forall k :: k in Sorted(flags.Keys) <==> k in flags.Keys;
    assert forall k :: k in Sorted(changed.Keys) <==> k in changed.Keys;
    OnlyStartup(table, digest, flags, Sorted(flags.Keys));
    OnlyStartup(table, digest, changed, Sorted(changed.Keys));
    StartupKeysAscend(table, Sorted(flags.Keys));
    StartupKeysAscend(table, Sorted(changed.Keys));
    var a, b := StartupKeys(table, Sorted(flags.Keys)), StartupKeys(table, Sorted(changed.Keys));
    AscendingIsUnique(a, b);
    SameRendering(table, digest, flags, changed, a);
  }

  function StartupKeys(table: Table, keys: seq<string>): (kept: seq<string>)
    ensures forall k :: k in kept <==> k in keys && !IsRuntime(table, k)
  {
    if keys == [] then []
    else (if IsRuntime(table, keys[0]) then [] else [keys[0]]) + StartupKeys(table, keys[1..])
  }

  lemma {:induction false} StartupKeysAscend(table: Table, keys: seq<string>)
    requires Ascending(keys)
    ensures Ascending(StartupKeys(table, keys))
  {
    if keys != [] {
      StartupKeysAscend(table, keys[1..]);
      var rest := StartupKeys(table, keys[1..]);
      forall i | 0 <= i < |rest| ensures Less(keys[0], rest[i]) {
        assert rest[i] in rest;
        var j :| 0 <= j < |keys[1..]| && keys[1..][j] == rest[i];
        assert keys[j + 1] == rest[i];
      }
    }
  }

  lemma {:induction false} OnlyStartup(table: Table, digest: Digest, flags: map<string, string>, keys: seq<string>)
    ensures Rendered(table, digest, flags, keys) == Rendered(table, digest, flags, StartupKeys(table, keys))
  {
    if keys != [] {
      OnlyStartup(table, digest, flags, keys[1..]);
      var rest := StartupKeys(table, keys[1..]);
      if IsRuntime(table, keys[0]) {
        assert StartupKeys(table, keys) == rest;
      } else {
        assert StartupKeys(table, keys) == [keys[0]] + rest;
        assert ([keys[0]] + rest)[1..] == rest;
      }
    }
  }

  lemma {:induction false} SameRendering(table: Table, digest: Digest, f: map<string, string>, g: map<string, string>, keys: seq<string>)
    requires forall k :: k in keys ==> k in f && k in g && f[k] == g[k]
    ensures Rendered(table, digest, f, keys) == Rendered(table, digest, g, keys)
  {
    if keys != [] {
      SameRendering(table, digest, f, g, keys[1..]);
    }
  }

  /* ---- What differs between two annotations ---- */

  function Changed(old_: map<string, string>, current: map<string, string>): set<string> {
    (set k | k in current && Get(old_, k) != current[k]) + (set k | k in old_ && k !in current)
  }

  method ChangedFlags(before: string, after: string) returns (keys: seq<string>)
    ensures keys == Sorted(Changed(Parsed(Lines(before)), Parsed(Lines(after))))
  {
    var old_ := ParseFlagsDigests(before);
    var current := ParseFlagsDigests(after);
    var changed: set<string> := {};
    var left := current.Keys;
    while left != {}
      invariant left <= current.Keys
      invariant forall k :: k in changed <==> k in current && k !in left && Get(old_, k) != current[k]
      decreases |left|
    {
      var key :| key in left;
      left := left - {key};
      if Get(old_, key) != current[key] {
        changed := changed + {key};
      }
    }
    ghost var redigested := changed;
    left := old_.Keys;
    while left != {}
      invariant left <= old_.Keys
      invariant forall k :: k in changed <==> k in redigested || (k in old_ && k !in left && k !in current)
      decreases |left|
    {
      var key :| key in left;
      left := left - {key};
      if key !in current {
        changed := changed + {key};
      }
    }
    assert changed == Changed(old_, current);
    keys := Sorted(changed);
  }

  /** A key is changed when only the one before has it, when only the one after does and gives it a digest,
      or when the two digest it differently. */
  lemma ChangedReads(before: map<string, string>, after: map<string, string>, key: string)
    ensures key in Changed(before, after) <==>
              || (key in before && key !in after)
              || (key in after && key !in before && after[key] != "")
              || (key in before && key in after && before[key] != after[key])
  {
  }

  /** A startup flag one of the two has and the other does not, or that they digest differently. */
  ghost predicate Differs(table: Table, digest: Digest, f: map<string, string>, g: map<string, string>, key: string) {
    !IsRuntime(table, key)
    && ((key in f && key !in g) || (key !in f && key in g) || (key in f && key in g && digest(f[key]) != digest(g[key])))
  }

  /** The keys reported changed between two rendered annotations are precisely the startup flags added,
      removed or given a value with another digest. */
  lemma ChangedExactly(table: Table, digest: Digest, f: map<string, string>, g: map<string, string>, key: string)
    requires ValidDigest(digest) && (forall k :: k in f ==> ValidKey(k)) && (forall k :: k in g ==> ValidKey(k))
    ensures var changed := Changed(Parsed(Lines(DigestsOf(table, digest, f))), Parsed(Lines(DigestsOf(table, digest, g))));
      key in changed <==> Differs(table, digest, f, g, key)
  {
    AnnotationRoundTrips(table, digest, f);
    AnnotationRoundTrips(table, digest, g);
  }
}
