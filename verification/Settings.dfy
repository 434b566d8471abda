/** Which flags Memgraph changes on a running instance, and the SETs that bring an instance's settings
    in line. */
module Settings {
  import opened Text

  /** Each run-time flag, by its canonical name, with the setting it is changed through. */
  type Table = map<string, string>

  const LICENSE_SETTING := "enterprise.license"
  const ORGANIZATION_SETTING := "organization.name"
  const AWS_SETTINGS := {"aws.access_key", "aws.secret_key", "aws.region", "aws.endpoint_url"}
  const SECRET_SETTINGS := AWS_SETTINGS + {LICENSE_SETTING, ORGANIZATION_SETTING}

  /** A name missing from a view reads as the empty string. */
  function Get(observed: map<string, string>, setting: string): string {
    if setting in observed then observed[setting] else ""
  }

  /** The setting is reported, at this value. */
  predicate Reports(observed: map<string, string>, setting: string, value: string) {
    setting in observed && observed[setting] == value
  }

  /* ---- Flag names ---- */

  function TrimDashes(flag: string): string {
    if flag != "" && flag[0] == '-' then TrimDashes(flag[1..]) else flag
  }

  function Underscored(flag: string): (spelled: string)
    ensures |spelled| == |flag|
    ensures forall i :: 0 <= i < |flag| ==> spelled[i] == if flag[i] == '-' then '_' else flag[i]
  {
    seq(|flag|, i requires 0 <= i < |flag| => if flag[i] == '-' then '_' else flag[i])
  }

  /** The canonical spelling of a flag name. */
  function Normalize(flag: string): string { Underscored(TrimDashes(flag)) }

  lemma {:induction false} NormalizeSettles(flag: string)
    ensures '-' !in Normalize(flag) && Normalize(Normalize(flag)) == Normalize(flag)
  {
    var n := Normalize(flag);
    assert TrimDashes(n) == n;
    assert Underscored(n) == n;
  }

  /** However many leading dashes, and whichever of hyphen and underscore: one flag. */
  lemma {:induction false} SpellingsAreOneFlag(dashes: string, flag: string, spelled: string)
    requires forall c :: c in dashes ==> c == '-'
    requires flag != "" && flag[0] != '-' && spelled != "" && spelled[0] != '-'
    requires Underscored(spelled) == Underscored(flag)
    ensures Normalize(dashes + spelled) == Normalize(flag)
  {
    if dashes == "" {
      assert dashes + spelled == spelled;
    } else {
      assert dashes[0] in dashes && (dashes + spelled)[1..] == dashes[1..] + spelled;
      assert forall c :: c in dashes[1..] ==> c in dashes;
      SpellingsAreOneFlag(dashes[1..], flag, spelled);
    }
  }

  /** The canonical name, character by character: the dashes in front go, hyphens become underscores, and
      every other character stays. */
  lemma {:induction false} NormalizeExactly(dashes: string, name: string)
    requires (forall c :: c in dashes ==> c == '-') && (name == "" || name[0] != '-')
    ensures var n := Normalize(dashes + name);
      |n| == |name| && forall i :: 0 <= i < |n| ==> n[i] == if name[i] == '-' then '_' else name[i]
  {
    if dashes == "" {
      assert dashes + name == name;
    } else {
      assert dashes[0] in dashes && (dashes + name)[1..] == dashes[1..] + name;
      assert forall c :: c in dashes[1..] ==> c in dashes;
      NormalizeExactly(dashes[1..], name);
    }
  }

  /** The setting a flag is changed through on a running instance, if it is. */
  function Setting(table: Table, flag: string): Option<string> {
    if Normalize(flag) in table then Some(table[Normalize(flag)]) else None
  }

  /** A flag of the table is found under every spelling of it. */
  lemma SpellingsReachTheSetting(table: Table, dashes: string, spelled: string, key: string)
    requires (forall c :: c in dashes ==> c == '-') && spelled != "" && spelled[0] != '-' && |spelled| == |key|
    requires forall i :: 0 <= i < |key| ==> key[i] == if spelled[i] == '-' then '_' else spelled[i]
    ensures Setting(table, dashes + spelled) == if key in table then Some(table[key]) else None
  {
    NormalizeExactly(dashes, spelled);
    assert Normalize(dashes + spelled) == key;
  }

  predicate IsRuntime(table: Table, flag: string) { Setting(table, flag).Some? }

  /** What is relied on of the table: no two flags share a setting, and none has one that comes from a
      Secret. */
  ghost predicate ValidTable(table: Table) {
    && (forall f, g :: f in table && g in table && table[f] == table[g] ==> f == g)
    && (forall f :: f in table ==> table[f] !in SECRET_SETTINGS)
  }

  /* ---- A role's flags ---- */

  /** Of the spellings of one flag, the last one in the keys' order. */
  ghost predicate Wins(keys: set<string>, k: string) {
    k in keys && forall l :: l in keys && Normalize(l) == Normalize(k) ==> l == k || Less(l, k)
  }

  ghost predicate Won(keys: set<string>, name: string) { exists k :: Wins(keys, k) && Normalize(k) == name }

  /** Every flag these keys spell, canonically spelled and at the value of its last spelling, over the
      defaults they do not mention. */
  ghost predicate IsMerged(merged: map<string, string>, defaults: map<string, string>, flags: map<string, string>, keys: set<string>) {
    && (forall k :: Wins(keys, k) ==> Reports(merged, Normalize(k), Get(flags, k)))
    && (forall n :: n in merged <==> n in defaults || Won(keys, n))
    && (forall n :: n in defaults && !Won(keys, n) ==> Reports(merged, n, defaults[n]))
  }

  lemma OneMoreWins(keys: set<string>, key: string, k: string)
    requires forall l :: l in keys ==> Less(l, key)
    ensures Wins(keys + {key}, k) <==> k == key || (Wins(keys, k) && Normalize(k) != Normalize(key))
  {
    if Wins(keys + {key}, k) && k != key && Normalize(k) == Normalize(key) {
      assert key in keys + {key} && Less(key, k) && Less(k, key);
      LessIsTransitive(key, k, key);
      LessIsIrreflexive(key);
    }
    if Wins(keys + {key}, k) && k != key {
      forall l | l in keys && Normalize(l) == Normalize(k) ensures l == k || Less(l, k) {
        assert l in keys + {key};
      }
    }
  }

  lemma OneMoreWon(keys: set<string>, key: string, n: string)
    requires forall l :: l in keys ==> Less(l, key)
    ensures Won(keys + {key}, n) <==> Won(keys, n) || n == Normalize(key)
  {
    OneMoreWins(keys, key, key);
    if n != Normalize(key) {
      if k :| Wins(keys, k) && Normalize(k) == n {
        OneMoreWins(keys, key, k);
      }
      if k :| Wins(keys + {key}, k) && Normalize(k) == n {
        OneMoreWins(keys, key, k);
      }
    }
  }

  lemma NextKey(merged: map<string, string>, defaults: map<string, string>, flags: map<string, string>, keys: set<string>, key: string)
    requires IsMerged(merged, defaults, flags, keys) && forall l :: l in keys ==> Less(l, key)
    ensures IsMerged(merged[Normalize(key) := Get(flags, key)], defaults, flags, keys + {key})
  {
    var more := merged[Normalize(key) := Get(flags, key)];
    forall k | Wins(keys + {key}, k) ensures Reports(more, Normalize(k), Get(flags, k)) {
      OneMoreWins(keys, key, k);
    }
    forall n ensures n in more <==> n in defaults || Won(keys + {key}, n) {
      OneMoreWon(keys, key, n);
    }
    forall n | n in defaults && !Won(keys + {key}, n) ensures Reports(more, n, defaults[n]) {
      OneMoreWon(keys, key, n);
    }
  }

  /** Every flag that is spelled has a last spelling. */
  lemma {:induction false} EveryFlagIsWon(keys: set<string>, key: string)
    requires key in keys
    ensures Won(keys, Normalize(key))
    decreases keys
  {
    if l :| l in keys && l != key && Normalize(l) == Normalize(key) {
      var fewer := keys - {key};
      EveryFlagIsWon(fewer, l);
      var k :| Wins(fewer, k) && Normalize(k) == Normalize(key);
      LastOfTwo(keys, key, k);
    } else {
      assert Wins(keys, key);
    }
  }

  lemma LastOfTwo(keys: set<string>, key: string, k: string)
    requires key in keys && Wins(keys - {key}, k) && Normalize(k) == Normalize(key)
    ensures Wins(keys, k) || Wins(keys, key)
  {
    LessIsTotal(k, key);
    if Less(key, k) {
      forall l | l in keys && Normalize(l) == Normalize(k) ensures l == k || Less(l, k) {
        assert l == key || l in keys - {key};
      }
    } else {
      forall l | l in keys && Normalize(l) == Normalize(key) ensures l == key || Less(l, key) {
        if l != key {
          assert l in keys - {key};
          if l != k {
            LessIsTransitive(l, k, key);
          }
        }
      }
    }
  }

  function First(keys: seq<string>, n: nat): set<string>
    requires n <= |keys|
  {
    set k | k in keys[..n]
  }

  method RoleFlags(defaults: map<string, string>, flags: map<string, string>) returns (merged: map<string, string>)
    ensures IsMerged(merged, defaults, flags, flags.Keys)
  {
    var keys := Sorted(flags.Keys);
    assert First(keys, |keys|) == flags.Keys;
    merged := defaults;
    for i := 0 to |keys|
      invariant IsMerged(merged, defaults, flags, First(keys, i))
    {
      assert First(keys, i + 1) == First(keys, i) + {keys[i]};
      NextKey(merged, defaults, flags, First(keys, i), keys[i]);
      assert keys[i] in First(keys, |keys|);
      merged := merged[Normalize(keys[i]) := flags[keys[i]]];
    }
  }

  /** No two flags are changed through one setting. */
  ghost predicate Unambiguous(table: Table, flags: map<string, string>) {
    forall k, l :: k in flags && l in flags && Setting(table, k).Some? && Setting(table, k) == Setting(table, l) ==> k == l
  }

  /** A role's merged flags never are ambiguous, however the spec spells them. */
  lemma MergedIsUnambiguous(table: Table, merged: map<string, string>, defaults: map<string, string>, flags: map<string, string>)
    requires ValidTable(table) && (forall n :: n in defaults ==> Normalize(n) == n)
    requires IsMerged(merged, defaults, flags, flags.Keys)
    ensures Unambiguous(table, merged)
  {
    forall n | n in merged ensures Normalize(n) == n {
      if n !in defaults {
        var k :| Wins(flags.Keys, k) && Normalize(k) == n;
        NormalizeSettles(k);
      }
    }
  }

  /* ---- SETs ---- */

  datatype Change = Change(setting: string, value: string)

  function Differing(desired: map<string, string>, observed: map<string, string>, names: seq<string>): seq<Change> {
    if names == [] then []
    else
      var n := names[|names| - 1];
      Differing(desired, observed, names[..|names| - 1])
      + if Reports(observed, n, Get(desired, n)) then [] else [Change(n, Get(desired, n))]
  }

  function DiffOf(desired: map<string, string>, observed: map<string, string>): seq<Change> {
    Differing(desired, observed, Sorted(desired.Keys))
  }

  method Diff(desired: map<string, string>, observed: map<string, string>) returns (changes: seq<Change>)
    ensures changes == DiffOf(desired, observed)
  {
    changes := DiffNames(desired, observed, Sorted(desired.Keys));
  }

  method DiffNames(desired: map<string, string>, observed: map<string, string>, names: seq<string>) returns (changes: seq<Change>)
    ensures changes == Differing(desired, observed, names)
  {
    changes := [];
    for i := 0 to |names|
      invariant changes == Differing(desired, observed, names[..i])
    {
      assert names[..i + 1][..i] == names[..i];
      var value := Get(desired, names[i]);
      if !(names[i] in observed && observed[names[i]] == value) {
        changes := changes + [Change(names[i], value)];
      }
    }
    assert names[..|names|] == names;
  }

  ghost predicate InSettingOrder(changes: seq<Change>) {
    forall i, j :: 0 <= i < j < |changes| ==> Less(changes[i].setting, changes[j].setting)
  }

  lemma {:induction false} DifferingExactly(desired: map<string, string>, observed: map<string, string>, names: seq<string>)
    requires forall n :: n in names ==> n in desired
    requires Ascending(names)
    ensures forall c :: c in Differing(desired, observed, names) <==>
              c.setting in names && c.value == desired[c.setting] && !Reports(observed, c.setting, c.value)
    ensures InSettingOrder(Differing(desired, observed, names))
  {
    if names != [] {
      var shorter, last := names[..|names| - 1], names[|names| - 1];
      DifferingExactly(desired, observed, shorter);
      assert forall n :: n in names <==> n in shorter || n == last;
      var before := Differing(desired, observed, shorter);
      forall i | 0 <= i < |before| ensures Less(before[i].setting, last) {
        assert before[i] in before;
        var k :| 0 <= k < |shorter| && shorter[k] == before[i].setting;
        assert names[k] == shorter[k];
      }
    }
  }

  /** Exactly the desired settings the instance does not report at their value, in setting order. */
  lemma DiffExactly(desired: map<string, string>, observed: map<string, string>)
    ensures forall c :: c in DiffOf(desired, observed) <==>
              && c.setting in desired && c.value == desired[c.setting]
              && (c.setting in observed ==> observed[c.setting] != c.value)
    ensures InSettingOrder(DiffOf(desired, observed))
    ensures DiffOf(desired, observed) == [] <==> forall s :: s in desired ==> s in observed && observed[s] == desired[s]
  {
    assert forall n :: n in Sorted(desired.Keys) <==> n in desired.Keys;
    DifferingExactly(desired, observed, Sorted(desired.Keys));
    var changes := DiffOf(desired, observed);
    if changes == [] {
      forall s | s in desired ensures Reports(observed, s, desired[s]) {
        assert Change(s, desired[s]) !in changes;
      }
    } else {
      assert changes[0] in changes;
    }
  }

  /** The settings the flags are changed through, at the flags' values. */
  function DesiredBy(table: Table, flags: map<string, string>): map<string, string>
    requires Unambiguous(table, flags)
  {
    map f | f in flags && Setting(table, f).Some? :: Setting(table, f).value := flags[f]
  }

  /** Each setting a flag is changed through, at the value of one of the flags that are changed through
      it; flags still left out may be missing. */
  ghost predicate DesiresWithout(table: Table, desired: map<string, string>, flags: map<string, string>, left: set<string>) {
    && (forall f :: f in flags && f !in left && Setting(table, f).Some? ==> Setting(table, f).value in desired)
    && (forall s :: s in desired ==> exists f :: f in flags && f !in left && Setting(table, f) == Some(s) && flags[f] == desired[s])
  }

  ghost predicate Desires(table: Table, desired: map<string, string>, flags: map<string, string>) {
    DesiresWithout(table, desired, flags, {})
  }

  lemma DesiresOneMore(table: Table, desired: map<string, string>, flags: map<string, string>, left: set<string>, flag: string)
    requires DesiresWithout(table, desired, flags, left) && flag in left && flag in flags
    ensures DesiresWithout(table,
                           if Setting(table, flag).Some? then desired[Setting(table, flag).value := flags[flag]] else desired,
                           flags, left - {flag})
  {
  }

  /** No choice is left when no two flags share a setting. */
  lemma DesiresAll(table: Table, desired: map<string, string>, flags: map<string, string>)
    requires Unambiguous(table, flags) && Desires(table, desired, flags)
    ensures desired == DesiredBy(table, flags)
  {
    forall s | s in desired ensures s in DesiredBy(table, flags) && DesiredBy(table, flags)[s] == desired[s] {
      var f :| f in flags && Setting(table, f) == Some(s) && flags[f] == desired[s];
    }
    forall s | s in DesiredBy(table, flags) ensures s in desired {
      var f :| f in flags && Setting(table, f) == Some(s);
    }
  }

  /** The flags an instance should run with, diffed against the settings it reports. Of two flags that
      are changed through one setting either may be visited last; without such flags the order does
      not matter. */
  method Plan(table: Table, flags: map<string, string>, observed: map<string, string>) returns (changes: seq<Change>)
    ensures exists desired :: Desires(table, desired, flags) && changes == DiffOf(desired, observed)
    ensures Unambiguous(table, flags) ==> changes == DiffOf(DesiredBy(table, flags), observed)
  {
    var desired: map<string, string> := map[];
    var left := flags.Keys;
    while left != {}
      invariant left <= flags.Keys && DesiresWithout(table, desired, flags, left)
      decreases |left|
    {
      var flag :| flag in left;
      DesiresOneMore(table, desired, flags, left, flag);
      left := left - {flag};
      var setting := Setting(table, flag);
      if setting.Some? {
        desired := desired[setting.value := flags[flag]];
      }
    }
    if Unambiguous(table, flags) {
      DesiresAll(table, desired, flags);
    }
    changes := Diff(desired, observed);
    assert Desires(table, desired, flags);
  }

  function LicenseChanges(license: string, organization: string, observed: map<string, string>): seq<Change> {
    (if Get(observed, ORGANIZATION_SETTING) != organization then [Change(ORGANIZATION_SETTING, organization)] else [])
    + if Get(observed, LICENSE_SETTING) != license then [Change(LICENSE_SETTING, license)] else []
  }

  method License(license: string, organization: string, observed: map<string, string>) returns (changes: seq<Change>)
    ensures changes == LicenseChanges(license, organization, observed)
    ensures forall c :: c in changes <==>
              || (c == Change(ORGANIZATION_SETTING, organization) && Get(observed, ORGANIZATION_SETTING) != organization)
              || (c == Change(LICENSE_SETTING, license) && Get(observed, LICENSE_SETTING) != license)
    ensures forall i, j :: 0 <= i < j < |changes| ==> changes[i].setting == ORGANIZATION_SETTING && changes[j].setting == LICENSE_SETTING
    ensures changes == [] <==> Get(observed, ORGANIZATION_SETTING) == organization && Get(observed, LICENSE_SETTING) == license
  {
    changes := [];
    if Get(observed, ORGANIZATION_SETTING) != organization {
      changes := changes + [Change(ORGANIZATION_SETTING, organization)];
    }
    if Get(observed, LICENSE_SETTING) != license {
      changes := changes + [Change(LICENSE_SETTING, license)];
    }
  }

  /* ---- What the running Memgraph says a key is ---- */

  datatype KeyClass = Flag | CoordinatorSetting | Unknown

  datatype Classification = Classification(flags: seq<string>, coordinatorSettings: seq<string>, unknown: seq<string>)

  /** Flags Memgraph leaves out of SHOW CONFIG. */
  predicate IsHidden(name: string) { name == "also_log_to_stderr" || name == "scheduler" }

  function ClassOf(key: string, config: map<string, string>, coordinatorSettings: map<string, string>): KeyClass {
    var name := Normalize(key);
    if IsHidden(name) || name in config then Flag
    else if name in coordinatorSettings then CoordinatorSetting
    else Unknown
  }

  function NamesOf(keys: seq<string>, class_: KeyClass, config: map<string, string>, coordinatorSettings: map<string, string>): seq<string> {
    if keys == [] then []
    else
      var key := keys[|keys| - 1];
      NamesOf(keys[..|keys| - 1], class_, config, coordinatorSettings)
      + if ClassOf(key, config, coordinatorSettings) == class_ then [Normalize(key)] else []
  }

  /** A flag of the running Memgraph: in SHOW CONFIG, or one of the two left out of it. */
  ghost predicate IsAFlag(name: string, config: map<string, string>) {
    name == "also_log_to_stderr" || name == "scheduler" || name in config
  }

  ghost predicate SpelledBy(keys: seq<string>, name: string) { exists k :: k in keys && Normalize(k) == name }

  /** The canonical names of the keys, each in the one list it belongs in, and each list sorted. */
  ghost predicate Classified(c: Classification, keys: seq<string>, config: map<string, string>, coordinatorSettings: map<string, string>) {
    && (forall n :: n in c.flags <==> SpelledBy(keys, n) && IsAFlag(n, config))
    && (forall n :: n in c.coordinatorSettings <==> SpelledBy(keys, n) && !IsAFlag(n, config) && n in coordinatorSettings)
    && (forall n :: n in c.unknown <==> SpelledBy(keys, n) && !IsAFlag(n, config) && n !in coordinatorSettings)
    && NonDescending(c.flags) && NonDescending(c.coordinatorSettings) && NonDescending(c.unknown)
    && |c.flags| + |c.coordinatorSettings| + |c.unknown| == |keys|
  }

  lemma ClassExactly(key: string, config: map<string, string>, coordinatorSettings: map<string, string>)
    ensures var n, class_ := Normalize(key), ClassOf(key, config, coordinatorSettings);
      && (class_ == Flag <==> IsAFlag(n, config))
      && (class_ == CoordinatorSetting <==> !IsAFlag(n, config) && n in coordinatorSettings)
      && (class_ == Unknown <==> !IsAFlag(n, config) && n !in coordinatorSettings)
  {
  }

  lemma {:induction false} NamesOfExactly(keys: seq<string>, class_: KeyClass, config: map<string, string>, coordinatorSettings: map<string, string>, n: string)
    ensures n in NamesOf(keys, class_, config, coordinatorSettings) <==>
              exists k :: k in keys && Normalize(k) == n && ClassOf(k, config, coordinatorSettings) == class_
  {
    if keys != [] {
      NamesOfExactly(keys[..|keys| - 1], class_, config, coordinatorSettings, n);
      assert forall k :: k in keys <==> k in keys[..|keys| - 1] || k == keys[|keys| - 1];
    }
  }

  lemma SortedNames(names: seq<string>)
    ensures SortedOf(SortedAll(names), names)
  {
    assert multiset(SortedAll(names)) == multiset(names);
    forall n ensures n in SortedAll(names) <==> n in names {
      assert n in SortedAll(names) <==> n in multiset(SortedAll(names));
      assert n in names <==> n in multiset(names);
    }
    SameLength(names);
  }

  lemma ClassifiedNames(keys: seq<string>, config: map<string, string>, coordinatorSettings: map<string, string>, n: string)
    ensures n in NamesOf(keys, Flag, config, coordinatorSettings) <==> SpelledBy(keys, n) && IsAFlag(n, config)
    ensures n in NamesOf(keys, CoordinatorSetting, config, coordinatorSettings) <==>
              SpelledBy(keys, n) && !IsAFlag(n, config) && n in coordinatorSettings
    ensures n in NamesOf(keys, Unknown, config, coordinatorSettings) <==>
              SpelledBy(keys, n) && !IsAFlag(n, config) && n !in coordinatorSettings
  {
    NamesOfExactly(keys, Flag, config, coordinatorSettings, n);
    NamesOfExactly(keys, CoordinatorSetting, config, coordinatorSettings, n);
    NamesOfExactly(keys, Unknown, config, coordinatorSettings, n);
    forall k | k in keys && Normalize(k) == n
      ensures (ClassOf(k, config, coordinatorSettings) == Flag <==> IsAFlag(n, config))
      ensures (ClassOf(k, config, coordinatorSettings) == CoordinatorSetting <==> !IsAFlag(n, config) && n in coordinatorSettings)
      ensures (ClassOf(k, config, coordinatorSettings) == Unknown <==> !IsAFlag(n, config) && n !in coordinatorSettings)
    {
      ClassExactly(k, config, coordinatorSettings);
    }
  }

  method Classify(keys: seq<string>, config: map<string, string>, coordinatorSettings: map<string, string>)
    returns (c: Classification)
    ensures Classified(c, keys, config, coordinatorSettings)
    ensures c.flags == [] <==> forall k :: k in keys ==> !IsAFlag(Normalize(k), config)
  {
    var flags: seq<string>, settings: seq<string>, unknown: seq<string> := [], [], [];
    for i := 0 to |keys|
      invariant flags == NamesOf(keys[..i], Flag, config, coordinatorSettings)
      invariant settings == NamesOf(keys[..i], CoordinatorSetting, config, coordinatorSettings)
      invariant unknown == NamesOf(keys[..i], Unknown, config, coordinatorSettings)
      invariant |flags| + |settings| + |unknown| == i
    {
      NamesOfNext(keys, i, Flag, config, coordinatorSettings);
      NamesOfNext(keys, i, CoordinatorSetting, config, coordinatorSettings);
      NamesOfNext(keys, i, Unknown, config, coordinatorSettings);
      var name := Normalize(keys[i]);
      if IsHidden(name) {
        flags := flags + [name];
      } else if name in config {
        flags := flags + [name];
      } else if name in coordinatorSettings {
        settings := settings + [name];
      } else {
        unknown := unknown + [name];
      }
    }
    assert keys[..|keys|] == keys;
    c := Classification(SortedAll(flags), SortedAll(settings), SortedAll(unknown));
    SortedNames(flags);
    SortedNames(settings);
    SortedNames(unknown);
    AllClassifiedNames(keys, config, coordinatorSettings);
    ClassificationHolds(c, keys, flags, settings, unknown, config, coordinatorSettings);
    NoFlags(c.flags, keys, config);
  }

  /** A sorted list of the same names. */
  ghost predicate SortedOf(sorted: seq<string>, names: seq<string>) {
    NonDescending(sorted) && |sorted| == |names| && forall n :: n in sorted <==> n in names
  }

  lemma ClassificationHolds(c: Classification, keys: seq<string>, flags: seq<string>, settings: seq<string>, unknown: seq<string>,
                            config: map<string, string>, coordinatorSettings: map<string, string>)
    requires SortedOf(c.flags, flags) && SortedOf(c.coordinatorSettings, settings) && SortedOf(c.unknown, unknown)
    requires forall n :: n in flags <==> SpelledBy(keys, n) && IsAFlag(n, config)
    requires forall n :: n in settings <==> SpelledBy(keys, n) && !IsAFlag(n, config) && n in coordinatorSettings
    requires forall n :: n in unknown <==> SpelledBy(keys, n) && !IsAFlag(n, config) && n !in coordinatorSettings
    requires |flags| + |settings| + |unknown| == |keys|
    ensures Classified(c, keys, config, coordinatorSettings)
  {
  }

  lemma AllClassifiedNames(keys: seq<string>, config: map<string, string>, coordinatorSettings: map<string, string>)
    ensures forall n :: n in NamesOf(keys, Flag, config, coordinatorSettings) <==> SpelledBy(keys, n) && IsAFlag(n, config)
    ensures forall n :: n in NamesOf(keys, CoordinatorSetting, config, coordinatorSettings) <==>
              SpelledBy(keys, n) && !IsAFlag(n, config) && n in coordinatorSettings
    ensures forall n :: n in NamesOf(keys, Unknown, config, coordinatorSettings) <==>
              SpelledBy(keys, n) && !IsAFlag(n, config) && n !in coordinatorSettings
  {
    forall n
      ensures n in NamesOf(keys, Flag, config, coordinatorSettings) <==> SpelledBy(keys, n) && IsAFlag(n, config)
      ensures n in NamesOf(keys, CoordinatorSetting, config, coordinatorSettings) <==>
                SpelledBy(keys, n) && !IsAFlag(n, config) && n in coordinatorSettings
      ensures n in NamesOf(keys, Unknown, config, coordinatorSettings) <==>
                SpelledBy(keys, n) && !IsAFlag(n, config) && n !in coordinatorSettings
    {
      ClassifiedNames(keys, config, coordinatorSettings, n);
    }
  }

  lemma NoFlags(flags: seq<string>, keys: seq<string>, config: map<string, string>)
    requires forall n :: n in flags <==> SpelledBy(keys, n) && IsAFlag(n, config)
    ensures flags == [] <==> forall k :: k in keys ==> !IsAFlag(Normalize(k), config)
  {
    HasMember(flags);
    if flags == [] {
      forall k | k in keys ensures !IsAFlag(Normalize(k), config) {
        assert SpelledBy(keys, Normalize(k));
      }
    }
  }

  lemma SameLength(names: seq<string>)
    ensures |SortedAll(names)| == |names|
  {
    assert |multiset(SortedAll(names))| == |multiset(names)|;
  }

  lemma NamesOfNext(keys: seq<string>, i: nat, class_: KeyClass, config: map<string, string>, coordinatorSettings: map<string, string>)
    requires i < |keys|
    ensures NamesOf(keys[..i + 1], class_, config, coordinatorSettings) ==
              NamesOf(keys[..i], class_, config, coordinatorSettings)
              + if ClassOf(keys[i], config, coordinatorSettings) == class_ then [Normalize(keys[i])] else []
  {
    assert keys[..i + 1][..i] == keys[..i];
  }
}
