/** Decimal integers as Go's strconv prints and parses them. */
module Decimal {
  import opened Text

  const MAX_INT32 := 0x7fff_ffff
  const MIN_INT32 := -0x8000_0000

  predicate IsDigit(c: char) { '0' <= c <= '9' }

  function DigitValue(c: char): nat
    requires IsDigit(c)
  {
    c as int - '0' as int
  }

  function DigitChar(d: nat): (c: char)
    requires d < 10
    ensures IsDigit(c) && DigitValue(c) == d
  {
    (d + '0' as int) as char
  }

  /** strconv.FormatInt in base 10, for the nonnegative numbers the operator prints. */
  function FormatInt(n: nat): (s: string)
    ensures s != [] && forall i :: 0 <= i < |s| ==> IsDigit(s[i])
  {
    if n < 10 then [DigitChar(n)] else FormatInt(n / 10) + [DigitChar(n % 10)]
  }

  function DigitsValue(s: string): nat
    requires forall i :: 0 <= i < |s| ==> IsDigit(s[i])
  {
    if s == [] then 0 else DigitsValue(s[..|s| - 1]) * 10 + DigitValue(s[|s| - 1])
  }

  /** strconv.ParseInt(s, 10, 32): an optional sign, at least one digit, and a value that fits. */
  function ParseInt32(s: string): Option<int> {
    var digits := if s != [] && (s[0] == '+' || s[0] == '-') then s[1..] else s;
    if digits == [] || exists i :: 0 <= i < |digits| && !IsDigit(digits[i]) then None
    else
      var value: int := if s[0] == '-' then 0 - DigitsValue(digits) else DigitsValue(digits);
      if MIN_INT32 <= value <= MAX_INT32 then Some(value) else None
  }

  lemma {:induction false} ValueOfFormat(n: nat)
    ensures DigitsValue(FormatInt(n)) == n
  {
    var s := FormatInt(n);
    if n >= 10 {
      ValueOfFormat(n / 10);
      assert s[..|s| - 1] == FormatInt(n / 10);
    } else {
      assert s[..|s| - 1] == [];
    }
  }

  /** Parsing what was printed gives the number back, exactly when it fits an int32. */
  lemma ParseOfFormat(n: nat)
    ensures ParseInt32(FormatInt(n)) == if n <= MAX_INT32 then Some(n) else None
  {
    ValueOfFormat(n);
  }

  /** Printing in base ten: a digit by itself, and a number of more digits as all but the last, then it. */
  lemma PrintsInTens(n: nat, d: nat)
    requires d < 10
    ensures FormatInt(d) == ["0123456789"[d]]
    ensures n > 0 ==> FormatInt(10 * n + d) == FormatInt(n) + ["0123456789"[d]]
  {
    assert "0123456789"[d] as int == '0' as int + d by {
      assert d == 0 || d == 1 || d == 2 || d == 3 || d == 4 || d == 5 || d == 6 || d == 7 || d == 8 || d == 9;
    }
    assert (10 * n + d) / 10 == n && (10 * n + d) % 10 == d;
  }

  /** A sign in front is read, and decides the range. */
  lemma SignedParse(n: nat)
    ensures ParseInt32("+" + FormatInt(n)) == if n <= MAX_INT32 then Some(n) else None
    ensures ParseInt32("-" + FormatInt(n)) == if n <= MAX_INT32 + 1 then Some((0 - n) as int) else None
  {
    ValueOfFormat(n);
    var digits := FormatInt(n);
    assert ("+" + digits)[1..] == digits && ("-" + digits)[1..] == digits;
  }

  lemma FormatIsInjective(m: nat, n: nat)
    requires FormatInt(m) == FormatInt(n)
    ensures m == n
  {
    ValueOfFormat(m);
    ValueOfFormat(n);
  }

  lemma HyphenBeforeDigits(a: string, m: nat)
    ensures var s := a + "-" + FormatInt(m);
      s[|a|] == '-' && forall i :: |a| < i < |s| ==> IsDigit(s[i])
  {
    var s := a + "-" + FormatInt(m);
    forall i | |a| < i < |s| ensures IsDigit(s[i]) {
      assert s[i] == FormatInt(m)[i - |a| - 1];
    }
  }

  /** A string splits in only one way at its last hyphen, when what follows it is a printed number. */
  lemma LastHyphenSplit(a: string, m: nat, b: string, n: nat)
    requires a + "-" + FormatInt(m) == b + "-" + FormatInt(n)
    ensures a == b && m == n
  {
    var s := a + "-" + FormatInt(m);
    HyphenBeforeDigits(a, m);
    HyphenBeforeDigits(b, n);
    assert a == s[..|a|] && b == s[..|b|];
    assert FormatInt(m) == s[|a| + 1..];
    FormatIsInjective(m, n);
  }
}
