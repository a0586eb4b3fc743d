/**
 * The few JavaScript string built-ins the dashboard relies on, stated over Dafny strings:
 * the `\s` class of a regular expression, `String.prototype.trim`, `String.prototype.includes`,
 * `Number(s)` restricted to decimal integers, and `String(n)` for an integer `n`.
 */
module JsText {
  import opened Wrappers

  /** The ECMAScript WhiteSpace and LineTerminator code points: exactly what `\s` matches
      and what `trim` strips. */
  predicate IsWhitespace(c: char) {
    || c == '\t' || c == '\n' || c == '\U{B}' || c == '\U{C}' || c == '\r' || c == ' '
    || c == '\U{A0}' || c == '\U{1680}' || ('\U{2000}' <= c <= '\U{200A}')
    || c == '\U{2028}' || c == '\U{2029}' || c == '\U{202F}' || c == '\U{205F}'
    || c == '\U{3000}' || c == '\U{FEFF}'
  }

  predicate IsBlank(s: string) {
    forall i | 0 <= i < |s| :: IsWhitespace(s[i])
  }

  /** Neither starts nor ends with whitespace: what `trim` leaves. */
  predicate Trimmed(s: string) {
    s == [] || (!IsWhitespace(s[0]) && !IsWhitespace(s[|s| - 1]))
  }

  predicate NoWhitespace(s: string) {
    forall i | 0 <= i < |s| :: !IsWhitespace(s[i])
  }

  /** `r` sits at offset `i` of `s`, only whitespace surrounds it, and it neither starts
      nor ends with whitespace: what `s.trim()` returns. */
  ghost predicate TrimAt(s: string, r: string, i: int) {
    && 0 <= i && i + |r| <= |s|
    && s[i..i + |r|] == r
    && IsBlank(s[..i]) && IsBlank(s[i + |r|..])
    && Trimmed(r)
  }

  ghost predicate TrimsTo(s: string, r: string) {
    exists i :: TrimAt(s, r, i)
  }

  /** `s.trim()`: leading and trailing whitespace removed. */
  function Trim(s: string): string {
    if s == [] then s
    else if IsWhitespace(s[0]) then Trim(s[1..])
    else if IsWhitespace(s[|s| - 1]) then Trim(s[..|s| - 1])
    else s
  }

  /** The trimmed text is no longer than the original, is empty exactly when the original
      is all whitespace, and neither starts nor ends with whitespace. */
  lemma {:induction false} TrimShape(s: string)
    ensures |Trim(s)| <= |s|
    ensures Trim(s) == [] <==> IsBlank(s)
    ensures Trimmed(Trim(s))
  {
    var r := Trim(s);
    var i := TrimWitness(s);
    assert |r| <= |s| && Trimmed(r);
    if r == [] {
      assert s == s[..i] + s[i..];
      BlankConcat(s[..i], s[i..]);
    } else {
      assert s[i] == r[0] && !IsWhitespace(s[i]);
      assert !IsBlank(s);
    }
  }

  /** `Trim` is exactly the slice that `TrimsTo` describes. */
  lemma TrimSpec(s: string)
    ensures TrimsTo(s, Trim(s))
    ensures forall r :: TrimsTo(s, r) ==> r == Trim(s)
  {
    var i := TrimWitness(s);
    forall r | TrimsTo(s, r) ensures r == Trim(s) {
      var j :| TrimAt(s, r, j);
      TrimAtUnique(s, r, j, Trim(s), i);
    }
  }

  /** The offset at which `Trim(s)` sits inside `s`. */
  lemma {:induction false} TrimWitness(s: string) returns (i: int)
    ensures TrimAt(s, Trim(s), i)
    decreases |s|
  {
    if s == [] {
      i := 0;
    } else if IsWhitespace(s[0]) {
      var k := TrimWitness(s[1..]);
      TrimAtAfterFirst(s, Trim(s), k);
      i := k + 1;
    } else if IsWhitespace(s[|s| - 1]) {
      i := TrimWitness(s[..|s| - 1]);
      TrimAtBeforeLast(s, Trim(s), i);
    } else {
      i := 0;
      assert s[..0] == [] && s[|s|..] == [];
    }
  }

  /** A leading whitespace character widens the blank prefix by one. */
  lemma TrimAtAfterFirst(s: string, r: string, k: int)
    requires s != [] && IsWhitespace(s[0]) && TrimAt(s[1..], r, k)
    ensures TrimAt(s, r, k + 1)
  {
    var t := s[1..];
    assert s[k + 1..k + 1 + |r|] == t[k..k + |r|];
    assert s[k + 1 + |r|..] == t[k + |r|..];
    assert s[..k + 1] == [s[0]] + t[..k];
    BlankConcat([s[0]], t[..k]);
  }

  /** A trailing whitespace character widens the blank suffix by one. */
  lemma TrimAtBeforeLast(s: string, r: string, i: int)
    requires s != [] && IsWhitespace(s[|s| - 1]) && TrimAt(s[..|s| - 1], r, i)
    ensures TrimAt(s, r, i)
  {
    var t := s[..|s| - 1];
    assert s[i..i + |r|] == t[i..i + |r|];
    assert s[..i] == t[..i];
    assert s[i + |r|..] == t[i + |r|..] + [s[|s| - 1]];
    BlankConcat(t[i + |r|..], [s[|s| - 1]]);
  }

  lemma BlankConcat(a: string, b: string)
    requires IsBlank(a) && IsBlank(b)
    ensures IsBlank(a + b)
  {
    forall k | 0 <= k < |a + b| ensures IsWhitespace((a + b)[k]) {
      if k < |a| { assert (a + b)[k] == a[k]; } else { assert (a + b)[k] == b[k - |a|]; }
    }
  }

  /** Whitespace on both sides determines the trimmed text: `TrimsTo` pins down one string. */
  lemma TrimAtUnique(s: string, r1: string, i1: int, r2: string, i2: int)
    requires TrimAt(s, r1, i1) && TrimAt(s, r2, i2)
    ensures r1 == r2
  {
    if r1 != [] {
      assert s[i1] == r1[0];
      FirstSolid(s, r2, i2, i1);
      assert s[i1 + |r1| - 1] == r1[|r1| - 1];
      LastSolid(s, r2, i2, i1 + |r1| - 1);
    }
    if r2 != [] {
      assert s[i2] == r2[0];
      FirstSolid(s, r1, i1, i2);
      assert s[i2 + |r2| - 1] == r2[|r2| - 1];
      LastSolid(s, r1, i1, i2 + |r2| - 1);
    }
    if r1 != [] && r2 != [] {
      assert i1 == i2 && |r1| == |r2|;
    }
  }

  /** A non-whitespace character of `s` lies inside the trimmed slice. */
  lemma FirstSolid(s: string, r: string, i: int, k: int)
    requires TrimAt(s, r, i) && 0 <= k < |s| && !IsWhitespace(s[k])
    ensures r != [] && i <= k < i + |r|
  {
  }

  lemma LastSolid(s: string, r: string, i: int, k: int)
    requires TrimAt(s, r, i) && 0 <= k < |s| && !IsWhitespace(s[k])
    ensures i <= k < i + |r|
  {
    FirstSolid(s, r, i, k);
  }

  /** Trimming twice is trimming once. */
  lemma TrimIdempotent(s: string)
    ensures Trim(Trim(s)) == Trim(s)
  {
    var t := Trim(s);
    TrimSpec(s);
    TrimOfSolidEnds(t);
  }

  /** A string that neither starts nor ends with whitespace is its own trim. */
  lemma TrimOfSolidEnds(t: string)
    requires Trimmed(t)
    ensures Trim(t) == t
  {
    assert TrimAt(t, t, 0);
    TrimSpec(t);
  }

  /** `s.includes(sub)`. */
  predicate Contains(s: string, sub: string) {
    exists i | 0 <= i <= |s| - |sub| :: OccursAt(s, sub, i)
  }

  predicate OccursAt(s: string, sub: string, i: nat)
    requires i + |sub| <= |s|
  {
    forall k | 0 <= k < |sub| :: s[i + k] == sub[k]
  }

  predicate IsDigit(c: char) {
    '0' <= c <= '9'
  }

  predicate AllDigits(s: string) {
    forall i | 0 <= i < |s| :: IsDigit(s[i])
  }

  function DigitValue(c: char): nat
    requires IsDigit(c)
  {
    c as int - '0' as int
  }

  /** The value of a string of decimal digits, most significant first. */
  function DecimalValue(s: string): nat
    requires AllDigits(s)
  {
    if s == [] then 0 else DecimalValue(s[..|s| - 1]) * 10 + DigitValue(s[|s| - 1])
  }

  function DigitChar(d: nat): (c: char)
    requires d < 10
    ensures IsDigit(c) && DigitValue(c) == d
  {
    ('0' as int + d) as char
  }

  /** `String(n)` for a natural number: its decimal digits, without leading zeros. */
  function FormatNat(n: nat): (r: string)
    ensures r != [] && AllDigits(r) && DecimalValue(r) == n
    ensures r[0] == '0' ==> r == "0"
  {
    if n < 10 then [DigitChar(n)]
    else
      var h := FormatNat(n / 10);
      var r := h + [DigitChar(n % 10)];
      assert r[..|r| - 1] == h;
      r
  }

  /** `String(n)` for an integer. */
  function FormatInt(n: int): (r: string)
    ensures r != [] && NoWhitespace(r)
    ensures n < 0 <==> r[0] == '-'
  {
    if n < 0 then "-" + FormatNat(-n) else FormatNat(n)
  }

  /** `Number(s)` restricted to decimal integer literals: surrounding whitespace is ignored,
      a blank string is 0, an optional sign may precede the digits, and anything else is NaN
      (`None`). */
  function ParseNumber(s: string): (r: Option<int>)
    ensures IsBlank(s) ==> r == Some(0)
  {
    TrimShape(s);
    var t := Trim(s);
    if t == [] then Some(0)
    else if (t[0] == '-' || t[0] == '+') && |t| > 1 && AllDigits(t[1..]) then
      Some(if t[0] == '-' then -(DecimalValue(t[1..]) as int) else DecimalValue(t[1..]))
    else if AllDigits(t) then Some(DecimalValue(t))
    else None
  }

  /** `Number(String(n)) === n`: an integer printed by `String` reads back unchanged. */
  lemma ParseFormatRoundTrip(n: int)
    ensures ParseNumber(FormatInt(n)) == Some(n)
  {
    var r := FormatInt(n);
    assert Trimmed(r);
    TrimOfSolidEnds(r);
    if n < 0 {
      assert r[1..] == FormatNat(-n);
    }
  }
}
