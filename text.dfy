/**
 * String primitives the message layer relies on: decimal digits,
 * Integer#to_s, Kernel#Integer on digit strings, String#strip, Array#join
 * and the line structure that Ruby's `^` and `$` anchors see.
 */
module Text {

  predicate IsDigit(c: char) {
    '0' <= c <= '9'
  }

  predicate AllDigits(s: string) {
    forall i :: 0 <= i < |s| ==> IsDigit(s[i])
  }

  function DigitValue(c: char): (d: nat)
    requires IsDigit(c)
    ensures d < 10
  {
    c as int - '0' as int
  }

  function DigitChar(d: nat): (c: char)
    requires d < 10
    ensures IsDigit(c) && DigitValue(c) == d
  {
    ('0' as int + d) as char
  }

  /** Value of a digit string read in the given base, most significant digit first. */
  function ValueIn(s: string, base: nat): nat
    requires AllDigits(s)
  {
    if s == [] then 0 else ValueIn(s[..|s| - 1], base) * base + DigitValue(s[|s| - 1])
  }

  /** Integer#to_s of a non-negative integer: its decimal digits, no leading zero. */
  function NatToString(n: nat): (r: string)
    ensures |r| >= 1 && AllDigits(r)
    ensures r[0] == '0' ==> r == "0"
  {
    if n < 10 then [DigitChar(n)] else NatToString(n / 10) + [DigitChar(n % 10)]
  }

  /** Integer#to_s: a minus sign before the digits of a negative integer. */
  function IntToString(i: int): (r: string)
    ensures |r| >= 1
  {
    if i < 0 then "-" + NatToString(-i) else NatToString(i)
  }

  /** Reading back the decimal digits of n gives n. */
  lemma {:induction false} DecimalRoundTrip(n: nat)
    ensures ValueIn(NatToString(n), 10) == n
  {
    var r := NatToString(n);
    if n >= 10 {
      DecimalRoundTrip(n / 10);
      assert r[..|r| - 1] == NatToString(n / 10);
    }
  }

  /** Distinct integers have distinct decimal forms. */
  lemma NatToStringInjective(m: nat, n: nat)
    requires NatToString(m) == NatToString(n)
    ensures m == n
  {
    DecimalRoundTrip(m);
    DecimalRoundTrip(n);
  }

  lemma IntToStringInjective(i: int, j: int)
    requires IntToString(i) == IntToString(j)
    ensures i == j
  {
    if i < 0 && j < 0 {
      assert NatToString(-i) == IntToString(i)[1..];
      NatToStringInjective(-i, -j);
    } else if i >= 0 && j >= 0 {
      NatToStringInjective(i, j);
    }
  }

  predicate IsOctalDigit(c: char) {
    '0' <= c <= '7'
  }

  /**
   * Kernel#Integer on a string of ASCII digits: decimal, except that a
   * leading zero followed by more digits selects octal (so "010" is 8 and
   * "08" is an error). Returns -1 for a string it rejects.
   */
  function IntegerOfDigits(s: string): (r: int)
    ensures r >= -1
    ensures r >= 0 ==> AllDigits(s) && |s| >= 1
  {
    if s == [] || !AllDigits(s) then -1
    else if |s| > 1 && s[0] == '0' then
      (if forall i :: 0 <= i < |s| ==> IsOctalDigit(s[i]) then ValueIn(s, 8) else -1)
    else ValueIn(s, 10)
  }

  /** Kernel#Integer reads Integer#to_s back: "0", "7", "110" give 0, 7, 110. */
  lemma IntegerOfDigitsRoundTrip(n: nat)
    ensures IntegerOfDigits(NatToString(n)) == n
  {
    DecimalRoundTrip(n);
  }

  /** Characters String#strip removes: NUL, tab, LF, VT, FF, CR and space. */
  predicate IsStripSpace(c: char) {
    c == '\0' || c == '\t' || c == '\n' || c == '\U{000B}' || c == '\U{000C}' || c == '\r' || c == ' '
  }

  predicate AllSpace(s: string) {
    forall i :: 0 <= i < |s| ==> IsStripSpace(s[i])
  }

  /** String#lstrip: the suffix left once the leading spaces are gone. */
  function StripLeft(s: string): (r: string)
    ensures |r| <= |s| && r == s[|s| - |r|..]
    ensures AllSpace(s[..|s| - |r|])
    ensures r != [] ==> !IsStripSpace(r[0])
  {
    if s != [] && IsStripSpace(s[0]) then
      var r := StripLeft(s[1..]);
      assert s[..|s| - |r|] == [s[0]] + s[1..][..|s| - 1 - |r|];
      assert s[|s| - |r|..] == s[1..][|s| - 1 - |r|..];
      r
    else s
  }

  /** String#rstrip: the prefix left once the trailing spaces are gone. */
  function StripRight(s: string): (r: string)
    ensures |r| <= |s| && r == s[..|r|]
    ensures AllSpace(s[|r|..])
    ensures r != [] ==> !IsStripSpace(r[|r| - 1])
  {
    if s != [] && IsStripSpace(s[|s| - 1]) then
      var r := StripRight(s[..|s| - 1]);
      assert s[|r|..] == s[..|s| - 1][|r|..] + [s[|s| - 1]];
      assert s[..|r|] == s[..|s| - 1][..|r|];
      r
    else s
  }

  /** String#strip. */
  function Strip(s: string): string {
    StripRight(StripLeft(s))
  }

  /**
   * What strip leaves: an infix of the input, with only spaces cut on
   * either side, and neither starting nor ending with a space.
   */
  lemma StripMeaning(s: string) returns (i: nat)
    ensures i + |Strip(s)| <= |s| && s[i..i + |Strip(s)|] == Strip(s)
    ensures AllSpace(s[..i]) && AllSpace(s[i + |Strip(s)|..])
    ensures Strip(s) != [] ==> !IsStripSpace(Strip(s)[0]) && !IsStripSpace(Strip(s)[|Strip(s)| - 1])
  {
    var l := StripLeft(s);
    var r := StripRight(l);
    i := |s| - |l|;
    TrimmedInfix(s, l, r);
  }

  /** A prefix of a suffix, each cut only of spaces, is an infix with spaces on either side. */
  lemma TrimmedInfix(s: string, l: string, r: string)
    requires |l| <= |s| && l == s[|s| - |l|..] && AllSpace(s[..|s| - |l|])
    requires l != [] ==> !IsStripSpace(l[0])
    requires |r| <= |l| && r == l[..|r|] && AllSpace(l[|r|..])
    requires r != [] ==> !IsStripSpace(r[|r| - 1])
    ensures s[|s| - |l|..|s| - |l| + |r|] == r && AllSpace(s[|s| - |l| + |r|..])
    ensures r != [] ==> !IsStripSpace(r[0]) && !IsStripSpace(r[|r| - 1])
  {
    var i := |s| - |l|;
    assert s[i + |r|..] == l[|r|..];
  }

  /** Stripping twice is stripping once. */
  lemma StripIdempotent(s: string)
    ensures Strip(Strip(s)) == Strip(s)
  {
  }

  /** Leading whitespace before a string that does not start with whitespace is exactly what lstrip removes. */
  lemma {:induction false} StripLeftOf(w: string, t: string)
    requires AllSpace(w)
    requires t == [] || !IsStripSpace(t[0])
    ensures StripLeft(w + t) == t
  {
    if w != [] {
      assert (w + t)[0] == w[0];
      assert (w + t)[1..] == w[1..] + t;
      StripLeftOf(w[1..], t);
    } else {
      assert w + t == t;
    }
  }

  /** Trailing whitespace after a string that does not end with whitespace is exactly what rstrip removes. */
  lemma {:induction false} StripRightOf(t: string, w: string)
    requires AllSpace(w)
    requires t == [] || !IsStripSpace(t[|t| - 1])
    ensures StripRight(t + w) == t
  {
    if w != [] {
      var u := t + w;
      assert u[|u| - 1] == w[|w| - 1];
      assert u[..|u| - 1] == t + w[..|w| - 1];
      StripRightOf(t, w[..|w| - 1]);
    } else {
      assert t + w == t;
    }
  }

  /**
   * Strip recovers the text between any whitespace padding: whatever
   * whitespace surrounds a string that neither starts nor ends with
   * whitespace, strip gives that string back.
   */
  lemma StripSurrounded(w1: string, t: string, w2: string)
    requires AllSpace(w1) && AllSpace(w2)
    requires t == [] || (!IsStripSpace(t[0]) && !IsStripSpace(t[|t| - 1]))
    ensures Strip(w1 + t + w2) == t
  {
    if t == [] {
      assert w1 + t + w2 == w1 + w2;
      assert AllSpace(w1 + w2);
      StripLeftOf(w1 + w2, []);
      assert w1 + w2 + [] == w1 + w2;
      StripRightOf([], []);
    } else {
      assert w1 + t + w2 == w1 + (t + w2);
      assert (t + w2)[0] == t[0];
      StripLeftOf(w1, t + w2);
      StripRightOf(t, w2);
    }
  }

  /** Array#join: the strings with the separator between neighbours. */
  function Join(xs: seq<string>, sep: string): string {
    if xs == [] then ""
    else if |xs| == 1 then xs[0]
    else xs[0] + sep + Join(xs[1..], sep)
  }

  /** Joining two non-empty lists puts one separator between their joins. */
  lemma {:induction false} JoinAppend(xs: seq<string>, ys: seq<string>, sep: string)
    requires xs != [] && ys != []
    ensures Join(xs + ys, sep) == Join(xs, sep) + sep + Join(ys, sep)
  {
    if |xs| > 1 {
      JoinAppend(xs[1..], ys, sep);
      assert (xs + ys)[1..] == xs[1..] + ys;
    } else {
      assert (xs + ys)[1..] == ys;
    }
  }

  /**
   * The lines Ruby's `^` and `$` anchors delimit: the segments between
   * newlines (so a string always has at least one, possibly empty, line).
   */
  function Lines(s: string): (ls: seq<string>)
    ensures |ls| >= 1
  {
    if s == [] then [""]
    else
      var rest := Lines(s[1..]);
      if s[0] == '\n' then [""] + rest else [[s[0]] + rest[0]] + rest[1..]
  }

  predicate NewlineFree(s: string) {
    forall i :: 0 <= i < |s| ==> s[i] != '\n'
  }

  /** A string without newlines is a single line. */
  lemma {:induction false} SingleLine(s: string)
    requires NewlineFree(s)
    ensures Lines(s) == [s]
  {
    if s != [] {
      SingleLine(s[1..]);
      assert s[0] != '\n';
      assert [s[0]] + s[1..] == s;
    }
  }

  /** Each newline starts a new line: "a\nb" is the two lines "a" and "b". */
  lemma {:induction false} LinesAround(a: string, b: string)
    requires NewlineFree(a)
    ensures Lines(a + "\n" + b) == [a] + Lines(b)
  {
    if a == [] {
      assert a + "\n" + b == "\n" + b;
      assert ("\n" + b)[1..] == b;
    } else {
      LinesAround(a[1..], b);
      assert (a + "\n" + b)[1..] == a[1..] + "\n" + b;
      assert [a[0]] + a[1..] == a;
    }
  }
}
