/** The few pieces of Python string handling the core relies on: `str.strip()`,
    `str.startswith` (Dafny's prefix test `p <= s`), `sep.join(xs)`, decimal
    formatting of integers in f-strings, and, as their inverses, splitting on one
    character and reading decimal digits back. */
module Text {
  import opened Wrappers

  /** Python's `str.isspace()`: the characters `str.strip()` removes when it is
      called without arguments. */
  predicate IsSpace(c: char) {
    || ('\t' <= c <= '\r')
    || ('\U{1C}' <= c <= ' ')
    || c == '\U{85}' || c == '\U{A0}' || c == '\U{1680}'
    || ('\U{2000}' <= c <= '\U{200A}')
    || c == '\U{2028}' || c == '\U{2029}' || c == '\U{202F}' || c == '\U{205F}' || c == '\U{3000}'
  }

  function StripLeft(s: string): (r: string)
    ensures |r| <= |s| && r == s[|s| - |r|..]
    ensures forall k :: 0 <= k < |s| - |r| ==> IsSpace(s[k])
    ensures r == [] || !IsSpace(r[0])
  {
    if s != [] && IsSpace(s[0]) then StripLeft(s[1..]) else s
  }

  function StripRight(s: string): (r: string)
    ensures |r| <= |s| && r == s[..|r|]
    ensures forall k :: |r| <= k < |s| ==> IsSpace(s[k])
    ensures r == [] || !IsSpace(r[|r| - 1])
  {
    if s != [] && IsSpace(s[|s| - 1]) then StripRight(s[..|s| - 1]) else s
  }

  /** `s.strip()`: the longest infix of `s` that neither starts nor ends with
      whitespace, everything cut off being whitespace. */
  function Strip(s: string): (r: string)
    ensures |r| <= |s|
    ensures r == [] || (!IsSpace(r[0]) && !IsSpace(r[|r| - 1]))
    ensures exists i :: IsTrimmedAt(s, r, i)
  {
    var left := StripLeft(s);
    var r := StripRight(left);
    TrimmedBothEnds(s, left, r);
    r
  }

  /** Cutting whitespace off the front of `s` and then off the back leaves an
      infix trimmed at the point where the front cut ended. */
  lemma TrimmedBothEnds(s: string, left: string, r: string)
    requires |left| <= |s| && left == s[|s| - |left|..]
    requires forall k :: 0 <= k < |s| - |left| ==> IsSpace(s[k])
    requires |r| <= |left| && r == left[..|r|]
    requires forall k :: |r| <= k < |left| ==> IsSpace(left[k])
    ensures IsTrimmedAt(s, r, |s| - |left|)
  {
    var i := |s| - |left|;
    assert r == s[i..i + |r|];
    forall k | i + |r| <= k < |s| ensures IsSpace(s[k]) {
      assert s[k] == left[k - i];
    }
  }

  /** `r` is the infix of `s` starting at `i`, and all of `s` around it is whitespace. */
  predicate IsTrimmedAt(s: string, r: string, i: int) {
    && 0 <= i <= |s| - |r|
    && r == s[i..i + |r|]
    && (forall k :: 0 <= k < i ==> IsSpace(s[k]))
    && (forall k :: i + |r| <= k < |s| ==> IsSpace(s[k]))
  }

  /** Stripping an already stripped string changes nothing. */
  lemma StripIdempotent(s: string)
    ensures Strip(Strip(s)) == Strip(s)
  {
    var r := Strip(s);
    assert StripLeft(r) == r;
    assert StripRight(r) == r;
  }

  /** `s.strip()` is empty exactly when `s` is all whitespace (so `if ln.strip()`
      drops the blank lines and only them). */
  lemma StripEmptyIff(s: string)
    ensures Strip(s) == [] <==> forall k :: 0 <= k < |s| ==> IsSpace(s[k])
  {
    if forall k :: 0 <= k < |s| ==> IsSpace(s[k]) {
      AllSpaceStripsLeft(s);
    }
  }

  lemma {:induction false} AllSpaceStripsLeft(s: string)
    requires forall k :: 0 <= k < |s| ==> IsSpace(s[k])
    ensures StripLeft(s) == []
  {
    if s != [] {
      AllSpaceStripsLeft(s[1..]);
    }
  }

  /** `sep.join(xs)`. */
  function JoinWith(xs: seq<string>, sep: string): string
  {
    if |xs| == 0 then ""
    else if |xs| == 1 then xs[0]
    else xs[0] + sep + JoinWith(xs[1..], sep)
  }

  /** `s.split(c)` for a one-character separator; the inverse of `JoinWith`. */
  function SplitOn(s: string, c: char): (r: seq<string>)
    ensures |r| >= 1
    ensures forall k :: 0 <= k < |r| ==> c !in r[k]
    ensures JoinWith(r, [c]) == s
  {
    if s == [] then [""]
    else if s[0] == c then
      var t := SplitOn(s[1..], c);
      assert s == [c] + s[1..];
      [""] + t
    else
      var t := SplitOn(s[1..], c);
      var r := [[s[0]] + t[0]] + t[1..];
      assert JoinWith(r, [c]) == [s[0]] + JoinWith(t, [c]) by {
        if |t| > 1 {
          assert r[1..] == t[1..];
        }
      }
      assert s == [s[0]] + s[1..];
      r
  }

  /** Joining pieces that do not contain the separator and splitting again gives
      the pieces back. */
  lemma {:induction false} SplitJoin(xs: seq<string>, c: char)
    requires |xs| >= 1
    requires forall k :: 0 <= k < |xs| ==> c !in xs[k]
    ensures SplitOn(JoinWith(xs, [c]), c) == xs
  {
    if |xs| == 1 {
      SplitNoSeparator(xs[0], c);
    } else {
      SplitJoin(xs[1..], c);
      SplitAfterPiece(xs[0], JoinWith(xs[1..], [c]), c);
      assert xs[0] + [c] + JoinWith(xs[1..], [c]) == xs[0] + ([c] + JoinWith(xs[1..], [c]));
      assert xs == [xs[0]] + xs[1..];
    }
  }

  lemma {:induction false} SplitNoSeparator(s: string, c: char)
    requires c !in s
    ensures SplitOn(s, c) == [s]
  {
    if s != [] {
      SplitNoSeparator(s[1..], c);
    }
  }

  lemma {:induction false} SplitAfterPiece(a: string, b: string, c: char)
    requires c !in a
    ensures SplitOn(a + ([c] + b), c) == [a] + SplitOn(b, c)
  {
    if a == [] {
      assert a + ([c] + b) == [c] + b;
      assert ([c] + b)[1..] == b;
    } else {
      SplitAfterPiece(a[1..], b, c);
      assert (a + ([c] + b))[1..] == a[1..] + ([c] + b);
      assert [a[0]] + a[1..] == a;
    }
  }

  predicate IsDigit(c: char) { '0' <= c <= '9' }

  predicate AllDigits(s: string) { forall k :: 0 <= k < |s| ==> IsDigit(s[k]) }

  function DigitChar(d: nat): (c: char)
    requires d < 10
    ensures IsDigit(c)
  {
    ['0', '1', '2', '3', '4', '5', '6', '7', '8', '9'][d]
  }

  function DigitValue(c: char): nat
    requires IsDigit(c)
  {
    c as int - '0' as int
  }

  /** Decimal digits of `n`, as `str(n)` writes a non-negative integer. */
  function NatToString(n: nat): (r: string)
    ensures |r| >= 1 && AllDigits(r)
    ensures r[0] == '0' ==> n == 0 && |r| == 1
  {
    if n < 10 then [DigitChar(n)] else NatToString(n / 10) + [DigitChar(n % 10)]
  }

  /** `str(i)` / `f"{i}"` for an integer. */
  function IntToString(i: int): (r: string)
    ensures |r| >= 1
    ensures ParseInt(r) == Some(i)
  {
    if i < 0 then
      ParseMinusDigits(-i);
      "-" + NatToString(-i)
    else
      DigitsRoundTrip(i);
      ParseDigits(NatToString(i));
      NatToString(i)
  }

  /** The value of a run of decimal digits. */
  function DigitsValue(s: string): nat
    requires AllDigits(s)
  {
    if s == [] then 0 else DigitsValue(s[..|s| - 1]) * 10 + DigitValue(s[|s| - 1])
  }

  /** Reads back what `IntToString` writes: an optional minus sign and digits. */
  function ParseInt(s: string): Option<int>
  {
    if s != [] && s[0] == '-' && |s| > 1 && AllDigits(s[1..]) then Some(0 - DigitsValue(s[1..]) as int)
    else if s != [] && AllDigits(s) then Some(DigitsValue(s))
    else None
  }

  lemma {:induction false} NatToStringValue(n: nat)
    ensures DigitsValue(NatToString(n)) == n
  {
    if n >= 10 {
      NatToStringValue(n / 10);
      var s := NatToString(n);
      assert s[..|s| - 1] == NatToString(n / 10);
    }
  }

  /** Digits after a minus sign read as the negated value. */
  lemma ParseNegative(t: string)
    requires |t| >= 1 && AllDigits(t)
    ensures ParseInt("-" + t) == Some(0 - DigitsValue(t) as int)
  {
    var s := "-" + t;
    assert s[0] == '-' && s[1..] == t;
  }

  /** Digits alone read as their value. */
  lemma ParseDigits(t: string)
    requires |t| >= 1 && AllDigits(t)
    ensures ParseInt(t) == Some(DigitsValue(t))
  {
    assert IsDigit(t[0]);
  }

  /** Writing an integer and reading it back gives the integer. */
  lemma IntToStringRoundTrip(i: int)
    ensures ParseInt(IntToString(i)) == Some(i)
  {
    if i < 0 {
      NegativeRoundTrip(i);
    } else {
      NonNegativeRoundTrip(i);
    }
  }

  lemma NegativeRoundTrip(i: int)
    requires i < 0
    ensures ParseInt(IntToString(i)) == Some(i)
  {
    ParseMinusDigits(-i);
    assert IntToString(i) == "-" + NatToString(-i);
  }

  lemma ParseMinusDigits(n: nat)
    ensures ParseInt("-" + NatToString(n)) == Some(0 - n)
  {
    DigitsRoundTrip(n);
    ParseNegative(NatToString(n));
  }

  lemma NonNegativeRoundTrip(i: int)
    requires i >= 0
    ensures ParseInt(IntToString(i)) == Some(i)
  {
    var t := NatToString(i);
    assert IntToString(i) == t;
    DigitsRoundTrip(i);
    ParseDigits(t);
  }

  lemma DigitsRoundTrip(n: nat)
    ensures DigitsValue(NatToString(n)) == n
  {
    NatToStringValue(n);
  }
}
