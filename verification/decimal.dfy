/**
  Decimal text of an integer, as ECMAScript's Number-to-String produces it
  for an integral value of magnitude at most 2^53 (above that the shortest
  round-trip digits are padded with zeros, and from 10^21 on exponent form is
  used; neither is modelled), together with the parser that reads it back.
 */
module Decimal {
  import opened Options

  predicate IsDigit(c: char) {
    '0' <= c <= '9'
  }

  predicate AllDigits(s: string) {
    forall i :: 0 <= i < |s| ==> IsDigit(s[i])
  }

  function DigitChar(d: nat): (c: char)
    requires d < 10
    ensures IsDigit(c) && (c as int) - ('0' as int) == d
  {
    "0123456789"[d]
  }

  function DigitValue(c: char): nat
    requires IsDigit(c)
  {
    (c as int) - ('0' as int)
  }

  /** Decimal digits of `n`, most significant first, without leading zeros. */
  function NatToString(n: nat): (s: string)
    ensures |s| >= 1 && AllDigits(s)
    ensures s[0] == '0' ==> n == 0
    decreases n
  {
    if n < 10 then [DigitChar(n)] else NatToString(n / 10) + [DigitChar(n % 10)]
  }

  /**
    The canonical decimal text of an integer: digits with no leading zero
    (unless the text is "0"), or a minus sign followed by such digits of a
    non-zero number. "07", "-0" and "+7" are not canonical.
   */
  predicate Canonical(t: string) {
    || (|t| >= 1 && AllDigits(t) && (t[0] == '0' ==> |t| == 1))
    || (|t| >= 2 && t[0] == '-' && AllDigits(t[1..]) && t[1] != '0')
  }

  /** Decimal text of an integer; a negative one gets a leading minus sign. */
  function IntToString(i: int): (s: string)
    ensures |s| >= 1
    ensures (s[0] == '-') <==> i < 0
  {
    if i < 0 then "-" + NatToString(-i) else NatToString(i)
  }

  /** Value of a string of decimal digits. */
  function DigitsValue(s: string): nat
    requires AllDigits(s)
  {
    if |s| == 0 then 0 else DigitsValue(s[..|s| - 1]) * 10 + DigitValue(s[|s| - 1])
  }

  /** Reads an optionally signed decimal integer; None when the text is not one. */
  function ParseInt(s: string): Option<int> {
    if |s| >= 1 && AllDigits(s) then Some(DigitsValue(s))
    else if |s| >= 2 && s[0] == '-' && AllDigits(s[1..]) then Some(-(DigitsValue(s[1..]) as int))
    else None
  }

  lemma {:induction false} NatToStringRoundTrip(n: nat)
    ensures DigitsValue(NatToString(n)) == n
    decreases n
  {
    if n >= 10 {
      var s := NatToString(n);
      NatToStringRoundTrip(n / 10);
      assert s[..|s| - 1] == NatToString(n / 10);
    }
  }

  /** Parsing the text of a natural number gives it back. */
  lemma NatToStringParses(n: nat)
    ensures ParseInt(NatToString(n)) == Some(n)
  {
    NatToStringRoundTrip(n);
  }

  /** Parsing a minus sign and the text of a positive number gives its negation. */
  lemma NegativeTextParses(n: nat)
    requires n >= 1
    ensures ParseInt("-" + NatToString(n)) == Some(-(n as int))
  {
    var t := "-" + NatToString(n);
    NatToStringRoundTrip(n);
    assert t[1..] == NatToString(n);
    assert !IsDigit(t[0]);
  }

  /** Parsing the text of an integer gives the integer back. */
  lemma IntToStringRoundTrip(i: int)
    ensures ParseInt(IntToString(i)) == Some(i)
  {
    if i < 0 {
      var n: nat := -i;
      NegativeTextParses(n);
      assert IntToString(i) == "-" + NatToString(n);
    } else {
      var n: nat := i;
      NatToStringParses(n);
      assert IntToString(i) == NatToString(n);
    }
  }

  /** The text of an integer is canonical: no leading zero, no "-0". */
  lemma IntToStringCanonical(i: int)
    ensures Canonical(IntToString(i))
  {
  }

  /** Distinct integers have distinct texts. */
  lemma IntToStringInjective(i: int, j: int)
    ensures IntToString(i) == IntToString(j) ==> i == j
  {
    IntToStringRoundTrip(i);
    IntToStringRoundTrip(j);
  }

  /** A digit string whose first digit is not zero denotes a positive number. */
  lemma {:induction false} LeadingNonZeroPositive(s: string)
    requires |s| >= 1 && AllDigits(s) && s[0] != '0'
    ensures DigitsValue(s) >= 1
    decreases |s|
  {
    if |s| > 1 {
      LeadingNonZeroPositive(s[..|s| - 1]);
    }
  }

  /** A digit string without leading zeros is the text of its own value. */
  lemma {:induction false} CanonicalDigitsRoundTrip(t: string)
    requires |t| >= 1 && AllDigits(t) && (t[0] == '0' ==> |t| == 1)
    ensures NatToString(DigitsValue(t)) == t
    decreases |t|
  {
    if |t| > 1 {
      var p := t[..|t| - 1];
      LeadingNonZeroPositive(p);
      CanonicalDigitsRoundTrip(p);
      var n := DigitsValue(t);
      assert n / 10 == DigitsValue(p) && n % 10 == DigitValue(t[|t| - 1]);
      assert t == p + [t[|t| - 1]];
    }
  }

  /**
    Canonical text is unique: a canonical text that parses to `i` is exactly
    the text of `i`. With IntToStringRoundTrip this makes IntToString and
    ParseInt inverse on canonical texts.
   */
  lemma CanonicalUnique(t: string, i: int)
    requires Canonical(t) && ParseInt(t) == Some(i)
    ensures t == IntToString(i)
  {
    if |t| >= 1 && AllDigits(t) {
      CanonicalDigitsRoundTrip(t);
      var n: nat := DigitsValue(t);
      assert i == n;
      assert IntToString(i) == NatToString(n);
    } else {
      var u := t[1..];
      CanonicalDigitsRoundTrip(u);
      LeadingNonZeroPositive(u);
      var n: nat := DigitsValue(u);
      assert i == -(n as int);
      assert IntToString(i) == "-" + NatToString(n);
      assert t == "-" + u;
    }
  }
}
