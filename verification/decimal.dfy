/** A small Option type for the parsers of this model. */
module Optional {

  datatype Option<+T> = None | Some(value: T)

}

/**
 Decimal text of integers, as Python's `str()` writes an `int`: the digits
 without leading zeros, preceded by `-` for a negative number. The readers
 (`DigitsValue`, `ParseNatPrefix`, `ParseIntPrefix`) are the inverse used to
 show that every number the dashboard writes can be read back.
 */
module Decimal {
  import opened Optional

  predicate IsDigit(c: char) {
    '0' <= c <= '9'
  }

  predicate AllDigits(s: string) {
    forall i :: 0 <= i < |s| ==> IsDigit(s[i])
  }

  function DigitChar(d: nat): (c: char)
    requires d < 10
    ensures IsDigit(c)
  {
    (('0' as int) + d) as char
  }

  function DigitValue(c: char): (d: nat)
    requires IsDigit(c)
    ensures d < 10
    ensures DigitChar(d) == c
  {
    (c as int) - ('0' as int)
  }

  /** `str(n)` for a non-negative `n`. */
  function NatStr(n: nat): (s: string)
    ensures |s| > 0
    ensures AllDigits(s)
    ensures |s| > 1 ==> s[0] != '0'
    decreases n
  {
    if n < 10 then [DigitChar(n)] else NatStr(n / 10) + [DigitChar(n % 10)]
  }

  /** `str(n)` for any `n`. */
  function IntStr(n: int): (s: string)
    ensures |s| > 0
    ensures n < 0 <==> s[0] == '-'
    ensures n >= 0 ==> AllDigits(s)
  {
    if n < 0 then "-" + NatStr(-n) else NatStr(n)
  }

  /** The value of a string of decimal digits, most significant first. */
  function DigitsValue(s: string): nat
    requires AllDigits(s)
  {
    if |s| == 0 then 0 else DigitsValue(s[..|s| - 1]) * 10 + DigitValue(s[|s| - 1])
  }

  /** How many decimal digits `s` starts with. */
  function LeadingDigits(s: string): (k: nat)
    ensures k <= |s|
    ensures AllDigits(s[..k])
    ensures k < |s| ==> !IsDigit(s[k])
  {
    if |s| == 0 || !IsDigit(s[0]) then 0
    else
      var k := 1 + LeadingDigits(s[1..]);
      assert s[..k] == [s[0]] + s[1..][..k - 1];
      k
  }

  /** Reads the non-empty run of digits at the start of `s`, returning its value and the rest of `s`. */
  function ParseNatPrefix(s: string): (r: Option<(nat, string)>)
    ensures r.Some? <==> |s| > 0 && IsDigit(s[0])
    ensures r.Some? ==> |r.value.1| < |s| && r.value.1 == s[|s| - |r.value.1|..]
  {
    var k := LeadingDigits(s);
    if k == 0 then None else Some((DigitsValue(s[..k]), s[k..]))
  }

  /** Reads an optionally negative decimal number at the start of `s`. */
  function ParseIntPrefix(s: string): Option<(int, string)>
  {
    var negative := |s| > 0 && s[0] == '-';
    var digits := if negative then s[1..] else s;
    match ParseNatPrefix(digits)
    case None => None
    case Some((k, rest)) => Some((if negative then -(k as int) else k as int, rest))
  }

  /** Reading back the text of `n` gives `n`. */
  lemma {:induction false} DigitsValueOfNatStr(n: nat)
    ensures DigitsValue(NatStr(n)) == n
    decreases n
  {
    if n >= 10 {
      var s := NatStr(n);
      assert s[..|s| - 1] == NatStr(n / 10);
      DigitsValueOfNatStr(n / 10);
    }
  }

  /** A run of digits followed by a non-digit is read up to exactly its end. */
  lemma LeadingDigitsOfConcat(ds: string, rest: string)
    requires AllDigits(ds)
    requires |rest| == 0 || !IsDigit(rest[0])
    ensures LeadingDigits(ds + rest) == |ds|
  {
    var s := ds + rest;
    var k := LeadingDigits(s);
    assert forall i :: 0 <= i < |ds| ==> s[i] == ds[i];
    if |rest| > 0 {
      assert s[|ds|] == rest[0];
    }
  }

  /** The text of a natural number, followed by anything that does not start with a digit, reads back as that number. */
  lemma ParseNatPrefixOfNatStr(n: nat, rest: string)
    requires |rest| == 0 || !IsDigit(rest[0])
    ensures ParseNatPrefix(NatStr(n) + rest) == Some((n, rest))
  {
    var ds := NatStr(n);
    var s := ds + rest;
    LeadingDigitsOfConcat(ds, rest);
    assert s[..|ds|] == ds;
    assert s[|ds|..] == rest;
    DigitsValueOfNatStr(n);
  }

  /** The text of a negative number, followed by anything that does not start with a digit, reads back as that number. */
  lemma ParseIntPrefixOfNegative(n: int, rest: string)
    requires n < 0
    requires |rest| == 0 || !IsDigit(rest[0])
    ensures ParseIntPrefix(IntStr(n) + rest) == Some((n, rest))
  {
    var k: nat := -n;
    var s := IntStr(n) + rest;
    assert s == "-" + (NatStr(k) + rest);
    assert s[1..] == NatStr(k) + rest;
    ParseNatPrefixOfNatStr(k, rest);
  }

  /** The same for `str()` of any integer. */
  lemma ParseIntPrefixOfIntStr(n: int, rest: string)
    requires |rest| == 0 || !IsDigit(rest[0])
    ensures ParseIntPrefix(IntStr(n) + rest) == Some((n, rest))
  {
    if n < 0 {
      ParseIntPrefixOfNegative(n, rest);
    } else {
      var s := NatStr(n) + rest;
      assert s[0] == NatStr(n)[0];
      ParseNatPrefixOfNatStr(n, rest);
    }
  }

  /** Distinct numbers have distinct texts. */
  lemma IntStrInjective(a: int, b: int)
    requires IntStr(a) == IntStr(b)
    ensures a == b
  {
    ParseIntPrefixOfIntStr(a, "");
    ParseIntPrefixOfIntStr(b, "");
    assert IntStr(a) + "" == IntStr(a);
    assert IntStr(b) + "" == IntStr(b);
  }
}
