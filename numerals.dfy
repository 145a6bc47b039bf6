/**
 * Decimal numerals as Go's `strconv` package reads and writes them, with Go's `int` fixed at
 * 64 bits by this model: `strconv.Atoi` accepts an optional `+` or `-` followed by one or more
 * ASCII digits and nothing else, and fails when the value does not fit in 64 bits;
 * `strconv.Itoa` prints the canonical form (a `-` only for negative values, no leading zeros).
 */
module Numerals {
  import opened Wrappers

  const MIN_INT64: int := -0x8000_0000_0000_0000
  const MAX_INT64: int := 0x7FFF_FFFF_FFFF_FFFF

  /** Go's `int64`, and Go's `int`, which this model takes to be 64 bits wide. */
  type Int64 = x: int | MIN_INT64 <= x <= MAX_INT64

  predicate IsDigit(c: char) {
    '0' <= c <= '9'
  }

  predicate AllDigits(s: string) {
    forall i :: 0 <= i < |s| ==> IsDigit(s[i])
  }

  function DigitValue(c: char): (d: nat)
    requires IsDigit(c)
    ensures d < 10
  {
    (c as int) - ('0' as int)
  }

  function DigitChar(d: nat): (c: char)
    requires d < 10
    ensures IsDigit(c) && DigitValue(c) == d
  {
    ('0' as int + d) as char
  }

  /** The value of a run of decimal digits, most significant digit first. */
  function DigitsValue(s: string): nat
    requires AllDigits(s)
  {
    if s == [] then 0 else DigitsValue(s[..|s| - 1]) * 10 + DigitValue(s[|s| - 1])
  }

  /** The canonical decimal digits of `n`: never empty, no leading zero, and denoting `n`. */
  function NatToString(n: nat): (s: string)
    ensures |s| > 0 && AllDigits(s)
    ensures DigitsValue(s) == n
    ensures |s| > 1 ==> s[0] != '0'
  {
    if n < 10 then [DigitChar(n)]
    else
      var prefix := NatToString(n / 10);
      var s := prefix + [DigitChar(n % 10)];
      assert s[..|s| - 1] == prefix;
      s
  }

  /** `strconv.Itoa`: a `-` exactly for negative values, then the canonical digits of `|v|`. */
  function Itoa(v: int): (s: string)
    ensures |s| > 0 && (s[0] == '-' <==> v < 0)
    ensures v < 0 ==> AllDigits(s[1..]) && DigitsValue(s[1..]) == -v && (|s| > 2 ==> s[1] != '0')
    ensures v >= 0 ==> AllDigits(s) && DigitsValue(s) == v && (|s| > 1 ==> s[0] != '0')
  {
    if v < 0 then
      var digits := NatToString(-v);
      assert ("-" + digits)[1..] == digits;
      "-" + digits
    else NatToString(v)
  }

  /** `strconv.Atoi` on a 64-bit platform: `None` stands for the `*NumError` it returns. */
  function Atoi(s: string): (r: Option<Int64>)
    ensures r.Some? ==> s != [] && (IsDigit(s[0]) || s[0] == '+' || s[0] == '-')
    ensures r.Some? ==> AllDigits(s[1..])
    ensures r.Some? && !IsDigit(s[0]) ==> |s| > 1
  {
    var signed := |s| > 0 && (s[0] == '+' || s[0] == '-');
    var digits := if signed then s[1..] else s;
    if digits == [] || !AllDigits(digits) then None
    else
      var magnitude := DigitsValue(digits);
      var v: int := if signed && s[0] == '-' then 0 - magnitude as int else magnitude;
      if MIN_INT64 <= v <= MAX_INT64 then Some(v) else None
  }

  /**
   * Every optional sign followed by one or more digits is accepted exactly when its value fits
   * in 64 bits, and then denotes that value; together with the ensures of `Atoi`, which say
   * nothing else is accepted, this pins `Atoi` down on every input.
   */
  lemma AtoiSignedDigits(sign: string, digits: string)
    requires sign == "" || sign == "+" || sign == "-"
    requires digits != [] && AllDigits(digits)
    ensures var v: int := if sign == "-" then 0 - DigitsValue(digits) as int else DigitsValue(digits);
      Atoi(sign + digits) == if MIN_INT64 <= v <= MAX_INT64 then Some(v) else None
  {
    var s := sign + digits;
    if sign == "" {
      assert s == digits;
    } else {
      assert s[0] == sign[0] && s[1..] == digits;
    }
  }

  /** A numeral is canonical when it is what `Itoa` prints for some 64-bit value. */
  ghost predicate Canonical(s: string) {
    exists v: Int64 :: Itoa(v) == s
  }

  /** Parsing what `Itoa` printed gives the value back. */
  lemma AtoiItoa(v: Int64)
    ensures Atoi(Itoa(v)) == Some(v)
  {
    var s := Itoa(v);
    if v < 0 {
      var m: nat := 0 - v as int;
      assert s[0] == '-' && s[1..] == NatToString(m);
    } else {
      assert IsDigit(s[0]);
    }
  }

  /** A canonical numeral is a fixed point of parsing followed by printing. */
  lemma CanonicalIsFixed(s: string)
    requires Canonical(s)
    ensures Atoi(s).Some? && Itoa(Atoi(s).value) == s
  {
    var v: Int64 :| Itoa(v) == s;
    AtoiItoa(v);
  }

  /** `Atoi` is more lenient than `Itoa`: signs and leading zeros are accepted, blanks are not. */
  lemma AtoiExamples()
    ensures Atoi("+007") == Some(7)
    ensures Atoi("-0") == Some(0)
    ensures Atoi("") == None && Atoi("-") == None && Atoi(" 1") == None && Atoi("1a") == None
  {
    assert "+007"[1..] == "007";
    assert "007"[..2] == "00" && "00"[..1] == "0" && "0"[..0] == "";
    assert DigitsValue("007") == 7;
    assert "-0"[1..] == "0";
    assert !IsDigit(" 1"[0]);
    assert !IsDigit("1a"[1]);
  }
}
