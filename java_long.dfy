/**
 * `java.lang.Long.valueOf(String)` for radix 10 over ASCII digits: an optional '+' or '-', at least one
 * digit, and a value within the 64-bit signed range; anything else is a NumberFormatException.
 * `Long.toString` is given as the reference it inverts.
 */
module JavaLong {
  import opened Wrappers

  const MinLong: int := -0x8000_0000_0000_0000
  const MaxLong: int := 0x7fff_ffff_ffff_ffff

  predicate InLongRange(n: int)
  {
    MinLong <= n <= MaxLong
  }

  predicate IsDigit(c: char)
  {
    '0' <= c <= '9'
  }

  predicate AllDigits(ds: string)
  {
    forall i :: 0 <= i < |ds| ==> IsDigit(ds[i])
  }

  function DigitValue(c: char): (r: nat)
    requires IsDigit(c)
    ensures r < 10
  {
    (c as int) - ('0' as int)
  }

  function DigitChar(d: nat): (c: char)
    requires d < 10
    ensures IsDigit(c) && DigitValue(c) == d
  {
    (('0' as int) + d) as char
  }

  /** The value of a string of decimal digits, most significant first. */
  function DigitsValue(ds: string): nat
    requires AllDigits(ds)
    decreases |ds|
  {
    if ds == [] then 0 else DigitsValue(ds[..|ds| - 1]) * 10 + DigitValue(ds[|ds| - 1])
  }

  /** `Long.valueOf(s)` (radix 10); None where Java throws NumberFormatException. */
  function ParseLong(s: string): (r: Option<int>)
    ensures r.Some? ==> InLongRange(r.value)
    ensures r.Some? ==> s != [] && s != "-" && s != "+"
    ensures r.Some? ==> forall i :: 0 < i < |s| ==> IsDigit(s[i])
  {
    if s == [] then None
    else
      var digits := if s[0] == '-' || s[0] == '+' then s[1..] else s;
      if digits == [] || !AllDigits(digits) then None
      else
        var n: int := if s[0] == '-' then -(DigitsValue(digits) as int) else DigitsValue(digits);
        if InLongRange(n) then Some(n) else None
  }

  /** The decimal digits of a natural number, without leading zeros. */
  function NatToString(n: nat): (r: string)
    decreases n
  {
    if n < 10 then [DigitChar(n)] else NatToString(n / 10) + [DigitChar(n % 10)]
  }

  /** `Long.toString(n)`: a '-' for a negative number, then the digits of its magnitude. */
  function LongToString(n: int): string
  {
    if n < 0 then "-" + NatToString(-n) else NatToString(n)
  }

  /** The digits of `n` are a non-empty run of digits whose value is `n`. */
  lemma {:induction false} NatToStringValue(n: nat)
    ensures NatToString(n) != [] && AllDigits(NatToString(n))
    ensures DigitsValue(NatToString(n)) == n
    decreases n
  {
    var s := NatToString(n);
    if n >= 10 {
      NatToStringValue(n / 10);
      assert s[..|s| - 1] == NatToString(n / 10);
      assert s[|s| - 1] == DigitChar(n % 10);
    }
  }

  /**
   * `Long.valueOf` inverts `Long.toString` on the 64-bit range, and refuses the decimal form of any
   * number outside it.
   */
  lemma ParseLongToString(n: int)
    ensures InLongRange(n) ==> ParseLong(LongToString(n)) == Some(n)
    ensures !InLongRange(n) ==> ParseLong(LongToString(n)) == None
  {
    var s := LongToString(n);
    if n < 0 {
      NatToStringValue(-n);
      assert s[1..] == NatToString(-n);
    } else {
      NatToStringValue(n);
    }
  }

  /** Leading zeros do not change the value: "007" parses as 7. */
  lemma {:induction false} LeadingZeroIgnored(ds: string)
    requires ds != [] && AllDigits(ds)
    ensures ParseLong(['0'] + ds) == ParseLong(ds)
  {
    ZeroPrefixValue(ds);
  }

  lemma {:induction false} ZeroPrefixValue(ds: string)
    requires AllDigits(ds)
    ensures AllDigits(['0'] + ds) && DigitsValue(['0'] + ds) == DigitsValue(ds)
    decreases |ds|
  {
    if ds != [] {
      var s := ['0'] + ds;
      ZeroPrefixValue(ds[..|ds| - 1]);
      assert s[..|s| - 1] == ['0'] + ds[..|ds| - 1];
    }
  }

  /** A character other than a digit, anywhere but a leading sign, makes the string unparseable. */
  lemma RejectsNonDigit(s: string, i: nat)
    requires i < |s| && !IsDigit(s[i]) && !(i == 0 && (s[0] == '-' || s[0] == '+'))
    ensures ParseLong(s) == None
  {
  }

  /**
   * A run of digits, bare or after a '+', parses to its value exactly when that value fits; after a '-' it
   * parses to the negation exactly when that fits, so "-9223372036854775808" is accepted and its bare
   * digits are not.
   */
  lemma ParsesDigits(ds: string)
    requires ds != [] && AllDigits(ds)
    ensures ParseLong(ds) == if DigitsValue(ds) <= MaxLong then Some(DigitsValue(ds)) else None
    ensures ParseLong("+" + ds) == if DigitsValue(ds) <= MaxLong then Some(DigitsValue(ds)) else None
    ensures ParseLong("-" + ds) == if -(DigitsValue(ds) as int) >= MinLong then Some(-(DigitsValue(ds) as int)) else None
  {
    assert ("-" + ds)[1..] == ds;
    assert ("+" + ds)[1..] == ds;
  }
}
