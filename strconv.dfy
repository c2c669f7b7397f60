/**
 * Go's strconv.ParseInt(s, 10, 64), as the relative-time parser calls it, and
 * a decimal renderer (the shape strconv.FormatInt produces) as its partner.
 *
 * ParseInt strips one optional sign and hands the rest to the base-10 digit
 * loop of ParseUint. That loop stops at the first non-digit (a syntax error,
 * value 0) or at the first digit that takes the value past 2^64 - 1 (a range
 * error, value 2^64 - 1), whichever comes first. ParseInt then clamps values
 * outside the int64 range to the nearest bound and reports a range error.
 */
module Strconv {

  import opened Wrappers

  datatype NumError = ErrSyntax | ErrRange

  /** The two results of ParseInt: the value and the error, if any. */
  datatype Parsed = Parsed(value: int, err: Option<NumError>)

  const MaxUint64: int := 0xFFFF_FFFF_FFFF_FFFF
  const MaxInt64: int := 0x7FFF_FFFF_FFFF_FFFF
  const MinInt64: int := -0x8000_0000_0000_0000

  predicate IsDigit(c: char)
  {
    '0' <= c <= '9'
  }

  predicate AllDigits(s: string)
  {
    forall k :: 0 <= k < |s| ==> IsDigit(s[k])
  }

  function DigitValue(c: char): (d: nat)
    requires IsDigit(c)
    ensures d < 10
  {
    c as int - '0' as int
  }

  function DigitChar(d: nat): (c: char)
    requires d < 10
    ensures IsDigit(c) && DigitValue(c) == d
  {
    ('0' as int + d) as char
  }

  /** The number a digit string denotes, most significant digit first. */
  function DigitsValue(s: string): nat
    requires AllDigits(s)
    decreases |s|
  {
    if |s| == 0 then 0
    else DigitsValue(s[..|s| - 1]) * 10 + DigitValue(s[|s| - 1])
  }

  /** Some non-empty prefix of `s` is all digits and already exceeds 2^64 - 1. */
  predicate PrefixOverflows(s: string)
    decreases |s|
  {
    |s| > 0 && (PrefixOverflows(s[..|s| - 1]) || (AllDigits(s) && DigitsValue(s) > MaxUint64))
  }

  /** PrefixOverflows names the prefix at which the digit loop overflows. */
  lemma {:induction false} PrefixOverflowsWitness(s: string)
    ensures PrefixOverflows(s) <==>
      exists j :: 0 < j <= |s| && AllDigits(s[..j]) && DigitsValue(s[..j]) > MaxUint64
    decreases |s|
  {
    if |s| > 0 {
      var front := s[..|s| - 1];
      PrefixOverflowsWitness(front);
      assert s[..|s|] == s;
      forall j | 0 < j < |s|
        ensures s[..j] == front[..j]
      {
      }
    }
  }

  /**
   * The digit loop of ParseUint in base 10, checking each character in turn:
   * a range error exactly when an all-digit prefix overflows before any
   * non-digit is met, a syntax error when a non-digit comes first.
   */
  function AccumulateDigits(s: string): (r: Parsed)
    ensures r.err == None <==> AllDigits(s) && DigitsValue(s) <= MaxUint64
    ensures r.err == None ==> r.value == DigitsValue(s)
    ensures r.err == Some(ErrSyntax) ==> r.value == 0 && !AllDigits(s)
    ensures r.err == Some(ErrRange) <==> PrefixOverflows(s)
    ensures r.err == Some(ErrRange) ==> r.value == MaxUint64
    decreases |s|
  {
    if |s| == 0 then Parsed(0, None)
    else
      var prefix := AccumulateDigits(s[..|s| - 1]);
      var c := s[|s| - 1];
      if prefix.err.Some? then
        assert !AllDigits(s[..|s| - 1]) ==> !AllDigits(s);
        prefix
      else if !IsDigit(c) then Parsed(0, Some(ErrSyntax))
      else if prefix.value * 10 + DigitValue(c) > MaxUint64 then Parsed(MaxUint64, Some(ErrRange))
      else Parsed(prefix.value * 10 + DigitValue(c), None)
  }

  /** strconv.ParseUint(s, 10, 64): the empty string is a syntax error. */
  function ParseUint(s: string): (r: Parsed)
    ensures r.err == None <==> |s| > 0 && AllDigits(s) && DigitsValue(s) <= MaxUint64
    ensures r.err == None ==> r.value == DigitsValue(s)
    ensures r.err == Some(ErrSyntax) ==> r.value == 0
    ensures r.err == Some(ErrRange) <==> PrefixOverflows(s)
    ensures r.err == Some(ErrRange) ==> r.value == MaxUint64
  {
    if |s| == 0 then Parsed(0, Some(ErrSyntax)) else AccumulateDigits(s)
  }

  /** The digits after an optional leading '+' or '-'. */
  function Unsigned(s: string): string
  {
    if |s| > 0 && (s[0] == '+' || s[0] == '-') then s[1..] else s
  }

  /** An optional sign followed by at least one decimal digit. */
  predicate WellFormed(s: string)
  {
    |Unsigned(s)| > 0 && AllDigits(Unsigned(s))
  }

  /** The integer a well-formed decimal string denotes. */
  function DecimalValue(s: string): int
    requires WellFormed(s)
  {
    var magnitude: int := DigitsValue(Unsigned(s));
    if s[0] == '-' then -magnitude else magnitude
  }

  /**
   * strconv.ParseInt(s, 10, 64). A malformed string ("", "-", "abc", "12x")
   * is a syntax error with value 0 unless its digits overflow before the first
   * non-digit; a range error gives MinInt64 after a '-' and MaxInt64 otherwise.
   */
  function ParseInt(s: string): (r: Parsed)
    ensures MinInt64 <= r.value <= MaxInt64
    ensures r.err == None <==> WellFormed(s) && MinInt64 <= DecimalValue(s) <= MaxInt64
    ensures r.err == None ==> r.value == DecimalValue(s)
    ensures r.err == Some(ErrSyntax) <==> !WellFormed(s) && !PrefixOverflows(Unsigned(s))
    ensures r.err == Some(ErrSyntax) ==> r.value == 0
    ensures r.err == Some(ErrRange) ==> r.value == (if |s| > 0 && s[0] == '-' then MinInt64 else MaxInt64)
  {
    if |s| == 0 then Parsed(0, Some(ErrSyntax))
    else
      var neg := s[0] == '-';
      var u := ParseUint(Unsigned(s));
      match u.err
      case Some(ErrSyntax) => Parsed(0, Some(ErrSyntax))
      case _ =>
        if !neg && u.value >= 0x8000_0000_0000_0000 then Parsed(MaxInt64, Some(ErrRange))
        else if neg && u.value > 0x8000_0000_0000_0000 then Parsed(MinInt64, Some(ErrRange))
        else Parsed(if neg then -u.value else u.value, None)
  }

  /** The decimal digits of a natural number, without leading zeros. */
  function Digits(n: nat): (s: string)
    ensures |s| > 0 && AllDigits(s) && DigitsValue(s) == n
    decreases n
  {
    if n < 10 then [DigitChar(n)]
    else
      var s := Digits(n / 10) + [DigitChar(n % 10)];
      assert s[..|s| - 1] == Digits(n / 10);
      s
  }

  /** Decimal rendering of an integer, with a '-' for negative numbers. */
  function DecimalString(n: int): (s: string)
    ensures forall k :: 0 <= k < |s| ==> IsDigit(s[k]) || s[k] == '-'
  {
    if n < 0 then "-" + Digits(-n) else Digits(n)
  }

  /** A rendered number ends in a digit. */
  lemma DecimalStringEndsInDigit(n: int)
    ensures |DecimalString(n)| > 0 && IsDigit(DecimalString(n)[|DecimalString(n)| - 1])
  {
    if n < 0 {
      var d := Digits(-n);
      assert ("-" + d)[|d|] == d[|d| - 1];
    }
  }

  /** Round trip: ParseInt reads back every rendered int64 value without error. */
  lemma ParseDecimalString(n: int)
    requires MinInt64 <= n <= MaxInt64
    ensures ParseInt(DecimalString(n)) == Parsed(n, None)
  {
    var s := DecimalString(n);
    if n < 0 {
      assert Unsigned(s) == Digits(-n);
    } else {
      assert IsDigit(Digits(n)[0]);
      assert Unsigned(s) == Digits(n);
    }
    assert WellFormed(s) && DecimalValue(s) == n;
  }
}
