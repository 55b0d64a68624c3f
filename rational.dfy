/**
 * The TIFF rational types (src/rational.rs): a numerator/denominator pair of
 * 32-bit integers, unsigned or signed, with derived field-wise equality and the
 * `Display` form "n/d". The floating-point `value()` is not part of this model.
 */
module Rational {
  import opened Ints
  import opened Wrappers

  /** TIFF RATIONAL: two u32 values. Equality is the derived, field-wise one. */
  datatype URational = URational(numerator: u32, denominator: u32)
  {
    /** `Display`: decimal numerator, '/', decimal denominator; a zero denominator is not an error. */
    function ToString(): string {
      Decimal(numerator) + "/" + Decimal(denominator)
    }
  }

  /** TIFF SRATIONAL: two i32 values. */
  datatype IRational = IRational(numerator: i32, denominator: i32)
  {
    /** `Display`: signed decimals around '/'. */
    function ToString(): string {
      SignedDecimal(numerator) + "/" + SignedDecimal(denominator)
    }
  }

  predicate IsDigit(c: char) {
    '0' <= c <= '9'
  }

  predicate AllDigits(s: string) {
    forall i :: 0 <= i < |s| ==> IsDigit(s[i])
  }

  function DigitChar(d: nat): (c: char)
    requires d < 10
    ensures IsDigit(c)
  {
    (48 + d) as char
  }

  function DigitValue(c: char): (d: nat)
    requires IsDigit(c)
    ensures d < 10
  {
    c as int - 48
  }

  /** Rust's `{}` formatting of a non-negative integer: shortest decimal form. */
  function Decimal(n: nat): (s: string)
    ensures |s| >= 1 && AllDigits(s)
  {
    if n < 10 then [DigitChar(n)] else Decimal(n / 10) + [DigitChar(n % 10)]
  }

  /** Rust's `{}` formatting of a signed integer: a leading '-' for negatives. */
  function SignedDecimal(x: int): string {
    if x < 0 then "-" + Decimal(-x) else Decimal(x)
  }

  // ---------------------------------------------------------------------------
  // Reading the text back: an independent inverse of `ToString`.
  // ---------------------------------------------------------------------------

  /** The number denoted by a string of decimal digits (read left to right). */
  function DigitsValue(s: string): nat
    requires AllDigits(s)
  {
    if s == [] then 0 else DigitsValue(s[..|s| - 1]) * 10 + DigitValue(s[|s| - 1])
  }

  function ParseDecimal(s: string): Option<nat> {
    if s != [] && AllDigits(s) then Some(DigitsValue(s)) else None
  }

  function ParseSigned(s: string): Option<int> {
    if |s| > 0 && s[0] == '-' then
      match ParseDecimal(s[1..])
      case None => None
      case Some(v) => Some(0 - v as int)
    else
      match ParseDecimal(s)
      case None => None
      case Some(v) => Some(v)
  }

  /** Index of the first '/' in `s`, if any. */
  function FirstSlash(s: string): (r: Option<nat>)
    ensures r.Some? ==> r.value < |s| && s[r.value] == '/'
  {
    if s == [] then None
    else if s[0] == '/' then Some(0)
    else match FirstSlash(s[1..])
      case None => None
      case Some(k) => Some(k + 1)
  }

  function ParseURational(s: string): Option<URational> {
    match FirstSlash(s)
    case None => None
    case Some(k) =>
      match (ParseDecimal(s[..k]), ParseDecimal(s[k + 1..]))
      case (Some(n), Some(d)) =>
        if n < U32_LIMIT && d < U32_LIMIT then Some(URational(n, d)) else None
      case _ => None
  }

  function ParseIRational(s: string): Option<IRational> {
    match FirstSlash(s)
    case None => None
    case Some(k) =>
      match (ParseSigned(s[..k]), ParseSigned(s[k + 1..]))
      case (Some(n), Some(d)) =>
        if -0x8000_0000 <= n < 0x8000_0000 && -0x8000_0000 <= d < 0x8000_0000
        then Some(IRational(n, d)) else None
      case _ => None
  }

  // ---------------------------------------------------------------------------
  // Properties
  // ---------------------------------------------------------------------------

  /** The decimal text of `n` denotes `n`. */
  lemma {:induction false} DecimalValue(n: nat)
    ensures DigitsValue(Decimal(n)) == n
  {
    if n >= 10 {
      var s := Decimal(n);
      DecimalValue(n / 10);
      assert s[..|s| - 1] == Decimal(n / 10);
    }
  }

  lemma DecimalParses(n: nat)
    ensures ParseDecimal(Decimal(n)) == Some(n)
  {
    DecimalValue(n);
  }

  lemma SignedDecimalParses(x: int)
    ensures ParseSigned(SignedDecimal(x)) == Some(x)
  {
    if x < 0 {
      var s := SignedDecimal(x);
      assert s[1..] == Decimal(-x);
      DecimalParses(-x);
    } else {
      DecimalParses(x);
    }
  }

  lemma {:induction false} FirstSlashAfter(a: string, b: string)
    requires forall i :: 0 <= i < |a| ==> a[i] != '/'
    ensures FirstSlash(a + "/" + b) == Some(|a|)
  {
    if a != [] {
      assert (a + "/" + b)[1..] == a[1..] + "/" + b;
      FirstSlashAfter(a[1..], b);
    }
  }

  /** `Display` of an unsigned rational is read back exactly: the text is injective. */
  lemma URationalDisplayRoundTrip(q: URational)
    ensures ParseURational(q.ToString()) == Some(q)
  {
    var a, b := Decimal(q.numerator), Decimal(q.denominator);
    var s := q.ToString();
    FirstSlashAfter(a, b);
    assert s[..|a|] == a && s[|a| + 1..] == b;
    DecimalParses(q.numerator);
    DecimalParses(q.denominator);
  }

  lemma SignedDecimalNoSlash(x: int)
    ensures forall i :: 0 <= i < |SignedDecimal(x)| ==> SignedDecimal(x)[i] != '/'
  {
    if x < 0 {
      var d := Decimal(-x);
      assert forall i :: 1 <= i < |SignedDecimal(x)| ==> SignedDecimal(x)[i] == d[i - 1];
    }
  }

  /** `Display` of a signed rational is read back exactly, signs included. */
  lemma IRationalDisplayRoundTrip(q: IRational)
    ensures ParseIRational(q.ToString()) == Some(q)
  {
    var a, b := SignedDecimal(q.numerator), SignedDecimal(q.denominator);
    var s := q.ToString();
    SignedDecimalNoSlash(q.numerator);
    FirstSlashAfter(a, b);
    assert s[..|a|] == a && s[|a| + 1..] == b;
    SignedDecimalParses(q.numerator);
    SignedDecimalParses(q.denominator);
  }

  /** Worked examples: signed display and a zero denominator. */
  lemma DisplayExamples()
    ensures IRational(-1, 2).ToString() == "-1/2"
    ensures URational(1, 0).ToString() == "1/0"
  {
  }

  /** Derived equality compares fields, not values: 1/2 and 2/4 differ. */
  lemma EqualityIsFieldwise(p: URational, q: URational)
    ensures p == q <==> p.numerator == q.numerator && p.denominator == q.denominator
    ensures URational(1, 2) != URational(2, 4)
  {
  }
}
