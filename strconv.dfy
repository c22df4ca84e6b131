/**
  Go's `int`, on the 64-bit builds the model assumes, and the two decimal
  conversions of package strconv the core relies on: `strconv.Atoi` parses
  the `offset` query parameter of the daily-video route, `strconv.Itoa`
  renders the pool statistics of the health report.
 */
module Strconv {
  import opened Wrappers

  const MinInt64: int := -0x8000_0000_0000_0000
  const MaxInt64: int := 0x7FFF_FFFF_FFFF_FFFF
  const TwoTo64: int := 0x1_0000_0000_0000_0000

  predicate IsInt64(x: int) {
    MinInt64 <= x <= MaxInt64
  }

  /** Two's-complement wrap-around of a mathematical integer into Go's `int`. */
  function Wrap64(x: int): (r: int)
    ensures IsInt64(r)
    ensures IsInt64(x) ==> r == x
    ensures MaxInt64 < x < MaxInt64 + TwoTo64 ==> r == x - TwoTo64
    ensures MinInt64 - TwoTo64 <= x < MinInt64 ==> r == x + TwoTo64
  {
    (x - MinInt64) % TwoTo64 + MinInt64
  }

  predicate IsDigit(c: char) {
    '0' <= c <= '9'
  }

  predicate AllDigits(s: string) {
    forall i :: 0 <= i < |s| ==> IsDigit(s[i])
  }

  /** The value of a string of decimal digits, most significant first. */
  function DigitsValue(s: string): nat
    requires AllDigits(s)
  {
    if s == [] then 0
    else DigitsValue(s[..|s| - 1]) * 10 + (s[|s| - 1] as int - '0' as int)
  }

  /**
    `strconv.Atoi`: an optional sign followed by at least one decimal digit
    (leading zeros allowed, no underscores, no spaces), whose value fits in a
    64-bit `int`; anything else is a syntax or range error (None).
   */
  function Atoi(s: string): (r: Option<int>)
    ensures r.Some? ==> IsInt64(r.value)
    ensures r.Some? ==> s != [] && (IsDigit(s[0]) || s[0] == '-' || s[0] == '+')
    ensures r.Some? ==> IsNumeral(s)
    ensures r.Some? && IsDigit(s[0]) ==> AllDigits(s) && r.value == DigitsValue(s)
    ensures r.Some? && s[0] == '-' ==> AllDigits(s[1..]) && r.value == -(DigitsValue(s[1..]) as int)
    ensures r.Some? && s[0] == '+' ==> AllDigits(s[1..]) && r.value == DigitsValue(s[1..])
    ensures IsNumeral(s) && IsInt64(NumeralValue(s)) ==> r == Some(NumeralValue(s))
  {
    if s == [] then None
    else if s[0] == '-' || s[0] == '+' then
      var digits := s[1..];
      if digits == [] || !AllDigits(digits) then None
      else
        var v := if s[0] == '-' then -(DigitsValue(digits) as int) else DigitsValue(digits);
        if IsInt64(v) then Some(v) else None
    else if !AllDigits(s) then None
    else if DigitsValue(s) <= MaxInt64 then Some(DigitsValue(s))
    else None
  }

  function DigitChar(d: nat): (c: char)
    requires d < 10
    ensures IsDigit(c) && c as int - '0' as int == d
  {
    ('0' as int + d) as char
  }

  /** The shortest decimal rendering of a natural number. */
  function NatDigits(n: nat): (s: string)
    ensures s != [] && AllDigits(s)
  {
    if n < 10 then [DigitChar(n)] else NatDigits(n / 10) + [DigitChar(n % 10)]
  }

  /** A digit string without a leading zero, except "0" itself. */
  predicate Canonical(d: string) {
    |d| == 1 || (d != [] && d[0] != '0')
  }

  /** The rendering of a natural number is canonical: "0", or no leading zero. */
  lemma {:induction false} NatDigitsCanonical(n: nat)
    ensures Canonical(NatDigits(n))
    ensures n > 0 ==> NatDigits(n)[0] != '0'
  {
    if n >= 10 {
      NatDigitsCanonical(n / 10);
      assert NatDigits(n)[0] == NatDigits(n / 10)[0];
    }
  }

  /** `strconv.Itoa` (and `strconv.FormatInt(n, 10)`): a minus sign for negative values, then the digits. */
  function Itoa(n: int): (s: string)
    ensures IsNumeral(s) && NumeralValue(s) == n
    ensures s[0] == '-' <==> n < 0
    ensures s[0] != '+'
    ensures Canonical(if n < 0 then s[1..] else s)
  {
    if n < 0 then
      DigitsValueOfNatDigits(-n);
      NatDigitsCanonical(-n);
      var s := "-" + NatDigits(-n);
      assert s[1..] == NatDigits(-n);
      s
    else
      DigitsValueOfNatDigits(n);
      NatDigitsCanonical(n);
      NatDigits(n)
  }

  lemma {:induction false} DigitsValueOfNatDigits(n: nat)
    ensures DigitsValue(NatDigits(n)) == n
  {
    if n >= 10 {
      var s := NatDigits(n);
      assert s[..|s| - 1] == NatDigits(n / 10);
      DigitsValueOfNatDigits(n / 10);
    }
  }

  /** Parsing what `Itoa` renders gives back the number, for every 64-bit value. */
  lemma AtoiItoa(n: int)
    requires IsInt64(n)
    ensures Atoi(Itoa(n)) == Some(n)
  {
    if n < 0 {
      DigitsValueOfNatDigits(-n);
      assert Itoa(n)[1..] == NatDigits(-n);
    } else {
      DigitsValueOfNatDigits(n);
    }
  }

  /** An optional sign followed by one or more decimal digits: the syntax `Atoi` accepts. */
  predicate IsNumeral(s: string) {
    s != [] &&
    if s[0] == '-' || s[0] == '+' then |s| > 1 && AllDigits(s[1..]) else AllDigits(s)
  }

  /** The value a numeral denotes, independently of any range limit. */
  function NumeralValue(s: string): int
    requires IsNumeral(s)
  {
    if s[0] == '-' then -(DigitsValue(s[1..]) as int)
    else if s[0] == '+' then DigitsValue(s[1..])
    else DigitsValue(s)
  }

  /**
    Atoi accepts exactly the numerals whose value fits in an `int`, and
    returns that value; every numeral shorter than 19 characters fits.
   */
  lemma AtoiAcceptsNumerals(s: string)
    ensures Atoi(s) == if IsNumeral(s) && IsInt64(NumeralValue(s)) then Some(NumeralValue(s)) else None
    ensures IsNumeral(s) && |s| < 19 ==> Atoi(s).Some?
  {
    if IsNumeral(s) && |s| < 19 {
      var digits := if s[0] == '-' || s[0] == '+' then s[1..] else s;
      DigitsValueBound(digits);
    }
  }

  /** A string of k digits is worth less than 10^k; 18 digits always fit in an `int`. */
  lemma {:induction false} DigitsValueBound(s: string)
    requires AllDigits(s)
    ensures |s| < 19 ==> DigitsValue(s) < Pow10(|s|)
    ensures |s| < 19 ==> DigitsValue(s) <= MaxInt64
  {
    if s != [] {
      DigitsValueBound(s[..|s| - 1]);
    }
    if |s| < 19 {
      Pow10Bound(|s|);
    }
  }

  function Pow10(k: nat): nat {
    if k == 0 then 1 else 10 * Pow10(k - 1)
  }

  lemma {:induction false} Pow10Bound(k: nat)
    requires k < 19
    ensures Pow10(k) <= 1_000_000_000_000_000_000
  {
    Pow10Monotone(k, 18);
    assert Pow10(3) == 1000;
    Pow10Add(3, 3);
    Pow10Add(6, 6);
    Pow10Add(12, 6);
  }

  lemma {:induction false} Pow10Add(a: nat, b: nat)
    ensures Pow10(a + b) == Pow10(a) * Pow10(b)
  {
    if a > 0 { Pow10Add(a - 1, b); }
  }

  lemma {:induction false} Pow10Monotone(j: nat, k: nat)
    requires j <= k
    ensures Pow10(j) <= Pow10(k)
  {
    if j < k { Pow10Monotone(j, k - 1); }
  }
}
