/** Whole-number arithmetic the screens show: decimal rendering of amounts and
    quantities, and percentages rounded to the nearest whole number. */
module Numeric {
  import opened Types

  function DigitChar(d: nat): (c: char)
    requires d < 10
    ensures '0' <= c <= '9'
    ensures c as int - '0' as int == d
  {
    ('0' as int + d) as char
  }

  predicate IsDigit(c: char) {
    '0' <= c <= '9'
  }

  /** The decimal numeral of `n`, without leading zeros. */
  function NatToString(n: nat): (r: string)
    ensures |r| >= 1
    ensures forall i :: 0 <= i < |r| ==> IsDigit(r[i])
    ensures r[0] == '0' ==> n == 0
  {
    if n < 10 then [DigitChar(n)] else NatToString(n / 10) + [DigitChar(n % 10)]
  }

  /** The decimal numeral of `i`, with a leading minus sign when negative. */
  function IntToString(i: int): (r: string)
    ensures |r| >= 1
    ensures (r[0] == '-') == (i < 0)
  {
    if i < 0 then "-" + NatToString(-i) else NatToString(i)
  }

  /** The value of a string of decimal digits. */
  function DigitsValue(s: string): (v: nat)
    requires forall i :: 0 <= i < |s| ==> IsDigit(s[i])
  {
    if s == [] then 0
    else
      assert IsDigit(s[|s| - 1]);
      DigitsValue(s[..|s| - 1]) * 10 + (s[|s| - 1] as int - '0' as int)
  }

  /** Reading the numeral back gives the number. */
  lemma {:induction false} NatToStringRoundTrip(n: nat)
    ensures DigitsValue(NatToString(n)) == n
  {
    var r := NatToString(n);
    if n >= 10 {
      var front := NatToString(n / 10);
      NatToStringRoundTrip(n / 10);
      assert r == front + [DigitChar(n % 10)];
      assert r[..|r| - 1] == front;
      assert DigitsValue(r) == DigitsValue(front) * 10 + n % 10;
    }
  }

  predicate AllDigits(s: string) {
    forall i :: 0 <= i < |s| ==> IsDigit(s[i])
  }

  /** How a spreadsheet reads a whole-number cell: digits with an optional
      leading minus sign; anything else is not a number. */
  function ReadInt(s: string): (r: Option<int>)
    ensures r.Some? ==> |s| >= 1
  {
    if |s| >= 2 && s[0] == '-' && AllDigits(s[1..]) then Some(-(DigitsValue(s[1..]) as int))
    else if |s| >= 1 && AllDigits(s) then Some(DigitsValue(s))
    else None
  }

  /** Every whole number is read back from its numeral. */
  lemma IntToStringRoundTrip(i: int)
    ensures ReadInt(IntToString(i)) == Some(i)
  {
    var r := IntToString(i);
    if i < 0 {
      var digits := NatToString(-i);
      assert r == "-" + digits;
      assert r[1..] == digits;
      assert AllDigits(r[1..]);
      NatToStringRoundTrip(-i);
    } else {
      assert AllDigits(r);
      assert r[0] != '-';
      NatToStringRoundTrip(i);
    }
  }

  /** Different numbers have different numerals. */
  lemma NatToStringInjective(a: nat, b: nat)
    requires NatToString(a) == NatToString(b)
    ensures a == b
  {
    NatToStringRoundTrip(a);
    NatToStringRoundTrip(b);
  }

  /** `round(100 * part / whole)` for a non-negative ratio, halves rounded up,
      and 0 when `whole` is 0. */
  function RoundedPercent(part: nat, whole: nat): (r: int)
    requires part <= whole
    ensures 0 <= r <= 100
    ensures whole == 0 ==> r == 0
    ensures whole > 0 ==> 2 * r * whole <= 200 * part + whole < 2 * (r + 1) * whole
  {
    if whole == 0 then 0
    else
      var x, d := 200 * part + whole, 2 * whole;
      QuotientBounds(x, d, 101);
      var r := x / d;
      assert r * d == 2 * r * whole && (r + 1) * d == 2 * (r + 1) * whole;
      r
  }

  /** The quotient of `x` by `d` lies in `0..m-1` when `x` lies in `0..m*d-1`,
      and `x` lies between it times `d` and the next multiple. */
  lemma QuotientBounds(x: int, d: int, m: int)
    requires d > 0 && 0 <= x < m * d
    ensures 0 <= x / d < m
    ensures (x / d) * d <= x < (x / d + 1) * d
  {
    var q := x / d;
    assert x == q * d + x % d && 0 <= x % d < d;
    assert (q + 1) * d == q * d + d;
    assert (m - q) * d == m * d - q * d;
    MulBounds(d, q + 1);
    MulBounds(d, m - q);
  }

  /** The rounded percentage is the nearest whole number: it is at most half a
      percentage point away from the exact ratio. */
  lemma RoundedPercentNearest(part: nat, whole: nat)
    requires part <= whole && whole > 0
    ensures -(whole as int) <= 2 * (100 * part - RoundedPercent(part, whole) * whole) < whole
  {
  }

  /** Nothing is 0 %, everything is 100 %. */
  lemma RoundedPercentEnds(whole: nat)
    requires whole > 0
    ensures RoundedPercent(0, whole) == 0 && RoundedPercent(whole, whole) == 100
  {
    DivUnique(200 * whole + whole, 2 * whole, 100);
  }

  /** The quotient of `x` by `d` is the one `q` with `q * d <= x < (q + 1) * d`. */
  lemma DivUnique(x: int, d: int, q: int)
    requires d > 0 && q * d <= x < q * d + d
    ensures x / d == q
  {
    var p := x / d;
    assert x == p * d + x % d && 0 <= x % d < d;
    MulBounds(d, p - q);
    assert (p - q) * d == p * d - q * d;
  }

  /** A non-zero multiple of a positive `d` is at least `d` away from 0. */
  lemma MulBounds(d: int, k: int)
    requires d > 0
    ensures k >= 1 ==> k * d >= d
    ensures k <= -1 ==> k * d <= -d
  {
  }
}
