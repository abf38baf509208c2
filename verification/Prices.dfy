/** The price pipeline: a decimal price is translated to American odds and normalized back to a decimal of four
    places. Decimals are exact here; the results are counted in ten-thousandths. */
module Prices {
  import opened Wrappers
  import opened Domain

  // ROUND_HALF_UP of Decimal: halves go away from zero.
  function RoundAway(x: real): int {
    if x >= 0.0 then HalfUp(x) else -HalfUp(-x)
  }

  function DecimalToAmerican(d: real): int {
    if d <= 1.0 then 0
    else if d >= 2.0 then RoundAway((d - 1.0) * 100.0)
    else RoundAway(-100.0 / (d - 1.0))
  }

  // quantize with the default context: halves go to the even neighbour.
  function HalfEven(x: real): (n: int)
    ensures n as real - 0.5 <= x <= n as real + 0.5
  {
    var f := x.Floor;
    var rest := x - f as real;
    if rest < 0.5 || (rest == 0.5 && f % 2 == 0) then f else f + 1
  }

  function AmericanToDecimal(n: int): Option<int> {
    if n == 0 then None
    else if n > 0 then Some(HalfEven((n as real / 100.0 + 1.0) * 10000.0))
    else Some(HalfEven((-100.0 / n as real + 1.0) * 10000.0))
  }

  function Price(units: int): real {
    units as real / 10000.0
  }

  // What a quoted price becomes after translation and normalization; None when the quote is dropped.
  function Normalized(d: real): Option<int> {
    AmericanToDecimal(DecimalToAmerican(d))
  }

  // ---- rounding a quotient, in integers ----

  const MILLION := 1000000.0

  // The American magnitude of a price k ten-thousandths above 1, and the way back.
  function Magnitude(k: int): int
    requires k > 0
  {
    HalfUp(MILLION / k as real)
  }

  function Units(m: int): int
    requires m > 0
  {
    HalfEven(MILLION / m as real)
  }

  lemma TimesKeepsOrder(x: real, y: real, z: real)
    requires z > 0.0
    ensures x <= y <==> x * z <= y * z
  {
    if x <= y {
      assert (y - x) * z >= 0.0;
    } else {
      assert (x - y) * z > 0.0;
    }
  }

  // Comparing a half-integer with the quotient of a million by k is comparing integers.
  lemma HalfBelow(k: int, m: int)
    requires k > 0
    ensures m as real - 0.5 <= MILLION / k as real <==> (2 * m - 1) * k <= 2000000
    ensures m as real - 0.5 < MILLION / k as real <==> (2 * m - 1) * k < 2000000
  {
    var q, kr, x, p := MILLION / k as real, k as real, m as real - 0.5, m * k;
    assert p as real == m as real * kr;
    assert q * kr == MILLION;
    assert x * kr == p as real - kr / 2.0;
    assert (2 * p - k) as real == 2.0 * (p as real - kr / 2.0);
    assert (2 * m - 1) * k == 2 * p - k;
    TimesKeepsOrder(x, q, kr);
    TimesKeepsOrder(q, x, kr);
  }

  lemma HalfAbove(k: int, m: int)
    requires k > 0
    ensures MILLION / k as real < m as real + 0.5 <==> 2000000 < (2 * m + 1) * k
    ensures MILLION / k as real <= m as real + 0.5 <==> 2000000 <= (2 * m + 1) * k
  {
    HalfBelow(k, m + 1);
    assert (m + 1) as real - 0.5 == m as real + 0.5;
    assert 2 * (m + 1) - 1 == 2 * m + 1;
  }

  lemma HalfUpUnique(x: real, n: int)
    requires n as real - 0.5 <= x < n as real + 0.5
    ensures HalfUp(x) == n
  {
    var h := HalfUp(x);
    assert h as real < n as real + 1.0 && n as real < h as real + 1.0;
  }

  lemma HalfEvenUnique(x: real, n: int)
    requires n as real - 0.5 < x < n as real + 0.5
    ensures HalfEven(x) == n
  {
    var h := HalfEven(x);
    assert h as real < n as real + 1.0 && n as real < h as real + 1.0;
  }

  lemma HalfEvenShift(x: real)
    ensures HalfEven(x + 10000.0) == HalfEven(x) + 10000
  {
    assert (x + 10000.0).Floor == x.Floor + 10000;
  }

  lemma MagnitudeIs(k: int, m: int)
    requires k > 0 && (2 * m - 1) * k <= 2000000 < (2 * m + 1) * k
    ensures Magnitude(k) == m
  {
    HalfBelow(k, m);
    HalfAbove(k, m);
    HalfUpUnique(MILLION / k as real, m);
  }

  lemma UnitsIs(m: int, k: int)
    requires m > 0 && (2 * k - 1) * m < 2000000 < (2 * k + 1) * m
    ensures Units(m) == k
  {
    HalfBelow(m, k);
    HalfAbove(m, k);
    HalfEvenUnique(MILLION / m as real, k);
  }

  lemma UnitsBounds(m: int)
    requires m > 0
    ensures var k := Units(m); (2 * k - 1) * m <= 2000000 <= (2 * k + 1) * m
  {
    HalfBelow(m, Units(m));
    HalfAbove(m, Units(m));
  }

  lemma MagnitudeBounds(k: int)
    requires k > 0
    ensures var m := Magnitude(k); (2 * m - 1) * k <= 2000000 < (2 * m + 1) * k
  {
    HalfBelow(k, Magnitude(k));
    HalfAbove(k, Magnitude(k));
  }

  // Above 1000 units the American scale is the finer one: the way back finds the same magnitude.
  lemma FineMagnitude(m: int, k: int)
    requires 0 < m < k && (2 * k - 1) * m <= 2000000 <= (2 * k + 1) * m
    ensures Magnitude(k) == m
  {
    assert (2 * m - 1) * k == (2 * k - 1) * m + m - k;
    assert (2 * m + 1) * k == (2 * k + 1) * m - m + k;
    MagnitudeIs(k, m);
  }

  // Below 1000 units the decimal scale is: another magnitude may come back, but it stands for the same units.
  lemma FineUnits(k: int)
    requires 0 < k < 1000
    ensures Magnitude(k) > 0 && Units(Magnitude(k)) == k
  {
    var m := Magnitude(k);
    MagnitudeBounds(k);
    assert m > k by {
      if m <= k { assert (2 * m + 1) * k <= 1999 * 999 by { TimesBound(2 * m + 1, k, 1999, 999); } }
    }
    assert (2 * k - 1) * m == (2 * m - 1) * k + k - m;
    assert (2 * k + 1) * m == (2 * m + 1) * k - k + m;
    UnitsIs(m, k);
  }

  lemma TimesBound(a: int, b: int, x: nat, y: nat)
    requires a <= x && 0 <= b <= y
    ensures a * b <= x * y
  {
    assert (x - a) * b >= 0 && x * (y - b) >= 0;
  }

  /** Going back and forth once more reaches the same units: one of the two scales is always finer than half a
      step of the other. */
  lemma UnitsAreFixed(m: int)
    requires m > 0 && Units(m) > 0
    ensures Magnitude(Units(m)) > 0
    ensures Units(Magnitude(Units(m))) == Units(m)
  {
    var k := Units(m);
    UnitsBounds(m);
    if k > m {
      FineMagnitude(m, k);
    } else if k < 1000 {
      FineUnits(k);
    } else {
      if m > 1000 { TimesBound(1999, 1001, 2 * k - 1, m); }
      assert k == 1000;
      MagnitudeIs(1000, 1000);
    }
  }

  // ---- the pipeline in units ----

  lemma PositivePrice(n: int)
    requires n > 0
    ensures AmericanToDecimal(n) == Some(100 * n + 10000)
  {
    var x := (n as real / 100.0 + 1.0) * 10000.0;
    assert x == (100 * n + 10000) as real;
    HalfEvenUnique(x, 100 * n + 10000);
  }

  lemma NegativePrice(m: int)
    requires m > 0
    ensures AmericanToDecimal(-m) == Some(Units(m) + 10000)
  {
    assert -100.0 / (-m) as real == 100.0 / m as real by {
      assert (-m) as real == -(m as real);
    }
    assert (100.0 / m as real + 1.0) * 10000.0 == MILLION / m as real + 10000.0;
    HalfEvenShift(MILLION / m as real);
  }

  lemma LongPrice(d: real)
    requires d >= 2.0
    ensures var n := HalfUp((d - 1.0) * 100.0); n >= 100 && Normalized(d) == Some(100 * n + 10000)
  {
    PositivePrice(HalfUp((d - 1.0) * 100.0));
  }

  lemma ShortPrice(d: real)
    requires 1.0 < d < 2.0
    ensures var m := HalfUp(100.0 / (d - 1.0)); m >= 100 && Normalized(d) == Some(Units(m) + 10000)
  {
    var x, y := d - 1.0, 100.0 / (d - 1.0);
    assert -100.0 / x == -y;
    assert y > 100.0 by { TimesKeepsOrder(y, 100.0, x); assert y * x == 100.0; }
    NegativePrice(HalfUp(y));
  }

  // A price of whole units goes back through its magnitude.
  lemma RequotedUnits(k: int)
    requires 0 < k < 10000
    ensures Magnitude(k) > 0 && Normalized(Price(k + 10000)) == Some(Units(Magnitude(k)) + 10000)
  {
    var d := Price(k + 10000);
    assert d - 1.0 == k as real / 10000.0;
    assert 100.0 / (k as real / 10000.0) == MILLION / k as real;
    ShortPrice(d);
  }

  lemma RequotedLongPrice(n: int)
    requires n >= 100
    ensures Normalized(Price(100 * n + 10000)) == Some(100 * n + 10000)
  {
    var d := Price(100 * n + 10000);
    assert (d - 1.0) * 100.0 == n as real;
    HalfUpUnique(n as real, n);
    LongPrice(d);
  }

  // The shortest prices lose every unit: from two millions on, a magnitude stands for the price 1.0000.
  lemma UnitsVanish(m: int)
    requires m > 0
    ensures Units(m) >= 0
    ensures Units(m) == 0 <==> m >= 2000000
  {
    UnitsBounds(m);
    if Units(m) < 0 {
      TimesBound(2 * Units(m) + 1, m, 0, m);
    } else if m > 2000000 {
      UnitsIs(m, 0);
    } else if m == 2000000 {
      assert MILLION / m as real == 0.5;
      assert HalfEven(0.5) == 0;
    }
  }

  lemma UnitsAtMost(m: int)
    requires m >= 100
    ensures Units(m) <= 10000
    ensures Units(m) == 10000 ==> m == 100
    ensures m == 100 ==> Units(m) == 10000
  {
    UnitsBounds(m);
    if Units(m) > 10000 {
      TimesBound(20001, 100, 2 * Units(m) - 1, m);
    }
    assert Units(m) == 10000 ==> 19999 * m <= 2000000;
    if m == 100 { UnitsIs(100, 10000); }
  }

  // ---- the two laws ----

  lemma ErrorPerUnit(error: real, m: real)
    requires m >= 101.0 && -0.49755 <= error * m <= 0.49755
    ensures -0.00493 <= error <= 0.00493
  {
    assert 0.00493 * m >= 0.49755 && -0.00493 * m <= -0.49755;
    TimesKeepsOrder(error, 0.00493, m);
    TimesKeepsOrder(-0.00493, error, m);
  }

  // x is the winning part of a price, y its exact American magnitude, m the rounded one and z what m stands for.
  lemma RoundedMagnitude(x: real, y: real, m: real, z: real)
    requires x > 0.0 && y * x == 100.0 && z * m == 100.0
    requires m >= 101.0 && m - 0.5 <= y <= m + 0.5
    ensures -0.00493 <= z - x <= 0.00493
  {
    var part := (y - m) * x;
    assert part == y * x - m * x == (z - x) * m;
    TimesKeepsOrder(y - m, 0.5, x);
    TimesKeepsOrder(-0.5, y - m, x);
    TimesKeepsOrder(100.5, y, x);
    assert 100.5 * x <= 100.0;
    ErrorPerUnit(z - x, m);
  }

  lemma EvenMagnitude(x: real, y: real)
    requires 0.0 < x < 1.0 && y * x == 100.0 && y < 100.5
    ensures 0.995 <= x
  {
    TimesKeepsOrder(y, 100.5, x);
  }

  lemma ShortErrorBound(x: real, m: int)
    requires 0.0 < x < 1.0 && m >= 100 && m as real - 0.5 <= 100.0 / x < m as real + 0.5
    ensures -0.005 <= Units(m) as real / 10000.0 - x <= 0.005
  {
    var y, z, k := 100.0 / x, 100.0 / m as real, Units(m) as real;
    assert y * x == 100.0;
    if m == 100 {
      EvenMagnitude(x, y);
      UnitsAtMost(m);
    } else {
      assert -0.5 <= k - 10000.0 * z <= 0.5 by { assert MILLION / m as real == 10000.0 * z; }
      assert z * m as real == 100.0;
      RoundedMagnitude(x, y, m as real, z);
    }
  }

  /** Translating and normalizing a price moves it by at most half a cent, whatever the price. */
  lemma PriceErrorBound(d: real)
    requires d > 1.0
    ensures Normalized(d).Some?
    ensures -0.005 <= Price(Normalized(d).value) - d <= 0.005
  {
    if d >= 2.0 {
      LongPrice(d);
      var n := HalfUp((d - 1.0) * 100.0);
      assert Price(100 * n + 10000) == n as real / 100.0 + 1.0;
    } else {
      ShortPrice(d);
      var m := HalfUp(100.0 / (d - 1.0));
      ShortErrorBound(d - 1.0, m);
      assert Price(Units(m) + 10000) == Units(m) as real / 10000.0 + 1.0;
    }
  }

  lemma LongPriceIsFixed(d: real)
    requires d >= 2.0
    ensures 100.0 / (d - 1.0) <= 100.0
    ensures Normalized(d).Some? && Normalized(Price(Normalized(d).value)) == Normalized(d)
  {
    var y := 100.0 / (d - 1.0);
    assert y * (d - 1.0) == 100.0;
    TimesKeepsOrder(y, 100.0, d - 1.0);
    LongPrice(d);
    RequotedLongPrice(HalfUp((d - 1.0) * 100.0));
  }

  lemma ShortPriceIsFixed(m: int)
    requires m >= 100
    ensures Normalized(Price(Units(m) + 10000)) == if m < 2000000 then Some(Units(m) + 10000) else None
  {
    UnitsVanish(m);
    UnitsAtMost(m);
    if Units(m) == 10000 {
      RequotedLongPrice(100);
    } else if Units(m) > 0 {
      RequotedUnits(Units(m));
      UnitsAreFixed(m);
    } else {
      assert Price(10000) == 1.0;
    }
  }

  /** Normalizing a normalized price never drifts, with one exact exception: a price so short that it was stored
      as 1.0000, which the next translation refuses. */
  lemma NormalizingIsIdempotent(d: real)
    requires d > 1.0
    ensures
      var q := Normalized(d);
      q.Some? && Normalized(Price(q.value)) == if 100.0 / (d - 1.0) < 1999999.5 then q else None
  {
    if d >= 2.0 {
      LongPriceIsFixed(d);
    } else {
      ShortPrice(d);
      ShortPriceIsFixed(HalfUp(100.0 / (d - 1.0)));
    }
  }

  /** The prices the feed can quote: from 1.0001 on, nothing drifts. */
  lemma QuotablePricesAreStable(d: real)
    requires d >= 1.0001
    ensures Normalized(d).Some? && Normalized(Price(Normalized(d).value)) == Normalized(d)
  {
    var y := 100.0 / (d - 1.0);
    assert y * (d - 1.0) == 100.0;
    assert y <= MILLION by { TimesKeepsOrder(y, MILLION, d - 1.0); }
    NormalizingIsIdempotent(d);
  }

  lemma NoPriceAtOrBelowOne(d: real)
    requires d <= 1.0
    ensures Normalized(d).None?
  {
  }
}
