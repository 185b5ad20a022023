/**
 * Prices and amounts as text: rounded half up to a number of digits that depends on the price.
 */
module PriceText {
  /** Half up, away from zero, as toFixed does; `scale` is a power of ten. */
  function Round(x: real, scale: real): real
    requires scale > 0.0
  {
    if x >= 0.0 then Units(x, scale) as real / scale else -(Units(-x, scale) as real / scale)
  }

  function Units(x: real, scale: real): int { (x * scale + 0.5).Floor }

  function FormatPrice(price: real): real {
    if price <= 0.0 then Round(price, 100000000.0)
    else if price >= 1000.0 then Round(price, 10.0)
    else if 0.9 <= price <= 1.1 then Round(price, 1000000.0)
    else if price >= 1.0 then Round(price, 10000.0)
    else Round(price, 1000000.0)
  }

  lemma {:induction false} OverScale(a: int, b: int, scale: real)
    requires 0 <= a <= b && scale > 0.0
    ensures 0.0 <= a as real / scale <= b as real / scale
  {
  }

  lemma {:induction false} RoundIsMonotone(x: real, y: real, scale: real)
    requires 0.0 <= x <= y && scale > 0.0
    ensures 0.0 <= Round(x, scale) <= Round(y, scale)
  {
    OverScale(Units(x, scale), Units(y, scale), scale);
  }

  /** A price that needs no rounding is a fixed point. */
  lemma {:induction false} Exact(k: nat, scale: real)
    requires scale > 0.0
    ensures Round(k as real / scale, scale) == k as real / scale
  {
    OverScale(0, k, scale);
    ExactUnits(k, scale);
  }

  lemma {:induction false} ExactUnits(k: nat, scale: real)
    requires scale > 0.0
    ensures Units(k as real / scale, scale) == k
  {
    assert (k as real + 0.5).Floor == k;
  }

  /** Although the precision changes at 0.9, 1.1 and 1000, a higher price never shows as a lower one. */
  lemma {:induction false} FormatIsMonotone(x: real, y: real)
    requires 0.0 <= x <= y
    ensures 0.0 <= FormatPrice(x) <= FormatPrice(y)
  {
    RoundIsMonotone(x, y, 100000000.0);
    RoundIsMonotone(x, y, 10.0);
    RoundIsMonotone(x, y, 10000.0);
    RoundIsMonotone(x, y, 1000000.0);
    if x <= 1.1 <= y {
      Exact(1100000, 1000000.0);
      Exact(11000, 10000.0);
      RoundIsMonotone(x, 1.1, 1000000.0);
      RoundIsMonotone(1.1, y, 10000.0);
    }
    if y >= 1000.0 {
      Exact(10000, 10.0);
      RoundIsMonotone(1000.0, y, 10.0);
      if x < 1000.0 {
        Exact(10000000, 10000.0);
        Exact(1000000000, 1000000.0);
        RoundIsMonotone(x, 1000.0, 10000.0);
        RoundIsMonotone(x, 1000.0, 1000000.0);
      }
    }
    if x == 0.0 {
      Exact(0, 100000000.0);
    }
  }

  /** A number of whole units, at most half a unit away. */
  ghost predicate NearestUnit(shown: real, x: real, scale: real)
    requires scale > 0.0
  {
    exists k: int :: UnitsNear(shown, x, scale, k)
  }

  predicate UnitsNear(shown: real, x: real, scale: real, k: int)
    requires scale > 0.0
  {
    shown == k as real / scale && -0.5 <= k as real - x * scale <= 0.5
  }

  lemma {:induction false} RoundIsNearest(x: real, scale: real)
    requires scale > 0.0
    ensures NearestUnit(Round(x, scale), x, scale)
  {
    if x >= 0.0 {
      assert UnitsNear(Round(x, scale), x, scale, Units(x, scale));
    } else {
      var k := -Units(-x, scale);
      assert (-x) * scale == -(x * scale);
      assert UnitsNear(Round(x, scale), x, scale, k);
    }
  }

  /** How fine a price is shown: one digit from 1000 on, four above 1.1, six below. */
  predicate Fineness(price: real, scale: real) {
    && (price >= 1000.0 ==> scale == 10.0)
    && (1.1 < price < 1000.0 ==> scale == 10_000.0)
    && (0.0 < price <= 1.1 ==> scale == 1_000_000.0)
    && (price <= 0.0 ==> scale == 100_000_000.0)
  }

  /** The price shown is the nearest at its fineness. */
  lemma {:induction false} FormatIsNearest(price: real, scale: real)
    requires Fineness(price, scale)
    ensures scale > 0.0 && NearestUnit(FormatPrice(price), price, scale)
  {
    RoundIsNearest(price, scale);
  }
}
