/** Decimal money: amounts are rounded half-up (half away from zero) to whole cents. */
module Money {
  /** The rounding of a decimal amount to cents. */
  function AsMoney(x: real): int {
    if x >= 0.0 then (x * 100.0 + 0.5).Floor else -((-x * 100.0 + 0.5).Floor)
  }

  /** The decimal value of an amount in cents. */
  function Units(cents: int): real {
    cents as real / 100.0
  }

  /** Rounding moves an amount by at most half a cent, and an exact half moves away from zero. */
  lemma RoundsToNearest(x: real)
    ensures -0.5 <= AsMoney(x) as real - 100.0 * x <= 0.5
    ensures AsMoney(x) as real - 100.0 * x == 0.5 ==> x >= 0.0
    ensures AsMoney(x) as real - 100.0 * x == -0.5 ==> x <= 0.0
  {
  }

  /** AsMoney is the only such rounding. */
  lemma NearestIsUnique(x: real, c: int)
    requires -0.5 <= c as real - 100.0 * x <= 0.5
    requires c as real - 100.0 * x == 0.5 ==> x >= 0.0
    requires c as real - 100.0 * x == -0.5 ==> x <= 0.0
    ensures c == AsMoney(x)
  {
    RoundsToNearest(x);
    var d := AsMoney(x);
    assert -1.0 <= c as real - d as real <= 1.0;
    assert (c - d) as real == c as real - d as real;
  }

  /** Money is a fixed point of rounding. */
  lemma RoundingIsIdempotent(c: int)
    ensures AsMoney(Units(c)) == c
  {
    NearestIsUnique(Units(c), c);
  }

  lemma RoundingIsMonotone(x: real, y: real)
    requires x <= y
    ensures AsMoney(x) <= AsMoney(y)
  {
  }

  lemma RoundingIsOdd(x: real)
    ensures AsMoney(-x) == -AsMoney(x)
  {
    RoundsToNearest(x);
    assert (-AsMoney(x)) as real == -(AsMoney(x) as real);
    NearestIsUnique(-x, -AsMoney(x));
  }

  lemma RoundingKeepsSign(x: real)
    ensures x >= 0.0 ==> AsMoney(x) >= 0
    ensures AsMoney(x) > 0 ==> x > 0.0
  {
  }
}
