/** Rounding of monetary figures: `Math.ceil` for the integer fields and
    `toFixed(2)` for the two-decimal fields, both on exact reals. */
module Rounding {

  /** `Math.ceil`: the least integer not below `x`. */
  function Ceil(x: real): (c: int)
    ensures x <= c as real < x + 1.0
  {
    -((-x).Floor)
  }

  /** `x` is a whole number of cents. */
  predicate IsCents(x: real) {
    (x * 100.0).Floor as real == x * 100.0
  }

  /** `+x.toFixed(2)`: `x` rounded to the nearest cent, a tie going away from zero. */
  function Round2(x: real): (r: real)
    ensures IsCents(r)
    ensures x >= 0.0 ==> r >= 0.0 && r - 0.005 <= x < r + 0.005
    ensures x < 0.0 ==> r <= 0.0 && r - 0.005 < x <= r + 0.005
  {
    if x >= 0.0 then HalfUp(x) else -HalfUp(-x)
  }

  /** Rounding of a non-negative value to the nearest cent, a tie going up. */
  function HalfUp(y: real): (r: real)
    requires y >= 0.0
    ensures IsCents(r) && IsCents(-r)
    ensures r >= 0.0 && r - 0.005 <= y < r + 0.005
  {
    var k := (y * 100.0 + 0.5).Floor;
    assert (k as real / 100.0) * 100.0 == k as real;
    assert (-(k as real / 100.0)) * 100.0 == -k as real;
    k as real / 100.0
  }

  /** The floor of a real is the one integer just below it. */
  lemma FloorIsUnique(y: real, i: int)
    requires i as real <= y < i as real + 1.0
    ensures y.Floor == i
  {
  }

  /** A whole number of cents is left as it is by `toFixed(2)`. */
  lemma Round2OfCents(c: real)
    requires IsCents(c)
    ensures Round2(c) == c
  {
    var k := (c * 100.0).Floor;
    if c >= 0.0 {
      FloorIsUnique(c * 100.0 + 0.5, k);
    } else {
      assert ((-c) * 100.0).Floor == -k by { FloorIsUnique((-c) * 100.0, -k); }
      FloorIsUnique((-c) * 100.0 + 0.5, -k);
    }
  }

  /** Whole numbers of cents stay whole under subtraction. */
  lemma CentsDifference(a: real, b: real)
    requires IsCents(a) && IsCents(b)
    ensures IsCents(a - b)
  {
    FloorIsUnique((a - b) * 100.0, (a * 100.0).Floor - (b * 100.0).Floor);
  }

  /** Rounding a non-negative value and then adding whole cents is the same
      as adding them first: the cents pass through the rounding unchanged. */
  lemma Round2AddCents(x: real, c: real)
    requires x >= 0.0 && c >= 0.0 && IsCents(c)
    ensures Round2(x + c) == Round2(x) + c
  {
    var k := (c * 100.0).Floor;
    var f := (x * 100.0 + 0.5).Floor;
    assert (x + c) * 100.0 + 0.5 == (x * 100.0 + 0.5) + k as real;
    FloorIsUnique((x + c) * 100.0 + 0.5, f + k);
  }

  /** Rounding to the cent never reverses the order of two non-negative values. */
  lemma Round2Monotone(x: real, y: real)
    requires 0.0 <= x <= y
    ensures Round2(x) <= Round2(y)
  {
    assert (x * 100.0 + 0.5).Floor <= (y * 100.0 + 0.5).Floor;
  }

  /** A non-negative value rounds to zero exactly when it is below half a cent. */
  lemma Round2IsZero(x: real)
    requires x >= 0.0
    ensures Round2(x) == 0.0 <==> x < 0.005
  {
    if x < 0.005 {
      FloorIsUnique(x * 100.0 + 0.5, 0);
    }
  }

  /** Ceilings taken separately add up to the ceiling of the sum, or to one more. */
  lemma {:induction false} CeilOfSum(a: real, b: real)
    ensures Ceil(a) + Ceil(b) - 1 <= Ceil(a + b) <= Ceil(a) + Ceil(b)
  {
  }
}
