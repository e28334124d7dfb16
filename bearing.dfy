/**
 * Bearings in degrees: normalisation into [-180, 180] and the signed or absolute
 * difference between two bearings, with Java's truncated remainder on doubles.
 */
module Bearing {
  import opened Util

  const RIGHT_ANGLE: real := 90.0
  const HALF_ROTATION: real := 180.0
  const FULL_ROTATION: real := 360.0

  function Ceil(x: real): int
  {
    -((-x).Floor)
  }

  /**
   * The value `normalise` returns: a bearing above 180 loses the fewest full turns
   * that bring it to 180 or below, one below -180 gains the fewest that bring it
   * to -180 or above, and anything in between is kept.
   */
  function Normalised(x: real): real
  {
    if x > HALF_ROTATION then x - FULL_ROTATION * (Ceil((x - HALF_ROTATION) / FULL_ROTATION) as real)
    else if x < -HALF_ROTATION then x + FULL_ROTATION * (Ceil((-HALF_ROTATION - x) / FULL_ROTATION) as real)
    else x
  }

  predicate IsWhole(y: real)
  {
    y.Floor as real == y
  }

  /** A real lies within [-180, 180] and differs from `x` by whole turns. */
  predicate SameBearingInRange(x: real, r: real)
  {
    -HALF_ROTATION <= r <= HALF_ROTATION && IsWhole((x - r) / FULL_ROTATION)
  }

  lemma CeilBounds(y: real)
    ensures y <= Ceil(y) as real < y + 1.0
  {}

  /** The normalised bearing is in [-180, 180], whole turns away from the input, and unchanged when already in range. */
  lemma NormalisedProperties(x: real)
    ensures SameBearingInRange(x, Normalised(x))
    ensures -HALF_ROTATION <= x <= HALF_ROTATION ==> Normalised(x) == x
    ensures x > HALF_ROTATION ==> Normalised(x) > -HALF_ROTATION
    ensures x < -HALF_ROTATION ==> Normalised(x) < HALF_ROTATION
  {
    if x > HALF_ROTATION {
      var y := (x - HALF_ROTATION) / FULL_ROTATION;
      CeilBounds(y);
      TurnsApart(x, Normalised(x), Ceil(y));
    } else if x < -HALF_ROTATION {
      var y := (-HALF_ROTATION - x) / FULL_ROTATION;
      CeilBounds(y);
      TurnsApart(x, Normalised(x), -Ceil(y));
    } else {
      TurnsApart(x, x, 0);
    }
  }

  /** Two reals `k` full turns apart differ by a whole number of turns. */
  lemma TurnsApart(x: real, r: real, k: int)
    requires r == x - FULL_ROTATION * (k as real)
    ensures IsWhole((x - r) / FULL_ROTATION)
  {
    assert (x - r) / FULL_ROTATION == k as real;
  }

  /** `Bearing.normalise`: two loops taking off, then adding, full turns. */
  method Normalise(bearing: real) returns (x: real)
    ensures x == Normalised(bearing)
    ensures SameBearingInRange(bearing, x)
  {
    NormalisedProperties(bearing);
    x := bearing;
    var turns := 0;
    while x > HALF_ROTATION
      invariant x == bearing - FULL_ROTATION * (turns as real)
      invariant bearing > HALF_ROTATION ==> 0 <= turns <= Ceil((bearing - HALF_ROTATION) / FULL_ROTATION)
      invariant bearing <= HALF_ROTATION ==> turns == 0
      decreases if x > HALF_ROTATION then (x - HALF_ROTATION).Floor + 1 else 0
    {
      x := x - FULL_ROTATION;
      turns := turns + 1;
    }
    assert bearing > HALF_ROTATION ==> x == Normalised(bearing) by {
      if bearing > HALF_ROTATION {
        CeilBounds((bearing - HALF_ROTATION) / FULL_ROTATION);
      }
    }
    var back := 0;
    while x < -HALF_ROTATION
      invariant bearing < -HALF_ROTATION ==> x == bearing + FULL_ROTATION * (back as real)
      invariant bearing < -HALF_ROTATION ==> 0 <= back <= Ceil((-HALF_ROTATION - bearing) / FULL_ROTATION)
      invariant bearing >= -HALF_ROTATION ==> back == 0 && x == Normalised(bearing)
      decreases if x < -HALF_ROTATION then (-HALF_ROTATION - x).Floor + 1 else 0
    {
      x := x + FULL_ROTATION;
      back := back + 1;
    }
    if bearing < -HALF_ROTATION {
      CeilBounds((-HALF_ROTATION - bearing) / FULL_ROTATION);
    }
  }

  /** `Bearing.diff(a, b)`: the normalised truncated remainder of b - a by a full turn. */
  function Diff(a: real, b: real): (r: real)
    ensures SameBearingInRange(b - a, r)
  {
    var rem := JavaRem(b - a, FULL_ROTATION);
    NormalisedProperties(rem);
    RemainderTurns(b - a);
    WholeSum((b - a - rem) / FULL_ROTATION, (rem - Normalised(rem)) / FULL_ROTATION);
    assert (b - a - rem) / FULL_ROTATION + (rem - Normalised(rem)) / FULL_ROTATION
        == (b - a - Normalised(rem)) / FULL_ROTATION;
    Normalised(rem)
  }

  lemma RemainderTurns(d: real)
    ensures IsWhole((d - JavaRem(d, FULL_ROTATION)) / FULL_ROTATION)
  {
    var t := Trunc(d / FULL_ROTATION);
    assert JavaRem(d, FULL_ROTATION) == d - FULL_ROTATION * (t as real);
    assert (d - JavaRem(d, FULL_ROTATION)) / FULL_ROTATION == t as real;
  }

  lemma WholeSum(a: real, b: real)
    requires IsWhole(a) && IsWhole(b)
    ensures IsWhole(a + b)
  {
    assert a + b == (a.Floor + b.Floor) as real;
  }

  /** `Bearing.diff(a, b, abs)`: the absolute difference when asked, the signed one otherwise. */
  function DiffAbs(a: real, b: real, abs: bool): (r: real)
    ensures abs ==> 0.0 <= r <= HALF_ROTATION && (r == Diff(a, b) || r == -Diff(a, b))
    ensures !abs ==> r == Diff(a, b)
  {
    if abs then Abs(Diff(a, b)) else Diff(a, b)
  }

  /** A bearing differs from itself by nothing. */
  lemma DiffSelf(a: real)
    ensures Diff(a, a) == 0.0
  {
    assert JavaRem(0.0, FULL_ROTATION) == 0.0;
  }
}
