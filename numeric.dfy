/**
 * Exact stand-ins for the two floating-point primitives the core uses:
 * Python's built-in round() (ties go to the even neighbour) and
 * round(math.sqrt(s), 2). Both are taken over exact rationals.
 */
module Numeric {

  function Sq(v: int): (r: nat)
    ensures r == v * v
  {
    if v < 0 then (-v) * (-v) else v * v
  }

  /** Lets TermsSymmetric equate the squares of a difference and of its negation. */
  lemma SqNegate(v: int)
    ensures Sq(-v) == Sq(v)
  {
  }

  /** r is x rounded to an integer as Python's round() does: nearest, ties to even. */
  predicate RoundsTo(x: real, r: int)
  {
    x - 0.5 <= r as real <= x + 0.5 &&
    ((r as real - x == 0.5 || x - r as real == 0.5) ==> r % 2 == 0)
  }

  function RoundHalfEven(x: real): (r: int)
    ensures RoundsTo(x, r)
  {
    var f := x.Floor;
    var frac := x - f as real;
    if frac < 0.5 then f
    else if frac > 0.5 then f + 1
    else if f % 2 == 0 then f
    else f + 1
  }

  /** RoundsTo determines its integer: RoundHalfEven is the only rounding that meets it. */
  lemma RoundsToUnique(x: real, r1: int, r2: int)
    requires RoundsTo(x, r1) && RoundsTo(x, r2)
    ensures r1 == r2
  {
  }

  lemma RoundHalfEvenMonotone(x: real, y: real)
    requires x <= y
    ensures RoundHalfEven(x) <= RoundHalfEven(y)
  {
  }

  /**
   * r is the square root of m rounded to the nearest integer:
   * r - 1/2 <= sqrt(m) < r + 1/2, written without the root.
   */
  predicate IsNearestRoot(m: nat, r: nat)
  {
    (r == 0 || (2 * r - 1) * (2 * r - 1) <= 4 * m) && 4 * m < (2 * r + 1) * (2 * r + 1)
  }

  function NearestRoot(m: nat): (r: nat)
    ensures IsNearestRoot(m, r)
  {
    RootFrom(m, 0)
  }

  function RootFrom(m: nat, r: nat): (root: nat)
    requires r == 0 || (2 * r - 1) * (2 * r - 1) <= 4 * m
    ensures IsNearestRoot(m, root)
    decreases 4 * m + 1 - 2 * r
  {
    if 4 * m < (2 * r + 1) * (2 * r + 1) then r
    else
      assert 2 * r + 1 <= (2 * r + 1) * (2 * r + 1);
      RootFrom(m, r + 1)
  }

  /** Squares preserve order on nats; NearestRootUnique and NearestRootMonotone rest on it. */
  lemma SquareMonotone(a: nat, b: nat)
    requires a <= b
    ensures a * a <= b * b
  {
  }

  lemma NearestRootUnique(m: nat, r1: nat, r2: nat)
    requires IsNearestRoot(m, r1) && IsNearestRoot(m, r2)
    ensures r1 == r2
  {
    if r1 < r2 {
      SquareMonotone(2 * r1 + 1, 2 * r2 - 1);
    } else if r2 < r1 {
      SquareMonotone(2 * r2 + 1, 2 * r1 - 1);
    }
  }

  lemma NearestRootMonotone(m1: nat, m2: nat)
    requires m1 <= m2
    ensures NearestRoot(m1) <= NearestRoot(m2)
  {
    var r1, r2 := NearestRoot(m1), NearestRoot(m2);
    if r2 < r1 {
      SquareMonotone(2 * r2 + 1, 2 * r1 - 1);
    }
  }

  /**
   * sqrt(m) is never exactly halfway between two integers, so rounding it
   * half-up (IsNearestRoot) and half-to-even (Python's round) agree.
   */
  lemma NearestRootNoTie(m: nat, r: nat)
    ensures (2 * r - 1) * (2 * r - 1) != 4 * m
  {
    assert (2 * r - 1) * (2 * r - 1) == 4 * (r * r - r) + 1;
  }
}
