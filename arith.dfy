/**
 * Sign facts about products of reals, shared by the vector, kernel and
 * plasticity modules.
 *
 * Each lemma takes the product as a parameter of its own (`p == a * b`), so
 * that a caller can hand it any expression equal to the product and get the
 * sign of that expression back.
 */
module Arith {

  /** The square of a real, never negative. */
  function Sq(t: real): (r: real)
    ensures 0.0 <= r
  {
    SquareNonNegative(t, t * t);
    t * t
  }

  /** A square is zero exactly at zero. */
  lemma SqZero(t: real)
    ensures Sq(t) == 0.0 <==> t == 0.0
  {
    if t != 0.0 {
      SquareNonZero(t, t * t);
    }
  }

  lemma SquareNonNegative(t: real, p: real)
    requires p == t * t
    ensures !(p < 0.0)
  {
  }

  lemma SquareNonZero(t: real, p: real)
    requires p == t * t && t != 0.0
    ensures p != 0.0
  {
    if t < 0.0 {
      MulPositive(-t, -t, p);
    } else {
      MulPositive(t, t, p);
    }
  }

  lemma MulPositive(a: real, b: real, p: real)
    requires p == a * b && 0.0 < a && 0.0 < b
    ensures 0.0 < p
  {
  }

  lemma MulNonNegative(a: real, b: real, p: real)
    requires p == a * b && 0.0 <= a && 0.0 <= b
    ensures !(p < 0.0)
  {
  }

  lemma MulNonPositive(a: real, b: real, p: real)
    requires p == a * b && 0.0 <= a && b <= 0.0
    ensures !(0.0 < p)
  {
  }

  lemma MulNonZero(a: real, b: real, p: real)
    requires p == a * b && a != 0.0 && b != 0.0
    ensures p != 0.0
  {
    if a < 0.0 {
      if b < 0.0 { MulPositive(-a, -b, p); } else { MulPositive(-a, b, -p); }
    } else {
      if b < 0.0 { MulPositive(a, -b, -p); } else { MulPositive(a, b, p); }
    }
  }
}
