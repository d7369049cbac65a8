/**
 * The cubic-spline smoothing kernel `W` and its gradient `gradW` (SPH.cpp).
 *
 * With `q = r / h`, the kernel is `(1 - 1.5 q^2 + 0.75 q^3) / (pi h^3)` on
 * `[0, 1]`, `(2 - q)^3 / (4 pi h^3)` on `(1, 2]` and 0 beyond. `M_PI` is the
 * constant `PI`; the proofs use only that it is positive.
 */
module Kernel {
  import opened Arith
  import opened Vectors

  const PI: real := 3.141592653589793

  /** Below this distance `gradW` returns the zero vector (the source's `1e-6f`). */
  const MIN_DISTANCE: real := 0.000001

  function InnerShape(q: real): real
  {
    1.0 - 1.5 * q * q + 0.75 * q * q * q
  }

  function OuterShape(q: real): real
  {
    (2.0 - q) * (2.0 - q) * (2.0 - q)
  }

  /** The branch of `W` for `q <= 1`. */
  function InnerPiece(q: real, h: real): real
    requires h > 0.0
  {
    PiCubePositive(h);
    (1.0 / (PI * h * h * h)) * InnerShape(q)
  }

  /** The branch of `W` for `1 < q <= 2`. */
  function OuterPiece(q: real, h: real): real
    requires h > 0.0
  {
    PiCubePositive(h);
    (1.0 / (4.0 * PI * h * h * h)) * OuterShape(q)
  }

  /** `W(r, h)` */
  function W(r: real, h: real): real
    requires h > 0.0
  {
    var q := r / h;
    if q <= 1.0 then InnerPiece(q, h)
    else if q <= 2.0 then OuterPiece(q, h)
    else 0.0
  }

  /** The scalar factor of `gradW` for `q <= 1`. */
  function InnerGradFactor(q: real, h: real): real
    requires h > 0.0
  {
    PiQuarticPositive(h);
    (1.0 / (PI * h * h * h * h)) * (-3.0 * q + 2.25 * q * q)
  }

  /** The scalar factor of `gradW` for `1 < q <= 2`. */
  function OuterGradFactor(q: real, h: real): real
    requires h > 0.0
  {
    PiQuarticPositive(h);
    (1.0 / (4.0 * PI * h * h * h * h)) * (-0.75 * (2.0 - q) * (2.0 - q))
  }

  /** `gradW(r_vec, h)` */
  function GradW(rv: Vec3, h: real, sqrt: real -> real): Vec3
    requires h > 0.0 && IsSqrt(sqrt)
  {
    var r := rv.Length(sqrt);
    var q := r / h;
    if r < MIN_DISTANCE then Zero
    else if q <= 1.0 then rv.Scale(InnerGradFactor(q, h) / r)
    else if q <= 2.0 then rv.Scale(OuterGradFactor(q, h) / r)
    else Zero
  }

  /** The factor `gradW` multiplies `r_vec` by, as a function of `r = |r_vec|`: 0 in the cut-off branches. */
  function GradScale(r: real, h: real): real
    requires h > 0.0
  {
    var q := r / h;
    if r < MIN_DISTANCE then 0.0
    else if q <= 1.0 then InnerGradFactor(q, h) / r
    else if q <= 2.0 then OuterGradFactor(q, h) / r
    else 0.0
  }

  /** Every branch of `gradW` is `r_vec` scaled by `GradScale(|r_vec|, h)`. */
  lemma GradWIsScaled(rv: Vec3, h: real, sqrt: real -> real)
    requires h > 0.0 && IsSqrt(sqrt)
    ensures GradW(rv, h, sqrt) == rv.Scale(GradScale(rv.Length(sqrt), h))
  {
    var r := rv.Length(sqrt);
    if r < MIN_DISTANCE || r / h > 2.0 {
      ScaleByZero(rv);
    }
  }

  /** The factor is never positive. */
  lemma GradScaleNonPositive(r: real, h: real)
    requires h > 0.0 && 0.0 <= r
    ensures GradScale(r, h) <= 0.0
  {
    var q := r / h;
    if MIN_DISTANCE <= r && q <= 2.0 {
      DivNonNegative(r, h);
      GradFactorsNonPositive(q, h);
      var f := if q <= 1.0 then InnerGradFactor(q, h) else OuterGradFactor(q, h);
      DivNonPositive(f, r);
    }
  }

  lemma PiPositive()
    ensures 0.0 < PI
  {
  }

  lemma PiCubePositive(h: real)
    requires h > 0.0
    ensures 0.0 < PI * h * h * h && 0.0 < 4.0 * PI * h * h * h
  {
    PiPositive();
    MulPositive(PI, h, PI * h);
    MulPositive(PI * h, h, PI * h * h);
    MulPositive(PI * h * h, h, PI * h * h * h);
  }

  lemma PiQuarticPositive(h: real)
    requires h > 0.0
    ensures 0.0 < PI * h * h * h * h && 0.0 < 4.0 * PI * h * h * h * h
  {
    PiCubePositive(h);
    MulPositive(PI * h * h * h, h, PI * h * h * h * h);
  }

  lemma InversePositive(d: real)
    requires 0.0 < d
    ensures 0.0 < 1.0 / d
  {
  }

  /** The kernel vanishes from twice the smoothing radius on: at `q == 2` the second branch gives `(2 - 2)^3 == 0`. */
  lemma WVanishesBeyondSupport(r: real, h: real)
    requires h > 0.0 && r / h >= 2.0
    ensures W(r, h) == 0.0
  {
    if r / h == 2.0 {
      assert OuterShape(2.0) == 0.0;
    }
  }

  /** The first branch's cubic is at least 1/4 on `[0, 1]`. */
  lemma InnerShapeBound(q: real)
    requires 0.0 <= q <= 1.0
    ensures InnerShape(q) >= 0.25
  {
    MulNonNegative(q, 1.0 - q, q * (1.0 - q));
    MulNonNegative(1.0 - q, 1.0 + q * (1.0 - q), (1.0 - q) * (1.0 + q * (1.0 - q)));
    assert InnerShape(q) - 0.25 == 0.75 * ((1.0 - q) * (1.0 + q * (1.0 - q)));
  }

  lemma OuterShapePositive(q: real)
    requires q < 2.0
    ensures OuterShape(q) > 0.0
  {
    var d := 2.0 - q;
    MulPositive(d, d, d * d);
    MulPositive(d * d, d, d * d * d);
  }

  /** The kernel is positive inside its support `0 <= r/h < 2`. */
  lemma WPositive(r: real, h: real)
    requires h > 0.0 && 0.0 <= r / h < 2.0
    ensures W(r, h) > 0.0
  {
    var q := r / h;
    PiCubePositive(h);
    if q <= 1.0 {
      InversePositive(PI * h * h * h);
      InnerShapeBound(q);
      MulPositive(1.0 / (PI * h * h * h), InnerShape(q), InnerPiece(q, h));
    } else {
      InversePositive(4.0 * PI * h * h * h);
      OuterShapePositive(q);
      MulPositive(1.0 / (4.0 * PI * h * h * h), OuterShape(q), OuterPiece(q, h));
    }
  }

  /** The kernel is never negative at a non-negative distance. */
  lemma WNonNegative(r: real, h: real)
    requires h > 0.0 && 0.0 <= r
    ensures W(r, h) >= 0.0
  {
    DivNonNegative(r, h);
    if r / h < 2.0 {
      WPositive(r, h);
    } else if r / h == 2.0 {
      assert OuterShape(2.0) == 0.0;
    }
  }

  lemma DivNonNegative(r: real, h: real)
    requires h > 0.0 && 0.0 <= r
    ensures 0.0 <= r / h
  {
  }

  /** Both branches give `1 / (4 pi h^3)` at `q = 1`, so `W` is continuous there. */
  lemma WContinuousAtOne(h: real)
    requires h > 0.0
    ensures InnerPiece(1.0, h) == OuterPiece(1.0, h) == W(h, h)
    ensures W(h, h) == 1.0 / (4.0 * PI * h * h * h)
  {
    PiCubePositive(h);
    assert InnerShape(1.0) == 0.25 && OuterShape(1.0) == 1.0;
  }

  /** The gradient is the zero vector below `MIN_DISTANCE` and beyond `q = 2`. */
  lemma GradWVanishes(rv: Vec3, h: real, sqrt: real -> real)
    requires h > 0.0 && IsSqrt(sqrt)
    requires rv.Length(sqrt) < MIN_DISTANCE || rv.Length(sqrt) / h > 2.0
    ensures GradW(rv, h, sqrt) == Zero
  {
  }

  /** Both gradient factors are non-positive for `0 <= q <= 2`. */
  lemma GradFactorsNonPositive(q: real, h: real)
    requires h > 0.0 && 0.0 <= q <= 2.0
    ensures q <= 1.0 ==> InnerGradFactor(q, h) <= 0.0
    ensures OuterGradFactor(q, h) <= 0.0
  {
    PiQuarticPositive(h);
    InversePositive(PI * h * h * h * h);
    InversePositive(4.0 * PI * h * h * h * h);
    if q <= 1.0 {
      MulNonPositive(q, 2.25 * q - 3.0, -3.0 * q + 2.25 * q * q);
      MulNonPositive(1.0 / (PI * h * h * h * h), -3.0 * q + 2.25 * q * q, InnerGradFactor(q, h));
    }
    SquareNonNegative(2.0 - q, (2.0 - q) * (2.0 - q));
    MulNonPositive(1.0 / (4.0 * PI * h * h * h * h), -0.75 * (2.0 - q) * (2.0 - q), OuterGradFactor(q, h));
  }

  /** `gradW(r_vec, h)` is a non-positive multiple of `r_vec`: it points from the neighbour back towards the particle. */
  lemma GradWRadial(rv: Vec3, h: real, sqrt: real -> real)
    requires h > 0.0 && IsSqrt(sqrt)
    ensures exists c: real :: c <= 0.0 && GradW(rv, h, sqrt) == rv.Scale(c)
  {
    GradWIsScaled(rv, h, sqrt);
    GradScaleNonPositive(rv.Length(sqrt), h);
  }

  lemma DivNonPositive(f: real, r: real)
    requires f <= 0.0 && r > 0.0
    ensures f / r <= 0.0
  {
  }

  /** `gradW(-r, h) == -gradW(r, h)`: the factor depends on `|r|` only. */
  lemma GradWAntisymmetric(rv: Vec3, h: real, sqrt: real -> real)
    requires h > 0.0 && IsSqrt(sqrt)
    ensures Opposite(GradW(rv.Neg(), h, sqrt), GradW(rv, h, sqrt))
  {
    NegLength(rv, sqrt);
    GradWIsScaled(rv.Neg(), h, sqrt);
    GradWIsScaled(rv, h, sqrt);
    OppositeIsNeg(rv.Neg(), rv);
    OppositeScale(rv.Neg(), rv, GradScale(rv.Length(sqrt), h));
  }

  /**
   * The two gradient branches do not meet at `q = 1`: the first gives
   * `-0.75 / (pi h^4)`, the second a quarter of that.
   */
  lemma GradWJumpAtOne(h: real)
    requires h > 0.0
    ensures InnerGradFactor(1.0, h) == -0.75 / (PI * h * h * h * h)
    ensures OuterGradFactor(1.0, h) == -0.1875 / (PI * h * h * h * h)
    ensures InnerGradFactor(1.0, h) != OuterGradFactor(1.0, h)
  {
    PiQuarticPositive(h);
  }
}
