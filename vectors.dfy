/**
 * The simulator's 3-component vector `vec3` (SPH_PARTICLE.h), over the reals.
 *
 * `vec3` is a plain value struct: it is copied into every particle record and
 * every local variable, so it is a datatype here. Its one mutating operator,
 * `+=`, is the method `AddAssign`, which returns the updated value.
 *
 * The square root behind `length()` is a call into the C library; it is a
 * parameter `sqrt` of every member that needs it, constrained by `IsSqrt`.
 */
module Vectors {
  import opened Arith

  /** `sqrt` is a square root on the non-negative reals. */
  ghost predicate IsSqrt(sqrt: real -> real)
  {
    forall s: real :: 0.0 <= s ==> 0.0 <= sqrt(s) && Sq(sqrt(s)) == s
  }

  datatype Vec3 = Vec3(x: real, y: real, z: real)
  {
    /** `operator+` */
    function Plus(o: Vec3): Vec3
    {
      Vec3(x + o.x, y + o.y, z + o.z)
    }

    /** `operator-` */
    function Minus(o: Vec3): Vec3
    {
      Vec3(x - o.x, y - o.y, z - o.z)
    }

    /** `operator*(float scalar)` */
    function Scale(s: real): Vec3
    {
      Vec3(x * s, y * s, z * s)
    }

    /**
     * The componentwise product. `vec3` declares no product of two vectors;
     * the force pass multiplies two vectors, and this is the reading taken.
     */
    function Times(o: Vec3): Vec3
    {
      Vec3(x * o.x, y * o.y, z * o.z)
    }

    /** The opposite vector, `v * -1`. */
    function Neg(): Vec3
    {
      Vec3(-x, -y, -z)
    }

    /** `x*x + y*y + z*z`, the argument of `sqrt` in `length()`. */
    function Norm2(): (r: real)
      ensures 0.0 <= r
    {
      Sq(x) + Sq(y) + Sq(z)
    }

    /** `length()` */
    function Length(sqrt: real -> real): (len: real)
      requires IsSqrt(sqrt)
      ensures 0.0 <= len && len * len == x * x + y * y + z * z
    {
      sqrt(Norm2())
    }

    /** `normalized()`: the vector itself at length 0, else scaled by `1 / length()`. */
    function Normalized(sqrt: real -> real): (r: Vec3)
      requires IsSqrt(sqrt)
      ensures Length(sqrt) == 0.0 ==> r == this
      ensures Length(sqrt) != 0.0 ==> r == Scale(1.0 / Length(sqrt)) && r.Length(sqrt) == 1.0
    {
      var len := Length(sqrt);
      if len > 0.0 then
        var u := Scale(1.0 / len);
        ScaleNorm2(this, 1.0 / len);
        UnitLength(u.Length(sqrt), len, Norm2());
        u
      else
        this
    }
  }

  const Zero: Vec3 := Vec3(0.0, 0.0, 0.0)

  /**
   * `a += b`: the three component updates of the receiver, in order. The
   * result is the receiver afterwards.
   */
  method AddAssign(a: Vec3, b: Vec3) returns (r: Vec3)
    ensures r == a.Plus(b)
    ensures r.Minus(b) == a
  {
    r := a;
    r := r.(x := r.x + b.x);
    r := r.(y := r.y + b.y);
    r := r.(z := r.z + b.z);
  }

  /** `x*x + y*y + z*z` is zero exactly for the zero vector. */
  lemma Norm2Zero(v: Vec3)
    ensures v.Norm2() == 0.0 <==> v == Zero
  {
    SqZero(v.x);
    SqZero(v.y);
    SqZero(v.z);
  }

  /** `length()` is zero exactly for the zero vector. */
  lemma LengthZero(v: Vec3, sqrt: real -> real)
    requires IsSqrt(sqrt)
    ensures v.Length(sqrt) == 0.0 <==> v == Zero
  {
    Norm2Zero(v);
    SqZero(v.Length(sqrt));
  }

  lemma ScaleNorm2(v: Vec3, s: real)
    ensures v.Scale(s).Norm2() == Sq(s) * v.Norm2()
  {
  }

  /** Scaling by `c >= 0` scales `length()` by `c`. */
  lemma ScaleLength(v: Vec3, c: real, sqrt: real -> real)
    requires IsSqrt(sqrt) && 0.0 <= c
    ensures v.Scale(c).Length(sqrt) == c * v.Length(sqrt)
  {
    var l := v.Length(sqrt);
    var lc := v.Scale(c).Length(sqrt);
    ScaleNorm2(v, c);
    MulNonNegative(c, l, c * l);
    assert Sq(l) == v.Norm2();
    assert Sq(lc) == v.Scale(c).Norm2();
    assert Sq(c * l) == Sq(c) * Sq(l);
    RootUnique(lc, c * l);
  }



  /** Two non-negative reals with the same square are equal. */
  lemma RootUnique(a: real, b: real)
    requires 0.0 <= a && 0.0 <= b && Sq(a) == Sq(b)
    ensures a == b
  {
    if a < b {
      MulPositive(b - a, b + a, Sq(b) - Sq(a));
    } else if b < a {
      MulPositive(a - b, a + b, Sq(a) - Sq(b));
    }
  }

  lemma UnitLength(l: real, len: real, n: real)
    requires len > 0.0 && Sq(len) == n && 0.0 <= l && Sq(l) == Sq(1.0 / len) * n
    ensures l == 1.0
  {
    assert Sq(1.0 / len) * n == (1.0 / len * len) * (1.0 / len * len);
    UnitSquare(l);
  }

  lemma UnitSquare(l: real)
    requires 0.0 <= l && Sq(l) == 1.0
    ensures l == 1.0
  {
    if l < 1.0 {
      MulNonNegative(l, 1.0 - l, l - l * l);
    } else if l > 1.0 {
      MulPositive(l, l - 1.0, l * l - l);
    }
  }

  /** `(a + b) - b == a` and `(a - b) + b == a`. */
  lemma PlusMinusCancel(a: Vec3, b: Vec3)
    ensures a.Plus(b).Minus(b) == a
    ensures a.Minus(b).Plus(b) == a
  {
  }

  /** The distance from `a` to `b` is the distance from `b` to `a`. */
  lemma LengthSymmetric(a: Vec3, b: Vec3, sqrt: real -> real)
    requires IsSqrt(sqrt)
    ensures a.Minus(b).Length(sqrt) == b.Minus(a).Length(sqrt)
  {
    assert b.Minus(a) == a.Minus(b).Neg();
    NegNorm2(a.Minus(b));
  }

  lemma NegNorm2(v: Vec3)
    ensures v.Neg().Norm2() == v.Norm2()
  {
  }

  /** `-v` is as long as `v`. */
  lemma NegLength(v: Vec3, sqrt: real -> real)
    requires IsSqrt(sqrt)
    ensures v.Neg().Length(sqrt) == v.Length(sqrt)
  {
    NegNorm2(v);
  }

  /** `v * 0` is the zero vector. */
  lemma ScaleByZero(v: Vec3)
    ensures v.Scale(0.0) == Zero
  {
  }

  /** `u == -v`, written on the components. */
  predicate Opposite(u: Vec3, v: Vec3)
  {
    u.x == -v.x && u.y == -v.y && u.z == -v.z
  }

  lemma OppositeIsNeg(u: Vec3, v: Vec3)
    ensures Opposite(u, v) <==> u == v.Neg()
  {
  }

  /** `b - a == -(a - b)` */
  lemma MinusOpposite(a: Vec3, b: Vec3)
    ensures Opposite(a.Minus(b), b.Minus(a))
  {
  }

  /** Opposite vectors stay opposite under the same scaling, and the relation is symmetric. */
  lemma OppositeScale(u: Vec3, v: Vec3, c: real)
    requires Opposite(u, v)
    ensures Opposite(u.Scale(c), v.Scale(c))
    ensures Opposite(v, u)
  {
  }

  /** A point is at distance 0 from itself. */
  lemma SelfDistance(a: Vec3, sqrt: real -> real)
    requires IsSqrt(sqrt)
    ensures a.Minus(a).Length(sqrt) == 0.0
  {
    assert a.Minus(a) == Zero;
    LengthZero(a.Minus(a), sqrt);
  }
}
