/** The `Vector` class of geometry.py: a displacement (x, y, z) with
    componentwise arithmetic, dot and cross products, and the angular
    relationship tests.

    `math.sqrt` has no counterpart over `real`: wherever the source takes a
    length, the model takes that length as a parameter `l` constrained by
    `IsLength(v, l)`. The tests `length() == 0` become `SqNorm(v) == 0`, and the
    one-degree tests behind `parallel`, `anti_parallel` and `orthogonal` are
    stated without square roots through the cosine of the angle. */
module Vectors {
  import opened Numeric

  datatype Vector = Vector(x: real, y: real, z: real)

  const Zero: Vector := Vector(0.0, 0.0, 0.0)

  /** cos(1 degree) and sin(1 degree) as the double-precision values
      `math.cos(math.radians(1))` and `math.sin(math.radians(1))`. */
  const CosOneDegree: real := 0.9998476951563913
  const SinOneDegree: real := 0.01745240643728351

  /** The relationship tests work with squared quantities. */
  const CosOneDegreeSq: real := CosOneDegree * CosOneDegree
  const SinOneDegreeSq: real := SinOneDegree * SinOneDegree

  function Add(u: Vector, v: Vector): Vector {
    Vector(u.x + v.x, u.y + v.y, u.z + v.z)
  }

  function Sub(u: Vector, v: Vector): Vector {
    Vector(u.x - v.x, u.y - v.y, u.z - v.z)
  }

  /** `v * k`; `k * v` (`__rmul__`) delegates here, so both orders agree. */
  function Scale(v: Vector, k: real): Vector {
    Vector(v.x * k, v.y * k, v.z * k)
  }

  function Neg(v: Vector): Vector {
    Vector(-v.x, -v.y, -v.z)
  }

  /** `v / d`: a non-numeric divisor raises `TypeError` (checked first), zero
      raises `ZeroDivisionError`, otherwise each coordinate is divided. */
  function Div(v: Vector, d: Operand): (r: Result<Vector>)
    ensures r == Err(TypeError) <==> d.NonNumeric?
    ensures r == Err(ZeroDivisionError) <==> d == Number(0.0)
    ensures r.Ok? <==> d.Number? && d.value != 0.0
    ensures r.Ok? ==> Scale(r.value, d.value) == v
  {
    match d
    case NonNumeric => Err(TypeError)
    case Number(k) =>
      if k == 0.0 then Err(ZeroDivisionError)
      else Ok(Vector(v.x / k, v.y / k, v.z / k))
  }

  /** `v1 == v2`: every axis agrees within the absolute tolerance 1e-5. */
  predicate Equal(u: Vector, v: Vector) {
    IsClose(u.x, v.x, AbsTol) && IsClose(u.y, v.y, AbsTol) && IsClose(u.z, v.z, AbsTol)
  }

  function Dot(u: Vector, v: Vector): real {
    u.x * v.x + u.y * v.y + u.z * v.z
  }

  /** The squared length `x**2 + y**2 + z**2`, the argument of `math.sqrt`. */
  function SqNorm(v: Vector): real {
    Dot(v, v)
  }

  /** `u x v` (order matters). */
  function Cross(u: Vector, v: Vector): Vector {
    Vector(u.y * v.z - u.z * v.y, u.z * v.x - u.x * v.z, u.x * v.y - u.y * v.x)
  }

  /** `l` is what `v.length()` returns: the non-negative square root of `SqNorm(v)`. */
  predicate IsLength(v: Vector, l: real) {
    l >= 0.0 && l * l == SqNorm(v)
  }

  /** The guard `v.length() == 0`, stated without the square root. */
  predicate IsZero(v: Vector) {
    SqNorm(v) == 0.0
  }

  /** `normalize()`: a length within 1e-9 of zero raises `ValueError`,
      otherwise the vector is divided by its length. */
  function Normalize(v: Vector, l: real): (r: Result<Vector>)
    requires IsLength(v, l)
    ensures r.Err? <==> SqNorm(v) <= 0.000000000000000001
    ensures r.Err? ==> r.error == ValueError
    ensures r.Ok? ==> SqNorm(r.value) == 1.0 && Scale(r.value, l) == v
  {
    NormalizeThreshold(v, l);
    if IsClose(l, 0.0, 0.000000001) then
      Err(ValueError)
    else
      NormalizeOk(v, l);
      Div(v, Number(l))
  }

  /** `is_unit_vector()`: the length is within 1e-5 of one. */
  predicate IsUnitVector(v: Vector, l: real)
    requires IsLength(v, l)
  {
    IsClose(l, 1.0, AbsTol)
  }

  /** `angle_between(u, v)` up to the final `degrees(acos(.))`: a zero-length
      operand raises `ValueError`, otherwise the result is the cosine
      `dot / (|u| |v|)` clamped to [-1, 1]. Over the reals the clamp never
      changes the value (Cauchy-Schwarz). */
  function CosAngle(u: Vector, v: Vector, lu: real, lv: real): (r: Result<real>)
    requires IsLength(u, lu) && IsLength(v, lv)
    ensures r.Err? <==> IsZero(u) || IsZero(v)
    ensures r.Err? ==> r.error == ValueError
    ensures r.Ok? ==> -1.0 <= r.value <= 1.0 && r.value * (lu * lv) == Dot(u, v)
  {
    LengthZero(u, lu);
    LengthZero(v, lv);
    if lu == 0.0 || lv == 0.0 then
      Err(ValueError)
    else
      var p := lu * lv;
      CosineBounded(u, v, lu, lv);
      var c := Dot(u, v) / p;
      var c1 := if 1.0 < c then 1.0 else c;
      var c2 := if -1.0 > c1 then -1.0 else c1;
      assert c2 == c;
      Ok(c2)
  }

  /** `parallel()`: false for a zero vector, otherwise the angle is below one
      degree, that is, the cosine exceeds cos(1 degree). */
  predicate Parallel(u: Vector, v: Vector)
    ensures Parallel(u, v) ==> !IsZero(u) && !IsZero(v) && Dot(u, v) > 0.0
  {
    if IsZero(u) || IsZero(v) then false
    else Dot(u, v) > 0.0 && Dot(u, v) * Dot(u, v) > CosOneDegreeSq * (SqNorm(u) * SqNorm(v))
  }

  /** `anti_parallel()`: false for a zero vector, otherwise the angle is within
      one degree of 180, that is, the cosine is below -cos(1 degree). */
  predicate AntiParallel(u: Vector, v: Vector)
    ensures AntiParallel(u, v) ==> !IsZero(u) && !IsZero(v) && Dot(u, v) < 0.0
  {
    if IsZero(u) || IsZero(v) then false
    else Dot(u, v) < 0.0 && Dot(u, v) * Dot(u, v) > CosOneDegreeSq * (SqNorm(u) * SqNorm(v))
  }

  predicate Aligned(u: Vector, v: Vector) {
    Parallel(u, v) || AntiParallel(u, v)
  }

  /** `orthogonal()`: false for a zero vector, otherwise the angle is within
      one degree of 90, that is, |cosine| is below sin(1 degree). */
  predicate Orthogonal(u: Vector, v: Vector)
    ensures Orthogonal(u, v) ==> !IsZero(u) && !IsZero(v)
  {
    if IsZero(u) || IsZero(v) then false
    else Dot(u, v) * Dot(u, v) < SinOneDegreeSq * (SqNorm(u) * SqNorm(v))
  }

  datatype Side = Left | Right

  /** `relative_position()`: RIGHT exactly when `u x v` is anti-parallel to the
      given plane normal, LEFT otherwise. */
  function RelativePosition(u: Vector, v: Vector, normal: Vector): Side {
    if AntiParallel(normal, Cross(u, v)) then Right else Left
  }

  /** `parallelogram_area()`: the length of `u x v`; its square is
      |u|^2 |v|^2 - (u.v)^2. */
  function ParallelogramArea(u: Vector, v: Vector, l: real): (r: real)
    requires IsLength(Cross(u, v), l)
    ensures r >= 0.0 && r * r == SqNorm(u) * SqNorm(v) - Dot(u, v) * Dot(u, v)
  {
    Lagrange(u, v);
    l
  }

  // ---------------------------------------------------------------------
  // Algebra

  lemma SubAddRoundTrip(u: Vector, v: Vector)
    ensures Add(u, Sub(v, u)) == v
  {
  }

  lemma NegInvolutive(v: Vector)
    ensures Neg(Neg(v)) == v
  {
  }

  lemma ScaleByMinusOne(v: Vector)
    ensures Scale(v, -1.0) == Neg(v)
  {
  }

  lemma EqualReflexive(v: Vector)
    ensures Equal(v, v)
  {
  }

  lemma EqualSymmetric(u: Vector, v: Vector)
    ensures Equal(u, v) == Equal(v, u)
  {
    IsCloseSymmetric(u.x, v.x, AbsTol);
    IsCloseSymmetric(u.y, v.y, AbsTol);
    IsCloseSymmetric(u.z, v.z, AbsTol);
  }

  lemma DotSymmetric(u: Vector, v: Vector)
    ensures Dot(u, v) == Dot(v, u)
  {
  }

  lemma CrossAntiCommutative(u: Vector, v: Vector)
    ensures Cross(u, v) == Neg(Cross(v, u))
  {
  }

  lemma SqNormNonNegative(v: Vector)
    ensures SqNorm(v) >= 0.0
  {
    SumOfSquares(v.x, v.y, v.z, SqNorm(v));
  }

  lemma SqNormZero(v: Vector)
    ensures IsZero(v) <==> v == Zero
  {
    SumOfSquares(v.x, v.y, v.z, SqNorm(v));
  }

  /** A length is zero exactly for the zero vector. */
  lemma LengthZero(v: Vector, l: real)
    requires IsLength(v, l)
    ensures l == 0.0 <==> IsZero(v)
  {
    if l != 0.0 {
      SquarePositive(l, SqNorm(v));
    }
  }

  /** The square root is unique, so every `IsLength` witness is the same. */
  lemma LengthUnique(v: Vector, l1: real, l2: real)
    requires IsLength(v, l1) && IsLength(v, l2)
    ensures l1 == l2
  {
    SquareInjective(l1, l2);
  }

  /** Lagrange's identity: |u x v|^2 = |u|^2 |v|^2 - (u.v)^2. */
  lemma Lagrange(u: Vector, v: Vector)
    ensures SqNorm(Cross(u, v)) == SqNorm(u) * SqNorm(v) - Dot(u, v) * Dot(u, v)
  {
  }

  /** Cauchy-Schwarz, in squared form. */
  lemma CauchySchwarz(u: Vector, v: Vector)
    ensures Dot(u, v) * Dot(u, v) <= SqNorm(u) * SqNorm(v)
  {
    Lagrange(u, v);
    assert SqNorm(Cross(u, v)) >= 0.0;
  }

  /** The cross product is perpendicular to both operands. */
  lemma CrossPerpendicular(u: Vector, v: Vector)
    ensures Dot(u, Cross(u, v)) == 0.0 && Dot(v, Cross(u, v)) == 0.0
  {
  }

  /** The scalar triple product is invariant under cyclic rotation. */
  lemma TripleCyclic(a: Vector, b: Vector, c: Vector)
    ensures Dot(a, Cross(b, c)) == Dot(b, Cross(c, a))
  {
  }

  /** Both probe vectors of the intersection solvers meet the other direction
      in plus or minus |u x w|^2. */
  lemma ProbeDivisors(u: Vector, w: Vector)
    ensures Dot(w, Cross(Cross(u, w), u)) == SqNorm(Cross(u, w))
    ensures Dot(u, Cross(Cross(u, w), w)) == -SqNorm(Cross(u, w))
  {
    var n := Cross(u, w);
    TripleCyclic(w, n, u);
    TripleCyclic(u, n, w);
    CrossAntiCommutative(w, u);
  }

  /** The vector triple product expansion `(a x b) x c = b (a.c) - a (b.c)`,
      seen through a dot product with any `g`. */
  lemma TripleDot(a: Vector, b: Vector, c: Vector, g: Vector)
    ensures Dot(g, Cross(Cross(a, b), c)) == Dot(a, c) * Dot(g, b) - Dot(b, c) * Dot(g, a)
  {
    var n, ac, bc := Cross(a, b), Dot(a, c), Dot(b, c);
    var p := Cross(n, c);
    TripleX(a, b, c, n, ac, bc);
    TripleY(a, b, c, n, ac, bc);
    TripleZ(a, b, c, n, ac, bc);
    CombineDot(g.x, g.y, g.z, b.x, b.y, b.z, a.x, a.y, a.z, p.x, p.y, p.z, ac, bc, Dot(g, b), Dot(g, a));
  }

  // The expansion one component at a time, over plain scalars.

  lemma TripleComponent(ax: real, ay: real, az: real, bx: real, b_y: real, bz: real,
                        cx: real, cy: real, cz: real, ny: real, nz: real, ac: real, bc: real)
    requires ny == az * bx - ax * bz && nz == ax * b_y - ay * bx
    requires ac == ax * cx + ay * cy + az * cz && bc == bx * cx + b_y * cy + bz * cz
    ensures ny * cz - nz * cy == bx * ac - ax * bc
  {
  }

  lemma TripleX(a: Vector, b: Vector, c: Vector, n: Vector, ac: real, bc: real)
    requires n == Cross(a, b) && ac == Dot(a, c) && bc == Dot(b, c)
    ensures Cross(n, c).x == b.x * ac - a.x * bc
  {
    TripleComponent(a.x, a.y, a.z, b.x, b.y, b.z, c.x, c.y, c.z, n.y, n.z, ac, bc);
  }

  lemma TripleY(a: Vector, b: Vector, c: Vector, n: Vector, ac: real, bc: real)
    requires n == Cross(a, b) && ac == Dot(a, c) && bc == Dot(b, c)
    ensures Cross(n, c).y == b.y * ac - a.y * bc
  {
    TripleComponent(a.y, a.z, a.x, b.y, b.z, b.x, c.y, c.z, c.x, n.z, n.x, ac, bc);
  }

  lemma TripleZ(a: Vector, b: Vector, c: Vector, n: Vector, ac: real, bc: real)
    requires n == Cross(a, b) && ac == Dot(a, c) && bc == Dot(b, c)
    ensures Cross(n, c).z == b.z * ac - a.z * bc
  {
    TripleComponent(a.z, a.x, a.y, b.z, b.x, b.y, c.z, c.x, c.y, n.x, n.y, ac, bc);
  }

  lemma CombineDot(gx: real, gy: real, gz: real, bx: real, b_y: real, bz: real,
                   ax: real, ay: real, az: real, px: real, py: real, pz: real,
                   ac: real, bc: real, gb: real, ga: real)
    requires px == bx * ac - ax * bc && py == b_y * ac - ay * bc && pz == bz * ac - az * bc
    requires gb == gx * bx + gy * b_y + gz * bz && ga == gx * ax + gy * ay + gz * az
    ensures gx * px + gy * py + gz * pz == ac * gb - bc * ga
  {
  }

  lemma DotLinearLeft(a: Vector, b: Vector, p: Vector, s: real, t: real)
    ensures Dot(Sub(Scale(a, s), Scale(b, t)), p) == s * Dot(a, p) - t * Dot(b, p)
  {
  }

  // ---------------------------------------------------------------------
  // Lengths and normalisation

  lemma NormalizeOk(v: Vector, l: real)
    requires IsLength(v, l) && l != 0.0
    ensures l > 0.0
    ensures Div(v, Number(l)).Ok? && SqNorm(Div(v, Number(l)).value) == 1.0
  {
    var w := Div(v, Number(l)).value;
    assert Scale(w, l) == v;
    assert SqNorm(v) == (l * l) * SqNorm(w);
    SquarePositive(l, SqNorm(v));
    MulCancel(SqNorm(v), SqNorm(w), 1.0);
  }

  /** `isclose(l, 0, abs_tol=1e-9)` on a length is `l <= 1e-9`, that is
      `SqNorm(v) <= 1e-18`. */
  lemma NormalizeThreshold(v: Vector, l: real)
    requires IsLength(v, l)
    ensures IsClose(l, 0.0, 0.000000001) <==> SqNorm(v) <= 0.000000000000000001
  {
    if l <= 0.000000001 {
      SquareMonotone(l, 0.000000001);
    } else {
      SquareStrictMonotone(0.000000001, l);
    }
  }

  /** The quotient `dot / (|u| |v|)` of `angle_between` lies in [-1, 1]. */
  lemma CosineBounded(u: Vector, v: Vector, lu: real, lv: real)
    requires IsLength(u, lu) && IsLength(v, lv) && lu != 0.0 && lv != 0.0
    ensures lu * lv > 0.0
    ensures Dot(u, v) / (lu * lv) * (lu * lv) == Dot(u, v)
    ensures -1.0 <= Dot(u, v) / (lu * lv) <= 1.0
  {
    var d, p := Dot(u, v), lu * lv;
    ProductPositive(lu, lv, p);
    var c := d / p;
    assert c * p == d;
    var nn := SqNorm(u) * SqNorm(v);
    assert p * p == nn;
    CauchySchwarz(u, v);
    var a := Abs(d);
    assert a * a == d * d;
    SquareLeIsLe(a, p);
    ScaleCompare(c, -1.0, p);
    ScaleCompare(1.0, c, p);
  }


  /** A normalised vector has length one (to within the tolerance). */
  lemma NormalizedIsUnit(v: Vector, l: real, lw: real)
    requires IsLength(v, l) && Normalize(v, l).Ok?
    requires IsLength(Normalize(v, l).value, lw)
    ensures IsUnitVector(Normalize(v, l).value, lw)
  {
    SquareInjective(lw, 1.0);
  }

  // ---------------------------------------------------------------------
  // The angular tests against the cosine computed by angle_between

  /** `parallel` holds exactly when both lengths are non-zero and the cosine
      of `angle_between` exceeds cos(1 degree), i.e. the angle is below 1 degree. */
  lemma ParallelByCosine(u: Vector, v: Vector, lu: real, lv: real)
    requires IsLength(u, lu) && IsLength(v, lv)
    ensures Parallel(u, v) <==> CosAngle(u, v, lu, lv).Ok? && CosAngle(u, v, lu, lv).value > CosOneDegree
  {
    var r := CosAngle(u, v, lu, lv);
    if r.Ok? {
      LengthZero(u, lu);
      LengthZero(v, lv);
      var c := r.value;
      var d, p, nn := Dot(u, v), lu * lv, SqNorm(u) * SqNorm(v);
      SquareOfProduct(lu, lv, SqNorm(u), SqNorm(v));
      AboveThreshold(c, p, d, CosOneDegree, CosOneDegreeSq, nn);
    }
  }

  /** `angle_between` does not depend on the order of its operands. */
  lemma CosAngleSymmetric(u: Vector, v: Vector, lu: real, lv: real)
    requires IsLength(u, lu) && IsLength(v, lv)
    ensures CosAngle(u, v, lu, lv) == CosAngle(v, u, lv, lu)
  {
    DotSymmetric(u, v);
    if CosAngle(u, v, lu, lv).Ok? {
      var p, q := lu * lv, lv * lu;
      assert p == q;
      LengthZero(u, lu);
      LengthZero(v, lv);
      ProductPositive(lu, lv, p);
      var c, c' := CosAngle(u, v, lu, lv).value, CosAngle(v, u, lv, lu).value;
      assert c * p == c' * p;
      MulCancel(p, c, c');
    }
  }

  /** Non-zero vectors that are neither parallel nor anti-parallel make an
      angle at least one degree away from 0 and from 180 degrees, so the
      cosine lies strictly inside (-1, 1). */
  lemma CosAngleUnaligned(u: Vector, v: Vector, lu: real, lv: real)
    requires IsLength(u, lu) && IsLength(v, lv)
    requires !IsZero(u) && !IsZero(v) && !Aligned(u, v)
    ensures CosAngle(u, v, lu, lv).Ok?
    ensures -CosOneDegree <= CosAngle(u, v, lu, lv).value <= CosOneDegree
    ensures -1.0 < CosAngle(u, v, lu, lv).value < 1.0
  {
    ParallelByCosine(u, v, lu, lv);
    AntiParallelByCosine(u, v, lu, lv);
  }

  /** `aligned()` holds exactly when the angle is within one degree of 0 or
      of 180 degrees. */
  lemma AlignedByCosine(u: Vector, v: Vector, lu: real, lv: real)
    requires IsLength(u, lu) && IsLength(v, lv)
    ensures Aligned(u, v)
        <==> CosAngle(u, v, lu, lv).Ok?
             && (CosAngle(u, v, lu, lv).value > CosOneDegree || CosAngle(u, v, lu, lv).value < -CosOneDegree)
  {
    ParallelByCosine(u, v, lu, lv);
    AntiParallelByCosine(u, v, lu, lv);
  }

  /** `anti_parallel` holds exactly when the cosine is below -cos(1 degree),
      i.e. the angle is within one degree of 180. */
  lemma AntiParallelByCosine(u: Vector, v: Vector, lu: real, lv: real)
    requires IsLength(u, lu) && IsLength(v, lv)
    ensures AntiParallel(u, v) <==> CosAngle(u, v, lu, lv).Ok? && CosAngle(u, v, lu, lv).value < -CosOneDegree
  {
    var r := CosAngle(u, v, lu, lv);
    if r.Ok? {
      LengthZero(u, lu);
      LengthZero(v, lv);
      var c := r.value;
      var d, p, nn := Dot(u, v), lu * lv, SqNorm(u) * SqNorm(v);
      SquareOfProduct(lu, lv, SqNorm(u), SqNorm(v));
      AboveThreshold(-c, p, -d, CosOneDegree, CosOneDegreeSq, nn);
    }
  }

  /** `orthogonal` holds exactly when |cosine| is below sin(1 degree), i.e.
      the angle is within one degree of 90. */
  lemma OrthogonalByCosine(u: Vector, v: Vector, lu: real, lv: real)
    requires IsLength(u, lu) && IsLength(v, lv)
    ensures Orthogonal(u, v) <==> CosAngle(u, v, lu, lv).Ok? && -SinOneDegree < CosAngle(u, v, lu, lv).value < SinOneDegree
  {
    var r := CosAngle(u, v, lu, lv);
    if r.Ok? {
      LengthZero(u, lu);
      LengthZero(v, lv);
      var c := r.value;
      var d, p, nn := Dot(u, v), lu * lv, SqNorm(u) * SqNorm(v);
      SquareOfProduct(lu, lv, SqNorm(u), SqNorm(v));
      BelowThreshold(c, p, d, SinOneDegree, SinOneDegreeSq, nn);
    }
  }

  /** For non-negative `a`, `b`: `a^2 <= b^2` implies `a <= b`. */
  lemma SquareLeIsLe(a: real, b: real)
    requires a >= 0.0 && b >= 0.0 && a * a <= b * b
    ensures a <= b
  {
    if b < a {
      SquareStrictMonotone(b, a);
    }
  }

  /** With `c * p == d` and `p > 0`: `c > k` iff `d > 0` and `d^2 > k^2 p^2`
      (`kk` and `pp` name the two squares). */
  lemma AboveThreshold(c: real, p: real, d: real, k: real, kk: real, pp: real)
    requires p > 0.0 && k > 0.0 && c * p == d && kk == k * k && pp == p * p
    ensures c > k <==> d > 0.0 && d * d > kk * pp
  {
    var kp := k * p;
    ProductPositive(k, p, kp);
    assert kk * pp == kp * kp;
    ScaleCompare(k, c, p);
    if d > kp {
      SquareStrictMonotone(kp, d);
    } else if d > 0.0 {
      SquareMonotone(d, kp);
    }
  }

  /** With `c * p == d` and `p > 0`: `-k < c < k` iff `d^2 < k^2 p^2`. */
  lemma BelowThreshold(c: real, p: real, d: real, k: real, kk: real, pp: real)
    requires p > 0.0 && k > 0.0 && c * p == d && kk == k * k && pp == p * p
    ensures -k < c < k <==> d * d < kk * pp
  {
    var kp := k * p;
    ProductPositive(k, p, kp);
    assert kk * pp == kp * kp;
    ScaleCompare(c, k, p);
    ScaleCompare(-k, c, p);
    var a := Abs(d);
    assert -k < c < k <==> a < kp;
    assert a * a == d * d;
    if a < kp {
      SquareStrictMonotone(a, kp);
    } else {
      SquareMonotone(kp, a);
    }
  }

  /** `(a b)^2 = a^2 b^2`. */
  lemma SquareOfProduct(a: real, b: real, aa: real, bb: real)
    requires aa == a * a && bb == b * b
    ensures (a * b) * (a * b) == aa * bb
  {
  }

  // ---------------------------------------------------------------------
  // Properties of the relationship tests

  lemma ParallelSymmetric(u: Vector, v: Vector)
    ensures Parallel(u, v) == Parallel(v, u)
    ensures AntiParallel(u, v) == AntiParallel(v, u)
    ensures Orthogonal(u, v) == Orthogonal(v, u)
  {
  }

  lemma ParallelExcludesAntiParallel(u: Vector, v: Vector)
    ensures !(Parallel(u, v) && AntiParallel(u, v))
  {
  }

  /** A positive multiple of a non-zero vector is parallel to it, a negative
      one anti-parallel. */
  lemma ScaledIsAligned(v: Vector, k: real)
    requires !IsZero(v) && k != 0.0
    ensures k > 0.0 ==> Parallel(v, Scale(v, k))
    ensures k < 0.0 ==> AntiParallel(v, Scale(v, k))
  {
    var n := SqNorm(v);
    assert SqNorm(Scale(v, k)) == k * k * n;
    assert Dot(v, Scale(v, k)) == k * n;
    assert k * k * n > 0.0;
    assert (k * n) * (k * n) == 1.0 * (n * (k * k * n));
  }

  /** Non-zero perpendicular vectors are orthogonal. */
  lemma PerpendicularIsOrthogonal(u: Vector, v: Vector)
    requires !IsZero(u) && !IsZero(v) && Dot(u, v) == 0.0
    ensures Orthogonal(u, v)
  {
    assert SqNorm(u) * SqNorm(v) > 0.0;
  }

  /** Non-zero vectors that are not aligned have a non-zero cross product;
      the guards make every zero vector unaligned, and then the cross product
      is zero. */
  lemma CrossZeroIff(u: Vector, v: Vector)
    requires !Aligned(u, v)
    ensures IsZero(Cross(u, v)) <==> IsZero(u) || IsZero(v)
  {
    var d, nn := Dot(u, v), SqNorm(u) * SqNorm(v);
    Lagrange(u, v);
    SqNormZero(u);
    SqNormZero(v);
    if !IsZero(u) && !IsZero(v) {
      assert SqNorm(u) > 0.0 && SqNorm(v) > 0.0;
      assert nn > 0.0;
      assert d * d <= CosOneDegreeSq * nn;
      assert CosOneDegreeSq * nn < nn;
    }
  }

  /** The vertical vector (0, 0, k) is anti-parallel to +z exactly when k < 0. */
  lemma AntiParallelToUp(c: Vector)
    requires c.x == 0.0 && c.y == 0.0
    ensures AntiParallel(Vector(0.0, 0.0, 1.0), c) <==> c.z < 0.0
  {
    var up := Vector(0.0, 0.0, 1.0);
    var k, n := c.z, SqNorm(c);
    var lhs, rhs := Dot(up, c) * Dot(up, c), CosOneDegreeSq * (SqNorm(up) * SqNorm(c));
    assert Dot(up, c) == k;
    assert SqNorm(up) == 1.0;
    assert n == k * k;
    assert lhs == n;
    assert rhs == CosOneDegreeSq * n;
    if k != 0.0 {
      SquarePositive(k, n);
      ShrinkPositive(CosOneDegreeSq, n);
    }
  }

  /** For vectors in the xy-plane and the normal +z, `relative_position` is
      RIGHT exactly when `u x v` points down (a clockwise turn). */
  lemma RelativePositionPlanar(u: Vector, v: Vector)
    requires u.z == 0.0 && v.z == 0.0
    ensures RelativePosition(u, v, Vector(0.0, 0.0, 1.0)) == Right <==> Cross(u, v).z < 0.0
  {
    AntiParallelToUp(Cross(u, v));
  }
}
