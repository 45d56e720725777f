/** The parametric solver shared by `LineSegment.intersection_point` and
    `Ray.intersection_point`. Both equate `a + t u` with `c + s w` and isolate
    each parameter by a dot product with a probe vector perpendicular to the
    other direction: `(u x w) x u` for `s` and `(u x w) x w` for `t`. */
module Parametric {
  import opened Numeric
  import opened Vectors
  import Points

  datatype Params = Params(s: real, t: real)

  /** The point at parameter `t` on the line through `a` with direction `u`. */
  function At(a: Points.Point, u: Vector, t: real): Points.Point {
    Points.Translate(a, Scale(u, t))
  }

  /** The vector from the point at `s` on the second line to the point at `t`
      on the first. */
  function Gap(a: Points.Point, u: Vector, c: Points.Point, w: Vector, st: Params): Vector {
    Points.Sub(At(a, u, st.t), At(c, w, st.s))
  }

  /** The two divisions of the source, `s` first. Both divisors are
      `+-|u x w|^2`, so the solver raises `ZeroDivisionError` exactly when the
      cross product of the directions is zero. Otherwise the parameters locate
      the closest points of the two lines: the gap between them is
      perpendicular to both directions. */
  function Solve(a: Points.Point, u: Vector, c: Points.Point, w: Vector): (r: Result<Params>)
    ensures r.Err? <==> IsZero(Cross(u, w))
    ensures r.Err? ==> r.error == ZeroDivisionError
    ensures r.Ok? ==> Dot(Gap(a, u, c, w, r.value), u) == 0.0 && Dot(Gap(a, u, c, w, r.value), w) == 0.0
  {
    var n := Cross(u, w);
    var pu, pw := Cross(n, u), Cross(n, w);
    var ds, dt := Dot(w, pu), Dot(u, pw);
    ProbeDivisors(u, w);
    if ds == 0.0 then
      Err(ZeroDivisionError)
    else
      var s := Dot(Points.Sub(a, c), pu) / ds;
      if dt == 0.0 then
        Err(ZeroDivisionError)
      else
        var t := Dot(Points.Sub(c, a), pw) / dt;
        DivCancel(Dot(Points.Sub(a, c), pu), ds);
        DivCancel(Dot(Points.Sub(c, a), pw), dt);
        ClosestApproach(a, u, c, w, s, t);
        Ok(Params(s, t))
  }

  // ---------------------------------------------------------------------
  // Why the probes work

  /** The gap splits into the offset of the base points and the two steps. */
  lemma GapExpansion(a: Points.Point, u: Vector, c: Points.Point, w: Vector, s: real, t: real, p: Vector)
    ensures Dot(Gap(a, u, c, w, Params(s, t)), p)
         == Dot(Points.Sub(a, c), p) + t * Dot(u, p) - s * Dot(w, p)
  {
  }

  /** A homogeneous 2x2 linear system with a non-zero determinant has only
      the zero solution. */
  lemma LinearSystemZero(a1: real, b1: real, a2: real, b2: real, x: real, y: real)
    requires a1 * x + b1 * y == 0.0 && a2 * x + b2 * y == 0.0
    requires a1 * b2 - b1 * a2 != 0.0
    ensures x == 0.0 && y == 0.0
  {
    var det := a1 * b2 - b1 * a2;
    assert det * x == b2 * (a1 * x + b1 * y) - b1 * (a2 * x + b2 * y);
    assert det * y == a1 * (a2 * x + b2 * y) - a2 * (a1 * x + b1 * y);
    MulCancel(det, x, 0.0);
    MulCancel(det, y, 0.0);
  }

  /** With `s` and `t` as the solver computes them, the gap is perpendicular
      to both probes and therefore to both directions. */
  lemma ClosestApproach(a: Points.Point, u: Vector, c: Points.Point, w: Vector, s: real, t: real)
    requires !IsZero(Cross(u, w))
    requires s * Dot(w, Cross(Cross(u, w), u)) == Dot(Points.Sub(a, c), Cross(Cross(u, w), u))
    requires t * Dot(u, Cross(Cross(u, w), w)) == Dot(Points.Sub(c, a), Cross(Cross(u, w), w))
    ensures Dot(Gap(a, u, c, w, Params(s, t)), u) == 0.0
    ensures Dot(Gap(a, u, c, w, Params(s, t)), w) == 0.0
  {
    var n := Cross(u, w);
    var pu, pw := Cross(n, u), Cross(n, w);
    var g := Gap(a, u, c, w, Params(s, t));
    GapExpansion(a, u, c, w, s, t, pu);
    GapExpansion(a, u, c, w, s, t, pw);
    CrossPerpendicular(n, u);
    CrossPerpendicular(n, w);
    DotNegLeft(Points.Sub(a, c), Points.Sub(c, a), pw);
    assert Dot(g, pu) == 0.0;
    assert Dot(g, pw) == 0.0;
    TripleDot(u, w, u, g);
    TripleDot(u, w, w, g);
    var uu, uw, ww, gw, gu := SqNorm(u), Dot(u, w), SqNorm(w), Dot(g, w), Dot(g, u);
    Lagrange(u, w);
    SqNormZero(n);
    LinearSystemZero(uu, -uw, uw, -ww, gw, gu);
    DotSymmetric(g, u);
    DotSymmetric(g, w);
  }

  /** The offsets `a - c` and `c - a` are opposite, so their dot products are. */
  lemma DotNegLeft(v: Vector, nv: Vector, p: Vector)
    requires nv == Neg(v)
    ensures Dot(v, p) == -Dot(nv, p)
  {
  }

  lemma DivCancel(x: real, d: real)
    requires d != 0.0
    ensures x / d * d == x && x * d / d == x
  {
  }

  // ---------------------------------------------------------------------
  // What the solver returns

  /** When the two lines meet at `a + t0 u == c + s0 w` and the directions are
      not parallel, the solver returns exactly `s0` and `t0`. */
  lemma SolveRecovers(a: Points.Point, u: Vector, c: Points.Point, w: Vector, s0: real, t0: real)
    requires !IsZero(Cross(u, w))
    requires At(a, u, t0) == At(c, w, s0)
    ensures Solve(a, u, c, w) == Ok(Params(s0, t0))
  {
    var n := Cross(u, w);
    var pu, pw := Cross(n, u), Cross(n, w);
    var ds, dt := Dot(w, pu), Dot(u, pw);
    ProbeDivisors(u, w);
    assert Points.Sub(a, c) == Vectors.Sub(Scale(w, s0), Scale(u, t0));
    assert Points.Sub(c, a) == Vectors.Sub(Scale(u, t0), Scale(w, s0));
    CrossPerpendicular(n, u);
    CrossPerpendicular(n, w);
    DotLinearLeft(w, u, pu, s0, t0);
    DotLinearLeft(u, w, pw, t0, s0);
    DivCancel(s0, ds);
    DivCancel(t0, dt);
    assert ds != 0.0 && dt != 0.0;
    assert Dot(Points.Sub(a, c), pu) == s0 * ds;
    assert Dot(Points.Sub(c, a), pw) == t0 * dt;
    assert Dot(Points.Sub(a, c), pu) / ds == s0;
  }

  /** The closest-approach parameters are unique: any `s`, `t` whose gap is
      perpendicular to both (non-parallel) directions are the ones the
      solver returns. */
  lemma SolveUnique(a: Points.Point, u: Vector, c: Points.Point, w: Vector, st: Params)
    requires !IsZero(Cross(u, w))
    requires Dot(Gap(a, u, c, w, st), u) == 0.0 && Dot(Gap(a, u, c, w, st), w) == 0.0
    ensures Solve(a, u, c, w) == Ok(st)
  {
    var r := Solve(a, u, c, w).value;
    GapExpansion(a, u, c, w, st.s, st.t, u);
    GapExpansion(a, u, c, w, st.s, st.t, w);
    GapExpansion(a, u, c, w, r.s, r.t, u);
    GapExpansion(a, u, c, w, r.s, r.t, w);
    var uu, uw, ww := SqNorm(u), Dot(u, w), SqNorm(w);
    DotSymmetric(w, u);
    var dt, ds := st.t - r.t, st.s - r.s;
    assert uu * dt + (-uw) * ds == 0.0;
    assert uw * dt + (-ww) * ds == 0.0;
    Lagrange(u, w);
    LinearSystemZero(uu, -uw, uw, -ww, dt, ds);
  }

  /** In the plane z = 0 non-parallel lines always meet, so the solver's
      parameters give the same point on both lines. */
  lemma SolvePlanarMeets(a: Points.Point, u: Vector, c: Points.Point, w: Vector)
    requires a.z == 0.0 && c.z == 0.0 && u.z == 0.0 && w.z == 0.0
    requires Solve(a, u, c, w).Ok?
    ensures At(a, u, Solve(a, u, c, w).value.t) == At(c, w, Solve(a, u, c, w).value.s)
  {
    var st := Solve(a, u, c, w).value;
    var g := Gap(a, u, c, w, st);
    assert g.z == 0.0;
    var k := Cross(u, w).z;
    assert Cross(u, w) == Vector(0.0, 0.0, k);
    assert k != 0.0 by {
      if k == 0.0 {
        assert Cross(u, w) == Zero;
        SqNormZero(Cross(u, w));
      }
    }
    LinearSystemZero(u.x, u.y, w.x, w.y, g.x, g.y);
  }

  /** The gap between the closest points of the skew lines used in the
      segment and ray examples: one unit straight down. */
  lemma SkewGap(p: Points.Point, q: Points.Point)
    requires p == Points.Point(1.0, 0.0, 0.0) && q == Points.Point(1.0, 0.0, 1.0)
    ensures Points.Sub(p, q) == Vector(0.0, 0.0, -1.0)
  {
  }

  /** A line whose direction has no z component stays at the height of
      `a`, so it never reaches a point at another height. */
  lemma Level(a: Points.Point, u: Vector, p: Points.Point)
    requires u.z == 0.0 && p.z != a.z
    ensures forall t :: p != At(a, u, t)
  {
  }
}
