/** The `Ray` class of geometry.py: a start point and a direction that the
    constructor normalizes, so every ray has a unit direction. The ray is the
    set of points `start + t * direction` for `t >= 0`. */
module Rays {
  import opened Numeric
  import opened Vectors
  import Points
  import Parametric

  datatype Ray = Ray(start: Points.Point, direction: Vector)

  /** What the constructor guarantees: the stored direction has length one. */
  predicate Valid(ray: Ray) {
    SqNorm(ray.direction) == 1.0
  }

  /** `Ray(start_point, direction_vector)`: the direction is normalized, with
      its length supplied as `l`; a direction of length within 1e-9 of zero
      makes `normalize()` raise `ValueError`. A constructed ray is valid and
      points the way the given vector does. */
  function Make(start: Points.Point, v: Vector, l: real): (r: Result<Ray>)
    requires IsLength(v, l)
    ensures r.Err? <==> SqNorm(v) <= 0.000000000000000001
    ensures r.Err? ==> r.error == ValueError
    ensures r.Ok? ==> r.value.start == start && Valid(r.value) && Scale(r.value.direction, l) == v
  {
    match Normalize(v, l)
    case Err(e) => Err(e)
    case Ok(u) => Ok(Ray(start, u))
  }

  /** The point at parameter `t`. */
  function At(ray: Ray, t: real): Points.Point {
    Parametric.At(ray.start, ray.direction, t)
  }

  /** `p` lies on the ray. */
  ghost predicate OnRay(ray: Ray, p: Points.Point) {
    exists t :: 0.0 <= t && p == At(ray, t)
  }

  /** The two rays pass through one point, at parameter `t` on `ray1` and `s`
      on `ray2`. */
  ghost predicate MeetAt(ray1: Ray, ray2: Ray, t: real, s: real) {
    0.0 <= t && 0.0 <= s && At(ray1, t) == At(ray2, s)
  }

  // The relationship tests of a ray are those of its direction.

  predicate Parallel(ray1: Ray, ray2: Ray) {
    Vectors.Parallel(ray1.direction, ray2.direction)
  }

  predicate AntiParallel(ray1: Ray, ray2: Ray) {
    Vectors.AntiParallel(ray1.direction, ray2.direction)
  }

  predicate Aligned(ray1: Ray, ray2: Ray) {
    Vectors.Aligned(ray1.direction, ray2.direction)
  }

  predicate Orthogonal(ray1: Ray, ray2: Ray) {
    Vectors.Orthogonal(ray1.direction, ray2.direction)
  }

  function CrossProduct(ray1: Ray, ray2: Ray): Vector {
    Cross(ray1.direction, ray2.direction)
  }

  /** `angle_between()` up to the final `degrees(acos(.))`: both directions
      have length one, so the cosine never fails and is their dot product. */
  function CosAngleBetween(ray1: Ray, ray2: Ray): (r: real)
    requires Valid(ray1) && Valid(ray2)
    ensures CosAngle(ray1.direction, ray2.direction, 1.0, 1.0) == Ok(r)
    ensures r == Dot(ray1.direction, ray2.direction)
  {
    match CosAngle(ray1.direction, ray2.direction, 1.0, 1.0)
    case Ok(c) => c
  }

  // ---------------------------------------------------------------------
  // Intersection

  /** Valid rays have non-zero directions, so when they are not aligned the
      solver succeeds. */
  lemma SolveSucceeds(ray1: Ray, ray2: Ray)
    requires Valid(ray1) && Valid(ray2) && !Aligned(ray1, ray2)
    ensures Parametric.Solve(ray1.start, ray1.direction, ray2.start, ray2.direction).Ok?
  {
    CrossZeroIff(ray1.direction, ray2.direction);
  }

  /** `intersection_point()` as written. Aligned rays give `None`; otherwise
      the solver's parameters are kept when both are non-negative, and the
      point `start + t * direction` on the first ray is returned; nothing
      checks that the second ray passes through it. */
  function IntersectionPointAsWritten(ray1: Ray, ray2: Ray): (r: Option<Points.Point>)
    requires Valid(ray1) && Valid(ray2)
    ensures r.Some? ==> OnRay(ray1, r.value)
  {
    if Aligned(ray1, ray2) then
      None
    else
      SolveSucceeds(ray1, ray2);
      var st := Parametric.Solve(ray1.start, ray1.direction, ray2.start, ray2.direction).value;
      if 0.0 <= st.s && 0.0 <= st.t then
        // `st.t` is the witness of `OnRay(ray1, _)` for the point returned
        assert 0.0 <= st.t && At(ray1, st.t) == At(ray1, st.t);
        Some(At(ray1, st.t))
      else
        None
  }

  /** `intersection_point()` as evidently intended: the point is reported
      only when it lies on both rays. */
  function IntersectionPoint(ray1: Ray, ray2: Ray): (r: Option<Points.Point>)
    requires Valid(ray1) && Valid(ray2)
    ensures r.Some? ==> OnRay(ray1, r.value) && OnRay(ray2, r.value)
  {
    if Aligned(ray1, ray2) then
      None
    else
      SolveSucceeds(ray1, ray2);
      var st := Parametric.Solve(ray1.start, ray1.direction, ray2.start, ray2.direction).value;
      if 0.0 <= st.s && 0.0 <= st.t && At(ray1, st.t) == At(ray2, st.s) then
        assert MeetAt(ray1, ray2, st.t, st.s);
        Some(At(ray1, st.t))
      else
        None
  }

  /** `intersects()` as written: whether `intersection_point()` as written
      finds a point. */
  function IntersectsAsWritten(ray1: Ray, ray2: Ray): bool
    requires Valid(ray1) && Valid(ray2)
  {
    IntersectionPointAsWritten(ray1, ray2).Some?
  }

  /** `intersects()` as evidently intended, on the corrected
      `IntersectionPoint`: whether the rays share a point. */
  function Intersects(ray1: Ray, ray2: Ray): bool
    requires Valid(ray1) && Valid(ray2)
  {
    IntersectionPoint(ray1, ray2).Some?
  }

  /** The points at `t` on the line of `ray1` and at `s` on the line of `ray2`
      are the closest points of the two lines: the gap between them is
      perpendicular to both directions. */
  ghost predicate ClosestAt(ray1: Ray, ray2: Ray, t: real, s: real) {
    var g := Parametric.Gap(ray1.start, ray1.direction, ray2.start, ray2.direction, Parametric.Params(s, t));
    Dot(g, ray1.direction) == 0.0 && Dot(g, ray2.direction) == 0.0
  }

  /** For rays that are not aligned, `intersects()` as written holds exactly
      when the closest points of the two lines lie on both rays, whether or
      not the lines meet there. */
  lemma IntersectsAsWrittenIff(ray1: Ray, ray2: Ray)
    requires Valid(ray1) && Valid(ray2) && !Aligned(ray1, ray2)
    ensures IntersectsAsWritten(ray1, ray2)
        <==> exists t, s :: 0.0 <= t && 0.0 <= s && ClosestAt(ray1, ray2, t, s)
  {
    SolveSucceeds(ray1, ray2);
    CrossZeroIff(ray1.direction, ray2.direction);
    var st := Parametric.Solve(ray1.start, ray1.direction, ray2.start, ray2.direction).value;
    SolvedCases(ray1, ray2, st);
    if t, s :| 0.0 <= t && 0.0 <= s && ClosestAt(ray1, ray2, t, s) {
      Parametric.SolveUnique(ray1.start, ray1.direction, ray2.start, ray2.direction, Parametric.Params(s, t));
    } else {
      assert ClosestAt(ray1, ray2, st.t, st.s);
    }
  }

  /** Whatever the corrected test finds, the test as written finds too. */
  lemma IntersectsAsWrittenOverApproximates(ray1: Ray, ray2: Ray)
    requires Valid(ray1) && Valid(ray2)
    ensures Intersects(ray1, ray2) ==> IntersectsAsWritten(ray1, ray2)
  {
  }

  /** Non-aligned rays that cross are found, at the crossing point. */
  lemma IntersectionPointComplete(ray1: Ray, ray2: Ray, t: real, s: real)
    requires Valid(ray1) && Valid(ray2) && !Aligned(ray1, ray2)
    requires MeetAt(ray1, ray2, t, s)
    ensures IntersectionPoint(ray1, ray2) == Some(At(ray1, t))
  {
    CrossZeroIff(ray1.direction, ray2.direction);
    Parametric.SolveRecovers(ray1.start, ray1.direction, ray2.start, ray2.direction, s, t);
  }

  /** For rays that are not aligned, `intersects()` holds exactly when the
      rays share a point. */
  lemma IntersectsIff(ray1: Ray, ray2: Ray)
    requires Valid(ray1) && Valid(ray2) && !Aligned(ray1, ray2)
    ensures Intersects(ray1, ray2) <==> exists t, s :: MeetAt(ray1, ray2, t, s)
  {
    if t, s :| MeetAt(ray1, ray2, t, s) {
      IntersectionPointComplete(ray1, ray2, t, s);
    } else {
      SolveSucceeds(ray1, ray2);
      var st := Parametric.Solve(ray1.start, ray1.direction, ray2.start, ray2.direction).value;
      assert !MeetAt(ray1, ray2, st.t, st.s);
    }
  }

  /** Aligned rays never intersect, even when one contains the other. */
  lemma AlignedNeverIntersect(ray1: Ray, ray2: Ray)
    requires Valid(ray1) && Valid(ray2) && Aligned(ray1, ray2)
    ensures IntersectionPoint(ray1, ray2).None?
    ensures IntersectionPointAsWritten(ray1, ray2).None?
    ensures !Intersects(ray1, ray2)
    ensures !IntersectsAsWritten(ray1, ray2)
  {
  }

  /** In the plane z = 0 the code as written is already correct. */
  lemma PlanarAsWrittenCorrect(ray1: Ray, ray2: Ray)
    requires Valid(ray1) && Valid(ray2)
    requires ray1.start.z == 0.0 && ray1.direction.z == 0.0
    requires ray2.start.z == 0.0 && ray2.direction.z == 0.0
    ensures IntersectionPointAsWritten(ray1, ray2) == IntersectionPoint(ray1, ray2)
    ensures IntersectsAsWritten(ray1, ray2) == Intersects(ray1, ray2)
  {
    if !Aligned(ray1, ray2) {
      SolveSucceeds(ray1, ray2);
      Parametric.SolvePlanarMeets(ray1.start, ray1.direction, ray2.start, ray2.direction);
    }
  }

  // ---------------------------------------------------------------------
  // Examples

  /** The ray from (0,0,0) along +x and the ray from (1,-1,1) along +y lie on
      skew lines one unit apart. As written the closest point (1,0,0) of the
      first ray is reported; it is not on the second ray. */
  lemma SkewRaysCounterexample(ray1: Ray, ray2: Ray)
    requires ray1 == Ray(Points.Point(0.0, 0.0, 0.0), Vector(1.0, 0.0, 0.0))
    requires ray2 == Ray(Points.Point(1.0, -1.0, 1.0), Vector(0.0, 1.0, 0.0))
    ensures Valid(ray1) && Valid(ray2)
    ensures IntersectionPointAsWritten(ray1, ray2) == Some(Points.Point(1.0, 0.0, 0.0))
    ensures !OnRay(ray2, Points.Point(1.0, 0.0, 0.0))
    ensures IntersectionPoint(ray1, ray2) == None
  {
    SkewRayFacts(ray1, ray2);
    SolveAtOne(ray1, ray2, Vector(0.0, 0.0, -1.0));
    SolvedCases(ray1, ray2, Parametric.Params(1.0, 1.0));
  }

  /** On the same skew rays `intersects()` as written answers `True`,
      although the rays share no point; the corrected test answers `False`. */
  lemma SkewRaysIntersectAsWritten(ray1: Ray, ray2: Ray)
    requires ray1 == Ray(Points.Point(0.0, 0.0, 0.0), Vector(1.0, 0.0, 0.0))
    requires ray2 == Ray(Points.Point(1.0, -1.0, 1.0), Vector(0.0, 1.0, 0.0))
    ensures Valid(ray1) && Valid(ray2)
    ensures IntersectionPointAsWritten(ray1, ray2) == Some(Points.Point(1.0, 0.0, 0.0))
    ensures !OnRay(ray2, Points.Point(1.0, 0.0, 0.0))
    ensures IntersectsAsWritten(ray1, ray2)
    ensures !Intersects(ray1, ray2)
    ensures !exists t, s :: MeetAt(ray1, ray2, t, s)
  {
    SkewRaysCounterexample(ray1, ray2);
    XAndY(ray1, ray2);
    ReportedIntersects(ray1, ray2, Points.Point(1.0, 0.0, 0.0));
    UnreportedApart(ray1, ray2);
  }

  lemma ReportedIntersects(ray1: Ray, ray2: Ray, p: Points.Point)
    requires Valid(ray1) && Valid(ray2)
    requires IntersectionPointAsWritten(ray1, ray2) == Some(p)
    requires IntersectionPoint(ray1, ray2) == None
    ensures IntersectsAsWritten(ray1, ray2) && !Intersects(ray1, ray2)
  {
  }

  lemma UnreportedApart(ray1: Ray, ray2: Ray)
    requires Valid(ray1) && Valid(ray2) && !Aligned(ray1, ray2)
    requires IntersectionPoint(ray1, ray2) == None
    ensures !exists t, s :: MeetAt(ray1, ray2, t, s)
  {
    IntersectsIff(ray1, ray2);
  }

  lemma SkewRayFacts(ray1: Ray, ray2: Ray)
    requires ray1 == Ray(Points.Point(0.0, 0.0, 0.0), Vector(1.0, 0.0, 0.0))
    requires ray2 == Ray(Points.Point(1.0, -1.0, 1.0), Vector(0.0, 1.0, 0.0))
    ensures Valid(ray1) && Valid(ray2) && !Aligned(ray1, ray2)
    ensures At(ray1, 1.0) == Points.Point(1.0, 0.0, 0.0)
    ensures Points.Sub(At(ray1, 1.0), At(ray2, 1.0)) == Vector(0.0, 0.0, -1.0)
    ensures !MeetAt(ray1, ray2, 1.0, 1.0)
    ensures !OnRay(ray2, Points.Point(1.0, 0.0, 0.0))
  {
    XAndY(ray1, ray2);
    OneAlongX(ray1);
    OneAlongSkewY(ray2);
    SkewRayGap(ray1, ray2);
    SkewRaysApart(ray1, ray2);
    OffSkewSecond(ray2);
  }

  lemma OffSkewSecond(ray: Ray)
    requires ray == Ray(Points.Point(1.0, -1.0, 1.0), Vector(0.0, 1.0, 0.0))
    ensures !OnRay(ray, Points.Point(1.0, 0.0, 0.0))
  {
    Parametric.Level(ray.start, ray.direction, Points.Point(1.0, 0.0, 0.0));
  }

  lemma SkewRayGap(ray1: Ray, ray2: Ray)
    requires At(ray1, 1.0) == Points.Point(1.0, 0.0, 0.0) && At(ray2, 1.0) == Points.Point(1.0, 0.0, 1.0)
    ensures Points.Sub(At(ray1, 1.0), At(ray2, 1.0)) == Vector(0.0, 0.0, -1.0)
  {
    Parametric.SkewGap(At(ray1, 1.0), At(ray2, 1.0));
  }

  lemma SkewRaysApart(ray1: Ray, ray2: Ray)
    requires At(ray1, 1.0) == Points.Point(1.0, 0.0, 0.0) && At(ray2, 1.0) == Points.Point(1.0, 0.0, 1.0)
    ensures !MeetAt(ray1, ray2, 1.0, 1.0)
  {
  }

  /** A ray along +x and a ray along +y. */
  lemma XAndY(ray1: Ray, ray2: Ray)
    requires ray1.direction.x == 1.0 && ray1.direction.y == 0.0 && ray1.direction.z == 0.0
    requires ray2.direction.x == 0.0 && ray2.direction.y == 1.0 && ray2.direction.z == 0.0
    ensures Valid(ray1) && Valid(ray2) && !Aligned(ray1, ray2)
  {
    PerpendicularNotAligned(ray1.direction, ray2.direction);
  }

  /** A ray along +x and a ray along -y. */
  lemma XAndMinusY(ray1: Ray, ray2: Ray)
    requires ray1.direction.x == 1.0 && ray1.direction.y == 0.0 && ray1.direction.z == 0.0
    requires ray2.direction.x == 0.0 && ray2.direction.y == -1.0 && ray2.direction.z == 0.0
    ensures Valid(ray1) && Valid(ray2) && !Aligned(ray1, ray2)
  {
    PerpendicularNotAligned(ray1.direction, ray2.direction);
  }

  /** Perpendicular directions are neither parallel nor anti-parallel. */
  lemma PerpendicularNotAligned(u: Vector, v: Vector)
    requires Dot(u, v) == 0.0
    ensures !Vectors.Aligned(u, v)
  {
  }

  lemma OneAlongX(ray: Ray)
    requires ray.start.x == 0.0 && ray.start.y == 0.0 && ray.start.z == 0.0
    requires ray.direction.x == 1.0 && ray.direction.y == 0.0 && ray.direction.z == 0.0
    ensures At(ray, 1.0) == Points.Point(1.0, 0.0, 0.0)
  {
  }

  lemma OneAlongSkewY(ray: Ray)
    requires ray.start.x == 1.0 && ray.start.y == -1.0 && ray.start.z == 1.0
    requires ray.direction.x == 0.0 && ray.direction.y == 1.0 && ray.direction.z == 0.0
    ensures At(ray, 1.0) == Points.Point(1.0, 0.0, 1.0)
  {
  }

  /** The two functions once the solver has returned `st` for rays that are
      not aligned. */
  lemma SolvedCases(ray1: Ray, ray2: Ray, st: Parametric.Params)
    requires Valid(ray1) && Valid(ray2) && !Aligned(ray1, ray2)
    requires Parametric.Solve(ray1.start, ray1.direction, ray2.start, ray2.direction) == Ok(st)
    ensures IntersectionPointAsWritten(ray1, ray2)
         == if 0.0 <= st.s && 0.0 <= st.t then Some(At(ray1, st.t)) else None
    ensures IntersectionPoint(ray1, ray2)
         == if MeetAt(ray1, ray2, st.t, st.s) then Some(At(ray1, st.t)) else None
  {
  }

  /** When the gap at `s = t = 1` is the vertical `g`, the solver returns one
      for both parameters. */
  lemma SolveAtOne(ray1: Ray, ray2: Ray, g: Vector)
    requires ray1.direction.x == 1.0 && ray1.direction.y == 0.0 && ray1.direction.z == 0.0
    requires ray2.direction.x == 0.0 && ray2.direction.y == 1.0 && ray2.direction.z == 0.0
    requires g.x == 0.0 && g.y == 0.0
    requires Points.Sub(At(ray1, 1.0), At(ray2, 1.0)) == g
    ensures Parametric.Solve(ray1.start, ray1.direction, ray2.start, ray2.direction)
         == Ok(Parametric.Params(1.0, 1.0))
  {
    var u, w := ray1.direction, ray2.direction;
    assert Cross(u, w) == Vector(0.0, 0.0, 1.0);
    assert Parametric.Gap(ray1.start, u, ray2.start, w, Parametric.Params(1.0, 1.0)) == g;
    Parametric.SolveUnique(ray1.start, u, ray2.start, w, Parametric.Params(1.0, 1.0));
  }

  /** The ray from (0,0) along +x and the ray from (5,5) along -y meet at
      (5,0). */
  lemma CrossingExample(ray1: Ray, ray2: Ray)
    requires ray1 == Ray(Points.Point(0.0, 0.0, 0.0), Vector(1.0, 0.0, 0.0))
    requires ray2 == Ray(Points.Point(5.0, 5.0, 0.0), Vector(0.0, -1.0, 0.0))
    ensures Valid(ray1) && Valid(ray2)
    ensures IntersectionPoint(ray1, ray2) == Some(Points.Point(5.0, 0.0, 0.0))
    ensures IntersectionPointAsWritten(ray1, ray2) == Some(Points.Point(5.0, 0.0, 0.0))
  {
    XAndMinusY(ray1, ray2);
    FiveAlongX(ray1);
    FiveDown(ray2);
    IntersectionPointComplete(ray1, ray2, 5.0, 5.0);
    PlanarAsWrittenCorrect(ray1, ray2);
  }

  lemma FiveAlongX(ray: Ray)
    requires ray.start.x == 0.0 && ray.start.y == 0.0 && ray.start.z == 0.0
    requires ray.direction.x == 1.0 && ray.direction.y == 0.0 && ray.direction.z == 0.0
    ensures At(ray, 5.0) == Points.Point(5.0, 0.0, 0.0)
  {
  }

  lemma FiveDown(ray: Ray)
    requires ray.start.x == 5.0 && ray.start.y == 5.0 && ray.start.z == 0.0
    requires ray.direction.x == 0.0 && ray.direction.y == -1.0 && ray.direction.z == 0.0
    ensures At(ray, 5.0) == Points.Point(5.0, 0.0, 0.0)
  {
  }

  // ---------------------------------------------------------------------
  // Containment

  /** `contains_point()` as written: the vector from the start to `p` is
      parallel to the direction. The zero-vector guard of `parallel()` makes
      this false at the start itself. */
  predicate ContainsPointAsWritten(ray: Ray, p: Points.Point) {
    Vectors.Parallel(ray.direction, Points.Sub(p, ray.start))
  }

  /** `contains_point()` as evidently intended: the start is on the ray too. */
  predicate ContainsPoint(ray: Ray, p: Points.Point) {
    p == ray.start || ContainsPointAsWritten(ray, p)
  }

  /** As written, no ray contains its own start point. */
  lemma StartNotContained(ray: Ray)
    ensures !ContainsPointAsWritten(ray, ray.start)
  {
    assert Points.Sub(ray.start, ray.start) == Zero;
  }

  /** Every point strictly ahead of the start is contained as written. */
  lemma AheadContained(ray: Ray, t: real)
    requires Valid(ray) && t > 0.0
    ensures ContainsPointAsWritten(ray, At(ray, t))
  {
    Points.TranslateSub(ray.start, Scale(ray.direction, t));
    ScaledIsAligned(ray.direction, t);
  }

  /** Points behind the start are never contained: the check is the
      same-direction test, not the direction-agnostic one. */
  lemma BehindNotContained(ray: Ray, t: real)
    requires Valid(ray) && t < 0.0
    ensures !ContainsPoint(ray, At(ray, t))
  {
    Points.TranslateSub(ray.start, Scale(ray.direction, t));
    ScaledIsAligned(ray.direction, t);
    ParallelExcludesAntiParallel(ray.direction, Scale(ray.direction, t));
    assert Points.Sub(At(ray, t), ray.start) != Zero;
  }

  /** With the start point admitted, every point of a ray is contained, and
      every contained point is the start or lies strictly ahead of it. */
  lemma ContainsPointSound(ray: Ray, p: Points.Point)
    requires Valid(ray)
    ensures OnRay(ray, p) ==> ContainsPoint(ray, p)
    ensures ContainsPoint(ray, p) ==> p == ray.start || Dot(ray.direction, Points.Sub(p, ray.start)) > 0.0
    ensures ContainsPoint(ray, p) <==> InCone(ray, p)
  {
    ConeIffContained(ray, p);
    if OnRay(ray, p) {
      var t :| 0.0 <= t && p == At(ray, t);
      if t == 0.0 {
        assert p == ray.start;
      } else {
        AheadContained(ray, t);
      }
    }
  }

  /** `p` is the start, or lies ahead of it within one degree of the
      direction: the cosine of the angle between the direction and
      `p - start` is above cos(1 degree), in squared form. */
  ghost predicate InCone(ray: Ray, p: Points.Point) {
    var w := Points.Sub(p, ray.start);
    p == ray.start
    || (Dot(ray.direction, w) > 0.0 && Dot(ray.direction, w) * Dot(ray.direction, w) > CosOneDegreeSq * SqNorm(w))
  }

  lemma ConeIffContained(ray: Ray, p: Points.Point)
    requires Valid(ray)
    ensures ContainsPoint(ray, p) <==> InCone(ray, p)
  {
    var w := Points.Sub(p, ray.start);
    assert !IsZero(ray.direction);
    if p != ray.start {
      Points.TranslateSub(ray.start, w);
      SqNormZero(w);
      assert SqNorm(ray.direction) * SqNorm(w) == SqNorm(w);
    }
  }

  /** The same cone through `angle_between`: a point other than the start is
      contained exactly when the cosine of its angle with the direction is
      above cos(1 degree). */
  lemma ContainsPointByCosine(ray: Ray, p: Points.Point, l: real)
    requires Valid(ray) && IsLength(Points.Sub(p, ray.start), l)
    ensures ContainsPoint(ray, p)
        <==> p == ray.start
             || (CosAngle(ray.direction, Points.Sub(p, ray.start), 1.0, l).Ok?
                 && CosAngle(ray.direction, Points.Sub(p, ray.start), 1.0, l).value > CosOneDegree)
  {
    assert IsLength(ray.direction, 1.0);
    ParallelByCosine(ray.direction, Points.Sub(p, ray.start), 1.0, l);
  }
}
