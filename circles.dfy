/** The `Circle` class of geometry.py: a centre and a radius. Both queries
    compare a distance with a radius strictly, so a tangent circle or a point
    on the boundary does not count. Each distance is the square root of a
    squared length and is supplied as a parameter. */
module Circles {
  import opened Numeric
  import opened Vectors
  import Points

  datatype Circle = Circle(center: Points.Point, radius: real)

  /** `Circle()`: the unit circle about the origin. */
  const Default: Circle := Circle(Points.Origin, 1.0)

  /** `intersects_with()`: the distance `d` between the centres is below the
      sum of the radii. */
  predicate IntersectsWith(c1: Circle, c2: Circle, d: real)
    requires IsLength(Points.Sub(c1.center, c2.center), d)
  {
    d < c1.radius + c2.radius
  }

  /** `contains_point()`: the distance `d` from the centre to `p` is below
      the radius. */
  predicate ContainsPoint(c: Circle, p: Points.Point, d: real)
    requires IsLength(Points.Sub(p, c.center), d)
  {
    d < c.radius
  }

  /** A non-negative distance is below a bound exactly when the bound is
      positive and the squares compare the same way. */
  lemma BelowIffSquares(d: real, bound: real)
    requires d >= 0.0
    ensures d < bound <==> bound > 0.0 && d * d < bound * bound
  {
    if d < bound {
      SquareStrictMonotone(d, bound);
    } else if bound > 0.0 {
      SquareMonotone(bound, d);
    }
  }

  /** Without the square root: two circles intersect exactly when the sum of
      the radii is positive and the squared distance of the centres is below
      its square. */
  lemma IntersectsWithSquared(c1: Circle, c2: Circle, d: real)
    requires IsLength(Points.Sub(c1.center, c2.center), d)
    ensures IntersectsWith(c1, c2, d)
        <==> c1.radius + c2.radius > 0.0
             && SqNorm(Points.Sub(c1.center, c2.center)) < (c1.radius + c2.radius) * (c1.radius + c2.radius)
  {
    BelowIffSquares(d, c1.radius + c2.radius);
  }

  /** Without the square root: a point is contained exactly when the radius
      is positive and the squared distance is below its square. */
  lemma ContainsPointSquared(c: Circle, p: Points.Point, d: real)
    requires IsLength(Points.Sub(p, c.center), d)
    ensures ContainsPoint(c, p, d)
        <==> c.radius > 0.0 && SqNorm(Points.Sub(p, c.center)) < c.radius * c.radius
  {
    BelowIffSquares(d, c.radius);
  }

  /** The test is symmetric: the distance between the centres is the same
      measured either way. */
  lemma IntersectsWithSymmetric(c1: Circle, c2: Circle, d: real)
    requires IsLength(Points.Sub(c1.center, c2.center), d)
    ensures IsLength(Points.Sub(c2.center, c1.center), d)
    ensures IntersectsWith(c2, c1, d) == IntersectsWith(c1, c2, d)
  {
    Points.DistanceSymmetric(c2.center, c1.center, d);
  }

  /** Circles that touch from outside do not intersect. */
  lemma TangentNotIntersecting(c1: Circle, c2: Circle, d: real)
    requires IsLength(Points.Sub(c1.center, c2.center), d)
    requires d == c1.radius + c2.radius
    ensures !IntersectsWith(c1, c2, d)
  {
  }

  /** A point on the boundary is not contained. */
  lemma BoundaryNotContained(c: Circle, p: Points.Point, d: real)
    requires IsLength(Points.Sub(p, c.center), d)
    requires d == c.radius
    ensures !ContainsPoint(c, p, d)
  {
  }

  /** The centre is contained only when the radius is positive ... */
  lemma CenterNeedsPositiveRadius(c: Circle, d: real)
    requires IsLength(Points.Sub(c.center, c.center), d)
    ensures ContainsPoint(c, c.center, d) ==> c.radius > 0.0
  {
    ZeroDistance(c.center, d);
  }

  /** ... and a positive radius always contains it. */
  lemma PositiveRadiusHoldsCenter(c: Circle, d: real)
    requires IsLength(Points.Sub(c.center, c.center), d)
    ensures c.radius > 0.0 ==> ContainsPoint(c, c.center, d)
  {
    ZeroDistance(c.center, d);
  }

  lemma ZeroDistance(p: Points.Point, d: real)
    requires IsLength(Points.Sub(p, p), d)
    ensures d == 0.0
  {
    var v := Points.Sub(p, p);
    SqNormZero(v);
    LengthZero(v, d);
  }

  /** Containment agrees with intersection with a circle of radius zero
      about the point. */
  lemma ContainsIsIntersectsPoint(c: Circle, p: Points.Point, d: real)
    requires IsLength(Points.Sub(p, c.center), d)
    ensures IsLength(Points.Sub(c.center, p), d)
    ensures ContainsPoint(c, p, d) == IntersectsWith(c, Circle(p, 0.0), d)
  {
    Points.DistanceSymmetric(c.center, p, d);
  }

  /** `Circle()` with its defaults is the unit circle about the origin: it
      contains the origin and not the boundary point (1, 0, 0). */
  lemma DefaultIsUnitCircle()
    ensures ContainsPoint(Default, Points.Origin, 0.0)
    ensures !ContainsPoint(Default, Points.Point(1.0, 0.0, 0.0), 1.0)
  {
  }

  /** The unit circle about the origin and the unit circle about (1.5, 0)
      intersect; with radius 0.5 each they do not. */
  lemma DistanceExample(c1: Circle, c2: Circle, d: real)
    requires c1.center.x == 0.0 && c1.center.y == 0.0 && c1.center.z == 0.0
    requires c2.center.x == 1.5 && c2.center.y == 0.0 && c2.center.z == 0.0
    requires IsLength(Points.Sub(c1.center, c2.center), d)
    ensures d == 1.5
  {
    CentresApart(c1.center, c2.center);
    OneAndAHalf(Points.Sub(c1.center, c2.center), d);
  }

  lemma CentresApart(p: Points.Point, q: Points.Point)
    requires p.x == 0.0 && p.y == 0.0 && p.z == 0.0
    requires q.x == 1.5 && q.y == 0.0 && q.z == 0.0
    ensures Points.Sub(p, q) == Vector(-1.5, 0.0, 0.0)
  {
  }

  lemma OneAndAHalf(v: Vector, d: real)
    requires v == Vector(-1.5, 0.0, 0.0) && IsLength(v, d)
    ensures d == 1.5
  {
    LengthUnique(v, d, 1.5);
  }

  lemma UnitCirclesExample(c1: Circle, c2: Circle, d: real)
    requires c1 == Circle(Points.Point(0.0, 0.0, 0.0), 1.0)
    requires c2 == Circle(Points.Point(1.5, 0.0, 0.0), 1.0)
    requires IsLength(Points.Sub(c1.center, c2.center), d)
    ensures IntersectsWith(c1, c2, d)
  {
    DistanceExample(c1, c2, d);
  }

  lemma HalfCirclesExample(c1: Circle, c2: Circle, d: real)
    requires c1 == Circle(Points.Point(0.0, 0.0, 0.0), 0.5)
    requires c2 == Circle(Points.Point(1.5, 0.0, 0.0), 0.5)
    requires IsLength(Points.Sub(c1.center, c2.center), d)
    ensures !IntersectsWith(c1, c2, d)
  {
    DistanceExample(c1, c2, d);
  }
}
