/** The `Point` class of geometry.py: a location (x, y, z). Subtracting two
    points gives the `Vector` between them, and adding a vector (or, as the
    source allows, another point) moves the point. */
module Points {
  import opened Numeric
  import Vectors

  datatype Point = Point(x: real, y: real, z: real)

  const Origin: Point := Point(0.0, 0.0, 0.0)

  /** `p1 + p2` between two points: the coordinates add. */
  function Add(p: Point, q: Point): Point {
    Point(p.x + q.x, p.y + q.y, p.z + q.z)
  }

  /** `p + v`: `__add__` only reads `x`, `y` and `z`, so a `Vector` operand
      moves the point by that displacement. */
  function Translate(p: Point, v: Vectors.Vector): Point {
    Point(p.x + v.x, p.y + v.y, p.z + v.z)
  }

  /** `p1 - p2`: the vector from `q` to `p`; moving `q` by it arrives at `p`. */
  function Sub(p: Point, q: Point): (r: Vectors.Vector)
    ensures Translate(q, r) == p
    ensures r == Vectors.Zero <==> p == q
  {
    Vectors.Vector(p.x - q.x, p.y - q.y, p.z - q.z)
  }

  /** `p * k`; `k * p` (`__rmul__`) delegates here, so both orders agree. */
  function Scale(p: Point, k: real): Point {
    Point(p.x * k, p.y * k, p.z * k)
  }

  /** `p / d`: a non-numeric divisor raises `TypeError` (checked first), zero
      raises `ZeroDivisionError`, otherwise each coordinate is divided. */
  function Div(p: Point, d: Operand): (r: Result<Point>)
    ensures r == Err(TypeError) <==> d.NonNumeric?
    ensures r == Err(ZeroDivisionError) <==> d == Number(0.0)
    ensures r.Ok? <==> d.Number? && d.value != 0.0
    ensures r.Ok? ==> Scale(r.value, d.value) == p
  {
    match d
    case NonNumeric => Err(TypeError)
    case Number(k) =>
      if k == 0.0 then Err(ZeroDivisionError)
      else Ok(Point(p.x / k, p.y / k, p.z / k))
  }

  function Neg(p: Point): Point {
    Point(-p.x, -p.y, -p.z)
  }

  /** `p1 == p2` as written: it compares `x` with `y` of the left operand and
      each of `y` and `z` with itself, and never reads the right operand. */
  predicate EqualAsWritten(p: Point, q: Point) {
    IsClose(p.x, p.y, AbsTol) && IsClose(p.y, p.y, AbsTol) && IsClose(p.z, p.z, AbsTol)
  }

  /** Point equality as intended: every axis agrees within 1e-5, as for vectors. */
  predicate Equal(p: Point, q: Point) {
    IsClose(p.x, q.x, AbsTol) && IsClose(p.y, q.y, AbsTol) && IsClose(p.z, q.z, AbsTol)
  }

  /** `distance_to()`: the length of `q - p`, supplied as `l`. */
  function DistanceTo(p: Point, q: Point, l: real): (r: real)
    requires Vectors.IsLength(Sub(q, p), l)
    ensures r >= 0.0 && r * r == Vectors.SqNorm(Sub(q, p))
    ensures r == 0.0 <==> p == q
  {
    Vectors.LengthZero(Sub(q, p), l);
    Vectors.SqNormZero(Sub(q, p));
    l
  }

  /** `point_at_distance()`: the point reached by moving `distance` times the
      (not necessarily unit) direction. Measured back along that direction it
      lies `distance * |direction|^2` away. */
  function PointAtDistance(p: Point, distance: real, direction: Vectors.Vector): (r: Point)
    ensures Sub(r, p) == Vectors.Scale(direction, distance)
    ensures DirectionalDistanceTo(p, r, direction) == distance * Vectors.SqNorm(direction)
  {
    var r := Translate(p, Vectors.Scale(direction, distance));
    assert Sub(r, p) == Vectors.Scale(direction, distance);
    r
  }

  /** `directional_distance_to()`: the signed projection of `q - p` on the
      direction, scaled by the direction's length when it is not a unit vector. */
  function DirectionalDistanceTo(p: Point, q: Point, direction: Vectors.Vector): real {
    Vectors.Dot(Sub(q, p), direction)
  }

  // ---------------------------------------------------------------------
  // Algebra

  lemma TranslateSub(p: Point, v: Vectors.Vector)
    ensures Sub(Translate(p, v), p) == v
  {
  }

  lemma NegInvolutive(p: Point)
    ensures Neg(Neg(p)) == p
  {
  }

  lemma ScaleByMinusOne(p: Point)
    ensures Scale(p, -1.0) == Neg(p)
  {
  }

  /** Adding a point is moving by its position vector. */
  lemma AddIsTranslate(p: Point, q: Point)
    ensures Add(p, q) == Translate(p, Sub(q, Origin))
  {
  }

  // ---------------------------------------------------------------------
  // Equality

  /** The equality as written does not depend on its right operand. */
  lemma EqualAsWrittenIgnoresOther(p: Point, q1: Point, q2: Point)
    ensures EqualAsWritten(p, q1) == EqualAsWritten(p, q2)
    ensures EqualAsWritten(p, q1) <==> IsClose(p.x, p.y, AbsTol)
  {
    IsCloseReflexive(p.y, AbsTol);
    IsCloseReflexive(p.z, AbsTol);
  }

  /** As written, `Point(3, 4, 5) == Point(3, 4, 5)` is false, while a point
      such as (3, 3, 0) equals every point, the far-away origin included. */
  lemma EqualAsWrittenCounterexample()
    ensures !EqualAsWritten(Point(3.0, 4.0, 5.0), Point(3.0, 4.0, 5.0))
    ensures EqualAsWritten(Point(3.0, 3.0, 0.0), Point(100.0, -7.0, 2.0))
  {
  }

  lemma EqualReflexive(p: Point)
    ensures Equal(p, p)
  {
    IsCloseReflexive(p.x, AbsTol);
    IsCloseReflexive(p.y, AbsTol);
    IsCloseReflexive(p.z, AbsTol);
  }

  lemma EqualSymmetric(p: Point, q: Point)
    ensures Equal(p, q) == Equal(q, p)
  {
    IsCloseSymmetric(p.x, q.x, AbsTol);
    IsCloseSymmetric(p.y, q.y, AbsTol);
    IsCloseSymmetric(p.z, q.z, AbsTol);
  }

  /** Points within 1e-5 on every axis are equal, and points that differ by
      more than 1e-5 on some axis are not, as long as the coordinates stay
      within 10^4 in magnitude. */
  lemma EqualSmallCoordinates(p: Point, q: Point)
    requires Abs(p.x) <= 10000.0 && Abs(p.y) <= 10000.0 && Abs(p.z) <= 10000.0
    requires Abs(q.x) <= 10000.0 && Abs(q.y) <= 10000.0 && Abs(q.z) <= 10000.0
    ensures Equal(p, q) <==> Abs(p.x - q.x) <= AbsTol && Abs(p.y - q.y) <= AbsTol && Abs(p.z - q.z) <= AbsTol
  {
    IsCloseSmallMagnitude(p.x, q.x);
    IsCloseSmallMagnitude(p.y, q.y);
    IsCloseSmallMagnitude(p.z, q.z);
  }

  // ---------------------------------------------------------------------
  // Distances

  /** The distance is symmetric: `q - p` and `p - q` have the same length. */
  lemma DistanceSymmetric(p: Point, q: Point, l: real)
    requires Vectors.IsLength(Sub(q, p), l)
    ensures Vectors.IsLength(Sub(p, q), l)
    ensures DistanceTo(q, p, l) == DistanceTo(p, q, l)
  {
    assert Vectors.SqNorm(Sub(p, q)) == Vectors.SqNorm(Sub(q, p));
  }

  /** Directional distances change sign when the points swap and add up along
      a path. */
  lemma DirectionalDistanceAdditive(p: Point, q: Point, r: Point, direction: Vectors.Vector)
    ensures DirectionalDistanceTo(q, p, direction) == -DirectionalDistanceTo(p, q, direction)
    ensures DirectionalDistanceTo(p, q, direction) + DirectionalDistanceTo(q, r, direction)
         == DirectionalDistanceTo(p, r, direction)
  {
  }

  /** Along a unit direction, `point_at_distance` and `directional_distance_to`
      are inverse: the point `d` away is measured back as `d`. */
  lemma PointAtDistanceRoundTrip(p: Point, distance: real, direction: Vectors.Vector)
    requires Vectors.SqNorm(direction) == 1.0
    ensures DirectionalDistanceTo(p, PointAtDistance(p, distance, direction), direction) == distance
  {
  }

  // ---------------------------------------------------------------------
  // The unit tests of geometry.py, evaluated on the model

  /** The expected values of `test_add`, `test_sub`, `test_mul`,
      `test_truediv` and `test_neg` hold of the model. The `assertEqual`
      calls of `test_add`, `test_mul`, `test_truediv` and `test_neg` compare
      two points with `__eq__` as written, which compares `x` with `y` of the
      result, so each of them fails; `test_sub` compares a `Vector` on the
      left, whose `__eq__` is correct, and passes. */
  lemma UnitTestExamples()
    ensures Equal(Add(Point(1.0, 2.0, 3.0), Point(4.0, 5.0, 6.0)), Point(5.0, 7.0, 9.0))
    ensures !EqualAsWritten(Add(Point(1.0, 2.0, 3.0), Point(4.0, 5.0, 6.0)), Point(5.0, 7.0, 9.0))
    ensures Vectors.Equal(Sub(Point(4.0, 5.0, 6.0), Point(1.0, 2.0, 3.0)), Vectors.Vector(3.0, 3.0, 3.0))
    ensures Scale(Point(2.0, 3.0, 4.0), 2.0) == Point(4.0, 6.0, 8.0)
    ensures !EqualAsWritten(Scale(Point(2.0, 3.0, 4.0), 2.0), Point(4.0, 6.0, 8.0))
    ensures Div(Point(4.0, 6.0, 8.0), Number(2.0)) == Ok(Point(2.0, 3.0, 4.0))
    ensures !EqualAsWritten(Point(2.0, 3.0, 4.0), Point(2.0, 3.0, 4.0))
    ensures Div(Point(4.0, 6.0, 8.0), Number(0.0)) == Err(ZeroDivisionError)
    ensures Div(Point(4.0, 6.0, 8.0), NonNumeric) == Err(TypeError)
    ensures Neg(Point(3.0, 4.0, 5.0)) == Point(-3.0, -4.0, -5.0)
    ensures !EqualAsWritten(Neg(Point(3.0, 4.0, 5.0)), Point(-3.0, -4.0, -5.0))
  {
  }

  /** `test_eq` expects (3, 4, 5) and (3.00001, 4.00002, 5) to be equal; they
      are not, as written or as intended, since the y coordinates differ by
      2e-5. Points within the tolerance on every axis are equal as intended. */
  lemma UnitTestEqualityPair()
    ensures !EqualAsWritten(Point(3.0, 4.0, 5.0), Point(3.00001, 4.00002, 5.0))
    ensures !Equal(Point(3.0, 4.0, 5.0), Point(3.00001, 4.00002, 5.0))
    ensures Equal(Point(3.0, 4.0, 5.0), Point(3.000005, 4.000005, 5.0))
  {
  }
}
