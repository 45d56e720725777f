/** The `Polygon` class of geometry.py: an ordered list of vertices. Its
    centroid is the per-axis mean of the vertices and its bounding box spans
    the least and greatest x and y coordinates. */
module Polygons {
  import opened Numeric
  import Vectors
  import Points
  import Rectangles

  datatype Polygon = Polygon(points: seq<Points.Point>)

  datatype Axis = X | Y | Z

  function Coord(p: Points.Point, axis: Axis): real {
    match axis
    case X => p.x
    case Y => p.y
    case Z => p.z
  }

  /** The list comprehension `[point.x for point in self.points]` and its
      y and z counterparts. */
  function Coords(points: seq<Points.Point>, axis: Axis): (r: seq<real>)
    ensures |r| == |points|
    ensures forall i :: 0 <= i < |points| ==> r[i] == Coord(points[i], axis)
  {
    seq(|points|, i requires 0 <= i < |points| => Coord(points[i], axis))
  }

  /** `vertex_count()`. */
  function VertexCount(poly: Polygon): nat {
    |poly.points|
  }

  // ---------------------------------------------------------------------
  // sum, min and max over a list of numbers

  /** Python's `sum`. */
  function Sum(xs: seq<real>): real {
    if |xs| == 0 then 0.0 else xs[0] + Sum(xs[1..])
  }

  /** Python's `min` on a non-empty list: an element no greater than any
      other. (On an empty list `min` raises `ValueError`; callers check.) */
  function Min(xs: seq<real>): (r: real)
    requires |xs| > 0
    ensures r in xs
    ensures forall i :: 0 <= i < |xs| ==> r <= xs[i]
  {
    if |xs| == 1 then xs[0]
    else
      var m := Min(xs[1..]);
      assert forall i :: 1 <= i < |xs| ==> xs[i] == xs[1..][i - 1];
      if xs[0] <= m then xs[0] else m
  }

  /** Python's `max` on a non-empty list: an element no less than any other. */
  function Max(xs: seq<real>): (r: real)
    requires |xs| > 0
    ensures r in xs
    ensures forall i :: 0 <= i < |xs| ==> xs[i] <= r
  {
    if |xs| == 1 then xs[0]
    else
      var m := Max(xs[1..]);
      assert forall i :: 1 <= i < |xs| ==> xs[i] == xs[1..][i - 1];
      if m < xs[0] then xs[0] else m
  }

  /** A sum of `n` numbers, each at least `lo`, is at least `n * lo`. */
  lemma {:induction false} SumAtLeast(xs: seq<real>, lo: real)
    requires forall i :: 0 <= i < |xs| ==> lo <= xs[i]
    ensures |xs| as real * lo <= Sum(xs)
  {
    if |xs| > 0 {
      var rest := xs[1..];
      assert forall i :: 0 <= i < |rest| ==> rest[i] == xs[i + 1];
      SumAtLeast(rest, lo);
      assert |xs| as real * lo == |rest| as real * lo + lo;
    }
  }

  /** A sum of `n` numbers, each at most `hi`, is at most `n * hi`. */
  lemma {:induction false} SumAtMost(xs: seq<real>, hi: real)
    requires forall i :: 0 <= i < |xs| ==> xs[i] <= hi
    ensures Sum(xs) <= |xs| as real * hi
  {
    if |xs| > 0 {
      var rest := xs[1..];
      assert forall i :: 0 <= i < |rest| ==> rest[i] == xs[i + 1];
      SumAtMost(rest, hi);
      assert |xs| as real * hi == |rest| as real * hi + hi;
    }
  }

  /** Adding `c` to each of `n` numbers adds `n * c` to their sum. */
  lemma {:induction false} SumShift(xs: seq<real>, ys: seq<real>, c: real)
    requires |ys| == |xs|
    requires forall i :: 0 <= i < |xs| ==> ys[i] == xs[i] + c
    ensures Sum(ys) == Sum(xs) + |xs| as real * c
  {
    if |xs| > 0 {
      var xr, yr := xs[1..], ys[1..];
      assert forall i :: 0 <= i < |xr| ==> yr[i] == xr[i] + c by {
        forall i | 0 <= i < |xr|
          ensures yr[i] == xr[i] + c
        {
          assert yr[i] == ys[i + 1] && xr[i] == xs[i + 1];
        }
      }
      SumShift(xr, yr, c);
      assert |xs| as real * c == |xr| as real * c + c;
    }
  }

  // ---------------------------------------------------------------------
  // Centroid

  /** The mean of one coordinate over the vertices; `n` is their number. */
  function Mean(points: seq<Points.Point>, axis: Axis): (r: real)
    requires |points| > 0
    ensures r * (|points| as real) == Sum(Coords(points, axis))
  {
    Sum(Coords(points, axis)) / (|points| as real)
  }

  /** `centriod()`: the per-axis mean of the vertices. An empty polygon
      divides by `len` = 0 and raises `ZeroDivisionError`. */
  function Centroid(poly: Polygon): (r: Result<Points.Point>)
    ensures r.Err? <==> |poly.points| == 0
    ensures r.Err? ==> r.error == ZeroDivisionError
    ensures r.Ok? ==> Coord(r.value, X) * (|poly.points| as real) == Sum(Coords(poly.points, X))
    ensures r.Ok? ==> Coord(r.value, Y) * (|poly.points| as real) == Sum(Coords(poly.points, Y))
    ensures r.Ok? ==> Coord(r.value, Z) * (|poly.points| as real) == Sum(Coords(poly.points, Z))
  {
    var pts := poly.points;
    if |pts| == 0 then
      Err(ZeroDivisionError)
    else
      Ok(Points.Point(Mean(pts, X), Mean(pts, Y), Mean(pts, Z)))
  }

  /** Each coordinate of the centroid lies between the least and the greatest
      coordinate of the vertices on that axis. */
  lemma CentroidBetween(poly: Polygon, axis: Axis)
    requires |poly.points| > 0
    ensures Centroid(poly).Ok?
    ensures Min(Coords(poly.points, axis)) <= Coord(Centroid(poly).value, axis)
                                           <= Max(Coords(poly.points, axis))
  {
    CentroidIsMean(poly, axis);
    AverageBetween(Coords(poly.points, axis), Mean(poly.points, axis));
  }

  lemma CentroidIsMean(poly: Polygon, axis: Axis)
    requires |poly.points| > 0
    ensures Centroid(poly).Ok? && Coord(Centroid(poly).value, axis) == Mean(poly.points, axis)
  {
  }

  /** The average of a non-empty list lies between its least and greatest
      element. */
  lemma AverageBetween(xs: seq<real>, c: real)
    requires |xs| > 0 && c * (|xs| as real) == Sum(xs)
    ensures Min(xs) <= c && c <= Max(xs)
  {
    AverageAtLeastMin(xs, c);
    AverageAtMostMax(xs, c);
  }

  lemma AverageAtLeastMin(xs: seq<real>, c: real)
    requires |xs| > 0 && c * (|xs| as real) == Sum(xs)
    ensures Min(xs) <= c
  {
    AverageAtLeast(xs, c, Min(xs));
  }

  lemma AverageAtMostMax(xs: seq<real>, c: real)
    requires |xs| > 0 && c * (|xs| as real) == Sum(xs)
    ensures c <= Max(xs)
  {
    AverageAtMost(xs, c, Max(xs));
  }

  /** An average of numbers that are all at least `lo` is at least `lo`. */
  lemma AverageAtLeast(xs: seq<real>, c: real, lo: real)
    requires |xs| > 0 && c * (|xs| as real) == Sum(xs)
    requires forall i :: 0 <= i < |xs| ==> lo <= xs[i]
    ensures lo <= c
  {
    SumAtLeast(xs, lo);
    ScaleCompare(c, lo, |xs| as real);
  }

  /** An average of numbers that are all at most `hi` is at most `hi`. */
  lemma AverageAtMost(xs: seq<real>, c: real, hi: real)
    requires |xs| > 0 && c * (|xs| as real) == Sum(xs)
    requires forall i :: 0 <= i < |xs| ==> xs[i] <= hi
    ensures c <= hi
  {
    SumAtMost(xs, hi);
    ScaleCompare(hi, c, |xs| as real);
  }

  /** The polygon moved by `v`. */
  function Translate(poly: Polygon, v: Vectors.Vector): (r: Polygon)
    ensures |r.points| == |poly.points|
    ensures forall i :: 0 <= i < |poly.points| ==> r.points[i] == Points.Translate(poly.points[i], v)
  {
    Polygon(seq(|poly.points|, i requires 0 <= i < |poly.points| => Points.Translate(poly.points[i], v)))
  }

  function Component(v: Vectors.Vector, axis: Axis): real {
    match axis
    case X => v.x
    case Y => v.y
    case Z => v.z
  }

  /** Moving every vertex by `v` moves one coordinate of the centroid by the
      same amount. */
  lemma CentroidTranslateAxis(poly: Polygon, v: Vectors.Vector, axis: Axis)
    requires |poly.points| > 0
    ensures Centroid(poly).Ok? && Centroid(Translate(poly, v)).Ok?
    ensures Coord(Centroid(Translate(poly, v)).value, axis)
         == Coord(Centroid(poly).value, axis) + Component(v, axis)
  {
    CentroidIsMean(poly, axis);
    CentroidIsMean(Translate(poly, v), axis);
    MeanTranslate(poly, v, axis);
  }

  lemma MeanTranslate(poly: Polygon, v: Vectors.Vector, axis: Axis)
    requires |poly.points| > 0
    ensures Mean(Translate(poly, v).points, axis) == Mean(poly.points, axis) + Component(v, axis)
  {
    var moved := Translate(poly, v);
    SumTranslate(poly, v, axis);
    MeanShift(Sum(Coords(poly.points, axis)), Sum(Coords(moved.points, axis)), |poly.points| as real,
              Mean(poly.points, axis), Mean(moved.points, axis), Component(v, axis));
  }

  /** Moving every vertex by `v` adds `n` times the matching component of `v`
      to the sum of one coordinate. */
  lemma SumTranslate(poly: Polygon, v: Vectors.Vector, axis: Axis)
    ensures Sum(Coords(Translate(poly, v).points, axis))
         == Sum(Coords(poly.points, axis)) + |poly.points| as real * Component(v, axis)
  {
    var xs, ys := Coords(poly.points, axis), Coords(Translate(poly, v).points, axis);
    forall i | 0 <= i < |xs|
      ensures ys[i] == xs[i] + Component(v, axis)
    {
      CoordTranslate(poly.points[i], v, axis);
    }
    SumShift(xs, ys, Component(v, axis));
  }

  lemma CoordTranslate(p: Points.Point, v: Vectors.Vector, axis: Axis)
    ensures Coord(Points.Translate(p, v), axis) == Coord(p, axis) + Component(v, axis)
  {
  }

  /** Means of `n` numbers whose sums differ by `n * k` differ by `k`. */
  lemma MeanShift(sx: real, sy: real, n: real, a: real, b: real, k: real)
    requires n > 0.0 && a * n == sx && b * n == sy && sy == sx + n * k
    ensures b == a + k
  {
    assert n * b == n * (a + k);
    MulCancel(n, b, a + k);
  }

  /** Moving every vertex by `v` moves the centroid by `v`. */
  lemma CentroidTranslate(poly: Polygon, v: Vectors.Vector)
    requires |poly.points| > 0
    ensures Centroid(poly).Ok? && Centroid(Translate(poly, v)).Ok?
    ensures Centroid(Translate(poly, v)).value == Points.Translate(Centroid(poly).value, v)
  {
    CentroidTranslateAxis(poly, v, X);
    CentroidTranslateAxis(poly, v, Y);
    CentroidTranslateAxis(poly, v, Z);
  }

  // ---------------------------------------------------------------------
  // Bounding box

  /** `bounding_box()`: the rectangle from the least x and y to the greatest,
      with default axes and its origin at the least x and y and at the height
      of the first vertex. An empty polygon makes `min` raise `ValueError`. */
  function BoundingBox(poly: Polygon): (r: Result<Rectangles.Rectangle>)
    ensures r.Err? <==> |poly.points| == 0
    ensures r.Err? ==> r.error == ValueError
    ensures r.Ok? ==> r.value.width >= 0.0 && r.value.height >= 0.0
    ensures r.Ok? ==> r.value.origin.z == poly.points[0].z
    ensures r.Ok? ==> r.value.widthAxis == Vectors.Vector(1.0, 0.0, 0.0)
    ensures r.Ok? ==> r.value.heightAxis == Vectors.Vector(0.0, 1.0, 0.0)
    ensures r.Ok? ==> r.value.originTag == "LB"
    ensures r.Ok? ==> forall p :: p in poly.points ==> Inside(r.value, p)
  {
    var pts := poly.points;
    if |pts| == 0 then
      Err(ValueError)
    else
      var xs, ys := Coords(pts, X), Coords(pts, Y);
      var minX, maxX := Min(xs), Max(xs);
      var minY, maxY := Min(ys), Max(ys);
      var box := Rectangles.WithDefaults(maxX - minX, maxY - minY, Points.Point(minX, minY, pts[0].z));
      assert forall i :: 0 <= i < |pts| ==> Inside(box, pts[i]);
      Ok(box)
  }

  /** `centriod()` and `bounding_box()` fail exactly on a polygon whose
      `vertex_count()` is zero. */
  lemma EmptyPolygonErrors(poly: Polygon)
    ensures Centroid(poly).Err? <==> VertexCount(poly) == 0
    ensures BoundingBox(poly).Err? <==> VertexCount(poly) == 0
  {
  }

  /** `p` lies within the x and y extent of an axis-aligned box. */
  predicate Inside(box: Rectangles.Rectangle, p: Points.Point) {
    box.origin.x <= p.x <= box.origin.x + box.width && box.origin.y <= p.y <= box.origin.y + box.height
  }

  /** The box is tight: on each of its four sides there is a vertex. */
  lemma BoundingBoxTight(poly: Polygon)
    requires |poly.points| > 0
    ensures BoundingBox(poly).Ok?
    ensures var box := BoundingBox(poly).value;
      (exists p :: p in poly.points && p.x == box.origin.x)
      && (exists p :: p in poly.points && p.x == box.origin.x + box.width)
      && (exists p :: p in poly.points && p.y == box.origin.y)
      && (exists p :: p in poly.points && p.y == box.origin.y + box.height)
  {
    MinAttained(poly.points, X);
    MaxAttained(poly.points, X);
    MinAttained(poly.points, Y);
    MaxAttained(poly.points, Y);
  }

  lemma MinAttained(points: seq<Points.Point>, axis: Axis)
    requires |points| > 0
    ensures exists p :: p in points && Coord(p, axis) == Min(Coords(points, axis))
  {
    var xs := Coords(points, axis);
    var i :| 0 <= i < |xs| && xs[i] == Min(xs);
    assert points[i] in points;
  }

  lemma MaxAttained(points: seq<Points.Point>, axis: Axis)
    requires |points| > 0
    ensures exists p :: p in points && Coord(p, axis) == Max(Coords(points, axis))
  {
    var xs := Coords(points, axis);
    var i :| 0 <= i < |xs| && xs[i] == Max(xs);
    assert points[i] in points;
  }
}
