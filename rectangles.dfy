/** The `Rectangle` class of geometry.py: a width and a height measured along
    two axes, placed at an origin point that the tag names (`"LB"`, the
    left-bottom corner, by default). */
module Rectangles {
  import opened Vectors
  import Points

  datatype Rectangle = Rectangle(width: real, height: real, widthAxis: Vector, heightAxis: Vector,
                                 origin: Points.Point, originTag: string)

  /** `Rectangle(width, height, origin_point=origin)`: the world x and y axes
      and the tag `"LB"` are the defaults. */
  function WithDefaults(width: real, height: real, origin: Points.Point): (r: Rectangle)
    ensures r.width == width && r.height == height && r.origin == origin
    ensures r.widthAxis == Vector(1.0, 0.0, 0.0) && r.heightAxis == Vector(0.0, 1.0, 0.0)
    ensures r.originTag == "LB"
  {
    Rectangle(width, height, Vector(1.0, 0.0, 0.0), Vector(0.0, 1.0, 0.0), origin, "LB")
  }

  /** The default axes are perpendicular unit vectors, as every formula of
      the class assumes. */
  lemma DefaultAxesOrthonormal(width: real, height: real, origin: Points.Point)
    ensures SqNorm(WithDefaults(width, height, origin).widthAxis) == 1.0
    ensures SqNorm(WithDefaults(width, height, origin).heightAxis) == 1.0
    ensures Dot(WithDefaults(width, height, origin).widthAxis, WithDefaults(width, height, origin).heightAxis) == 0.0
  {
  }

  /** `Rectangle(width, height)`: also the origin point defaults, to (0, 0, 0). */
  function Make(width: real, height: real): (r: Rectangle)
    ensures r.width == width && r.height == height && r.origin == Points.Origin
    ensures r.widthAxis == Vector(1.0, 0.0, 0.0) && r.heightAxis == Vector(0.0, 1.0, 0.0)
    ensures r.originTag == "LB"
  {
    WithDefaults(width, height, Points.Origin)
  }

  /** `area()`. */
  function Area(rect: Rectangle): real {
    rect.width * rect.height
  }

  /** `perimeter()`. */
  function Perimeter(rect: Rectangle): real {
    2.0 * (rect.width + rect.height)
  }

  /** Of all rectangles with a given perimeter the square has the largest
      area: the perimeter squared is at least 16 times the area, with
      equality exactly for a square. */
  lemma PerimeterBoundsArea(rect: Rectangle)
    ensures Perimeter(rect) * Perimeter(rect) >= 16.0 * Area(rect)
    ensures Perimeter(rect) * Perimeter(rect) == 16.0 * Area(rect) <==> rect.width == rect.height
  {
    var w, h := rect.width, rect.height;
    var d := w - h;
    assert Perimeter(rect) * Perimeter(rect) - 16.0 * Area(rect) == 4.0 * (d * d);
    Numeric.SquareNonNegative(d, d * d);
    if d != 0.0 {
      Numeric.SquarePositive(d, d * d);
    }
  }

  /** A rectangle with non-negative sides has non-negative area and
      perimeter, and the perimeter is zero only when both sides are. */
  lemma MeasuresNonNegative(rect: Rectangle)
    requires rect.width >= 0.0 && rect.height >= 0.0
    ensures Area(rect) >= 0.0 && Perimeter(rect) >= 0.0
    ensures Perimeter(rect) == 0.0 <==> rect.width == 0.0 && rect.height == 0.0
  {
    Numeric.ProductNonNegative(rect.width, rect.height, Area(rect));
  }
}
