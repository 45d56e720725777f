/** The `LineSegment` class of geometry.py: the ordered pair `point1`, `point2`
    with the direction `vector = point2 - point1`. The segment is the set of
    points `point1 + t * vector` for `0 <= t <= 1`. */
module Segments {
  import opened Numeric
  import opened Vectors
  import Points
  import Parametric

  datatype LineSegment = LineSegment(point1: Points.Point, point2: Points.Point)

  /** `self.vector`, fixed by the constructor. */
  function Direction(seg: LineSegment): Vector {
    Points.Sub(seg.point2, seg.point1)
  }

  /** The point at parameter `t`: `point1` at 0, `point2` at 1. */
  function At(seg: LineSegment, t: real): Points.Point {
    Parametric.At(seg.point1, Direction(seg), t)
  }

  /** `p` lies on the segment. */
  ghost predicate OnSegment(seg: LineSegment, p: Points.Point) {
    exists t :: 0.0 <= t <= 1.0 && p == At(seg, t)
  }

  /** The two segments pass through one point, at parameter `t` on `seg1` and
      `s` on `seg2`. */
  ghost predicate MeetAt(seg1: LineSegment, seg2: LineSegment, t: real, s: real) {
    0.0 <= t <= 1.0 && 0.0 <= s <= 1.0 && At(seg1, t) == At(seg2, s)
  }

  /** `length()`: the length of the direction, supplied as `l`; zero exactly
      for a segment whose two points coincide. */
  function Length(seg: LineSegment, l: real): (r: real)
    requires IsLength(Direction(seg), l)
    ensures r >= 0.0 && r * r == SqNorm(Direction(seg))
    ensures r == 0.0 <==> seg.point1 == seg.point2
  {
    Points.DistanceTo(seg.point1, seg.point2, l)
  }

  /** `mid_point()`: `(point1 + point2) / 2`. The division by the literal 2
      cannot fail. The result is the point at parameter 1/2, as far from
      `point1` as from `point2`. */
  function MidPoint(seg: LineSegment): (r: Points.Point)
    ensures r == At(seg, 0.5)
    ensures Points.Sub(r, seg.point1) == Points.Sub(seg.point2, r)
  {
    var q := Points.Div(Points.Add(seg.point1, seg.point2), Number(2.0));
    q.value
  }

  /** `self.vector` runs from `point1` to `point2`: the parametric point is
      `point1` at 0 and `point2` at 1, so both endpoints lie on the segment. */
  lemma EndpointsAt(seg: LineSegment)
    ensures At(seg, 0.0) == seg.point1 && At(seg, 1.0) == seg.point2
    ensures OnSegment(seg, seg.point1) && OnSegment(seg, seg.point2)
  {
    assert At(seg, 0.0) == seg.point1;
    assert At(seg, 1.0) == seg.point2;
  }

  // The relationship tests of a segment are those of its direction.

  predicate Parallel(seg1: LineSegment, seg2: LineSegment) {
    Vectors.Parallel(Direction(seg1), Direction(seg2))
  }

  predicate AntiParallel(seg1: LineSegment, seg2: LineSegment) {
    Vectors.AntiParallel(Direction(seg1), Direction(seg2))
  }

  predicate Aligned(seg1: LineSegment, seg2: LineSegment) {
    Vectors.Aligned(Direction(seg1), Direction(seg2))
  }

  predicate Orthogonal(seg1: LineSegment, seg2: LineSegment) {
    Vectors.Orthogonal(Direction(seg1), Direction(seg2))
  }

  function CrossProduct(seg1: LineSegment, seg2: LineSegment): Vector {
    Cross(Direction(seg1), Direction(seg2))
  }

  // ---------------------------------------------------------------------
  // Intersection

  /** `intersection_point()` as written. Aligned segments give `None`. A
      segment of zero length is never aligned, so it reaches the divisions and
      raises `ZeroDivisionError`. Otherwise the solver's parameters are kept
      when both lie in [0, 1], and the point `point1 + t * vector` on the
      first segment is returned; nothing checks that the second segment
      passes through it. */
  function IntersectionPointAsWritten(seg1: LineSegment, seg2: LineSegment): (r: Result<Option<Points.Point>>)
    ensures r.Err? <==> IsZero(Direction(seg1)) || IsZero(Direction(seg2))
    ensures r.Err? ==> r.error == ZeroDivisionError
    ensures r.Ok? && r.value.Some? ==> OnSegment(seg1, r.value.value)
  {
    var u, w := Direction(seg1), Direction(seg2);
    if Vectors.Aligned(u, w) then
      Ok(None)
    else
      CrossZeroIff(u, w);
      match Parametric.Solve(seg1.point1, u, seg2.point1, w)
      case Err(e) => Err(e)
      case Ok(st) =>
        if 0.0 <= st.s <= 1.0 && 0.0 <= st.t <= 1.0 then
          // `st.t` is the witness of `OnSegment(seg1, _)` for the point returned
          assert 0.0 <= st.t <= 1.0 && At(seg1, st.t) == At(seg1, st.t);
          Ok(Some(At(seg1, st.t)))
        else
          Ok(None)
  }

  /** `intersection_point()` as evidently intended: the point is reported
      only when it lies on both segments. Same error and aligned cases. */
  function IntersectionPoint(seg1: LineSegment, seg2: LineSegment): (r: Result<Option<Points.Point>>)
    ensures r.Err? <==> IsZero(Direction(seg1)) || IsZero(Direction(seg2))
    ensures r.Err? ==> r.error == ZeroDivisionError
    ensures r.Ok? && r.value.Some? ==> OnSegment(seg1, r.value.value) && OnSegment(seg2, r.value.value)
  {
    var u, w := Direction(seg1), Direction(seg2);
    if Vectors.Aligned(u, w) then
      Ok(None)
    else
      CrossZeroIff(u, w);
      match Parametric.Solve(seg1.point1, u, seg2.point1, w)
      case Err(e) => Err(e)
      case Ok(st) =>
        if 0.0 <= st.s <= 1.0 && 0.0 <= st.t <= 1.0 && At(seg1, st.t) == At(seg2, st.s) then
          assert MeetAt(seg1, seg2, st.t, st.s);
          Ok(Some(At(seg1, st.t)))
        else
          Ok(None)
  }

  /** `intersects()` as written: whether `intersection_point()` as written
      finds a point; the error propagates. */
  function IntersectsAsWritten(seg1: LineSegment, seg2: LineSegment): (r: Result<bool>)
    ensures r.Err? <==> IsZero(Direction(seg1)) || IsZero(Direction(seg2))
  {
    match IntersectionPointAsWritten(seg1, seg2)
    case Err(e) => Err(e)
    case Ok(p) => Ok(p.Some?)
  }

  /** `intersects()` as evidently intended, on the corrected
      `IntersectionPoint`: whether the segments share a point. */
  function Intersects(seg1: LineSegment, seg2: LineSegment): (r: Result<bool>)
    ensures r.Err? <==> IsZero(Direction(seg1)) || IsZero(Direction(seg2))
  {
    match IntersectionPoint(seg1, seg2)
    case Err(e) => Err(e)
    case Ok(p) => Ok(p.Some?)
  }

  /** The points at `t` on the line of `seg1` and at `s` on the line of `seg2`
      are the closest points of the two lines: the gap between them is
      perpendicular to both directions. */
  ghost predicate ClosestAt(seg1: LineSegment, seg2: LineSegment, t: real, s: real) {
    var g := Parametric.Gap(seg1.point1, Direction(seg1), seg2.point1, Direction(seg2), Parametric.Params(s, t));
    Dot(g, Direction(seg1)) == 0.0 && Dot(g, Direction(seg2)) == 0.0
  }

  /** For segments of non-zero length that are not aligned, `intersects()` as
      written holds exactly when the closest points of the two lines lie
      within both segments, whether or not the lines meet there. */
  lemma IntersectsAsWrittenIff(seg1: LineSegment, seg2: LineSegment)
    requires !Aligned(seg1, seg2) && !IsZero(Direction(seg1)) && !IsZero(Direction(seg2))
    ensures IntersectsAsWritten(seg1, seg2) == Ok(true)
        <==> exists t, s :: 0.0 <= t <= 1.0 && 0.0 <= s <= 1.0 && ClosestAt(seg1, seg2, t, s)
  {
    var u, w := Direction(seg1), Direction(seg2);
    CrossZeroIff(u, w);
    var st := Parametric.Solve(seg1.point1, u, seg2.point1, w).value;
    SolvedCases(seg1, seg2, st);
    if t, s :| 0.0 <= t <= 1.0 && 0.0 <= s <= 1.0 && ClosestAt(seg1, seg2, t, s) {
      Parametric.SolveUnique(seg1.point1, u, seg2.point1, w, Parametric.Params(s, t));
    } else {
      assert ClosestAt(seg1, seg2, st.t, st.s);
    }
  }

  /** Whatever the corrected test finds, the test as written finds too. */
  lemma IntersectsAsWrittenOverApproximates(seg1: LineSegment, seg2: LineSegment)
    ensures Intersects(seg1, seg2) == Ok(true) ==> IntersectsAsWritten(seg1, seg2) == Ok(true)
  {
  }

  /** Non-aligned segments that cross are found, at the crossing point. */
  lemma IntersectionPointComplete(seg1: LineSegment, seg2: LineSegment, t: real, s: real)
    requires !Aligned(seg1, seg2) && !IsZero(Direction(seg1)) && !IsZero(Direction(seg2))
    requires MeetAt(seg1, seg2, t, s)
    ensures IntersectionPoint(seg1, seg2) == Ok(Some(At(seg1, t)))
  {
    var u, w := Direction(seg1), Direction(seg2);
    CrossZeroIff(u, w);
    Parametric.SolveRecovers(seg1.point1, u, seg2.point1, w, s, t);
  }

  /** For segments of non-zero length that are not aligned, `intersects()`
      holds exactly when the segments share a point. */
  lemma IntersectsIff(seg1: LineSegment, seg2: LineSegment)
    requires !Aligned(seg1, seg2) && !IsZero(Direction(seg1)) && !IsZero(Direction(seg2))
    ensures Intersects(seg1, seg2) == Ok(true) <==> exists t, s :: MeetAt(seg1, seg2, t, s)
  {
    if t, s :| MeetAt(seg1, seg2, t, s) {
      IntersectionPointComplete(seg1, seg2, t, s);
    } else {
      var u, w := Direction(seg1), Direction(seg2);
      CrossZeroIff(u, w);
      var st := Parametric.Solve(seg1.point1, u, seg2.point1, w).value;
      assert !MeetAt(seg1, seg2, st.t, st.s);
    }
  }

  /** Aligned segments never intersect, even when they overlap. */
  lemma AlignedNeverIntersect(seg1: LineSegment, seg2: LineSegment)
    requires Aligned(seg1, seg2)
    ensures IntersectionPoint(seg1, seg2) == Ok(None)
    ensures IntersectionPointAsWritten(seg1, seg2) == Ok(None)
    ensures Intersects(seg1, seg2) == Ok(false)
    ensures IntersectsAsWritten(seg1, seg2) == Ok(false)
  {
  }

  /** In the plane z = 0 the code as written is already correct: the point it
      reports lies on both segments. */
  lemma PlanarAsWrittenCorrect(seg1: LineSegment, seg2: LineSegment)
    requires seg1.point1.z == 0.0 && seg1.point2.z == 0.0
    requires seg2.point1.z == 0.0 && seg2.point2.z == 0.0
    ensures IntersectionPointAsWritten(seg1, seg2) == IntersectionPoint(seg1, seg2)
    ensures IntersectsAsWritten(seg1, seg2) == Intersects(seg1, seg2)
  {
    var u, w := Direction(seg1), Direction(seg2);
    if !Vectors.Aligned(u, w) {
      var r := Parametric.Solve(seg1.point1, u, seg2.point1, w);
      if r.Ok? {
        Parametric.SolvePlanarMeets(seg1.point1, u, seg2.point1, w);
      }
    }
  }

  /** The segment (0,0,0)-(2,0,0) and the segment (1,-1,1)-(1,1,1) lie on
      skew lines, one unit apart. As written the closest point (1,0,0) of the
      first segment is reported; it is not on the second segment. */
  lemma SkewSegmentsCounterexample(seg1: LineSegment, seg2: LineSegment)
    requires seg1 == LineSegment(Points.Point(0.0, 0.0, 0.0), Points.Point(2.0, 0.0, 0.0))
    requires seg2 == LineSegment(Points.Point(1.0, -1.0, 1.0), Points.Point(1.0, 1.0, 1.0))
    ensures IntersectionPointAsWritten(seg1, seg2) == Ok(Some(Points.Point(1.0, 0.0, 0.0)))
    ensures !OnSegment(seg2, Points.Point(1.0, 0.0, 0.0))
    ensures IntersectionPoint(seg1, seg2) == Ok(None)
  {
    SkewFacts(seg1, seg2);
    SolveAtHalf(seg1, seg2, Vector(0.0, 0.0, -1.0));
    SolvedCases(seg1, seg2, Parametric.Params(0.5, 0.5));
  }

  /** On the same skew segments `intersects()` as written answers `True`,
      although the segments share no point; the corrected test answers
      `False`. */
  lemma SkewSegmentsIntersectAsWritten(seg1: LineSegment, seg2: LineSegment)
    requires seg1 == LineSegment(Points.Point(0.0, 0.0, 0.0), Points.Point(2.0, 0.0, 0.0))
    requires seg2 == LineSegment(Points.Point(1.0, -1.0, 1.0), Points.Point(1.0, 1.0, 1.0))
    ensures IntersectionPointAsWritten(seg1, seg2) == Ok(Some(Points.Point(1.0, 0.0, 0.0)))
    ensures !OnSegment(seg2, Points.Point(1.0, 0.0, 0.0))
    ensures IntersectsAsWritten(seg1, seg2) == Ok(true)
    ensures Intersects(seg1, seg2) == Ok(false)
    ensures !exists t, s :: MeetAt(seg1, seg2, t, s)
  {
    SkewSegmentsCounterexample(seg1, seg2);
    SkewDirections(seg1, seg2);
    AxesNotAligned(seg1, seg2);
    ReportedIntersects(seg1, seg2, Points.Point(1.0, 0.0, 0.0));
    UnreportedApart(seg1, seg2);
  }

  lemma ReportedIntersects(seg1: LineSegment, seg2: LineSegment, p: Points.Point)
    requires IntersectionPointAsWritten(seg1, seg2) == Ok(Some(p))
    requires IntersectionPoint(seg1, seg2) == Ok(None)
    ensures IntersectsAsWritten(seg1, seg2) == Ok(true)
    ensures Intersects(seg1, seg2) == Ok(false)
  {
  }

  lemma UnreportedApart(seg1: LineSegment, seg2: LineSegment)
    requires !Aligned(seg1, seg2) && !IsZero(Direction(seg1)) && !IsZero(Direction(seg2))
    requires IntersectionPoint(seg1, seg2) == Ok(None)
    ensures !exists t, s :: MeetAt(seg1, seg2, t, s)
  {
    IntersectsIff(seg1, seg2);
  }

  lemma SkewFacts(seg1: LineSegment, seg2: LineSegment)
    requires seg1 == LineSegment(Points.Point(0.0, 0.0, 0.0), Points.Point(2.0, 0.0, 0.0))
    requires seg2 == LineSegment(Points.Point(1.0, -1.0, 1.0), Points.Point(1.0, 1.0, 1.0))
    ensures Direction(seg1) == Vector(2.0, 0.0, 0.0) && Direction(seg2) == Vector(0.0, 2.0, 0.0)
    ensures !Aligned(seg1, seg2)
    ensures At(seg1, 0.5) == Points.Point(1.0, 0.0, 0.0)
    ensures Points.Sub(At(seg1, 0.5), At(seg2, 0.5)) == Vector(0.0, 0.0, -1.0)
    ensures !MeetAt(seg1, seg2, 0.5, 0.5)
    ensures !OnSegment(seg2, Points.Point(1.0, 0.0, 0.0))
  {
    SkewDirections(seg1, seg2);
    AxesNotAligned(seg1, seg2);
    SkewPoints(seg1, seg2);
  }

  lemma SkewDirections(seg1: LineSegment, seg2: LineSegment)
    requires seg1 == LineSegment(Points.Point(0.0, 0.0, 0.0), Points.Point(2.0, 0.0, 0.0))
    requires seg2 == LineSegment(Points.Point(1.0, -1.0, 1.0), Points.Point(1.0, 1.0, 1.0))
    ensures Direction(seg1) == Vector(2.0, 0.0, 0.0) && Direction(seg2) == Vector(0.0, 2.0, 0.0)
  {
  }

  lemma SkewPoints(seg1: LineSegment, seg2: LineSegment)
    requires seg1.point1 == Points.Point(0.0, 0.0, 0.0) && Direction(seg1) == Vector(2.0, 0.0, 0.0)
    requires seg2.point1 == Points.Point(1.0, -1.0, 1.0) && Direction(seg2) == Vector(0.0, 2.0, 0.0)
    ensures At(seg1, 0.5) == Points.Point(1.0, 0.0, 0.0)
    ensures Points.Sub(At(seg1, 0.5), At(seg2, 0.5)) == Vector(0.0, 0.0, -1.0)
    ensures !MeetAt(seg1, seg2, 0.5, 0.5)
    ensures !OnSegment(seg2, Points.Point(1.0, 0.0, 0.0))
  {
    HalfOfFirst(seg1);
    HalfOfSkewSecond(seg2);
    Parametric.SkewGap(At(seg1, 0.5), At(seg2, 0.5));
    OffSkewSecond(seg2);
  }

  lemma OffSkewSecond(seg: LineSegment)
    requires seg.point1 == Points.Point(1.0, -1.0, 1.0) && Direction(seg) == Vector(0.0, 2.0, 0.0)
    ensures !OnSegment(seg, Points.Point(1.0, 0.0, 0.0))
  {
    Parametric.Level(seg.point1, Direction(seg), Points.Point(1.0, 0.0, 0.0));
  }

  lemma HalfOfFirst(seg: LineSegment)
    requires seg.point1 == Points.Point(0.0, 0.0, 0.0) && Direction(seg) == Vector(2.0, 0.0, 0.0)
    ensures At(seg, 0.5) == Points.Point(1.0, 0.0, 0.0)
  {
  }

  lemma HalfOfSkewSecond(seg: LineSegment)
    requires seg.point1 == Points.Point(1.0, -1.0, 1.0) && Direction(seg) == Vector(0.0, 2.0, 0.0)
    ensures At(seg, 0.5) == Points.Point(1.0, 0.0, 1.0)
  {
  }

  /** The crossing segments (0,0)-(2,0) and (1,-1)-(1,1) meet at (1,0). */
  lemma CrossingExample(seg1: LineSegment, seg2: LineSegment)
    requires seg1 == LineSegment(Points.Point(0.0, 0.0, 0.0), Points.Point(2.0, 0.0, 0.0))
    requires seg2 == LineSegment(Points.Point(1.0, -1.0, 0.0), Points.Point(1.0, 1.0, 0.0))
    ensures IntersectionPoint(seg1, seg2) == Ok(Some(Points.Point(1.0, 0.0, 0.0)))
    ensures IntersectionPointAsWritten(seg1, seg2) == Ok(Some(Points.Point(1.0, 0.0, 0.0)))
  {
    CrossingFacts(seg1, seg2);
    IntersectionPointComplete(seg1, seg2, 0.5, 0.5);
    PlanarAsWrittenCorrect(seg1, seg2);
  }

  lemma CrossingFacts(seg1: LineSegment, seg2: LineSegment)
    requires seg1 == LineSegment(Points.Point(0.0, 0.0, 0.0), Points.Point(2.0, 0.0, 0.0))
    requires seg2 == LineSegment(Points.Point(1.0, -1.0, 0.0), Points.Point(1.0, 1.0, 0.0))
    ensures !Aligned(seg1, seg2) && !IsZero(Direction(seg1)) && !IsZero(Direction(seg2))
    ensures At(seg1, 0.5) == Points.Point(1.0, 0.0, 0.0)
    ensures MeetAt(seg1, seg2, 0.5, 0.5)
  {
    CrossingDirections(seg1, seg2);
    AxesNotAligned(seg1, seg2);
    CrossingPoints(seg1, seg2);
  }

  lemma CrossingDirections(seg1: LineSegment, seg2: LineSegment)
    requires seg1 == LineSegment(Points.Point(0.0, 0.0, 0.0), Points.Point(2.0, 0.0, 0.0))
    requires seg2 == LineSegment(Points.Point(1.0, -1.0, 0.0), Points.Point(1.0, 1.0, 0.0))
    ensures Direction(seg1) == Vector(2.0, 0.0, 0.0) && Direction(seg2) == Vector(0.0, 2.0, 0.0)
  {
  }

  lemma CrossingPoints(seg1: LineSegment, seg2: LineSegment)
    requires seg1.point1 == Points.Point(0.0, 0.0, 0.0) && Direction(seg1) == Vector(2.0, 0.0, 0.0)
    requires seg2.point1 == Points.Point(1.0, -1.0, 0.0) && Direction(seg2) == Vector(0.0, 2.0, 0.0)
    ensures At(seg1, 0.5) == Points.Point(1.0, 0.0, 0.0)
    ensures MeetAt(seg1, seg2, 0.5, 0.5)
  {
    HalfOfFirst(seg1);
    HalfOfCrossingSecond(seg2);
  }

  lemma HalfOfCrossingSecond(seg: LineSegment)
    requires seg.point1 == Points.Point(1.0, -1.0, 0.0) && Direction(seg) == Vector(0.0, 2.0, 0.0)
    ensures At(seg, 0.5) == Points.Point(1.0, 0.0, 0.0)
  {
  }

  lemma AxesNotAligned(seg1: LineSegment, seg2: LineSegment)
    requires Direction(seg1) == Vector(2.0, 0.0, 0.0) && Direction(seg2) == Vector(0.0, 2.0, 0.0)
    ensures !Aligned(seg1, seg2) && !IsZero(Direction(seg1)) && !IsZero(Direction(seg2))
  {
  }

  /** The parallel segments (0,0)-(1,0) and (0,1)-(1,1) do not meet. */
  lemma ParallelExample(seg1: LineSegment, seg2: LineSegment)
    requires seg1 == LineSegment(Points.Point(0.0, 0.0, 0.0), Points.Point(1.0, 0.0, 0.0))
    requires seg2 == LineSegment(Points.Point(0.0, 1.0, 0.0), Points.Point(1.0, 1.0, 0.0))
    ensures IntersectionPoint(seg1, seg2) == Ok(None)
    ensures IntersectionPointAsWritten(seg1, seg2) == Ok(None)
  {
    SameDirectionAligned(seg1, seg2);
    AlignedNeverIntersect(seg1, seg2);
  }

  lemma SameDirectionAligned(seg1: LineSegment, seg2: LineSegment)
    requires Direction(seg1) == Vector(1.0, 0.0, 0.0) && Direction(seg2) == Vector(1.0, 0.0, 0.0)
    ensures Aligned(seg1, seg2)
  {
    var u := Direction(seg1);
    assert Direction(seg2) == Scale(u, 1.0);
    ScaledIsAligned(u, 1.0);
  }

  /** The two functions once the solver has returned `st` for segments that
      are not aligned. */
  lemma SolvedCases(seg1: LineSegment, seg2: LineSegment, st: Parametric.Params)
    requires !Aligned(seg1, seg2)
    requires Parametric.Solve(seg1.point1, Direction(seg1), seg2.point1, Direction(seg2)) == Ok(st)
    ensures IntersectionPointAsWritten(seg1, seg2)
         == if 0.0 <= st.s <= 1.0 && 0.0 <= st.t <= 1.0 then Ok(Some(At(seg1, st.t))) else Ok(None)
    ensures IntersectionPoint(seg1, seg2)
         == if MeetAt(seg1, seg2, st.t, st.s) then Ok(Some(At(seg1, st.t))) else Ok(None)
  {
  }

  /** When the gap at `s = t = 1/2` is the vertical `g`, the solver returns
      one half for both parameters. */
  lemma SolveAtHalf(seg1: LineSegment, seg2: LineSegment, g: Vector)
    requires Direction(seg1) == Vector(2.0, 0.0, 0.0) && Direction(seg2) == Vector(0.0, 2.0, 0.0)
    requires g.x == 0.0 && g.y == 0.0
    requires Points.Sub(At(seg1, 0.5), At(seg2, 0.5)) == g
    ensures Parametric.Solve(seg1.point1, Direction(seg1), seg2.point1, Direction(seg2))
         == Ok(Parametric.Params(0.5, 0.5))
  {
    var u, w := Direction(seg1), Direction(seg2);
    assert Cross(u, w) == Vector(0.0, 0.0, 4.0);
    assert Parametric.Gap(seg1.point1, u, seg2.point1, w, Parametric.Params(0.5, 0.5)) == g;
    Parametric.SolveUnique(seg1.point1, u, seg2.point1, w, Parametric.Params(0.5, 0.5));
  }

  // ---------------------------------------------------------------------
  // Containment

  /** `contains_point()`: the length of the segment is within 1e-5 of the sum
      of the distances from `point1` to `p` and from `p` to `point2`. The
      three lengths are supplied. */
  predicate ContainsPoint(seg: LineSegment, p: Points.Point, l: real, l1: real, l2: real)
    requires IsLength(Direction(seg), l)
    requires IsLength(Points.Sub(p, seg.point1), l1) && IsLength(Points.Sub(seg.point2, p), l2)
  {
    IsClose(l, l1 + l2, AbsTol)
  }

  /** Every point of the segment, the endpoints included, is contained: the
      two distances add up to the length exactly. */
  lemma OnSegmentContained(seg: LineSegment, t: real, l: real, l1: real, l2: real)
    requires 0.0 <= t <= 1.0
    requires IsLength(Direction(seg), l)
    requires IsLength(Points.Sub(At(seg, t), seg.point1), l1) && IsLength(Points.Sub(seg.point2, At(seg, t)), l2)
    ensures l1 == t * l && l2 == (1.0 - t) * l
    ensures ContainsPoint(seg, At(seg, t), l, l1, l2)
  {
    var u := Direction(seg);
    ScaledLength(u, l, t, Points.Sub(At(seg, t), seg.point1));
    ScaledLength(u, l, 1.0 - t, Points.Sub(seg.point2, At(seg, t)));
    LengthUnique(Points.Sub(At(seg, t), seg.point1), l1, t * l);
    LengthUnique(Points.Sub(seg.point2, At(seg, t)), l2, (1.0 - t) * l);
    IsCloseReflexive(l, AbsTol);
  }

  /** Scaling by `k >= 0` scales the length by `k`. */
  lemma ScaledLength(u: Vector, l: real, k: real, v: Vector)
    requires IsLength(u, l) && k >= 0.0 && v == Scale(u, k)
    ensures IsLength(v, k * l)
  {
    var n := SqNorm(u);
    assert SqNorm(v) == k * k * n;
    assert (k * l) * (k * l) == k * k * (l * l);
    ProductNonNegative(k, l, k * l);
  }

  /** The triangle inequality behind the test: the two distances never add up
      to less than the length, so the test asks for (near) equality. */
  lemma TriangleInequality(seg: LineSegment, p: Points.Point, l: real, l1: real, l2: real)
    requires IsLength(Direction(seg), l)
    requires IsLength(Points.Sub(p, seg.point1), l1) && IsLength(Points.Sub(seg.point2, p), l2)
    ensures l <= l1 + l2
  {
    var x, y := Points.Sub(p, seg.point1), Points.Sub(seg.point2, p);
    var d, m := Dot(x, y), l1 * l2;
    SqNormOfSum(x, y, Direction(seg));
    CauchySchwarz(x, y);
    SquareOfProduct(l1, l2, SqNorm(x), SqNorm(y));
    ProductNonNegative(l1, l2, m);
    AbsBelow(d, m);
    var sum := l1 + l2;
    assert sum * sum == l1 * l1 + 2.0 * m + l2 * l2;
    SquareLeIsLe(l, sum);
  }

  /** The converse of `OnSegmentContained`: when the two distances add up to
      the length exactly, `p` lies on the segment, at the fraction `l1 / l`
      of the way from `point1` (the equality case of the triangle
      inequality). */
  lemma ExactSumOnSegment(seg: LineSegment, p: Points.Point, l: real, l1: real, l2: real)
    requires IsLength(Direction(seg), l)
    requires IsLength(Points.Sub(p, seg.point1), l1) && IsLength(Points.Sub(seg.point2, p), l2)
    requires l == l1 + l2
    ensures OnSegment(seg, p)
  {
    var x, y := Points.Sub(p, seg.point1), Points.Sub(seg.point2, p);
    Proportional(x, y, Direction(seg), l, l1, l2);
    if l == 0.0 {
      LengthZero(x, l1);
      SqNormZero(x);
      StartOnSegment(seg, p);
    } else {
      ProportionalOnSegment(seg, p, l, l1, l2);
    }
  }

  /** Both directions together: `p` lies on the segment exactly when the two
      distances add up to the length, so `contains_point()` is the exact
      test widened by the 1e-5 tolerance. */
  lemma OnSegmentIffExactSum(seg: LineSegment, p: Points.Point, l: real, l1: real, l2: real)
    requires IsLength(Direction(seg), l)
    requires IsLength(Points.Sub(p, seg.point1), l1) && IsLength(Points.Sub(seg.point2, p), l2)
    ensures OnSegment(seg, p) <==> l == l1 + l2
  {
    if OnSegment(seg, p) {
      var t :| 0.0 <= t <= 1.0 && p == At(seg, t);
      OnSegmentContained(seg, t, l, l1, l2);
    }
    if l == l1 + l2 {
      ExactSumOnSegment(seg, p, l, l1, l2);
    }
  }

  /** `point1` itself lies on the segment. */
  lemma StartOnSegment(seg: LineSegment, p: Points.Point)
    requires Points.Sub(p, seg.point1) == Zero
    ensures OnSegment(seg, p)
  {
    assert p == At(seg, 0.0);
  }

  /** With `l2 (p - point1) == l1 (point2 - p)` and `l = l1 + l2 > 0`, `p` is
      the point at `l1 / l`. */
  lemma ProportionalOnSegment(seg: LineSegment, p: Points.Point, l: real, l1: real, l2: real)
    requires l > 0.0 && l == l1 + l2 && 0.0 <= l1 && 0.0 <= l2
    requires Scale(Points.Sub(p, seg.point1), l2) == Scale(Points.Sub(seg.point2, p), l1)
    ensures OnSegment(seg, p)
  {
    var x, y := Points.Sub(p, seg.point1), Points.Sub(seg.point2, p);
    var d := Direction(seg);
    var t := l1 / l;
    FractionBounds(l, l1, t);
    FractionOf(l, l1, l2, d.x, x.x, y.x, t);
    FractionOf(l, l1, l2, d.y, x.y, y.y, t);
    FractionOf(l, l1, l2, d.z, x.z, y.z, t);
    AtFraction(seg, p, t);
  }

  /** `p` is the point at `t` when each coordinate of `p - point1` is `t`
      times that of the direction. */
  lemma AtFraction(seg: LineSegment, p: Points.Point, t: real)
    requires 0.0 <= t <= 1.0
    requires Direction(seg).x * t == Points.Sub(p, seg.point1).x
    requires Direction(seg).y * t == Points.Sub(p, seg.point1).y
    requires Direction(seg).z * t == Points.Sub(p, seg.point1).z
    ensures OnSegment(seg, p)
  {
    assert p == At(seg, t);
  }

  /** Equality in the triangle inequality makes the two displacements
      proportional: `l2 * x == l1 * y`. */
  lemma Proportional(x: Vector, y: Vector, d: Vector, l: real, l1: real, l2: real)
    requires d == Add(x, y) && IsLength(d, l) && IsLength(x, l1) && IsLength(y, l2)
    requires l == l1 + l2
    ensures Scale(x, l2) == Scale(y, l1)
  {
    var dd := Dot(x, y);
    SqNormOfSum(x, y, d);
    DotFromSquares(l, l1, l2, SqNorm(d), SqNorm(x), SqNorm(y), dd);
    var u, v := Scale(x, l2), Scale(y, l1);
    var z := Sub(u, v);
    var aa, bb, ab := l2 * l2, l1 * l1, l2 * l1;
    SqNormOfDifference(u, v, z);
    SqNormScaled(x, l2, aa, u);
    SqNormScaled(y, l1, bb, v);
    DotScaled(x, y, l2, l1, ab, u, v);
    CancelledCombination(l1, l2, SqNorm(x), SqNorm(y), dd, aa, bb, ab);
    SqNormZero(z);
  }

  /** Expanding `(l1 + l2)^2` identifies the dot product. */
  lemma DotFromSquares(l: real, l1: real, l2: real, n: real, n1: real, n2: real, dd: real)
    requires l == l1 + l2 && l * l == n && l1 * l1 == n1 && l2 * l2 == n2
    requires n == n1 + 2.0 * dd + n2
    ensures dd == l1 * l2
  {
    assert (l1 + l2) * (l1 + l2) == l1 * l1 + 2.0 * (l1 * l2) + l2 * l2;
  }

  /** |u - v|^2 = |u|^2 - 2 u.v + |v|^2. */
  lemma SqNormOfDifference(u: Vector, v: Vector, z: Vector)
    requires z == Sub(u, v)
    ensures SqNorm(z) == SqNorm(u) - 2.0 * Dot(u, v) + SqNorm(v)
  {
  }

  /** |a x|^2 = a^2 |x|^2, with `a^2` given as `aa`. */
  lemma SqNormScaled(x: Vector, a: real, aa: real, u: Vector)
    requires u == Scale(x, a) && aa == a * a
    ensures SqNorm(u) == aa * SqNorm(x)
  {
    DotScaled(x, x, a, a, aa, u, u);
  }

  /** (a x).(b y) = a b (x.y), with `a b` given as `ab`. */
  lemma DotScaled(x: Vector, y: Vector, a: real, b: real, ab: real, u: Vector, v: Vector)
    requires u == Scale(x, a) && v == Scale(y, b) && ab == a * b
    ensures Dot(u, v) == ab * Dot(x, y)
  {
    var p, q, r := ab * (x.x * y.x), ab * (x.y * y.y), ab * (x.z * y.z);
    ProductOfScaled(x.x, a, y.x, b, ab);
    ProductOfScaled(x.y, a, y.y, b, ab);
    ProductOfScaled(x.z, a, y.z, b, ab);
    ScaledDot(ab, x, y, p, q, r);
  }

  lemma ProductOfScaled(p: real, a: real, q: real, b: real, ab: real)
    requires ab == a * b
    ensures (p * a) * (q * b) == ab * (p * q)
  {
  }

  /** `k * (u . v)`, coordinate by coordinate. */
  lemma ScaledDot(k: real, u: Vector, v: Vector, p: real, q: real, r: real)
    requires p == k * (u.x * v.x) && q == k * (u.y * v.y) && r == k * (u.z * v.z)
    ensures p + q + r == k * Dot(u, v)
  {
  }

  /** With `n1 = l1^2`, `n2 = l2^2` and `dd = l1 l2`, the combination
      `l2^2 n1 - 2 l2 l1 dd + l1^2 n2` cancels. */
  lemma CancelledCombination(l1: real, l2: real, n1: real, n2: real, dd: real, aa: real, bb: real, ab: real)
    requires n1 == l1 * l1 && n2 == l2 * l2 && dd == l1 * l2
    requires aa == l2 * l2 && bb == l1 * l1 && ab == l2 * l1
    ensures aa * n1 - 2.0 * (ab * dd) + bb * n2 == 0.0
  {
    var q := l1 * l2;
    assert aa * n1 == q * q;
    assert bb * n2 == q * q;
    assert ab * dd == q * q;
  }

  /** A part over the whole lies between 0 and 1. */
  lemma FractionBounds(l: real, l1: real, t: real)
    requires l > 0.0 && 0.0 <= l1 <= l && t == l1 / l
    ensures 0.0 <= t <= 1.0
  {
    assert t * l == l1;
    if t < 0.0 {
      ProductPositive(-t, l, -l1);
    } else if t > 1.0 {
      ProductPositive(t - 1.0, l, l1 - l);
    }
  }

  /** One coordinate of `p - point1 == t * direction` with `t = l1 / l`. */
  lemma FractionOf(l: real, l1: real, l2: real, dx: real, xx: real, yx: real, t: real)
    requires l > 0.0 && l == l1 + l2 && dx == xx + yx && xx * l2 == yx * l1 && t == l1 / l
    ensures dx * t == xx
  {
    assert l * xx == l1 * xx + l2 * xx;
    assert l * xx == l1 * dx;
    assert t * l == l1;
  }

  /** `d^2 <= m^2` with `m >= 0` gives `d <= m`. */
  lemma AbsBelow(d: real, m: real)
    requires m >= 0.0 && d * d <= m * m
    ensures d <= m
  {
    if d > 0.0 {
      SquareLeIsLe(d, m);
    }
  }

  /** |x + y|^2 = |x|^2 + 2 x.y + |y|^2. */
  lemma SqNormOfSum(x: Vector, y: Vector, z: Vector)
    requires z == Add(x, y)
    ensures SqNorm(z) == SqNorm(x) + 2.0 * Dot(x, y) + SqNorm(y)
  {
  }
}
