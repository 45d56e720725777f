# GeometryLib in Dafny

A model of `GeometryLib/geometry.py`, a small geometry library. It covers:

- points and vectors with their arithmetic;
- line segments and rays with their parametric intersection;
- circles, axis-aligned rectangles and polygons.

The library is written in a value style. Every operation builds a new object or returns a number. So every class becomes a `datatype`, every method becomes a `function` or `predicate`, and every promise becomes a contract or a lemma.

Modules:

- `Numeric`: the exceptions (`Error`), `Result`, `Option` and the divisor kinds (`Operand`), plus `math.isclose` and a few scalar facts.
- `Vectors` and `Points`: the `Vector` and `Point` classes.
- `Parametric`: the solver shared by `LineSegment.intersection_point` and `Ray.intersection_point`.
- `Segments`, `Rays`, `Circles`, `Rectangles` and `Polygons`: one module per class.

Modelling choices:

- **Floats become exact `real`s.** The model therefore states what the formulas compute, not their rounding.
- **Square roots become parameters.** `math.sqrt` has no counterpart. Wherever the code takes a length, the model takes it as a parameter `l` with `IsLength(v, l)` (`l >= 0` and `l * l` equals the squared norm). Lemmas `Vectors.LengthUnique` and `Vectors.LengthZero` show that this determines `l`. The guards `length() == 0` are stated as "the squared norm is 0".
- **The one-degree tests are stated through the cosine.** `parallel`, `anti_parallel` and `orthogonal` compare `degrees(acos(cos))` with 1, 179 and 89..91 degrees. The model compares the cosine with cos(1°) and sin(1°) instead, in squared form, which needs neither `acos` nor a square root. cos(1°) and sin(1°) are the double-precision values Python computes for them. `Vectors.ParallelByCosine` and its two siblings prove that this equals "the cosine of `angle_between` is above cos(1°)" (and the like).
- **`math.isclose` follows CPython.** It is written as CPython evaluates it for finite numbers, with the default relative tolerance 1e-9.

Behaviour of the code worth knowing:

- **Ray containment is one-sided.** `Ray.contains_point` (geometry.py:415-419) calls `Vector.parallel` (geometry.py:169-177), the same-direction test (angle below one degree). So points behind the start are rejected (`Rays.BehindNotContained`).
- **Equality.** `Point.__eq__` (geometry.py:51-56) compares the left operand's coordinates with each other and never reads the right operand. `Vector.__eq__` (geometry.py:128-133) compares each axis with the other operand, as intended.
- **`test_eq`.** The test expects (3, 4, 5) and (3.00001, 4.00002, 5) to be equal. Their y coordinates differ by 2e-5, so they are not equal even under corrected per-axis equality (`Points.UnitTestEqualityPair`).

The source spells the polygon centroid `centriod`. The model calls it `Polygons.Centroid`.

## Model

| member | source | states |
|---|---|---|
| Numeric.IsClose | GeometryLib/geometry.py:131-133 | `math.isclose(a, b, abs_tol)` holds iff \|a-b\| <= max(1e-9 * max(\|a\|,\|b\|), abs_tol) |
| Numeric.IsCloseSymmetric | GeometryLib/geometry.py:131-133 | the tolerance comparison does not depend on the order of its arguments |
| Numeric.IsCloseReflexive | GeometryLib/geometry.py:131-133 | every number is close to itself |
| Numeric.IsCloseSmallMagnitude | GeometryLib/geometry.py:131-133 | for magnitudes up to 10^4 `isclose(a, b, abs_tol=1e-5)` is exactly \|a-b\| <= 1e-5 |
| Numeric.IsCloseNotTransitive | GeometryLib/geometry.py:131-133 | closeness is not transitive: there are a, b, c with a~b and b~c but not a~c |
| Vectors.Div | GeometryLib/geometry.py:110-121 | TypeError exactly for a non-numeric divisor, ZeroDivisionError exactly for 0, otherwise a vector that multiplied back by the divisor is the original |
| Vectors.Normalize | GeometryLib/geometry.py:145-152 | ValueError exactly when the length is within 1e-9 of zero; otherwise a unit vector that scaled by the length gives back the input |
| Vectors.NormalizeThreshold | GeometryLib/geometry.py:148-150 | `isclose(length, 0, abs_tol=1e-9)` holds iff the squared norm is at most 1e-18 |
| Vectors.NormalizeOk | GeometryLib/geometry.py:152 | dividing by a non-zero length succeeds and yields squared norm 1 |
| Vectors.NormalizedIsUnit | GeometryLib/geometry.py:154-157 | `is_unit_vector()` holds for every normalized vector |
| Vectors.CosAngle | GeometryLib/geometry.py:204-219 | ValueError exactly when either operand is zero; otherwise a value in [-1, 1] that times the product of the lengths is the dot product |
| Vectors.CosineBounded | GeometryLib/geometry.py:214-218 | the quotient dot/(\|u\|\|v\|) already lies in [-1, 1], so the clamps never change it |
| Vectors.Parallel | GeometryLib/geometry.py:169-177 | parallel vectors are both non-zero and have a positive dot product |
| Vectors.AntiParallel | GeometryLib/geometry.py:179-187 | anti-parallel vectors are both non-zero and have a negative dot product |
| Vectors.Orthogonal | GeometryLib/geometry.py:194-202 | orthogonal vectors are both non-zero |
| Vectors.Aligned | GeometryLib/geometry.py:189-192 | parallel or anti-parallel, the guard of both intersection solvers; `Vectors.AlignedByCosine`, `Vectors.ParallelExcludesAntiParallel` and `Vectors.CrossZeroIff` carry its properties |
| Vectors.AlignedByCosine | GeometryLib/geometry.py:189-192 | `aligned` holds iff `angle_between` succeeds and the angle is within one degree of 0 or of 180 |
| Vectors.CosAngleSymmetric | GeometryLib/geometry.py:204-219 | `angle_between(u, v)` equals `angle_between(v, u)`, errors included |
| Vectors.CosAngleUnaligned | GeometryLib/geometry.py:204-219 | for non-zero vectors that are not aligned the cosine lies in [-cos(1°), cos(1°)], strictly inside (-1, 1) |
| Vectors.ParallelByCosine | GeometryLib/geometry.py:169-177 | `parallel` holds iff `angle_between` succeeds and its cosine exceeds cos(1°), i.e. the angle is below one degree |
| Vectors.AntiParallelByCosine | GeometryLib/geometry.py:179-187 | `anti_parallel` holds iff the cosine is below -cos(1°), i.e. the angle is within one degree of 180 |
| Vectors.OrthogonalByCosine | GeometryLib/geometry.py:194-202 | `orthogonal` holds iff \|cosine\| < sin(1°), i.e. the angle is within one degree of 90 |
| Vectors.ParallelSymmetric | GeometryLib/geometry.py:169-202 | parallel, anti-parallel and orthogonal are symmetric relations |
| Vectors.ParallelExcludesAntiParallel | GeometryLib/geometry.py:189-192 | no pair of vectors is both parallel and anti-parallel |
| Vectors.ScaledIsAligned | GeometryLib/geometry.py:169-192 | a positive multiple of a non-zero vector is parallel to it, a negative one anti-parallel |
| Vectors.PerpendicularIsOrthogonal | GeometryLib/geometry.py:194-202 | non-zero vectors with dot product 0 are orthogonal |
| Vectors.CrossZeroIff | GeometryLib/geometry.py:164-192 | for unaligned vectors the cross product is zero exactly when an operand is zero |
| Vectors.AntiParallelToUp | GeometryLib/geometry.py:179-187 | (0, 0, k) is anti-parallel to +z exactly when k < 0 |
| Vectors.RelativePositionPlanar | GeometryLib/geometry.py:221-235 | for vectors in the xy-plane and normal +z the answer is RIGHT exactly when the turn is clockwise (z of u×v negative), LEFT otherwise |
| Vectors.ParallelogramArea | GeometryLib/geometry.py:237-241 | the area is non-negative and its square is \|u\|²\|v\|² - (u·v)² |
| Vectors.Add | GeometryLib/geometry.py:89-92 | coordinate-wise addition; `Vectors.SubAddRoundTrip` proves that it undoes `Sub` |
| Vectors.Sub | GeometryLib/geometry.py:94-97 | coordinate-wise subtraction; `Vectors.SubAddRoundTrip` proves `u + (v - u) == v` |
| Vectors.Scale | GeometryLib/geometry.py:99-108 | `v * k` and `k * v` agree; `Vectors.ScaleByMinusOne` and `Vectors.ScaledIsAligned` carry its properties |
| Vectors.Neg | GeometryLib/geometry.py:123-126 | coordinate-wise negation; `Vectors.NegInvolutive` and `Vectors.ScaleByMinusOne` carry its properties |
| Vectors.Equal | GeometryLib/geometry.py:128-133 | every axis agrees with the other operand within 1e-5; `Vectors.EqualReflexive` and `Vectors.EqualSymmetric` carry its properties |
| Vectors.Dot | GeometryLib/geometry.py:159-162 | the dot product; `Vectors.DotSymmetric`, `Vectors.DotLinearLeft` and `Vectors.CauchySchwarz` carry its properties |
| Vectors.Cross | GeometryLib/geometry.py:164-167 | the cross product; `Vectors.CrossAntiCommutative`, `Vectors.CrossPerpendicular` and `Vectors.Lagrange` carry its properties |
| Vectors.IsUnitVector | GeometryLib/geometry.py:154-157 | the length is within 1e-5 of 1; `Vectors.NormalizedIsUnit` proves it of every normalized vector |
| Vectors.RelativePosition | GeometryLib/geometry.py:221-235 | RIGHT exactly when `u × v` is anti-parallel to the normal; `Vectors.RelativePositionPlanar` gives the planar meaning |
| Vectors.SubAddRoundTrip | GeometryLib/geometry.py:89-97 | `u + (v - u) == v` |
| Vectors.NegInvolutive | GeometryLib/geometry.py:123-126 | `-(-v) == v` |
| Vectors.ScaleByMinusOne | GeometryLib/geometry.py:99-108 | `v * -1 == -v` |
| Vectors.EqualReflexive | GeometryLib/geometry.py:128-133 | every vector equals itself |
| Vectors.EqualSymmetric | GeometryLib/geometry.py:128-133 | vector equality is symmetric |
| Vectors.DotSymmetric | GeometryLib/geometry.py:159-162 | the dot product is commutative |
| Vectors.CrossAntiCommutative | GeometryLib/geometry.py:164-167 | `u × v == -(v × u)` |
| Vectors.CrossPerpendicular | GeometryLib/geometry.py:164-167 | `u × v` is perpendicular to both u and v |
| Vectors.SqNormNonNegative | GeometryLib/geometry.py:140-143 | the argument of `math.sqrt` is never negative |
| Vectors.SqNormZero | GeometryLib/geometry.py:140-143 | the squared norm is zero exactly for the zero vector |
| Vectors.LengthZero | GeometryLib/geometry.py:140-143 | a length is zero exactly for the zero vector |
| Vectors.LengthUnique | GeometryLib/geometry.py:140-143 | the length of a vector is unique |
| Vectors.Lagrange | GeometryLib/geometry.py:237-241 | \|u×v\|² = \|u\|²\|v\|² - (u·v)² |
| Vectors.CauchySchwarz | GeometryLib/geometry.py:214-218 | (u·v)² <= \|u\|²\|v\|² |
| Vectors.TripleCyclic | GeometryLib/geometry.py:164-167 | the scalar triple product is invariant under rotation of its operands |
| Vectors.TripleDot | GeometryLib/geometry.py:305-306 | the probe `(a×b)×c` expands to b(a·c) - a(b·c), seen through any dot product |
| Vectors.ProbeDivisors | GeometryLib/geometry.py:305-309 | the two divisors of the solver are +\|u×w\|² and -\|u×w\|² |
| Vectors.DotLinearLeft | GeometryLib/geometry.py:159-162 | the dot product is linear in its left operand |
| Points.Sub | GeometryLib/geometry.py:17-20 | `q + (p - q) == p`, and `p - q` is the zero vector exactly when p == q |
| Points.Div | GeometryLib/geometry.py:33-44 | TypeError exactly for a non-numeric divisor (checked first), ZeroDivisionError exactly for 0, otherwise a point that multiplied back is the original |
| Points.DistanceTo | GeometryLib/geometry.py:63-66 | the distance is non-negative, squares to the squared norm of `q - p`, and is zero exactly when the points coincide |
| Points.PointAtDistance | GeometryLib/geometry.py:68-71 | the result is displaced by direction × distance, and its directional distance is distance × \|direction\|² |
| Points.Add | GeometryLib/geometry.py:12-15 | coordinate-wise addition; `Points.AddIsTranslate` proves it is a move by the position vector |
| Points.Translate | GeometryLib/geometry.py:12-15 | `p + v` with a vector operand; `Points.TranslateSub` and `Points.Sub` prove it inverse to `Sub` |
| Points.Scale | GeometryLib/geometry.py:22-31 | `p * k` and `k * p` agree; `Points.ScaleByMinusOne` relates it to `Neg` |
| Points.Neg | GeometryLib/geometry.py:46-49 | coordinate-wise negation; `Points.NegInvolutive` carries its property |
| Points.EqualAsWritten | GeometryLib/geometry.py:51-56 | the equality as written; `Points.EqualAsWrittenIgnoresOther` and `Points.EqualAsWrittenCounterexample` carry its properties |
| Points.Equal | GeometryLib/geometry.py:51-56 | per-axis equality as intended; `Points.EqualReflexive`, `Points.EqualSymmetric` and `Points.EqualSmallCoordinates` carry its properties |
| Points.DirectionalDistanceTo | GeometryLib/geometry.py:73-76 | the dot product of `q - p` with the direction; `Points.DirectionalDistanceAdditive` and `Points.PointAtDistanceRoundTrip` carry its properties |
| Points.TranslateSub | GeometryLib/geometry.py:12-20 | `(p + v) - p == v` |
| Points.NegInvolutive | GeometryLib/geometry.py:46-49 | `-(-p) == p` |
| Points.ScaleByMinusOne | GeometryLib/geometry.py:22-31 | `p * -1 == -p` |
| Points.AddIsTranslate | GeometryLib/geometry.py:12-15 | adding a point moves by its position vector |
| Points.EqualAsWrittenIgnoresOther | GeometryLib/geometry.py:51-56 | the equality as written never reads its right operand and reduces to \|x - y\| being within tolerance |
| Points.EqualAsWrittenCounterexample | GeometryLib/geometry.py:51-56 | as written (3,4,5) != (3,4,5), while (3,3,0) == (100,-7,2) |
| Points.EqualReflexive | GeometryLib/geometry.py:51-56 | corrected point equality is reflexive |
| Points.EqualSymmetric | GeometryLib/geometry.py:51-56 | corrected point equality is symmetric |
| Points.EqualSmallCoordinates | GeometryLib/geometry.py:51-56 | for coordinates up to 10^4, corrected equality holds iff every axis differs by at most 1e-5 |
| Points.DistanceSymmetric | GeometryLib/geometry.py:63-66 | the distance from p to q equals the distance from q to p |
| Points.DirectionalDistanceAdditive | GeometryLib/geometry.py:73-76 | directional distances change sign when swapped and add up along a path |
| Points.PointAtDistanceRoundTrip | GeometryLib/geometry.py:68-76 | along a unit direction, measuring the point at distance d gives back d |
| Points.UnitTestExamples | GeometryLib/geometry.py:580-604 | the expected values of test_add, test_sub, test_mul, test_truediv (with both errors) and test_neg; the point comparisons of test_add, test_mul, test_truediv and test_neg fail under the equality as written, while test_sub compares vectors and passes |
| Points.UnitTestEqualityPair | GeometryLib/geometry.py:606-609 | the pair of test_eq is unequal both as written and with corrected equality; a pair within 1e-5 on every axis is equal when corrected |
| Parametric.Solve | GeometryLib/geometry.py:302-309 | ZeroDivisionError exactly when the cross product of the directions is zero; otherwise the gap between the two parametric points is perpendicular to both directions |
| Parametric.ClosestApproach | GeometryLib/geometry.py:305-309 | the computed s and t make the gap perpendicular to both directions |
| Parametric.SolveRecovers | GeometryLib/geometry.py:289-309 | when the lines meet at `a + t0 u == c + s0 w`, the solver returns exactly (s0, t0) |
| Parametric.SolveUnique | GeometryLib/geometry.py:302-309 | any parameters whose gap is perpendicular to both directions are the ones returned |
| Parametric.SolvePlanarMeets | GeometryLib/geometry.py:289 | in the plane z = 0 the returned parameters give the same point on both lines |
| Parametric.LinearSystemZero | GeometryLib/geometry.py:308-309 | a homogeneous 2×2 system with non-zero determinant has only the zero solution |
| Segments.Direction | GeometryLib/geometry.py:245-251 | `self.vector = point2 - point1`; `Segments.EndpointsAt` carries its properties |
| Segments.EndpointsAt | GeometryLib/geometry.py:245-251 | the parametric point is `point1` at 0 and `point2` at 1, so both endpoints lie on the segment |
| Segments.Parallel | GeometryLib/geometry.py:263-266 | `parallel` of the two directions; `Vectors.ParallelByCosine`, `Vectors.ParallelSymmetric` and `Segments.ParallelExample` carry its properties |
| Segments.AntiParallel | GeometryLib/geometry.py:268-271 | `anti_parallel` of the two directions; `Vectors.AntiParallelByCosine` and `Vectors.ParallelExcludesAntiParallel` carry its properties |
| Segments.Aligned | GeometryLib/geometry.py:273-276 | `aligned` of the two directions; `Segments.AlignedNeverIntersect` and `Vectors.AlignedByCosine` carry its properties |
| Segments.Orthogonal | GeometryLib/geometry.py:278-281 | `orthogonal` of the two directions; `Vectors.OrthogonalByCosine` and `Vectors.PerpendicularIsOrthogonal` carry its properties |
| Segments.CrossProduct | GeometryLib/geometry.py:322-325 | the cross product of the two directions; `Vectors.CrossAntiCommutative`, `Vectors.CrossPerpendicular` and `Vectors.CrossZeroIff` carry its properties |
| Segments.Length | GeometryLib/geometry.py:253-256 | the length is non-negative, squares to the squared norm, and is zero exactly when the endpoints coincide |
| Segments.MidPoint | GeometryLib/geometry.py:258-261 | the midpoint is the point at parameter 1/2, equally far from both ends |
| Segments.IntersectionPointAsWritten | GeometryLib/geometry.py:283-315 | ZeroDivisionError exactly when a segment has zero length; a returned point lies on the first segment |
| Segments.IntersectionPoint | GeometryLib/geometry.py:283-315 | the same error cases; a returned point lies on both segments |
| Segments.IntersectsAsWritten | GeometryLib/geometry.py:317-320 | `intersects()` as written, on `intersection_point()` as written: the error propagates exactly when a segment has zero length |
| Segments.IntersectsAsWrittenIff | GeometryLib/geometry.py:317-320 | for unaligned segments of non-zero length, `intersects()` as written holds iff the closest points of the two lines lie within both segments, whether or not the lines meet |
| Segments.IntersectsAsWrittenOverApproximates | GeometryLib/geometry.py:317-320 | every pair the corrected test accepts is accepted as written |
| Segments.Intersects | GeometryLib/geometry.py:317-320 | `intersects()` on the corrected `IntersectionPoint`: the error propagates exactly when a segment has zero length |
| Segments.IntersectionPointComplete | GeometryLib/geometry.py:283-315 | unaligned segments of non-zero length that meet are reported at their meeting point |
| Segments.IntersectsIff | GeometryLib/geometry.py:317-320 | for unaligned segments of non-zero length, the corrected `intersects()` holds iff they share a point (the code as written differs on skew segments: see `Segments.SkewSegmentsIntersectAsWritten`) |
| Segments.AlignedNeverIntersect | GeometryLib/geometry.py:298-300 | aligned segments give None and do not intersect, as written and corrected, even when they overlap |
| Segments.PlanarAsWrittenCorrect | GeometryLib/geometry.py:289 | in the plane z = 0 the code as written agrees with the corrected intersection and intersection test |
| Segments.SolvedCases | GeometryLib/geometry.py:308-315 | once the solver returns (s, t): as written keeps the point iff both lie in [0, 1]; corrected keeps it iff the point is shared |
| Segments.SkewSegmentsCounterexample | GeometryLib/geometry.py:283-315 | skew segments are reported as written at (1,0,0), which is not on the second segment; the corrected function gives None |
| Segments.SkewSegmentsIntersectAsWritten | GeometryLib/geometry.py:283-320 | on skew segments `intersection_point()` as written returns (1,0,0), which is not on the second segment, and `intersects()` as written answers True although they share no point; the corrected test answers False |
| Segments.CrossingExample | GeometryLib/geometry.py:283-315 | (0,0)-(2,0) and (1,-1)-(1,1) intersect at (1,0), as written and corrected |
| Segments.ParallelExample | GeometryLib/geometry.py:298-300 | the parallel segments (0,0)-(1,0) and (0,1)-(1,1) give None, as written and corrected |
| Segments.OnSegmentContained | GeometryLib/geometry.py:332-344 | every point of the segment is contained: its distances to the ends are t·l and (1-t)·l |
| Segments.TriangleInequality | GeometryLib/geometry.py:343-344 | the two distances never add up to less than the length |
| Segments.ExactSumOnSegment | GeometryLib/geometry.py:332-344 | when the two distances add up to the length exactly, the point lies on the segment (the equality case of the triangle inequality) |
| Segments.OnSegmentIffExactSum | GeometryLib/geometry.py:332-344 | a point lies on the segment iff the two distances add up to the length exactly, so `contains_point()` is that test widened by 1e-5 |
| Segments.ContainsPoint | GeometryLib/geometry.py:332-344 | the length is within 1e-5 of the sum of the two distances; `Segments.OnSegmentContained`, `Segments.TriangleInequality` and `Segments.OnSegmentIffExactSum` carry its properties |
| Rays.Make | GeometryLib/geometry.py:347-349 | ValueError exactly for a direction of length within 1e-9 of zero; otherwise the start is kept and the stored direction is a unit vector pointing the way of the given one |
| Rays.Parallel | GeometryLib/geometry.py:351-354 | `parallel` of the two directions; `Vectors.ParallelByCosine` and `Vectors.ParallelSymmetric` carry its properties |
| Rays.AntiParallel | GeometryLib/geometry.py:356-359 | `anti_parallel` of the two directions; `Vectors.AntiParallelByCosine` and `Vectors.ParallelExcludesAntiParallel` carry its properties |
| Rays.Aligned | GeometryLib/geometry.py:361-364 | `aligned` of the two directions; `Rays.AlignedNeverIntersect` and `Vectors.AlignedByCosine` carry its properties |
| Rays.Orthogonal | GeometryLib/geometry.py:366-369 | `orthogonal` of the two directions; `Vectors.OrthogonalByCosine` and `Vectors.PerpendicularIsOrthogonal` carry its properties |
| Rays.CrossProduct | GeometryLib/geometry.py:405-408 | the cross product of the two directions; `Vectors.CrossAntiCommutative`, `Vectors.CrossPerpendicular` and `Vectors.CrossZeroIff` carry its properties |
| Rays.CosAngleBetween | GeometryLib/geometry.py:410-413 | for rays the angle computation never fails and its cosine is the dot product of the directions |
| Rays.SolveSucceeds | GeometryLib/geometry.py:386-393 | for unaligned rays neither division fails |
| Rays.IntersectionPointAsWritten | GeometryLib/geometry.py:371-398 | a returned point lies on the first ray |
| Rays.IntersectionPoint | GeometryLib/geometry.py:371-398 | a returned point lies on both rays |
| Rays.IntersectionPointComplete | GeometryLib/geometry.py:371-398 | unaligned rays that meet are reported at their meeting point |
| Rays.IntersectsAsWritten | GeometryLib/geometry.py:400-403 | `intersects()` as written, on `intersection_point()` as written; `Rays.IntersectsAsWrittenIff` carries its meaning |
| Rays.IntersectsAsWrittenIff | GeometryLib/geometry.py:400-403 | for unaligned rays, `intersects()` as written holds iff the closest points of the two lines lie on both rays, whether or not the lines meet |
| Rays.IntersectsAsWrittenOverApproximates | GeometryLib/geometry.py:400-403 | every pair the corrected test accepts is accepted as written |
| Rays.Intersects | GeometryLib/geometry.py:400-403 | `intersects()` on the corrected `IntersectionPoint`; `Rays.IntersectsIff` carries its meaning |
| Rays.IntersectsIff | GeometryLib/geometry.py:400-403 | for unaligned rays, the corrected `intersects()` holds iff they share a point (the code as written differs on skew rays: see `Rays.SkewRaysIntersectAsWritten`) |
| Rays.AlignedNeverIntersect | GeometryLib/geometry.py:385-387 | aligned rays give None and do not intersect, as written and corrected |
| Rays.PlanarAsWrittenCorrect | GeometryLib/geometry.py:377 | in the plane z = 0 the code as written agrees with the corrected intersection and intersection test |
| Rays.SolvedCases | GeometryLib/geometry.py:392-398 | once the solver returns (s, t): as written keeps the point iff both are non-negative; corrected keeps it iff the point is shared |
| Rays.SkewRaysCounterexample | GeometryLib/geometry.py:371-398 | skew rays are reported as written at (1,0,0), which is not on the second ray; the corrected function gives None |
| Rays.SkewRaysIntersectAsWritten | GeometryLib/geometry.py:371-403 | on skew rays `intersection_point()` as written returns (1,0,0), which is not on the second ray, and `intersects()` as written answers True although they share no point; the corrected test answers False |
| Rays.CrossingExample | GeometryLib/geometry.py:371-398 | the ray from (0,0) along +x and the ray from (5,5) along -y intersect at (5,0), as written and corrected |
| Rays.ContainsPointAsWritten | GeometryLib/geometry.py:415-419 | the direction is parallel to `p - start`; `Rays.StartNotContained`, `Rays.AheadContained` and `Rays.BehindNotContained` carry its properties |
| Rays.ContainsPoint | GeometryLib/geometry.py:415-419 | containment with the start point included; `Rays.ContainsPointSound` carries its properties |
| Rays.StartNotContained | GeometryLib/geometry.py:415-419 | as written no ray contains its own start point |
| Rays.AheadContained | GeometryLib/geometry.py:415-419 | every point strictly ahead of the start is contained |
| Rays.BehindNotContained | GeometryLib/geometry.py:415-419 | no point behind the start is contained |
| Rays.ContainsPointSound | GeometryLib/geometry.py:415-419 | corrected containment accepts every point of the ray and only the start or points ahead of it; it holds exactly for the start and the points within the one-degree cone ahead of it |
| Rays.ConeIffContained | GeometryLib/geometry.py:415-419 | corrected containment is exactly "the start, or a point whose offset has positive dot with the direction and squared cosine above cos²(1°)" |
| Rays.ContainsPointByCosine | GeometryLib/geometry.py:415-419 | corrected containment is exactly "the start, or the cosine of the angle between direction and offset is above cos(1°)", through `angle_between` |
| Circles.Default | GeometryLib/geometry.py:544-547 | `Circle()` with its defaults; `Circles.DefaultIsUnitCircle` carries its properties |
| Circles.DefaultIsUnitCircle | GeometryLib/geometry.py:544-547 | the default circle contains the origin but not the boundary point (1, 0, 0) |
| Circles.IntersectsWith | GeometryLib/geometry.py:558-561 | the centre distance is below the sum of the radii; `Circles.IntersectsWithSquared` and `Circles.IntersectsWithSymmetric` carry its properties |
| Circles.ContainsPoint | GeometryLib/geometry.py:563-566 | the distance from the centre is below the radius; `Circles.ContainsPointSquared` and `Circles.ContainsIsIntersectsPoint` carry its properties |
| Circles.IntersectsWithSquared | GeometryLib/geometry.py:558-561 | circles intersect iff the sum of radii is positive and the squared centre distance is below its square |
| Circles.ContainsPointSquared | GeometryLib/geometry.py:563-566 | a point is contained iff the radius is positive and its squared distance is below the squared radius |
| Circles.IntersectsWithSymmetric | GeometryLib/geometry.py:558-561 | `intersects_with` is symmetric in its two circles |
| Circles.TangentNotIntersecting | GeometryLib/geometry.py:558-561 | circles touching from outside do not intersect |
| Circles.BoundaryNotContained | GeometryLib/geometry.py:563-566 | a point on the boundary is not contained |
| Circles.CenterNeedsPositiveRadius | GeometryLib/geometry.py:563-566 | if the centre is contained, the radius is positive |
| Circles.PositiveRadiusHoldsCenter | GeometryLib/geometry.py:563-566 | a positive radius contains the centre |
| Circles.ContainsIsIntersectsPoint | GeometryLib/geometry.py:558-566 | containment is intersection with a radius-zero circle about the point |
| Circles.UnitCirclesExample | GeometryLib/geometry.py:544-561 | unit circles about (0,0) and (1.5,0) intersect |
| Circles.HalfCirclesExample | GeometryLib/geometry.py:558-561 | circles of radius 0.5 about (0,0) and (1.5,0) do not intersect |
| Rectangles.WithDefaults | GeometryLib/geometry.py:423-426 | width, height and origin are kept, the axes default to (1,0,0) and (0,1,0), and the origin tag to "LB" |
| Rectangles.DefaultAxesOrthonormal | GeometryLib/geometry.py:423 | the default width and height axes are perpendicular unit vectors |
| Rectangles.Make | GeometryLib/geometry.py:423-426 | with every default the axes are (1,0,0) and (0,1,0), the origin is (0,0,0) and the tag "LB" |
| Rectangles.Area | GeometryLib/geometry.py:428-429 | width times height; `Rectangles.PerimeterBoundsArea` and `Rectangles.MeasuresNonNegative` carry its properties |
| Rectangles.Perimeter | GeometryLib/geometry.py:431-432 | twice the sum of the sides; `Rectangles.PerimeterBoundsArea` and `Rectangles.MeasuresNonNegative` carry its properties |
| Rectangles.PerimeterBoundsArea | GeometryLib/geometry.py:428-432 | perimeter² >= 16 × area, with equality exactly for a square |
| Rectangles.MeasuresNonNegative | GeometryLib/geometry.py:428-432 | non-negative sides give non-negative area and perimeter, the perimeter being zero only when both sides are |
| Polygons.Coords | GeometryLib/geometry.py:492-494 | the comprehension has one coordinate per vertex, in order |
| Polygons.VertexCount | GeometryLib/geometry.py:479-480 | the number of vertices; `Polygons.EmptyPolygonErrors` carries its properties |
| Polygons.EmptyPolygonErrors | GeometryLib/geometry.py:479-495 | `centriod()` and `bounding_box()` fail exactly when `vertex_count()` is zero |
| Polygons.Min | GeometryLib/geometry.py:534-535 | `min` returns an element no greater than any other |
| Polygons.Max | GeometryLib/geometry.py:534-535 | `max` returns an element no less than any other |
| Polygons.Mean | GeometryLib/geometry.py:495 | the mean times the vertex count is the sum |
| Polygons.Centroid | GeometryLib/geometry.py:491-495 | ZeroDivisionError exactly for no vertices; otherwise each coordinate times the vertex count is the sum of that coordinate |
| Polygons.CentroidIsMean | GeometryLib/geometry.py:491-495 | each coordinate of the centroid is the mean on that axis |
| Polygons.CentroidBetween | GeometryLib/geometry.py:491-495 | each coordinate of the centroid lies between the least and the greatest vertex coordinate |
| Polygons.AverageBetween | GeometryLib/geometry.py:495 | the average of a non-empty list lies between its min and max |
| Polygons.SumAtLeast | GeometryLib/geometry.py:495 | n numbers each at least lo sum to at least n·lo |
| Polygons.SumAtMost | GeometryLib/geometry.py:495 | n numbers each at most hi sum to at most n·hi |
| Polygons.SumShift | GeometryLib/geometry.py:495 | adding c to each of n numbers adds n·c to the sum |
| Polygons.CentroidTranslate | GeometryLib/geometry.py:491-495 | moving every vertex by v moves the centroid by v |
| Polygons.CentroidTranslateAxis | GeometryLib/geometry.py:491-495 | one coordinate of the centroid moves by that component of v |
| Polygons.MeanTranslate | GeometryLib/geometry.py:495 | one per-axis mean moves by that component of v |
| Polygons.SumTranslate | GeometryLib/geometry.py:492-495 | the coordinate sum grows by n times that component of v |
| Polygons.BoundingBox | GeometryLib/geometry.py:531-536 | ValueError exactly for no vertices; otherwise an axis-aligned box (default axes, tag "LB") with non-negative width and height, origin at the height of the first vertex, every vertex inside the box |
| Polygons.BoundingBoxTight | GeometryLib/geometry.py:531-536 | every side of the box touches a vertex |
| Polygons.MinAttained | GeometryLib/geometry.py:534-535 | some vertex attains the least coordinate |
| Polygons.MaxAttained | GeometryLib/geometry.py:534-535 | some vertex attains the greatest coordinate |

## Left out

- `polar_angle` (`atan2`) and the final `degrees(acos(.))` of `angle_between`: these are transcendental. `Vectors.CosAngle` returns the clamped cosine instead, and the one-degree tests are stated through it.
- cos(1°) and sin(1°) are irrational. The model uses their double-precision values (0.9998476951563913 and 0.01745240643728351), so angles within about 10^-16 of the one-degree boundaries may be classified differently than with the exact values or than the source does after rounding `acos` and `degrees`.
- Floating-point rounding and overflow: arithmetic is exact over `real`. IEEE infinities and NaN are not modelled, and `isclose` is modelled for finite numbers only.
- `math.sqrt`: every length is a parameter constrained by `IsLength`, not computed.
- `__repr__` string formatting.
- `Rectangle.anchor_point` and `_get_steps_to_and_fro_from_ctr`: `anchor_point` first calls `self._get_steps` (geometry.py:449-450), which the class does not define, so it raises `AttributeError` before its loop starts and never returns; the loop would also read `dest_pt` before assigning it. `Rectangle.contains_point` depends on it.
- Stubs whose body is `pass`, which return `None`:
  - `Rectangle.intersects_with` and `intersecting_area`;
  - `Polygon.perimeter`, `area`, `diameter`, `corner_curvatures`, `corner_angles`, `is_regular`, `contains_point`, `intersects_with`, `intersecting_area`, `convex_hull` and `bounding_circle`.
- `Polygon.is_convex`: it reads the misspelt `self.pionts` and raises `AttributeError` on every call.
- `Circle.perimeter` and `Circle.area`: multiples of π.
- The `unittest` harness: its expected values are stated as lemmas (`Points.UnitTestExamples`, `Points.UnitTestEqualityPair`), but the runner is not modelled.
- The `Rectangle` width and height axes are not normalized or checked by the source; the model stores whatever is given, as the source does.
- Rays.IntersectionPointAsWritten: requires rays built by the constructor (unit directions), because every `Ray` is built that way. A `Ray` whose direction could not be normalized raises `ValueError` in `Rays.Make` and never reaches the solver.
- Rays.IntersectionPoint, Rays.Intersects, Rays.IntersectsAsWritten, Rays.CosAngleBetween: same unit-direction requirement as above.
- Segments.IntersectsIff: characterises the corrected `intersects()`, not the one as written; the one as written is characterised by `Segments.IntersectsAsWrittenIff` and differs on skew segments.
- Rays.IntersectsIff: characterises the corrected `intersects()`, not the one as written; the one as written is characterised by `Rays.IntersectsAsWrittenIff` and differs on skew rays.

## Findings

| source | as written | input that shows it | evidently intended | confidence | as-written member | corrected member |
|---|---|---|---|---|---|---|
| GeometryLib/geometry.py:51-56 | `Point.__eq__` compares `self.x` with `self.y` and `self.y`, `self.z` with themselves, never reading `other` | `Point(3,4,5) == Point(3,4,5)` is False; `Point(3,3,0) == Point(100,-7,2)` is True | compare each axis with `other` within 1e-5, as `Vector.__eq__` does | not executed | Points.EqualAsWrittenCounterexample | Points.EqualReflexive |
| GeometryLib/geometry.py:283-320 | `LineSegment.intersection_point` returns the closest point of the first segment even when the lines are skew, and `intersects()` then answers True | segments (0,0,0)-(2,0,0) and (1,-1,1)-(1,1,1) give (1,0,0), which is one unit from the second segment, and `intersects()` is True | report a point, and answer True, only when it lies on both segments | not executed | Segments.SkewSegmentsIntersectAsWritten | Segments.IntersectsIff |
| GeometryLib/geometry.py:371-403 | `Ray.intersection_point` returns the closest point of the first ray even when the lines are skew, and `intersects()` then answers True | rays from (0,0,0) along +x and from (1,-1,1) along +y give (1,0,0), which is not on the second ray, and `intersects()` is True | report a point, and answer True, only when it lies on both rays | not executed | Rays.SkewRaysIntersectAsWritten | Rays.IntersectsIff |
| GeometryLib/geometry.py:415-419 | `Ray.contains_point` rejects the start point, because `parallel` returns False for the zero vector `start - start` | any ray and its own start point | the start point lies on the ray | not executed | Rays.StartNotContained | Rays.ContainsPointSound |
