/** Scalars, errors and the tolerance comparison shared by every geometry type.
    Python floats are modelled as exact `real`s; the exceptions the source raises
    become the `Err` case of `Result`. */
module Numeric {

  /** The Python exceptions the geometry code raises. */
  datatype Error = TypeError | ZeroDivisionError | ValueError

  datatype Result<T> = Ok(value: T) | Err(error: Error)

  datatype Option<T> = None | Some(value: T)

  /** A divisor as Python sees it: an `int`/`float`, or anything else. */
  datatype Operand = Number(value: real) | NonNumeric

  /** The absolute tolerance every coordinate comparison uses. */
  const AbsTol: real := 0.00001

  /** The default relative tolerance of `math.isclose`. */
  const RelTol: real := 0.000000001

  function Abs(a: real): (r: real)
    ensures r >= 0.0 && (r == a || r == -a)
  {
    if a < 0.0 then -a else a
  }

  function Max(a: real, b: real): (r: real)
    ensures r >= a && r >= b && (r == a || r == b)
  {
    if a < b then b else a
  }

  /** `math.isclose(a, b, abs_tol=absTol)` with the default relative tolerance,
      written as CPython evaluates it for finite arguments. */
  function IsClose(a: real, b: real, absTol: real): (r: bool)
    requires absTol >= 0.0
    ensures r <==> Abs(a - b) <= Max(RelTol * Max(Abs(a), Abs(b)), absTol)
  {
    var diff := Abs(b - a);
    a == b || diff <= RelTol * Abs(b) || diff <= RelTol * Abs(a) || diff <= absTol
  }

  lemma IsCloseSymmetric(a: real, b: real, absTol: real)
    requires absTol >= 0.0
    ensures IsClose(a, b, absTol) == IsClose(b, a, absTol)
  {
  }

  lemma IsCloseReflexive(a: real, absTol: real)
    requires absTol >= 0.0
    ensures IsClose(a, a, absTol)
  {
  }

  /** For coordinates of magnitude at most 10^4 the relative tolerance never
      exceeds 1e-5, so `isclose(a, b, abs_tol=1e-5)` is exactly `|a - b| <= 1e-5`. */
  lemma IsCloseSmallMagnitude(a: real, b: real)
    requires Abs(a) <= 10000.0 && Abs(b) <= 10000.0
    ensures IsClose(a, b, AbsTol) <==> Abs(a - b) <= AbsTol
  {
    assert RelTol * Max(Abs(a), Abs(b)) <= AbsTol;
  }

  /** Closeness within a tolerance is not transitive. */
  lemma IsCloseNotTransitive()
    ensures IsClose(0.0, 0.00001, AbsTol) && IsClose(0.00001, 0.00002, AbsTol)
    ensures !IsClose(0.0, 0.00002, AbsTol)
  {
  }

  // Facts about products and squares used by the length and angle proofs.
  // Each names the product as a separate argument `p`, so that callers can pass
  // a term such as a squared length and receive the fact about that term.

  lemma ProductPositive(a: real, b: real, p: real)
    requires a > 0.0 && b > 0.0 && p == a * b
    ensures p > 0.0
  {
  }

  lemma ProductNonNegative(a: real, b: real, p: real)
    requires a >= 0.0 && b >= 0.0 && p == a * b
    ensures p >= 0.0
  {
    if a > 0.0 && b > 0.0 {
      ProductPositive(a, b, p);
    }
  }

  lemma SquarePositive(a: real, p: real)
    requires a != 0.0 && p == a * a
    ensures p > 0.0
  {
    if a > 0.0 {
      ProductPositive(a, a, p);
    } else {
      ProductPositive(-a, -a, p);
    }
  }

  lemma SquareNonNegative(a: real, p: real)
    requires p == a * a
    ensures p >= 0.0
  {
    if a != 0.0 {
      SquarePositive(a, p);
    }
  }

  /** A sum of three squares is non-negative, and zero only when every term is. */
  lemma SumOfSquares(x: real, y: real, z: real, s: real)
    requires s == x * x + y * y + z * z
    ensures s >= 0.0
    ensures s == 0.0 <==> x == 0.0 && y == 0.0 && z == 0.0
  {
    var p, q, r := x * x, y * y, z * z;
    SquareNonNegative(x, p);
    SquareNonNegative(y, q);
    SquareNonNegative(z, r);
    if x != 0.0 {
      SquarePositive(x, p);
    } else if y != 0.0 {
      SquarePositive(y, q);
    } else if z != 0.0 {
      SquarePositive(z, r);
    }
  }

  lemma SquareMonotone(a: real, b: real)
    requires 0.0 <= a <= b
    ensures a * a <= b * b
  {
    var p, q, r := a * a, a * b, b * b;
    assert p <= q;
    assert q <= r;
  }

  lemma SquareStrictMonotone(a: real, b: real)
    requires 0.0 <= a < b
    ensures a * a < b * b
  {
    var p, q, r := a * a, a * b, b * b;
    assert p <= q;
    assert q < r;
  }

  /** Non-negative numbers with equal squares are equal. */
  lemma SquareInjective(a: real, b: real)
    requires a >= 0.0 && b >= 0.0 && a * a == b * b
    ensures a == b
  {
    if a < b {
      SquareStrictMonotone(a, b);
    } else if b < a {
      SquareStrictMonotone(b, a);
    }
  }

  /** Multiplying by a positive number keeps a strict order. */
  lemma ScaleCompare(a: real, b: real, p: real)
    requires p > 0.0
    ensures a < b <==> a * p < b * p
  {
    if a < b {
      ProductPositive(b - a, p, b * p - a * p);
    } else if b < a {
      ProductPositive(a - b, p, a * p - b * p);
    }
  }

  /** Scaling a positive number by a factor below one makes it smaller. */
  lemma ShrinkPositive(c: real, n: real)
    requires c < 1.0 && n > 0.0
    ensures c * n < n
  {
    ProductPositive(1.0 - c, n, n - c * n);
  }

  /** A non-zero factor cancels. */
  lemma MulCancel(a: real, b: real, c: real)
    requires a != 0.0 && a * b == a * c
    ensures b == c
  {
    assert a * (b - c) == 0.0;
  }
}
