/** Numeric helpers shared by the particle engine: absolute value, powers,
    the contract of Math.sqrt, and distinctness of object lists. */
module Basics {

  function Abs(v: real): (r: real)
    ensures 0.0 <= r && (r == v || r == -v)
  {
    if v < 0.0 then -v else v
  }

  /** `root` behaves as Math.sqrt does in exact arithmetic on the non-negative reals. */
  ghost predicate IsSqrt(root: real -> real)
  {
    forall v :: 0.0 <= v ==> IsRootOf(root, v)
  }

  /** root(v) is the non-negative square root of v. */
  ghost predicate IsRootOf(root: real -> real, v: real)
  {
    0.0 <= root(v) && root(v) * root(v) == v
  }

  /** The length of the vector (dx, dy): Math.sqrt(dx * dx + dy * dy). */
  function Length(dx: real, dy: real, sqrt: real -> real): real
  {
    sqrt(dx * dx + dy * dy)
  }

  /** A length is the non-negative root of the sum of squares, and at least as long as
      either component. */
  lemma LengthFacts(dx: real, dy: real, sqrt: real -> real)
    requires IsSqrt(sqrt)
    ensures var d := Length(dx, dy, sqrt);
      0.0 <= d && d * d == dx * dx + dy * dy && Abs(dx) <= d && Abs(dy) <= d
  {
    SquareNonNegative(dx);
    SquareNonNegative(dy);
    assert IsRootOf(sqrt, dx * dx + dy * dy);
    SqrtDominates(sqrt(dx * dx + dy * dy), dx, dy);
  }

  /** Scaling by a non-negative factor scales the magnitude. */
  lemma AbsOfScaled(p: real, v: real)
    requires 0.0 <= p
    ensures Abs(p * v) == p * Abs(v)
  {
    if v < 0.0 {
      assert p * v == -(p * -v);
      assert 0.0 <= p * -v;
    } else {
      assert 0.0 <= p * v;
    }
  }

  /** b raised to the n-th power. */
  function Pow(b: real, n: nat): (r: real)
    ensures 0.0 <= b <= 1.0 ==> 0.0 <= r <= 1.0
  {
    if n == 0 then 1.0
    else
      var p := Pow(b, n - 1);
      assert 0.0 <= b <= 1.0 ==> 0.0 <= b * p <= p;
      b * p
  }

  /** A square root is at least as large as either leg of the right triangle it measures. */
  lemma SqrtDominates(d: real, a: real, b: real)
    requires 0.0 <= d && d * d == a * a + b * b
    ensures Abs(a) <= d && Abs(b) <= d
  {
    LegBound(d, a, b * b);
    LegBound(d, b, a * a);
  }

  lemma LegBound(d: real, a: real, rest: real)
    requires 0.0 <= d && 0.0 <= rest && d * d == a * a + rest
    ensures Abs(a) <= d
  {
    var m := Abs(a);
    assert m * m == a * a;
    SquareGrows(d, m);
  }

  lemma SquareGrows(d: real, m: real)
    ensures 0.0 <= d < m ==> d * d < m * m
  {
    if 0.0 <= d < m {
      var dd, dm, mm := d * d, d * m, m * m;
      assert dd <= dm;
      assert dm < mm;
    }
  }

  /** Cancelling a non-zero factor. */
  lemma CancelFactor(x: real, k: real)
    requires k != 0.0 && x * k == k
    ensures x == 1.0
  {
    var xk := x * k;
    assert (x - 1.0) * k == xk - k == 0.0;
    ZeroProduct(x - 1.0, k);
  }

  lemma SquareOfEqual(a: real, b: real)
    requires a == b
    ensures a * a == b * b
  {
  }

  lemma ZeroProduct(a: real, b: real)
    ensures a * b == 0.0 ==> a == 0.0 || b == 0.0
  {
  }

  lemma SquareNonNegative(a: real)
    ensures 0.0 <= a * a
    ensures a * a == 0.0 ==> a == 0.0
  {
    ZeroProduct(a, a);
  }

  /** No object occurs twice in the list. */
  ghost predicate Distinct<T>(s: seq<T>)
  {
    forall a, b :: 0 <= a < b < |s| ==> s[a] != s[b]
  }

  lemma DistinctAppend<T>(s: seq<T>, x: T)
    requires Distinct(s) && x !in s
    ensures Distinct(s + [x])
  {
  }
}
