/**
 * The floating-point library functions the physics code calls, as parameters.
 *
 * Every `f64` of the program is a `real` here. The transcendental functions
 * (`sqrt`, `sinh`, `cosh`, `tanh`, `atanh`) have no closed form over the reals,
 * so the operations that use them receive them in a `RealFns` record; the
 * predicate `Lawful` lists the only facts about them that the proofs rely on.
 */
module RealMath {

  /** The library functions an operation may call. */
  datatype RealFns = RealFns(
    sqrt: real -> real,
    sinh: real -> real,
    cosh: real -> real,
    tanh: real -> real,
    atanh: real -> real)

  /** The facts about the library functions that the proofs use. */
  ghost predicate Lawful(m: RealFns) {
    && (forall x :: x >= 0.0 ==> m.sqrt(x) >= 0.0 && m.sqrt(x) * m.sqrt(x) == x)
    && (forall a :: m.cosh(a) * m.cosh(a) - m.sinh(a) * m.sinh(a) == 1.0)
    && m.sinh(0.0) == 0.0
    && m.cosh(0.0) == 1.0
    && m.tanh(0.0) == 0.0
    && m.atanh(0.0) == 0.0
  }

  /**
   * The facts about tanh and atanh that the velocity round trip uses: tanh
   * undoes atanh on (-1, 1), tanh stays inside (-1, 1), and atanh(y) >= y on
   * [0, 1).
   */
  ghost predicate HyperbolicInverse(m: RealFns) {
    && (forall y :: -1.0 < y < 1.0 ==> m.tanh(m.atanh(y)) == y)
    && (forall x :: -1.0 < m.tanh(x) < 1.0)
    && (forall y :: 0.0 <= y < 1.0 ==> m.atanh(y) >= y)
  }

  /** `f64::abs`. */
  function Abs(x: real): (r: real)
    ensures r >= 0.0
    ensures r == x || r == -x
  {
    if x < 0.0 then -x else x
  }

  /** A product is zero only when a factor is. */
  lemma ZeroProduct(a: real, b: real)
    requires a * b == 0.0
    ensures a == 0.0 || b == 0.0
  {
  }

  /** A square is non-negative, and zero only for zero. */
  lemma SquareFacts(a: real)
    ensures a * a >= 0.0
    ensures a * a == 0.0 <==> a == 0.0
  {
    if a * a == 0.0 {
      ZeroProduct(a, a);
    }
  }

  /** A square root of a positive number is positive, so dividing by it is defined. */
  lemma SqrtPositive(m: RealFns, x: real)
    requires Lawful(m)
    requires x > 0.0
    ensures m.sqrt(x) > 0.0
  {
    assert m.sqrt(x) * m.sqrt(x) == x;
  }

  /** Under `Lawful`, sqrt of a non-negative x is non-negative and squares back to x. */
  lemma SqrtFacts(m: RealFns, x: real)
    requires Lawful(m)
    requires x >= 0.0
    ensures m.sqrt(x) >= 0.0 && m.sqrt(x) * m.sqrt(x) == x
  {
  }

  /** Under `HyperbolicInverse`, tanh undoes atanh on (-1, 1). */
  lemma TanhOfAtanh(m: RealFns, y: real)
    requires HyperbolicInverse(m)
    requires -1.0 < y < 1.0
    ensures m.tanh(m.atanh(y)) == y
  {
  }

  /** The square root of zero is zero and of nothing else. */
  lemma SqrtZeroIff(m: RealFns, x: real)
    requires Lawful(m)
    requires x >= 0.0
    ensures m.sqrt(x) == 0.0 <==> x == 0.0
  {
    SquareFacts(m.sqrt(x));
  }

  /** Two non-negative numbers with the same square are equal. */
  lemma SquareInjective(a: real, b: real)
    requires a >= 0.0 && b >= 0.0
    requires a * a == b * b
    ensures a == b
  {
    assert (a - b) * (a + b) == a * a - b * b;
    ZeroProduct(a - b, a + b);
  }

  /** Squaring is strictly increasing on the non-negative numbers. */
  lemma SquareMonotone(a: real, b: real)
    requires 0.0 <= a < b
    ensures a * a < b * b
  {
    assert b * b - a * a == (b - a) * (b + a);
    assert b - a > 0.0 && b + a > 0.0;
  }

  /** The square root of a square of a non-negative number is that number. */
  lemma SqrtOfSquare(m: RealFns, x: real)
    requires Lawful(m)
    requires x >= 0.0
    ensures m.sqrt(x * x) == x
  {
    SquareFacts(x);
    SquareInjective(m.sqrt(x * x), x);
  }

  /** The square root is monotone, and strictly so. */
  lemma SqrtMonotone(m: RealFns, a: real, b: real)
    requires Lawful(m)
    requires 0.0 <= a <= b
    ensures m.sqrt(a) <= m.sqrt(b)
    ensures m.sqrt(a) == m.sqrt(b) <==> a == b
  {
    var x := m.sqrt(a);
    var y := m.sqrt(b);
    if y < x {
      SquareMonotone(y, x);
    }
  }

  /** A non-negative root of k^2 s, where s = n^2, is |k| n. */
  lemma RootOfScaledSquare(r: real, n: real, a: real, k: real, s: real)
    requires r >= 0.0 && r * r == k * k * s
    requires n >= 0.0 && n * n == s
    requires a >= 0.0 && (a == k || a == -k)
    ensures r == a * n
  {
    ScaledSquare(a, k, n, s);
    SquareInjective(r, a * n);
  }

  /** With |a| = |k| and n^2 = s, (a n)^2 = k^2 s. */
  lemma ScaledSquare(a: real, k: real, n: real, s: real)
    requires a >= 0.0 && (a == k || a == -k)
    requires n >= 0.0 && n * n == s
    ensures (a * n) * (a * n) == k * k * s
    ensures a * n >= 0.0
  {
    assert a * a == k * k;
    assert (a * n) * (a * n) == (a * a) * (n * n);
  }
}
