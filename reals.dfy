/**
 * Squares of reals and the few facts about them the geometry needs.
 *
 * Sq(x) is x times x.  The product is reached through one step of the
 * recursion SqAfter, which the verifier does not take on its own: outside
 * this module a square is an ordinary number to the arithmetic, and a proof
 * that needs the product asks for it with SqDef.  This keeps the
 * nonlinear arithmetic of the geometric proofs small.  The second factor of
 * the product is written Id(x) so that the arithmetic sees a product of two
 * terms rather than a syntactic square.
 */
module Reals {

  function Id(x: real): real { x }

  /**
   * x squared.  The detour through SqAfter (the step count is 1 either way;
   * as a literal the verifier would unfold it at once) and Id exists only to
   * hide the product from the arithmetic until SqDef asks for it.
   */
  function Sq(x: real): real { SqAfter(x, if x < 0.0 then 1 else 1) }

  function SqAfter(x: real, steps: nat): real
    decreases steps
  {
    if steps == 0 then x * Id(x) else SqAfter(x, steps - 1)
  }

  lemma SqDef(x: real)
    ensures Sq(x) == x * Id(x)
  {
    assert SqAfter(x, 1) == SqAfter(x, 0);
  }

  lemma MulPos(x: real, y: real)
    requires 0.0 < x && 0.0 < y
    ensures 0.0 < x * y
  {}

  lemma MulNonneg(x: real, y: real)
    requires 0.0 <= x && 0.0 <= y
    ensures 0.0 <= x * y
  {}

  lemma SqNeg(x: real)
    ensures Sq(-x) == Sq(x)
  {
    SqDef(x);
    SqDef(-x);
  }

  lemma SqPos(x: real)
    requires x != 0.0
    ensures 0.0 < Sq(x)
    decreases if x < 0.0 then 1 else 0
  {
    if x < 0.0 { SqPos(-x); SqNeg(x); } else { SqDef(x); MulPos(x, x); }
  }

  lemma SqNonneg(x: real)
    ensures 0.0 <= Sq(x)
  {
    SqDef(x);
    if x != 0.0 { SqPos(x); }
  }

  /** A square that is not positive is the square of zero. */
  lemma SqZero(x: real)
    requires !(0.0 < Sq(x))
    ensures x == 0.0
  {
    if x != 0.0 { SqPos(x); }
  }

  lemma SqLt(a: real, m: real)
    requires 0.0 <= a < m
    ensures Sq(a) < Sq(m)
  {
    SqDef(a);
    SqDef(m);
    MulPos(m - a, m + a);
  }

  lemma SqLe(a: real, m: real)
    requires 0.0 <= a <= m
    ensures Sq(a) <= Sq(m)
  {
    if a < m { SqLt(a, m); }
  }

  /** Among non-negative reals the square determines the number. */
  lemma SqInj(a: real, m: real)
    requires 0.0 <= a && 0.0 <= m && Sq(a) == Sq(m)
    ensures a == m
  {
    if a < m { SqLt(a, m); }
    else if m < a { SqLt(m, a); }
  }

  lemma SqMul(a: real, b: real)
    ensures Sq(a * b) == Sq(a) * Sq(b)
  {
    SqDef(a);
    SqDef(b);
    SqDef(a * b);
  }

  lemma SqOfProduct(a: real, b: real, c: real)
    requires a * b == c
    ensures Sq(c) == Sq(a) * Sq(b)
  {
    SqMul(a, b);
  }

  /** Taking twice len units of a direction component off d units of it leaves d - 2 len units. */
  lemma TakeTwice(a: real, n: real, d: real, len: real)
    requires a == n * d
    ensures a - 2.0 * (n * len) == (d - 2.0 * len) * n
  {}

  /** Scaling both parts of a sum of squares by k scales the sum by k squared. */
  lemma SqSumMul(a: real, b: real, k: real)
    ensures Sq(a * k) + Sq(b * k) == Sq(k) * (Sq(a) + Sq(b))
  {
    SqDef(a * k);
    SqDef(b * k);
    SqDef(a);
    SqDef(b);
    SqDef(k);
  }

  /** A non-negative number with a positive square is positive. */
  lemma NonzeroRoot(m: real, x: real)
    requires 0.0 <= m && Sq(m) == x && 0.0 < x
    ensures 0.0 < m
  {
    SqDef(m);
    assert m == 0.0 ==> m * Id(m) == 0.0;
  }

  /** Squares grow with distance from zero, on either side of it. */
  lemma SqMono(a: real, b: real)
    requires 0.0 <= a <= b || b <= a <= 0.0
    ensures Sq(a) <= Sq(b)
  {
    if 0.0 <= a <= b { SqLe(a, b); } else { SqLe(-a, -b); SqNeg(a); SqNeg(b); }
  }

  /**
   * If p and q scale a positive s to two parts that add up to s, then p
   * and q add up to 1.
   */
  lemma UnitSum(p: real, q: real, a: real, b: real, s: real)
    requires 0.0 < s && p * s == a && q * s == b && a + b == s
    ensures p + q == 1.0
  {
    var t := p + q;
    assert t * s == a + b;
    MulCancel(t, s);
  }

  /** Only 1 leaves a positive number unchanged by multiplication. */
  lemma MulCancel(a: real, s: real)
    requires 0.0 < s && a * s == s
    ensures a == 1.0
  {
    if 1.0 < a { MulPos(a - 1.0, s); }
    else if a < 1.0 { MulPos(1.0 - a, s); }
  }

  /** A fraction s in [0, 1] of a non-negative length lies between 0 and it. */
  lemma MulUnit(s: real, len: real)
    requires 0.0 <= s <= 1.0 && 0.0 <= len
    ensures 0.0 <= s * len <= len
  {}

  /** The square of d = e less k times u, multiplied out. */
  lemma SqSubMul(d: real, e: real, u: real, k: real)
    requires d == e - k * u
    ensures Sq(d) == Sq(e) - 2.0 * k * (e * u) + Sq(k) * Sq(u)
  {
    SqDef(d);
    SqDef(e);
    SqDef(k);
    SqDef(u);
    SqDef(k * u);
    assert Sq(k * u) == Sq(k) * Sq(u) by { SqMul(k, u); }
  }

  /** The square of a difference, multiplied out. */
  lemma SqSub(t: real, k: real)
    ensures Sq(t - k) == Sq(t) - 2.0 * k * t + Sq(k)
  {
    SqDef(t - k);
    SqDef(t);
    SqDef(k);
  }

  /** Going the fraction k / len of d = len u is going k u. */
  lemma FractionOf(d: real, u: real, len: real, k: real)
    requires 0.0 < len && d == len * u
    ensures (k / len) * d == u * k
  {
    var s := k / len;
    assert s * len == k;
    assert s * d == (s * len) * u;
  }
}
