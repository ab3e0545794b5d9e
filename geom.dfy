/**
 * The geometry kernel of the game: vectors, points, line segments and the
 * circle that moves among them.  Values are reals; the platform square root
 * (f32::sqrt) is a parameter `sqrt` of which the model assumes only that it
 * is a square root (IsSqrt).
 *
 * Methods of the source that take `&self` and only read a circle become
 * functions of the fields they read (its centre, its radius); the one
 * operation that changes a circle in place, the bounce, is a method of the
 * class Circle.
 */
module Geom {

  import opened Reals

  /** A square root as the platform provides it. */
  type SqrtFn = real -> real

  ghost predicate IsSqrt(sqrt: SqrtFn) {
    forall x :: 0.0 <= x ==> 0.0 <= sqrt(x) && Sq(sqrt(x)) == x
  }

  /** A square root is determined by its square. */
  lemma SqrtOf(sqrt: SqrtFn, x: real, m: real)
    requires IsSqrt(sqrt) && 0.0 <= m && Sq(m) == x
    ensures sqrt(x) == m
  {
    SqNonneg(m);
    SqInj(sqrt(x), m);
  }

  /** The square root is monotone, strictly so. */
  lemma SqrtMonotone(sqrt: SqrtFn, a: real, b: real)
    requires IsSqrt(sqrt) && 0.0 <= a
    ensures a <= b ==> sqrt(a) <= sqrt(b)
    ensures a < b ==> sqrt(a) < sqrt(b)
  {
    if a <= b {
      var p, q := sqrt(a), sqrt(b);
      if q < p { SqLt(q, p); }
    }
  }

  /** The square root of x is zero exactly when x is. */
  lemma SqrtZero(sqrt: SqrtFn, x: real)
    requires IsSqrt(sqrt) && 0.0 <= x
    ensures sqrt(x) == 0.0 <==> x == 0.0
  {
    SqDef(0.0);
    if x == 0.0 { SqrtOf(sqrt, 0.0, 0.0); }
  }

  datatype Vec2 = Vec2(x: real, y: real)

  datatype Point = Point(x: real, y: real)

  const ZERO := Vec2(0.0, 0.0)

  function SqLen(v: Vec2): real {
    Sq(v.x) + Sq(v.y)
  }

  /** Squared lengths are non-negative, and zero only for the zero vector. */
  lemma SqLenZero(v: Vec2)
    ensures 0.0 <= SqLen(v)
    ensures SqLen(v) == 0.0 <==> v == ZERO
  {
    SqDef(0.0);
    SqNonneg(v.x);
    SqNonneg(v.y);
    if v.x != 0.0 { SqPos(v.x); }
    if v.y != 0.0 { SqPos(v.y); }
  }

  /** The displacement that carries a to b. */
  function Between(a: Point, b: Point): (v: Vec2)
    ensures a.x + v.x == b.x && a.y + v.y == b.y
  {
    Vec2(b.x - a.x, b.y - a.y)
  }

  /** The length of a vector: its square is the squared length, and it is zero exactly for the zero vector. */
  function Magnitude(v: Vec2, sqrt: SqrtFn): (m: real)
    requires IsSqrt(sqrt)
    ensures 0.0 <= m && Sq(m) == SqLen(v)
    ensures m == 0.0 <==> v == ZERO
  {
    SqLenZero(v);
    SqrtZero(sqrt, SqLen(v));
    sqrt(SqLen(v))
  }

  /**
   * The unit vector pointing the way v points: for a non-zero v the result
   * has length 1 and v is its positive multiple |v|.  The zero vector has
   * no unit vector (the source divides by zero), so it is excluded.
   */
  function ToUnit(v: Vec2, sqrt: SqrtFn): (u: Vec2)
    requires IsSqrt(sqrt) && v != ZERO
    ensures SqLen(u) == 1.0 && Magnitude(u, sqrt) == 1.0
    ensures 0.0 < Magnitude(v, sqrt) && v == Scale(u, Magnitude(v, sqrt))
  {
    var len := Magnitude(v, sqrt);
    var u := Vec2(v.x / len, v.y / len);
    SqOfProduct(u.x, len, v.x);
    SqOfProduct(u.y, len, v.y);
    SqPos(len);
    UnitSum(Sq(u.x), Sq(u.y), Sq(v.x), Sq(v.y), Sq(len));
    SqDef(1.0);
    SqrtOf(sqrt, 1.0, 1.0);
    u
  }

  function Scale(v: Vec2, scale: real): Vec2 {
    Vec2(v.x * scale, v.y * scale)
  }

  /** Scaling by k scales the length by |k|. */
  lemma ScaleMagnitude(v: Vec2, k: real, sqrt: SqrtFn)
    requires IsSqrt(sqrt)
    ensures Magnitude(Scale(v, k), sqrt) == (if k < 0.0 then -k else k) * Magnitude(v, sqrt)
  {
    var m := Magnitude(v, sqrt);
    var a := if k < 0.0 then -k else k;
    SqLenScale(v, k);
    if k < 0.0 { SqNeg(k); }
    SqMul(a, m);
    MulNonneg(a, m);
    SqrtOf(sqrt, SqLen(Scale(v, k)), a * m);
  }

  /** Scaling by a non-zero k is undone by scaling by 1 / k. */
  lemma ScaleInverse(v: Vec2, k: real)
    requires k != 0.0
    ensures Scale(Scale(v, k), 1.0 / k) == v
  {
    assert v.x * k * (1.0 / k) == v.x * (k * (1.0 / k));
    assert v.y * k * (1.0 / k) == v.y * (k * (1.0 / k));
  }

  lemma SqLenScale(v: Vec2, k: real)
    ensures SqLen(Scale(v, k)) == Sq(k) * SqLen(v)
  {
    SqSumMul(v.x, v.y, k);
    var w := Scale(v, k);
    assert w.x == v.x * k && w.y == v.y * k;
  }

  function Dot(a: Vec2, b: Vec2): real {
    a.x * b.x + a.y * b.y
  }

  /** A vector's dot product with itself is its squared length. */
  lemma DotSelf(v: Vec2)
    ensures Dot(v, v) == SqLen(v)
  {
    SqDef(v.x);
    SqDef(v.y);
  }

  /** The dot product is symmetric and commutes with scaling either side. */
  lemma DotScale(a: Vec2, b: Vec2, k: real)
    ensures Dot(a, b) == Dot(b, a)
    ensures Dot(Scale(a, k), b) == k * Dot(a, b)
  {
    assert a.x * k * b.x + a.y * k * b.y == k * (a.x * b.x + a.y * b.y);
  }

  function SqDist(a: Point, b: Point): real {
    var x := a.x - b.x;
    var y := a.y - b.y;
    Sq(x) + Sq(y)
  }

  /** The squared distance is the squared length of the displacement, either way round. */
  lemma SqDistBetween(a: Point, b: Point)
    ensures SqDist(a, b) == SqLen(Between(a, b)) == SqLen(Between(b, a))
  {
    SqNeg(a.x - b.x);
    SqNeg(a.y - b.y);
  }

  /** The squared distance between two points is zero exactly when they coincide. */
  lemma SqDistZero(a: Point, b: Point)
    ensures 0.0 <= SqDist(a, b)
    ensures SqDist(a, b) == 0.0 <==> a == b
  {
    SqDef(0.0);
    SqNonneg(a.x - b.x);
    SqNonneg(a.y - b.y);
    if a.x != b.x { SqPos(a.x - b.x); }
    if a.y != b.y { SqPos(a.y - b.y); }
  }

  /** The distance between two points: the length of the displacement from one to the other. */
  function Distance(a: Point, b: Point, sqrt: SqrtFn): (d: real)
    requires IsSqrt(sqrt)
    ensures 0.0 <= d && Sq(d) == SqDist(a, b)
    ensures d == Magnitude(Between(a, b), sqrt)
  {
    SqDistBetween(a, b);
    SqDistZero(a, b);
    sqrt(SqDist(a, b))
  }

  /** Two points are at distance zero exactly when they coincide. */
  lemma DistanceZero(a: Point, b: Point, sqrt: SqrtFn)
    requires IsSqrt(sqrt)
    ensures Distance(a, b, sqrt) == 0.0 <==> a == b
  {
    var v := Between(a, b);
    assert v == ZERO <==> a == b;
  }

  /** A line segment from start to end; an obstacle of no thickness. */
  datatype Line = Line(start: Point, end: Point) {

    /** The segment from (x1, y1) to (x2, y2); it has a direction unless the two points coincide. */
    static function New(x1: real, y1: real, x2: real, y2: real): (l: Line)
      ensures l.start != l.end <==> x1 != x2 || y1 != y2
    {
      Line(Point(x1, y1), Point(x2, y2))
    }

    /** The unit direction from start to end; end is start moved Len() along it. */
    function ToUnitVector(sqrt: SqrtFn): (u: Vec2)
      requires IsSqrt(sqrt) && start != end
      ensures SqLen(u) == 1.0
      ensures end.x == start.x + Len(sqrt) * u.x && end.y == start.y + Len(sqrt) * u.y
    {
      ToUnit(Between(start, end), sqrt)
    }

    /** The length of the segment: the length of the displacement from start to end, zero only when they coincide. */
    function Len(sqrt: SqrtFn): (l: real)
      requires IsSqrt(sqrt)
      ensures l == Magnitude(Between(start, end), sqrt)
      ensures 0.0 <= l
    {
      Distance(start, end, sqrt)
    }
  }

  /** The point a fraction s of the way from the segment's start to its end. */
  function Lerp(line: Line, s: real): Point {
    Point(line.start.x + s * (line.end.x - line.start.x),
          line.start.y + s * (line.end.y - line.start.y))
  }

  /** p is a point of the segment (its end points included). */
  ghost predicate OnSegment(p: Point, line: Line) {
    exists s :: 0.0 <= s <= 1.0 && p == Lerp(line, s)
  }

  ghost predicate Proper(lines: seq<Line>) {
    forall l :: l in lines ==> l.start != l.end
  }

  /**
   * The projection of the centre onto the segment, clamped to its end
   * points.  It always lies on the segment.  A segment of length zero has
   * no direction (the source divides by zero), so it is excluded.
   */
  function ClosestPoint(center: Point, line: Line, sqrt: SqrtFn): (p: Point)
    requires IsSqrt(sqrt) && line.start != line.end
    ensures OnSegment(p, line)
  {
    var lineVec := line.ToUnitVector(sqrt);
    var lineEndToCircle := Between(line.start, center);
    var dot := Dot(lineEndToCircle, lineVec);
    if dot <= 0.0 then
      assert line.start == Lerp(line, 0.0);
      line.start
    else if dot >= line.Len(sqrt) then
      assert line.end == Lerp(line, 1.0);
      line.end
    else
      var p := Point(line.start.x + lineVec.x * dot, line.start.y + lineVec.y * dot);
      OnLineAt(line, lineVec, line.Len(sqrt), dot, sqrt);
      p
  }

  /** Moving k along the unit direction is moving the fraction k / Len. */
  lemma OnLineAt(line: Line, u: Vec2, len: real, k: real, sqrt: SqrtFn)
    requires IsSqrt(sqrt) && line.start != line.end
    requires u == line.ToUnitVector(sqrt) && len == line.Len(sqrt)
    requires 0.0 < k < len
    ensures Point(line.start.x + u.x * k, line.start.y + u.y * k) == Lerp(line, k / len)
    ensures OnSegment(Point(line.start.x + u.x * k, line.start.y + u.y * k), line)
  {
    FractionOf(line.end.x - line.start.x, u.x, len, k);
    FractionOf(line.end.y - line.start.y, u.y, len, k);
  }

  /** The point k along the direction u from a. */
  function Along(a: Point, u: Vec2, k: real): Point {
    Point(a.x + k * u.x, a.y + k * u.y)
  }

  /** t clamped to the interval [0, hi]. */
  function Clamp(t: real, hi: real): real {
    if t <= 0.0 then 0.0 else if t >= hi then hi else t
  }

  /**
   * ClosestPoint is the segment's start moved along the segment by the
   * projection of the centre, clamped to [0, Len].
   */
  lemma ClosestPointClamped(center: Point, line: Line, sqrt: SqrtFn)
    requires IsSqrt(sqrt) && line.start != line.end
    ensures var u := line.ToUnitVector(sqrt);
            ClosestPoint(center, line, sqrt)
            == Along(line.start, u, Clamp(Dot(Between(line.start, center), u), line.Len(sqrt)))
  {
    var u := line.ToUnitVector(sqrt);
    var t := Dot(Between(line.start, center), u);
    if t <= 0.0 {
      assert Along(line.start, u, 0.0) == line.start;
    } else if t >= line.Len(sqrt) {
      assert Along(line.start, u, line.Len(sqrt)) == line.end;
    } else {
      assert Along(line.start, u, t) == Point(line.start.x + u.x * t, line.start.y + u.y * t);
    }
  }

  /** The point a fraction s along the segment lies s Len along its unit direction. */
  lemma LerpAlong(line: Line, s: real, sqrt: SqrtFn)
    requires IsSqrt(sqrt) && line.start != line.end && 0.0 <= s <= 1.0
    ensures Lerp(line, s) == Along(line.start, line.ToUnitVector(sqrt), s * line.Len(sqrt))
    ensures 0.0 <= s * line.Len(sqrt) <= line.Len(sqrt)
  {
    MulUnit(s, line.Len(sqrt));
  }

  /**
   * Squared distance from c to the point k along a unit direction u from a,
   * where t is the projection of c - a on u.
   */
  lemma SqDistAlong(c: Point, a: Point, u: Vec2, k: real, t: real)
    requires SqLen(u) == 1.0 && t == Dot(Between(a, c), u)
    ensures SqDist(c, Along(a, u, k)) == Sq(t - k) + SqLen(Between(a, c)) - Sq(t)
  {
    var p := Along(a, u, k);
    var ex, ey := c.x - a.x, c.y - a.y;
    assert c.x - p.x == ex - k * u.x && c.y - p.y == ey - k * u.y;
    SqSubMul(c.x - p.x, ex, u.x, k);
    SqSubMul(c.y - p.y, ey, u.y, k);
    SqSub(t, k);
    assert SqLen(Between(a, c)) == Sq(ex) + Sq(ey);
    assert Sq(k) * Sq(u.x) + Sq(k) * Sq(u.y) == Sq(k) * SqLen(u) == Sq(k);
    assert 2.0 * k * (ex * u.x) + 2.0 * k * (ey * u.y) == 2.0 * k * t;
  }

  /** Within [0, hi] no number is nearer to t than Clamp(t, hi). */
  lemma ClampNearest(t: real, hi: real, k: real)
    requires 0.0 <= k <= hi
    ensures Sq(t - Clamp(t, hi)) <= Sq(t - k)
  {
    SqMono(t - Clamp(t, hi), t - k);
  }

  /**
   * Moving along a unit direction from a, the squared distance to c is
   * smallest at the clamped projection of c.
   */
  lemma NearestAlong(c: Point, a: Point, u: Vec2, t: real, len: real, k: real)
    requires SqLen(u) == 1.0 && t == Dot(Between(a, c), u) && 0.0 <= k <= len
    ensures SqDist(c, Along(a, u, Clamp(t, len))) <= SqDist(c, Along(a, u, k))
  {
    SqDistAlong(c, a, u, k, t);
    SqDistAlong(c, a, u, Clamp(t, len), t);
    ClampNearest(t, len, k);
  }

  /** No point of the segment is nearer to the centre than ClosestPoint. */
  lemma ClosestPointIsNearest(center: Point, line: Line, s: real, sqrt: SqrtFn)
    requires IsSqrt(sqrt) && line.start != line.end && 0.0 <= s <= 1.0
    ensures SqDist(center, ClosestPoint(center, line, sqrt)) <= SqDist(center, Lerp(line, s))
  {
    var u := line.ToUnitVector(sqrt);
    ClosestPointClamped(center, line, sqrt);
    LerpAlong(line, s, sqrt);
    NearestAlong(center, line.start, u, Dot(Between(line.start, center), u), line.Len(sqrt), s * line.Len(sqrt));
  }

  /** The same in distances. */
  lemma ClosestPointIsNearestDistance(center: Point, line: Line, s: real, sqrt: SqrtFn)
    requires IsSqrt(sqrt) && line.start != line.end && 0.0 <= s <= 1.0
    ensures Distance(center, ClosestPoint(center, line, sqrt), sqrt) <= Distance(center, Lerp(line, s), sqrt)
  {
    var p := ClosestPoint(center, line, sqrt);
    ClosestPointIsNearest(center, line, s, sqrt);
    SqDistZero(center, p);
    SqrtMonotone(sqrt, SqDist(center, p), SqDist(center, Lerp(line, s)));
  }

  /** The distance from the centre to the segment, measured to its nearest point. */
  function CircleDistance(center: Point, line: Line, sqrt: SqrtFn): (d: real)
    requires IsSqrt(sqrt) && line.start != line.end
    ensures 0.0 <= d
  {
    var closest := ClosestPoint(center, line, sqrt);
    Distance(center, closest, sqrt)
  }

  /** No point of the segment is nearer to the centre than CircleDistance, and some point is exactly this far. */
  lemma CircleDistanceIsNearest(center: Point, line: Line, sqrt: SqrtFn)
    requires IsSqrt(sqrt) && line.start != line.end
    ensures forall s :: 0.0 <= s <= 1.0 ==> CircleDistance(center, line, sqrt) <= Distance(center, Lerp(line, s), sqrt)
    ensures exists s :: 0.0 <= s <= 1.0 && CircleDistance(center, line, sqrt) == Distance(center, Lerp(line, s), sqrt)
  {
    forall s | 0.0 <= s <= 1.0
      ensures CircleDistance(center, line, sqrt) <= Distance(center, Lerp(line, s), sqrt)
    {
      ClosestPointIsNearestDistance(center, line, s, sqrt);
    }
    var closest := ClosestPoint(center, line, sqrt);
    var s :| 0.0 <= s <= 1.0 && closest == Lerp(line, s);
    assert CircleDistance(center, line, sqrt) == Distance(center, Lerp(line, s), sqrt);
  }

  /** The circle overlaps the segment; only a circle of positive radius can. */
  predicate IsIntersecting(center: Point, radius: real, line: Line, sqrt: SqrtFn)
    requires IsSqrt(sqrt) && line.start != line.end
    ensures IsIntersecting(center, radius, line, sqrt) ==> 0.0 < radius
  {
    CircleDistance(center, line, sqrt) < radius
  }

  /**
   * A circle touches the segment exactly when some point of the segment lies
   * strictly inside it.
   */
  lemma IsIntersectingIff(center: Point, radius: real, line: Line, sqrt: SqrtFn)
    requires IsSqrt(sqrt) && line.start != line.end
    ensures IsIntersecting(center, radius, line, sqrt)
        <==> exists s :: 0.0 <= s <= 1.0 && Distance(center, Lerp(line, s), sqrt) < radius
  {
    CircleDistanceIsNearest(center, line, sqrt);
  }

  /** From the segment's nearest point to the centre; as long as the distance to the segment. */
  function BounceVector(center: Point, line: Line, sqrt: SqrtFn): (b: Vec2)
    requires IsSqrt(sqrt) && line.start != line.end
    ensures Magnitude(b, sqrt) == CircleDistance(center, line, sqrt)
  {
    var closest := ClosestPoint(center, line, sqrt);
    Between(closest, center)
  }

  /** The bounce vector vanishes exactly when the centre lies on the segment. */
  lemma BounceVectorZero(center: Point, line: Line, sqrt: SqrtFn)
    requires IsSqrt(sqrt) && line.start != line.end
    ensures BounceVector(center, line, sqrt) == ZERO <==> OnSegment(center, line)
  {
    var closest := ClosestPoint(center, line, sqrt);
    OnSegmentIsOwnClosest(center, line, sqrt);
    assert Between(closest, center) == ZERO <==> closest == center;
  }

  /** A centre that lies on the segment is its own nearest point. */
  lemma OnSegmentIsOwnClosest(center: Point, line: Line, sqrt: SqrtFn)
    requires IsSqrt(sqrt) && line.start != line.end
    ensures OnSegment(center, line) ==> ClosestPoint(center, line, sqrt) == center
  {
    if OnSegment(center, line) {
      var s :| 0.0 <= s <= 1.0 && center == Lerp(line, s);
      ClosestPointIsNearest(center, line, s, sqrt);
      SqDistZero(center, center);
      SqDistZero(center, ClosestPoint(center, line, sqrt));
    }
  }

  /** The unit normal of a bounce: from the segment's nearest point towards the centre. */
  function BounceNormal(center: Point, line: Line, sqrt: SqrtFn): (n: Vec2)
    requires IsSqrt(sqrt) && line.start != line.end && !OnSegment(center, line)
    ensures SqLen(n) == 1.0
  {
    BounceVectorZero(center, line, sqrt);
    ToUnit(BounceVector(center, line, sqrt), sqrt)
  }

  /** The bounce vector is the bounce normal stretched to the distance from the segment. */
  lemma BounceNormalScales(center: Point, line: Line, sqrt: SqrtFn)
    requires IsSqrt(sqrt) && line.start != line.end && !OnSegment(center, line)
    ensures BounceVector(center, line, sqrt) == Scale(BounceNormal(center, line, sqrt), CircleDistance(center, line, sqrt))
  {
    BounceVectorZero(center, line, sqrt);
  }

  /** v reflected across the line through the origin orthogonal to n. */
  function Reflect(v: Vec2, n: Vec2): Vec2 {
    var dot := Dot(v, n);
    Vec2(v.x - 2.0 * dot * n.x, v.y - 2.0 * dot * n.y)
  }

  /** The velocity update of a bounce, with the normal component dot computed beforehand, is Reflect. */
  lemma ReflectBy(v: Vec2, n: Vec2, dot: real)
    requires dot == Dot(v, n)
    ensures Vec2(v.x - 2.0 * dot * n.x, v.y - 2.0 * dot * n.y) == Reflect(v, n)
  {
    assert 2.0 * dot * n.x == 2.0 * Dot(v, n) * n.x;
    assert 2.0 * dot * n.y == 2.0 * Dot(v, n) * n.y;
  }

  /** Reflection keeps the speed and turns the normal component around. */
  lemma ReflectPreservesSpeed(v: Vec2, n: Vec2, sqrt: SqrtFn)
    requires IsSqrt(sqrt) && SqLen(n) == 1.0
    ensures Magnitude(Reflect(v, n), sqrt) == Magnitude(v, sqrt)
    ensures Dot(Reflect(v, n), n) == -Dot(v, n)
  {
    ReflectSqLen(v, n);
    ReflectComponent(v, n);
  }

  /** The squared length is kept by reflection across a unit normal. */
  lemma ReflectSqLen(v: Vec2, n: Vec2)
    requires SqLen(n) == 1.0
    ensures SqLen(Reflect(v, n)) == SqLen(v)
  {
    var r := Reflect(v, n);
    SqDef(r.x);
    SqDef(r.y);
    SqDef(v.x);
    SqDef(v.y);
    SqDef(n.x);
    SqDef(n.y);
  }

  /** Reflecting twice across the same normal gives back the velocity. */
  lemma ReflectInvolution(v: Vec2, n: Vec2)
    requires SqLen(n) == 1.0
    ensures Reflect(Reflect(v, n), n) == v
  {
    ReflectComponent(v, n);
  }

  lemma ReflectComponent(v: Vec2, n: Vec2)
    requires SqLen(n) == 1.0
    ensures Dot(Reflect(v, n), n) == -Dot(v, n)
  {
    SqDef(n.x);
    SqDef(n.y);
  }

  /**
   * How far a bounce pushes the centre, in units of twice the bounce normal:
   * the length of the bounce vector plus the radius when the velocity points
   * away from the segment, minus the radius otherwise.
   */
  function PushLength(center: Point, velocity: Vec2, radius: real, line: Line, sqrt: SqrtFn): real
    requires IsSqrt(sqrt) && line.start != line.end && !OnSegment(center, line)
  {
    var len := Magnitude(BounceVector(center, line, sqrt), sqrt);
    if Dot(velocity, BounceNormal(center, line, sqrt)) >= 0.0 then len + radius else len - radius
  }

  /** Where a bounce puts the centre: moved back twice PushLength along the bounce normal. */
  function BouncedCenter(center: Point, velocity: Vec2, radius: real, line: Line, sqrt: SqrtFn): Point
    requires IsSqrt(sqrt) && line.start != line.end && !OnSegment(center, line)
  {
    var displacement := Scale(BounceNormal(center, line, sqrt), PushLength(center, velocity, radius, line, sqrt));
    Point(center.x - 2.0 * displacement.x, center.y - 2.0 * displacement.y)
  }

  /** The push of a bounce in numbers: |d - 2 len| > r whenever 0 < d < r. */
  lemma PushClears(d: real, r: real, len: real, away: bool)
    requires 0.0 < d < r
    requires len == if away then d + r else d - r
    ensures r < (if d - 2.0 * len < 0.0 then 2.0 * len - d else d - 2.0 * len)
  {
  }

  /** Moving k along a unit vector n covers distance |k|. */
  lemma SqDistAlongUnit(c: Point, p: Point, n: Vec2, k: real)
    requires SqLen(n) == 1.0
    requires c.x - p.x == k * n.x && c.y - p.y == k * n.y
    ensures SqDist(c, p) == Sq(k)
  {
    SqDef(c.x - p.x);
    SqDef(c.y - p.y);
    SqDef(k);
    SqDef(n.x);
    SqDef(n.y);
  }

  /**
   * Seen from the segment's nearest point, the bounced centre lies on the
   * bounce normal, |distance - 2 PushLength| away.
   */
  lemma BouncedDistance(center: Point, velocity: Vec2, radius: real, line: Line, sqrt: SqrtFn)
    requires IsSqrt(sqrt) && line.start != line.end && !OnSegment(center, line)
    ensures var k := CircleDistance(center, line, sqrt) - 2.0 * PushLength(center, velocity, radius, line, sqrt);
            Distance(BouncedCenter(center, velocity, radius, line, sqrt), ClosestPoint(center, line, sqrt), sqrt)
            == if k < 0.0 then -k else k
  {
    var p, n := ClosestPoint(center, line, sqrt), BounceNormal(center, line, sqrt);
    var d, len := CircleDistance(center, line, sqrt), PushLength(center, velocity, radius, line, sqrt);
    var c := BouncedCenter(center, velocity, radius, line, sqrt);
    BounceNormalScales(center, line, sqrt);
    PushedAlong(c, p, center, n, d, len, sqrt);
  }

  /**
   * A point o that is d along the unit vector n from p, pushed back twice
   * len along n, ends up |d - 2 len| away from p.
   */
  lemma PushedAlong(c: Point, p: Point, o: Point, n: Vec2, d: real, len: real, sqrt: SqrtFn)
    requires IsSqrt(sqrt) && SqLen(n) == 1.0
    requires Between(p, o) == Scale(n, d)
    requires c == Point(o.x - 2.0 * Scale(n, len).x, o.y - 2.0 * Scale(n, len).y)
    ensures var k := d - 2.0 * len; Distance(c, p, sqrt) == if k < 0.0 then -k else k
  {
    TakeTwice(o.x - p.x, n.x, d, len);
    TakeTwice(o.y - p.y, n.y, d, len);
    UnitOffsetDistance(c, p, n, d - 2.0 * len, sqrt);
  }

  /**
   * After a bounce off a segment it overlapped, the circle no longer
   * overlaps the point of the segment it hit: an approaching circle is
   * mirrored out to 2 radius - distance, one that had passed through is
   * put back at distance + 2 radius.
   */
  lemma BounceClearsContact(center: Point, velocity: Vec2, radius: real, line: Line, sqrt: SqrtFn)
    requires IsSqrt(sqrt) && line.start != line.end && !OnSegment(center, line)
    requires IsIntersecting(center, radius, line, sqrt)
    ensures radius < Distance(BouncedCenter(center, velocity, radius, line, sqrt), ClosestPoint(center, line, sqrt), sqrt)
  {
    var n := BounceNormal(center, line, sqrt);
    var d, len := CircleDistance(center, line, sqrt), PushLength(center, velocity, radius, line, sqrt);
    BouncedDistance(center, velocity, radius, line, sqrt);
    BounceVectorZero(center, line, sqrt);
    PushClears(d, radius, len, Dot(velocity, n) >= 0.0);
  }

  /** A point k units along a unit vector from p is at distance |k| from p. */
  lemma UnitOffsetDistance(c: Point, p: Point, n: Vec2, k: real, sqrt: SqrtFn)
    requires IsSqrt(sqrt) && SqLen(n) == 1.0
    requires c.x - p.x == k * n.x && c.y - p.y == k * n.y
    ensures Distance(c, p, sqrt) == if k < 0.0 then -k else k
  {
    SqDistAlongUnit(c, p, n, k);
    if k < 0.0 { SqNeg(k); }
    SqrtOf(sqrt, SqDist(c, p), if k < 0.0 then -k else k);
  }

  /**
   * A ball: a circle with a velocity.  The bounce changes it here; the
   * integrator in Physics changes it too.
   */
  class Circle {
    var center: Point
    var radius: real
    var velocity: Vec2

    /** A circle at rest. */
    constructor (x: real, y: real, r: real)
      ensures center == Point(x, y) && radius == r && velocity == ZERO
    {
      center := Point(x, y);
      radius := r;
      velocity := ZERO;
    }

    /**
     * Bounce off a segment: reflect the velocity across the bounce normal
     * and move the centre as BouncedCenter says.  The speed is kept, the
     * normal component of the velocity changes sign and the radius is not
     * touched.  The centre must not lie on the segment: there the bounce
     * normal does not exist (the source divides by zero).
     */
    method BounceCircle(line: Line, sqrt: SqrtFn)
      requires IsSqrt(sqrt) && line.start != line.end && !OnSegment(center, line)
      modifies this
      ensures radius == old(radius)
      ensures center == BouncedCenter(old(center), old(velocity), radius, line, sqrt)
      ensures velocity == Reflect(old(velocity), BounceNormal(old(center), line, sqrt))
    {
      var bounce := BounceVector(center, line, sqrt);
      BounceVectorZero(center, line, sqrt);
      var bounceNormal := ToUnit(bounce, sqrt);
      var dot := Dot(velocity, bounceNormal);

      var len := Magnitude(bounce, sqrt);
      if dot >= 0.0 {
        len := len + radius;
      } else {
        len := len - radius;
      }

      var displacement := Scale(bounceNormal, len);
      center := Point(center.x - 2.0 * displacement.x, center.y - 2.0 * displacement.y);

      ReflectBy(velocity, bounceNormal, dot);
      velocity := Vec2(velocity.x - 2.0 * dot * bounceNormal.x, velocity.y - 2.0 * dot * bounceNormal.y);
    }
  }

  /**
   * Corner k of the octagon drawn round a circle, going clockwise from the
   * top: the four axis points at the radius and four diagonal ones at 0.7071
   * (about 1/sqrt 2) of the radius along each axis.
   */
  function OctagonVertex(center: Point, radius: real, k: int): Point
    requires 0 <= k < 8
  {
    var x, y, r, c := center.x, center.y, radius, 0.7071;
    if k == 0 then Point(x, y + r)
    else if k == 1 then Point(x + r * c, y + r * c)
    else if k == 2 then Point(x + r, y)
    else if k == 3 then Point(x + r * c, y - r * c)
    else if k == 4 then Point(x, y - r)
    else if k == 5 then Point(x - r * c, y - r * c)
    else if k == 6 then Point(x - r, y)
    else Point(x - r * c, y + r * c)
  }

  /**
   * The octagon drawn round a circle as eight segments, segment k from
   * corner k to corner k + 1.  Each segment ends where the next begins and
   * the last ends where the first begins; the first starts at the top.
   */
  function Approx(center: Point, radius: real): (lines: seq<Line>)
    ensures |lines| == 8
    ensures forall k :: 0 <= k < 7 ==> lines[k].end == lines[k + 1].start
    ensures lines[7].end == lines[0].start
    ensures lines[0].start == Point(center.x, center.y + radius)
    ensures lines[2].start == Point(center.x + radius, center.y)
    ensures lines[4].start == Point(center.x, center.y - radius)
    ensures lines[6].start == Point(center.x - radius, center.y)
  {
    seq(8, k requires 0 <= k < 8 => Line(OctagonVertex(center, radius, k), OctagonVertex(center, radius, if k == 7 then 0 else k + 1)))
  }

  /**
   * The octagon is inscribed in its circle: the axis vertices lie on it,
   * the diagonal ones (0.7071 falls just short of 1/sqrt 2) just inside.
   */
  lemma ApproxInscribed(center: Point, radius: real, sqrt: SqrtFn)
    requires IsSqrt(sqrt) && 0.0 <= radius
    ensures forall k :: 0 <= k < 8 && k % 2 == 0 ==> Distance(center, Approx(center, radius)[k].start, sqrt) == radius
    ensures forall k :: 0 <= k < 8 ==> Distance(center, Approx(center, radius)[k].start, sqrt) <= radius
  {
    var ls := Approx(center, radius);
    forall k | 0 <= k < 8
      ensures k % 2 == 0 ==> Distance(center, ls[k].start, sqrt) == radius
      ensures Distance(center, ls[k].start, sqrt) <= radius
    {
      assert ls[k].start == OctagonVertex(center, radius, k);
      VertexInscribed(center, radius, k, sqrt);
    }
  }

  /** Corner k of the octagon is at the radius from the centre when k is even, within it when odd. */
  lemma VertexInscribed(center: Point, radius: real, k: int, sqrt: SqrtFn)
    requires IsSqrt(sqrt) && 0.0 <= radius && 0 <= k < 8
    ensures k % 2 == 0 ==> Distance(center, OctagonVertex(center, radius, k), sqrt) == radius
    ensures Distance(center, OctagonVertex(center, radius, k), sqrt) <= radius
  {
    var p := OctagonVertex(center, radius, k);
    var r := radius;
    var d := r * 0.7071;
    if k == 0 { AxisCorner(center, p, r, 0.0, r, sqrt); }
    else if k == 2 { AxisCorner(center, p, r, r, 0.0, sqrt); }
    else if k == 4 { AxisCorner(center, p, r, 0.0, -r, sqrt); }
    else if k == 6 { AxisCorner(center, p, r, -r, 0.0, sqrt); }
    else if k == 1 { DiagonalCorner(center, p, r, d, d, sqrt); }
    else if k == 3 { DiagonalCorner(center, p, r, d, -d, sqrt); }
    else if k == 5 { DiagonalCorner(center, p, r, -d, -d, sqrt); }
    else { DiagonalCorner(center, p, r, -d, d, sqrt); }
  }

  /** A point offset from c by r along one axis is at distance r from c. */
  lemma AxisCorner(c: Point, p: Point, r: real, dx: real, dy: real, sqrt: SqrtFn)
    requires IsSqrt(sqrt) && 0.0 <= r
    requires (dx == 0.0 && (dy == r || dy == -r)) || (dy == 0.0 && (dx == r || dx == -r))
    requires p.x == c.x + dx && p.y == c.y + dy
    ensures Distance(c, p, sqrt) == r
  {
    SqDef(0.0);
    SqNeg(r);
    OffsetSqDist(c, p, dx, dy);
    assert SqDist(c, p) == Sq(r);
    SqrtOf(sqrt, Sq(r), r);
  }

  /** A point offset from c by 0.7071 r along both axes is within r of c. */
  lemma DiagonalCorner(c: Point, p: Point, r: real, dx: real, dy: real, sqrt: SqrtFn)
    requires IsSqrt(sqrt) && 0.0 <= r
    requires (dx == r * 0.7071 || dx == -(r * 0.7071)) && (dy == r * 0.7071 || dy == -(r * 0.7071))
    requires p.x == c.x + dx && p.y == c.y + dy
    ensures Distance(c, p, sqrt) <= r
  {
    var d := r * 0.7071;
    SqMul(r, 0.7071);
    SqDef(0.7071);
    SqNonneg(r);
    SqNeg(d);
    assert Sq(dx) == Sq(d) && Sq(dy) == Sq(d);
    assert 2.0 * Sq(d) <= Sq(r);
    OffsetSqDist(c, p, dx, dy);
    SqrtOf(sqrt, Sq(r), r);
    SqrtMonotone(sqrt, SqDist(c, p), Sq(r));
  }

  /** The squared distance from c to the point offset from it by (dx, dy). */
  lemma OffsetSqDist(c: Point, p: Point, dx: real, dy: real)
    requires p.x == c.x + dx && p.y == c.y + dy
    ensures SqDist(c, p) == Sq(dx) + Sq(dy)
  {
    assert c.x - p.x == -dx && c.y - p.y == -dy;
    SqNeg(dx);
    SqNeg(dy);
  }

  /** The octagon of a circle of positive radius has no segment of length zero. */
  lemma ApproxProper(center: Point, radius: real)
    requires 0.0 < radius
    ensures Proper(Approx(center, radius))
  {
    var ls := Approx(center, radius);
    assert 0.0 < radius * 0.7071 < radius;
    forall l | l in ls ensures l.start != l.end {
      var k :| 0 <= k < 8 && ls[k] == l;
      assert l.start == OctagonVertex(center, radius, k);
      assert l.end == OctagonVertex(center, radius, if k == 7 then 0 else k + 1);
    }
  }
}
