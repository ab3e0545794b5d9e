/**
 * The ball integrator: one step of gravity (half a kick, a drift, half a
 * kick), then at most one bounce, off the nearest obstacle segment the ball
 * overlaps, after which the speed is rescaled so that the total energy is
 * what it was just before the bounce.
 *
 * Energies are functions of the ball's fields (its velocity, its centre);
 * the operations that change the ball in place are methods on a
 * Geom.Circle.
 */
module Physics {

  import opened Reals
  import opened Geom

  const GRAVITY: real := 0.0025

  /** Half the squared speed; never negative. */
  function KinEnergy(velocity: Vec2): (e: real)
    ensures 0.0 <= e
  {
    SqNonneg(velocity.x);
    SqNonneg(velocity.y);
    (Sq(velocity.x) + Sq(velocity.y)) * 0.5
  }

  /** The potential energy of unit mass at the height of center. */
  function PotEnergy(center: Point): real {
    center.y * GRAVITY
  }

  function Energy(center: Point, velocity: Vec2): real {
    KinEnergy(velocity) + PotEnergy(center)
  }

  /** The potential energy depends on the height alone and grows with it. */
  lemma PotEnergyHeight(a: Point, b: Point)
    ensures PotEnergy(a) <= PotEnergy(b) <==> a.y <= b.y
    ensures PotEnergy(a) == PotEnergy(b) <==> a.y == b.y
  {
  }

  /** The total energy is at least the potential energy, and equals it exactly at rest. */
  lemma EnergyAtRest(center: Point, velocity: Vec2)
    ensures PotEnergy(center) <= Energy(center, velocity)
    ensures Energy(center, velocity) == PotEnergy(center) <==> velocity == ZERO
  {
    SqLenZero(velocity);
  }

  /** Kinetic energy is half the square of the speed, and zero only at rest. */
  lemma KinEnergySpeed(velocity: Vec2, sqrt: SqrtFn)
    requires IsSqrt(sqrt)
    ensures KinEnergy(velocity) == 0.5 * Sq(Magnitude(velocity, sqrt))
    ensures KinEnergy(velocity) == 0.0 <==> velocity == ZERO
  {
    SqLenZero(velocity);
  }

  /** Scaling the velocity by k scales the kinetic energy by k squared. */
  lemma KinEnergyScale(velocity: Vec2, k: real)
    ensures KinEnergy(Scale(velocity, k)) == Sq(k) * KinEnergy(velocity)
  {
    SqLenScale(velocity, k);
  }

  /** A bounce does not change the kinetic energy. */
  lemma KinEnergyReflect(velocity: Vec2, n: Vec2)
    requires SqLen(n) == 1.0
    ensures KinEnergy(Reflect(velocity, n)) == KinEnergy(velocity)
  {
    ReflectSqLen(velocity, n);
  }

  /**
   * The factor by which ScaleVelocity multiplies both components: the square
   * root of the wanted kinetic energy over the present one.  It needs a
   * moving ball (the source divides by the kinetic energy) and a wanted
   * kinetic energy that is not negative (the source takes its square root).
   */
  function Ratio(center: Point, velocity: Vec2, energy: real, sqrt: SqrtFn): real
    requires 0.0 < KinEnergy(velocity)
  {
    var kin := energy - PotEnergy(center);
    sqrt(kin / KinEnergy(velocity))
  }

  /**
   * With that factor the total energy is the one asked for, and the factor
   * is not negative, so the direction of flight is kept.
   */
  lemma RatioRestoresEnergy(center: Point, velocity: Vec2, energy: real, sqrt: SqrtFn)
    requires IsSqrt(sqrt) && 0.0 < KinEnergy(velocity) && 0.0 <= energy - PotEnergy(center)
    ensures 0.0 <= Ratio(center, velocity, energy, sqrt)
    ensures Energy(center, Scale(velocity, Ratio(center, velocity, energy, sqrt))) == energy
  {
    var kin, k := energy - PotEnergy(center), KinEnergy(velocity);
    var q := kin / k;
    assert 0.0 <= q;
    assert q * k == kin;
    KinEnergyScale(velocity, sqrt(q));
  }

  /** Half a kick of gravity: the vertical speed drops by GRAVITY / 2. */
  method HalfApplyGravity(ball: Circle)
    modifies ball
    ensures ball.velocity == Vec2(old(ball.velocity).x, old(ball.velocity).y - GRAVITY / 2.0)
    ensures ball.center == old(ball.center) && ball.radius == old(ball.radius)
  {
    ball.velocity := Vec2(ball.velocity.x, ball.velocity.y - GRAVITY / 2.0);
  }

  /**
   * Rescale the speed so that the total energy becomes `energy`; only the
   * velocity changes, both components by the same factor Ratio.
   */
  method ScaleVelocity(ball: Circle, energy: real, sqrt: SqrtFn)
    requires IsSqrt(sqrt) && 0.0 < KinEnergy(ball.velocity) && 0.0 <= energy - PotEnergy(ball.center)
    modifies ball
    ensures ball.velocity == Scale(old(ball.velocity), Ratio(ball.center, old(ball.velocity), energy, sqrt))
    ensures ball.center == old(ball.center) && ball.radius == old(ball.radius)
    ensures Energy(ball.center, ball.velocity) == energy
  {
    RatioRestoresEnergy(ball.center, ball.velocity, energy, sqrt);
    var kin := energy - PotEnergy(ball.center);
    var ratio := sqrt(kin / KinEnergy(ball.velocity));
    ball.velocity := Vec2(ball.velocity.x * ratio, ball.velocity.y * ratio);
  }

  /** The velocity after the gravity step: the two half kicks. */
  function IntegratedVelocity(velocity: Vec2): Vec2 {
    var half := Vec2(velocity.x, velocity.y - GRAVITY / 2.0);
    Vec2(half.x, half.y - GRAVITY / 2.0)
  }

  /** The centre after the gravity step: it drifts by the velocity after the first half kick. */
  function IntegratedCenter(center: Point, velocity: Vec2): Point {
    var half := Vec2(velocity.x, velocity.y - GRAVITY / 2.0);
    Point(center.x + half.x, center.y + half.y)
  }

  /**
   * Over a whole step the vertical speed drops by exactly GRAVITY, the
   * horizontal speed is kept, and the centre moves by the mean of the old
   * and the new velocity.
   */
  lemma IntegrationStep(center: Point, velocity: Vec2)
    ensures IntegratedVelocity(velocity) == Vec2(velocity.x, velocity.y - GRAVITY)
    ensures var w := IntegratedVelocity(velocity);
            IntegratedCenter(center, velocity)
            == Point(center.x + (velocity.x + w.x) / 2.0, center.y + (velocity.y + w.y) / 2.0)
  {
  }

  /**
   * The gravity step keeps the total energy: the kinetic energy it adds is
   * the potential energy the drop takes away.
   */
  lemma IntegrationKeepsEnergy(center: Point, velocity: Vec2)
    ensures Energy(IntegratedCenter(center, velocity), IntegratedVelocity(velocity)) == Energy(center, velocity)
  {
    IntegrationStep(center, velocity);
    SqSub(velocity.y, GRAVITY);
    SqDef(GRAVITY);
  }

  /** An obstacle segment together with its distance from the ball, the key it is sorted by. */
  datatype Keyed = Keyed(key: real, line: Line)

  ghost predicate SortedByKey(s: seq<Keyed>) {
    forall i, j :: 0 <= i < j < |s| ==> s[i].key <= s[j].key
  }

  /** Each segment paired with its distance from the centre c. */
  function Measure(c: Point, lines: seq<Line>, sqrt: SqrtFn): (ks: seq<Keyed>)
    requires IsSqrt(sqrt) && Proper(lines)
    ensures |ks| == |lines|
    ensures forall i :: 0 <= i < |lines| ==> ks[i] == Keyed(CircleDistance(c, lines[i], sqrt), lines[i])
  {
    if lines == [] then []
    else [Keyed(CircleDistance(c, lines[0], sqrt), lines[0])] + Measure(c, lines[1..], sqrt)
  }

  /**
   * Sort the segments by their distance from the ball, nearest first; the
   * library sort becomes an insertion sort on the keyed segments.
   */
  method SortByKey(a: array<Keyed>)
    modifies a
    ensures SortedByKey(a[..])
    ensures multiset(a[..]) == multiset(old(a[..]))
  {
    var i := 0;
    while i < a.Length
      invariant 0 <= i <= a.Length
      invariant SortedByKey(a[..i])
      invariant multiset(a[..]) == multiset(old(a[..]))
    {
      Insert(a, i);
      i := i + 1;
    }
  }

  /** Move a[i] down into the sorted prefix a[..i], making a[..i + 1] sorted; the rest of a stays. */
  method Insert(a: array<Keyed>, i: int)
    requires 0 <= i < a.Length && SortedByKey(a[..i])
    modifies a
    ensures SortedByKey(a[..i + 1])
    ensures multiset(a[..]) == multiset(old(a[..]))
    ensures a[i + 1..] == old(a[i + 1..])
    ensures multiset(a[..i + 1]) == multiset(old(a[..i + 1]))
  {
    ghost var s0 := a[..];
    var j := i;
    while 0 < j && a[j].key < a[j - 1].key
      invariant 0 <= j <= i && SortedExcept(a[..], i, j)
      invariant multiset(a[..]) == multiset(s0) && a[i + 1..] == s0[i + 1..]
    {
      ghost var before := a[..];
      Swap(a, j);
      SwapStep(before, a[..], i, j);
      j := j - 1;
    }
    InsertedSorted(a[..], i, j);
    PrefixPermutation(a[..], s0, i + 1);
  }

  /** s[..i + 1] is sorted except that s[j] may be out of place. */
  ghost predicate SortedExcept(s: seq<Keyed>, i: int, j: int)
    requires 0 <= j <= i < |s|
  {
    forall p, q :: 0 <= p < q <= i && q != j ==> s[p].key <= s[q].key
  }

  /** Exchanging an out-of-place s[j] with its larger-keyed left neighbour moves the out-of-place element one place left. */
  lemma SwapStep(s: seq<Keyed>, t: seq<Keyed>, i: int, j: int)
    requires 0 < j <= i < |s| && SortedExcept(s, i, j) && s[j].key < s[j - 1].key
    requires t == s[j - 1 := s[j]][j := s[j - 1]]
    ensures SortedExcept(t, i, j - 1)
    ensures multiset(t) == multiset(s) && t[i + 1..] == s[i + 1..]
  {
  }

  /** Once s[j] is no smaller than its left neighbour, the whole prefix is sorted. */
  lemma InsertedSorted(s: seq<Keyed>, i: int, j: int)
    requires 0 <= j <= i < |s| && SortedExcept(s, i, j)
    requires j == 0 || s[j - 1].key <= s[j].key
    ensures SortedByKey(s[..i + 1])
  {
    forall p | 0 <= p < j - 1 ensures s[p].key <= s[j].key {
      assert s[p].key <= s[j - 1].key;
    }
  }

  /** Exchange a[j - 1] and a[j]. */
  method Swap(a: array<Keyed>, j: int)
    requires 0 < j < a.Length
    modifies a
    ensures a[..] == old(a[..])[j - 1 := old(a[j])][j := old(a[j - 1])]
  {
    a[j - 1], a[j] := a[j], a[j - 1];
  }

  /** Two permutations of each other that agree from k on are permutations of each other before k. */
  lemma PrefixPermutation(s: seq<Keyed>, t: seq<Keyed>, k: int)
    requires 0 <= k <= |s| == |t| && multiset(s) == multiset(t) && s[k..] == t[k..]
    ensures multiset(s[..k]) == multiset(t[..k])
  {
    assert s == s[..k] + s[k..];
    assert t == t[..k] + t[k..];
    assert multiset(s[..k]) == multiset(s) - multiset(s[k..]);
    assert multiset(t[..k]) == multiset(t) - multiset(t[k..]);
  }


  /** l is a segment of lines that no other segment of lines is nearer to c than. */
  ghost predicate Nearest(c: Point, l: Line, lines: seq<Line>, sqrt: SqrtFn)
    requires IsSqrt(sqrt) && Proper(lines)
  {
    l in lines && forall m :: m in lines ==> CircleDistance(c, l, sqrt) <= CircleDistance(c, m, sqrt)
  }

  /**
   * The ball at centre c with velocity v can bounce off l and have its speed
   * rescaled: its centre is off the segment (so the bounce normal exists),
   * it moves, and the energy to restore covers the potential energy at the
   * bounced centre.
   */
  ghost predicate Bounceable(c: Point, v: Vec2, r: real, l: Line, sqrt: SqrtFn)
    requires IsSqrt(sqrt) && l.start != l.end
  {
    !OnSegment(c, l) && 0.0 < KinEnergy(v)
    && 0.0 <= Energy(c, v) - PotEnergy(BouncedCenter(c, v, r, l, sqrt))
  }

  /** The velocity after bouncing off l and restoring the energy the ball had before. */
  function BouncedVelocity(c: Point, v: Vec2, r: real, l: Line, sqrt: SqrtFn): Vec2
    requires IsSqrt(sqrt) && l.start != l.end && !OnSegment(c, l)
    requires 0.0 < KinEnergy(v)
  {
    var n := BounceNormal(c, l, sqrt);
    KinEnergyReflect(v, n);
    var w := Reflect(v, n);
    Scale(w, Ratio(BouncedCenter(c, v, r, l, sqrt), w, Energy(c, v), sqrt))
  }

  /**
   * A bounce followed by the rescaling keeps the total energy, and keeps
   * the ball moving the way the reflection sent it.
   */
  lemma BounceKeepsEnergy(c: Point, v: Vec2, r: real, l: Line, sqrt: SqrtFn)
    requires IsSqrt(sqrt) && l.start != l.end && Bounceable(c, v, r, l, sqrt)
    ensures Energy(BouncedCenter(c, v, r, l, sqrt), BouncedVelocity(c, v, r, l, sqrt)) == Energy(c, v)
  {
    var n := BounceNormal(c, l, sqrt);
    KinEnergyReflect(v, n);
    RatioRestoresEnergy(BouncedCenter(c, v, r, l, sqrt), Reflect(v, n), Energy(c, v), sqrt);
  }

  /**
   * What one tick does to a ball that after the gravity step is at c with
   * velocity v: if it overlaps no segment it stays (c2 = c, v2 = v);
   * otherwise it has bounced off a nearest segment it overlaps and had its
   * energy restored.
   */
  ghost predicate Outcome(c: Point, v: Vec2, r: real, lines: seq<Line>, c2: Point, v2: Vec2, sqrt: SqrtFn)
    requires IsSqrt(sqrt) && Proper(lines)
  {
    if exists l :: l in lines && IsIntersecting(c, r, l, sqrt) then
      exists l :: l in lines && IsIntersecting(c, r, l, sqrt) && Nearest(c, l, lines, sqrt)
                  && Bounceable(c, v, r, l, sqrt)
                  && c2 == BouncedCenter(c, v, r, l, sqrt) && v2 == BouncedVelocity(c, v, r, l, sqrt)
    else
      c2 == c && v2 == v
  }

  /** Whatever the tick does, it keeps the energy the ball had after the gravity step. */
  lemma OutcomeKeepsEnergy(c: Point, v: Vec2, r: real, lines: seq<Line>, c2: Point, v2: Vec2, sqrt: SqrtFn)
    requires IsSqrt(sqrt) && Proper(lines) && Outcome(c, v, r, lines, c2, v2, sqrt)
    ensures Energy(c2, v2) == Energy(c, v)
  {
    if exists l :: l in lines && IsIntersecting(c, r, l, sqrt) {
      var l :| l in lines && IsIntersecting(c, r, l, sqrt) && Nearest(c, l, lines, sqrt)
               && Bounceable(c, v, r, l, sqrt)
               && c2 == BouncedCenter(c, v, r, l, sqrt) && v2 == BouncedVelocity(c, v, r, l, sqrt);
      BounceKeepsEnergy(c, v, r, l, sqrt);
    }
  }

  /**
   * A whole step keeps the total energy: the gravity step keeps it, and a
   * bounce restores what it was after the gravity step.
   */
  lemma StepKeepsEnergy(c: Point, v: Vec2, r: real, lines: seq<Line>, c2: Point, v2: Vec2, sqrt: SqrtFn)
    requires IsSqrt(sqrt) && Proper(lines)
    requires Outcome(IntegratedCenter(c, v), IntegratedVelocity(v), r, lines, c2, v2, sqrt)
    ensures Energy(c2, v2) == Energy(c, v)
  {
    OutcomeKeepsEnergy(IntegratedCenter(c, v), IntegratedVelocity(v), r, lines, c2, v2, sqrt);
    IntegrationKeepsEnergy(c, v);
  }

  /** A rearrangement of the measured segments still pairs each segment of lines with its distance. */
  lemma KeyedMembers(c: Point, lines: seq<Line>, s: seq<Keyed>, sqrt: SqrtFn)
    requires IsSqrt(sqrt) && Proper(lines) && multiset(s) == multiset(Measure(c, lines, sqrt))
    ensures forall k :: 0 <= k < |s| ==> s[k].line in lines && s[k].key == CircleDistance(c, s[k].line, sqrt)
    ensures forall l :: l in lines ==> exists k :: 0 <= k < |s| && s[k].line == l
  {
    var ks := Measure(c, lines, sqrt);
    forall k | 0 <= k < |s|
      ensures s[k].line in lines && s[k].key == CircleDistance(c, s[k].line, sqrt)
    {
      assert s[k] in multiset(ks);
      var m :| 0 <= m < |ks| && ks[m] == s[k];
    }
    forall l | l in lines
      ensures exists k :: 0 <= k < |s| && s[k].line == l
    {
      var m :| 0 <= m < |lines| && lines[m] == l;
      assert ks[m] in multiset(s);
      var k :| 0 <= k < |s| && s[k] == ks[m];
    }
  }

  /**
   * In the sorted measured segments, the first one the ball overlaps is
   * nearest of all.
   */
  lemma FirstOverlapIsNearest(c: Point, r: real, lines: seq<Line>, s: seq<Keyed>, i: int, sqrt: SqrtFn)
    requires IsSqrt(sqrt) && Proper(lines)
    requires SortedByKey(s) && 0 <= i < |s|
    requires forall k :: 0 <= k < |s| ==> s[k].line in lines && s[k].key == CircleDistance(c, s[k].line, sqrt)
    requires forall l :: l in lines ==> exists k :: 0 <= k < |s| && s[k].line == l
    requires forall k :: 0 <= k < i ==> !IsIntersecting(c, r, s[k].line, sqrt)
    requires IsIntersecting(c, r, s[i].line, sqrt)
    ensures Nearest(c, s[i].line, lines, sqrt)
  {
    forall m | m in lines
      ensures CircleDistance(c, s[i].line, sqrt) <= CircleDistance(c, m, sqrt)
    {
      var k :| 0 <= k < |s| && s[k].line == m;
      if k < i {
        assert false;
      } else {
        assert s[i].key <= s[k].key;
      }
    }
  }

  /** When the tick bounces off the i-th sorted segment, the bounce is possible and its result is the Outcome. */
  lemma BounceOutcome(c: Point, v: Vec2, r: real, lines: seq<Line>, s: seq<Keyed>, i: int, sqrt: SqrtFn)
    requires IsSqrt(sqrt) && Proper(lines) && multiset(s) == multiset(Measure(c, lines, sqrt))
    requires SortedByKey(s) && 0 <= i < |s|
    requires forall k :: 0 <= k < |s| ==> s[k].line in lines
    requires forall k :: 0 <= k < i ==> !IsIntersecting(c, r, s[k].line, sqrt)
    requires IsIntersecting(c, r, s[i].line, sqrt)
    requires forall l :: l in lines && IsIntersecting(c, r, l, sqrt) && Nearest(c, l, lines, sqrt)
                         ==> Bounceable(c, v, r, l, sqrt)
    ensures Bounceable(c, v, r, s[i].line, sqrt)
    ensures Outcome(c, v, r, lines, BouncedCenter(c, v, r, s[i].line, sqrt), BouncedVelocity(c, v, r, s[i].line, sqrt), sqrt)
  {
    KeyedMembers(c, lines, s, sqrt);
    FirstOverlapIsNearest(c, r, lines, s, i, sqrt);
  }

  /** When the tick finds no overlapping segment, the Outcome is to stay. */
  lemma StayOutcome(c: Point, v: Vec2, r: real, lines: seq<Line>, s: seq<Keyed>, sqrt: SqrtFn)
    requires IsSqrt(sqrt) && Proper(lines) && multiset(s) == multiset(Measure(c, lines, sqrt))
    requires forall k :: 0 <= k < |s| ==> s[k].line in lines
    requires forall k :: 0 <= k < |s| ==> !IsIntersecting(c, r, s[k].line, sqrt)
    ensures Outcome(c, v, r, lines, c, v, sqrt)
  {
    KeyedMembers(c, lines, s, sqrt);
    forall l | l in lines ensures !IsIntersecting(c, r, l, sqrt) {
      var k :| 0 <= k < |s| && s[k].line == l;
    }
  }

  /**
   * A ball at center with velocity can bounce, after the gravity step, off
   * every nearest segment it then overlaps (see Bounceable).
   */
  ghost predicate CanBounce(center: Point, velocity: Vec2, radius: real, lines: seq<Line>, sqrt: SqrtFn)
    requires IsSqrt(sqrt) && Proper(lines)
  {
    var c, v := IntegratedCenter(center, velocity), IntegratedVelocity(velocity);
    forall l :: l in lines && IsIntersecting(c, radius, l, sqrt) && Nearest(c, l, lines, sqrt)
                ==> Bounceable(c, v, radius, l, sqrt)
  }

  /** The segments paired with their distances from c, in a new array sorted nearest first. */
  method SortedByDistance(c: Point, lines: seq<Line>, sqrt: SqrtFn) returns (particles: array<Keyed>)
    requires IsSqrt(sqrt) && Proper(lines)
    ensures fresh(particles)
    ensures SortedByKey(particles[..]) && multiset(particles[..]) == multiset(Measure(c, lines, sqrt))
  {
    var keyed := Measure(c, lines, sqrt);
    particles := new Keyed[|keyed|](k requires 0 <= k < |keyed| => keyed[k]);
    assert particles[..] == keyed;
    SortByKey(particles);
  }

  /** The gravity step of a tick: half a kick, the drift, the other half of the kick. */
  method Integrate(ball: Circle)
    modifies ball
    ensures ball.center == IntegratedCenter(old(ball.center), old(ball.velocity))
    ensures ball.velocity == IntegratedVelocity(old(ball.velocity))
    ensures ball.radius == old(ball.radius)
  {
    HalfApplyGravity(ball);
    ball.center := Point(ball.center.x + ball.velocity.x, ball.center.y + ball.velocity.y);
    HalfApplyGravity(ball);
  }

  /** The bounce of a tick: capture the energy, bounce off l, restore the energy. */
  method Rebound(ball: Circle, l: Line, sqrt: SqrtFn)
    requires IsSqrt(sqrt) && l.start != l.end && Bounceable(ball.center, ball.velocity, ball.radius, l, sqrt)
    modifies ball
    ensures ball.center == BouncedCenter(old(ball.center), old(ball.velocity), old(ball.radius), l, sqrt)
    ensures ball.velocity == BouncedVelocity(old(ball.center), old(ball.velocity), old(ball.radius), l, sqrt)
    ensures ball.radius == old(ball.radius)
  {
    var energy := Energy(ball.center, ball.velocity);
    KinEnergyReflect(ball.velocity, BounceNormal(ball.center, l, sqrt));
    ball.BounceCircle(l, sqrt);
    ScaleVelocity(ball, energy, sqrt);
  }

  /**
   * The scan of the sorted segments: the index of the first one a ball at c
   * of radius r overlaps, or the length of the array when it overlaps none.
   */
  method FirstOverlap(c: Point, r: real, particles: array<Keyed>, sqrt: SqrtFn) returns (i: int)
    requires IsSqrt(sqrt) && forall k :: 0 <= k < particles.Length ==> particles[k].line.start != particles[k].line.end
    ensures 0 <= i <= particles.Length
    ensures forall k :: 0 <= k < i ==> !IsIntersecting(c, r, particles[k].line, sqrt)
    ensures i < particles.Length ==> IsIntersecting(c, r, particles[i].line, sqrt)
  {
    i := 0;
    while i < particles.Length
      invariant 0 <= i <= particles.Length
      invariant forall k :: 0 <= k < i ==> !IsIntersecting(c, r, particles[k].line, sqrt)
    {
      if IsIntersecting(c, r, particles[i].line, sqrt) {
        return;
      }
      i := i + 1;
    }
  }

  /**
   * One tick of the ball among the obstacle segments `lines`: the gravity
   * step, then, going through the segments nearest first, a bounce off the
   * first one the ball overlaps, with the speed rescaled to the energy the
   * ball had just before the bounce; then the loop stops.  The bounce
   * happens at most once.  The segment bounced off is a nearest one.
   *
   * Requires: no segment of length zero, and a bounce off any nearest
   * overlapping segment possible (see Bounceable).
   */
  method Apply(ball: Circle, lines: seq<Line>, sqrt: SqrtFn)
    requires IsSqrt(sqrt) && Proper(lines) && CanBounce(ball.center, ball.velocity, ball.radius, lines, sqrt)
    modifies ball
    ensures ball.radius == old(ball.radius)
    ensures var c, v := IntegratedCenter(old(ball.center), old(ball.velocity)), IntegratedVelocity(old(ball.velocity));
            Outcome(c, v, ball.radius, lines, ball.center, ball.velocity, sqrt)
    ensures Energy(ball.center, ball.velocity) == Energy(old(ball.center), old(ball.velocity))
  {
    ghost var c0, v0 := ball.center, ball.velocity;
    Integrate(ball);
    var c, v, r := ball.center, ball.velocity, ball.radius;
    var particles := SortedByDistance(c, lines, sqrt);
    ghost var s := particles[..];
    KeyedMembers(c, lines, s, sqrt);
    var i := FirstOverlap(c, r, particles, sqrt);
    if i < particles.Length {
      BounceOutcome(c, v, r, lines, s, i, sqrt);
      Rebound(ball, particles[i].line, sqrt);
    } else {
      StayOutcome(c, v, r, lines, s, sqrt);
    }
    StepKeepsEnergy(c0, v0, r, lines, ball.center, ball.velocity, sqrt);
  }
}
