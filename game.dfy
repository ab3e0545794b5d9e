/**
 * The world of the game: the player and the opponent, each a blob that
 * stands on the floor of its half of the court, and the ball.  A tick turns
 * the held keys into the player's speed, moves the player within its half
 * of the court, rebuilds the list of obstacle segments (the court's
 * boundary, the net and the octagons round the two blobs) and lets the
 * ball integrator move the ball among them.
 *
 * The held keys are three booleans (left, right, up).  A player's
 * two-element arrays of reals (its velocity and each force) are Vec2 values,
 * element 0 being x and element 1 being y.
 */
module Game {

  import opened Geom
  import opened Physics

  /** Height of the feet of a blob standing on the floor. */
  const GROUND: real := -0.8
  /** The player's half of the court, as the range of its x coordinate. */
  const LEFT_LIMIT: real := -0.87
  const RIGHT_LIMIT: real := -0.14
  /** The vertical speed a jump starts with. */
  const JUMP_SPEED: real := 0.06
  /** The horizontal speed a held arrow key gives. */
  const WALK_SPEED: real := 0.02
  /** The one force every blob starts with: its weight. */
  const WEIGHT: Vec2 := Vec2(0.0, -0.0025)
  const BODY_RADIUS: real := 0.13
  const HEAD_RADIUS: real := 0.1
  /** How far above the centre of a blob's body the centre of its head is. */
  const HEAD_HEIGHT: real := 0.13

  function Abs(a: real): (r: real)
    ensures 0.0 <= r && (r == a || r == -a)
  {
    if a < 0.0 then -a else a
  }

  function Max(a: real, b: real): (m: real)
    ensures a <= m && b <= m && (m == a || m == b)
  {
    if a < b then b else a
  }

  function Min(a: real, b: real): (m: real)
    ensures m <= a && m <= b && (m == a || m == b)
  {
    if b < a then b else a
  }

  /** A blob is on the ground when its height is within 0.001 of the floor's. */
  function OnGround(y: real): (b: bool)
    ensures b <==> GROUND - 0.001 < y < GROUND + 0.001
  {
    Abs(y - GROUND) < 0.001
  }

  /** Where the player's x coordinate ends up: pushed into its half of the court. */
  function HorizontalLimit(x: real): (r: real)
    ensures LEFT_LIMIT <= r <= RIGHT_LIMIT
    ensures LEFT_LIMIT <= x <= RIGHT_LIMIT ==> r == x
    ensures x < LEFT_LIMIT ==> r == LEFT_LIMIT
    ensures RIGHT_LIMIT < x ==> r == RIGHT_LIMIT
  {
    Min(Max(x, LEFT_LIMIT), RIGHT_LIMIT)
  }

  /** Where the player's y coordinate ends up: never below the floor. */
  function VerticalLimit(y: real): (r: real)
    ensures GROUND <= r
    ensures GROUND <= y ==> r == y
    ensures y < GROUND ==> r == GROUND
  {
    Max(y, GROUND)
  }

  /** The sum of a list of forces, added up from the first. */
  function Total(forces: seq<Vec2>): Vec2
    decreases |forces|
  {
    if forces == [] then ZERO
    else
      var rest := Total(forces[..|forces| - 1]);
      var last := forces[|forces| - 1];
      Vec2(rest.x + last.x, rest.y + last.y)
  }

  /** The sum of two lists of forces one after the other is the sum of their sums. */
  lemma {:induction false} TotalConcat(a: seq<Vec2>, b: seq<Vec2>)
    ensures Total(a + b) == Vec2(Total(a).x + Total(b).x, Total(a).y + Total(b).y)
    decreases |b|
  {
    if b == [] {
      assert a + b == a;
    } else {
      var b' := b[..|b| - 1];
      assert (a + b)[..|a + b| - 1] == a + b';
      TotalConcat(a, b');
    }
  }

  /** The sum of a single force is that force. */
  lemma TotalSingle(f: Vec2)
    ensures Total([f]) == f
  {
    assert [f][..0] == [];
  }

  /** The horizontal direction the held keys ask for: right minus left. */
  function Horiz(left: bool, right: bool): (h: int)
    ensures -1 <= h <= 1
    ensures h == 1 <==> right && !left
    ensures h == -1 <==> left && !right
    ensures h == 0 <==> left == right
  {
    (if right then 1 else 0) - (if left then 1 else 0)
  }

  /**
   * The velocity the player's controls give: vHoriz plus the forces
   * horizontally, the old vertical speed plus the forces vertically, unless
   * a jump starts from the ground.
   */
  function Steered(velocity: Vec2, forces: seq<Vec2>, y: real, vHoriz: real, jmp: bool): Vec2 {
    var total := Total(forces);
    Vec2(vHoriz + total.x, if OnGround(y) && jmp then JUMP_SPEED else velocity.y + total.y)
  }

  /**
   * A player whose only force is its weight, as a new player is, gets
   * exactly vHoriz horizontally and, unless it jumps from the ground, falls
   * 0.0025 faster.
   */
  lemma SteeredByWeight(velocity: Vec2, y: real, vHoriz: real, jmp: bool)
    ensures Steered(velocity, [WEIGHT], y, vHoriz, jmp).x == vHoriz
    ensures !(OnGround(y) && jmp) ==> Steered(velocity, [WEIGHT], y, vHoriz, jmp).y == velocity.y - 0.0025
    ensures OnGround(y) && jmp ==> Steered(velocity, [WEIGHT], y, vHoriz, jmp).y == JUMP_SPEED
  {
    TotalSingle(WEIGHT);
  }

  /** One more force f adds f to the steered velocity, except to a jump from the ground. */
  lemma SteeredExtraForce(velocity: Vec2, forces: seq<Vec2>, f: Vec2, y: real, vHoriz: real, jmp: bool)
    ensures Steered(velocity, forces + [f], y, vHoriz, jmp).x == Steered(velocity, forces, y, vHoriz, jmp).x + f.x
    ensures !(OnGround(y) && jmp) ==>
              Steered(velocity, forces + [f], y, vHoriz, jmp).y == Steered(velocity, forces, y, vHoriz, jmp).y + f.y
  {
    TotalConcat(forces, [f]);
    TotalSingle(f);
  }

  /** Where a player at p moves with velocity v: within its half of the court and above the floor. */
  function Moved(p: Point, v: Vec2): Point {
    Point(HorizontalLimit(p.x + v.x), VerticalLimit(p.y + v.y))
  }

  /** The centre of the head of a blob whose body is centred at p. */
  function Head(p: Point): Point {
    Point(p.x, p.y + HEAD_HEIGHT)
  }

  /** The floor, the two side walls and the three edges of the net. */
  const BOUNDARY: seq<Line> := [
    Line.New(-1.0, -0.93, 1.0, -0.93),
    Line.New(-1.0, -1.0, -1.0, 10000.0),
    Line.New(1.0, -1.0, 1.0, 10000.0),
    Line.New(-0.01, -1.0, -0.01, -0.25),
    Line.New(0.01, -1.0, 0.01, -0.25),
    Line.New(-0.01, -0.25, 0.01, -0.25)
  ]

  /** A round part of a blob, as the circle its octagon is drawn round. */
  datatype Disc = Disc(center: Point, radius: real)

  /** The discs of the two blobs: the player's body and head, then the opponent's. */
  function Blobs(pl: Point, op: Point): (ds: seq<Disc>)
    ensures |ds| == 4 && forall k :: 0 <= k < 4 ==> 0.0 < ds[k].radius
  {
    [Disc(pl, BODY_RADIUS), Disc(Head(pl), HEAD_RADIUS), Disc(op, BODY_RADIUS), Disc(Head(op), HEAD_RADIUS)]
  }

  /** The octagons of the discs one after the other; none has a segment of length zero. */
  function Octagons(ds: seq<Disc>): (ls: seq<Line>)
    requires forall k :: 0 <= k < |ds| ==> 0.0 < ds[k].radius
    ensures |ls| == 8 * |ds| && Proper(ls)
  {
    if ds == [] then []
    else
      var first, rest := Approx(ds[0].center, ds[0].radius), Octagons(ds[1..]);
      ApproxProper(ds[0].center, ds[0].radius);
      ProperConcat(first, rest);
      first + rest
  }

  lemma ProperConcat(a: seq<Line>, b: seq<Line>)
    requires Proper(a) && Proper(b)
    ensures Proper(a + b)
  {
    forall l | l in a + b ensures l.start != l.end {
      assert l in a || l in b;
    }
  }

  /** The k-th octagon takes up the segments 8k to 8k + 7. */
  lemma {:induction false} OctagonsLayout(ds: seq<Disc>)
    requires forall k :: 0 <= k < |ds| ==> 0.0 < ds[k].radius
    ensures forall k :: 0 <= k < |ds| ==> Octagons(ds)[8 * k..8 * k + 8] == Approx(ds[k].center, ds[k].radius)
    decreases |ds|
  {
    if ds != [] {
      var ls, rest := Octagons(ds), Octagons(ds[1..]);
      OctagonsLayout(ds[1..]);
      forall k | 0 <= k < |ds| ensures ls[8 * k..8 * k + 8] == Approx(ds[k].center, ds[k].radius) {
        if k == 0 {
          assert ls[..8] == Approx(ds[0].center, ds[0].radius);
        } else {
          assert ls[8 * k..8 * k + 8] == rest[8 * (k - 1)..8 * (k - 1) + 8];
          assert ds[1..][k - 1] == ds[k];
        }
      }
    }
  }

  /**
   * The obstacles of a tick with the player's body at pl and the opponent's
   * at op: the six boundary segments, then the octagons of the player's
   * body and head and of the opponent's body and head (ObstaclesLayout),
   * 38 segments in all, none of length zero.
   */
  function Obstacles(pl: Point, op: Point): (ls: seq<Line>)
    ensures |ls| == 38 && Proper(ls)
  {
    BoundaryProper();
    ProperConcat(BOUNDARY, Octagons(Blobs(pl, op)));
    BOUNDARY + Octagons(Blobs(pl, op))
  }

  lemma BoundaryProper()
    ensures Proper(BOUNDARY)
  {
    forall l | l in BOUNDARY ensures l.start != l.end {
      var k :| 0 <= k < 6 && BOUNDARY[k] == l;
    }
  }

  /**
   * The obstacle list starts with the boundary, and its segments 6 + 8k to
   * 13 + 8k are the octagon round the k-th disc of the blobs.
   */
  lemma ObstaclesLayout(pl: Point, op: Point)
    ensures var ls, ds := Obstacles(pl, op), Blobs(pl, op);
            ls[..6] == BOUNDARY
            && forall k :: 0 <= k < 4 ==> ls[6 + 8 * k..14 + 8 * k] == Approx(ds[k].center, ds[k].radius)
  {
    var ls, ds := Obstacles(pl, op), Blobs(pl, op);
    var os := Octagons(ds);
    OctagonsLayout(ds);
    assert ls[..6] == BOUNDARY;
    forall k | 0 <= k < 4 ensures ls[6 + 8 * k..14 + 8 * k] == Approx(ds[k].center, ds[k].radius) {
      assert ls[6 + 8 * k..14 + 8 * k] == os[8 * k..8 * k + 8];
    }
  }

  /**
   * Every corner of a blob's octagons lies within the circle it stands for:
   * the body's within BODY_RADIUS of pl, the head's within HEAD_RADIUS of
   * the head's centre, for the player and for the opponent.
   */
  lemma ObstaclesInscribed(pl: Point, op: Point, sqrt: SqrtFn)
    requires IsSqrt(sqrt)
    ensures var ls := Obstacles(pl, op);
            (forall i :: 6 <= i < 14 ==> Distance(pl, ls[i].start, sqrt) <= BODY_RADIUS)
            && (forall i :: 14 <= i < 22 ==> Distance(Head(pl), ls[i].start, sqrt) <= HEAD_RADIUS)
            && (forall i :: 22 <= i < 30 ==> Distance(op, ls[i].start, sqrt) <= BODY_RADIUS)
            && (forall i :: 30 <= i < 38 ==> Distance(Head(op), ls[i].start, sqrt) <= HEAD_RADIUS)
  {
    var ls, ds := Obstacles(pl, op), Blobs(pl, op);
    ObstaclesLayout(pl, op);
    assert ls[6..14] == Approx(pl, BODY_RADIUS) by { assert ds[0] == Disc(pl, BODY_RADIUS); }
    assert ls[14..22] == Approx(Head(pl), HEAD_RADIUS) by { assert ds[1] == Disc(Head(pl), HEAD_RADIUS); }
    assert ls[22..30] == Approx(op, BODY_RADIUS) by { assert ds[2] == Disc(op, BODY_RADIUS); }
    assert ls[30..38] == Approx(Head(op), HEAD_RADIUS) by { assert ds[3] == Disc(Head(op), HEAD_RADIUS); }
    BlockInscribed(ls, 6, pl, BODY_RADIUS, sqrt);
    BlockInscribed(ls, 14, Head(pl), HEAD_RADIUS, sqrt);
    BlockInscribed(ls, 22, op, BODY_RADIUS, sqrt);
    BlockInscribed(ls, 30, Head(op), HEAD_RADIUS, sqrt);
  }

  /** The corners of an octagon placed at index from in ls lie within its circle. */
  lemma BlockInscribed(ls: seq<Line>, from: nat, c: Point, r: real, sqrt: SqrtFn)
    requires IsSqrt(sqrt) && 0.0 <= r && from + 8 <= |ls| && ls[from..from + 8] == Approx(c, r)
    ensures forall k :: from <= k < from + 8 ==> Distance(c, ls[k].start, sqrt) <= r
  {
    ApproxInscribed(c, r, sqrt);
    forall k | from <= k < from + 8 ensures Distance(c, ls[k].start, sqrt) <= r {
      assert ls[k] == Approx(c, r)[k - from];
    }
  }

  /** The octagons of a non-empty list of discs: the first disc's, then the rest's. */
  lemma OctagonsStep(ds: seq<Disc>)
    requires ds != [] && forall k :: 0 <= k < |ds| ==> 0.0 < ds[k].radius
    ensures Octagons(ds) == Approx(ds[0].center, ds[0].radius) + Octagons(ds[1..])
  {
  }

  /** The octagons of four discs are theirs in turn. */
  lemma OctagonsOfFour(a: Disc, b: Disc, c: Disc, d: Disc)
    requires 0.0 < a.radius && 0.0 < b.radius && 0.0 < c.radius && 0.0 < d.radius
    ensures Octagons([a, b, c, d])
            == Approx(a.center, a.radius) + Approx(b.center, b.radius)
               + Approx(c.center, c.radius) + Approx(d.center, d.radius)
  {
    OctagonsStep([a, b, c, d]);
    assert [a, b, c, d][1..] == [b, c, d];
    OctagonsStep([b, c, d]);
    assert [b, c, d][1..] == [c, d];
    OctagonsStep([c, d]);
    assert [c, d][1..] == [d];
    OctagonsStep([d]);
    assert [d][1..] == [];
  }

  /** A blob: the position of the centre of its body, its velocity and the forces acting on it. */
  class Player {
    var x: real
    var y: real
    var forces: seq<Vec2>
    var velocity: Vec2

    /** A blob at rest at (x0, y0), pulled only by its weight. */
    constructor (x0: real, y0: real)
      ensures x == x0 && y == y0 && forces == [WEIGHT] && velocity == ZERO
    {
      x := x0;
      y := y0;
      forces := [WEIGHT];
      velocity := ZERO;
    }

    /**
     * Set the velocity from the controls: the horizontal speed is vHoriz
     * plus the forces (it is overwritten, not accumulated), the vertical
     * speed grows by the forces, and a jump from the ground replaces it by
     * JUMP_SPEED.  Position and forces are kept.
     */
    method CalcVelocity(vHoriz: real, jmp: bool)
      modifies this
      ensures velocity.x == vHoriz + Total(forces).x
      ensures velocity.y == if OnGround(y) && jmp then JUMP_SPEED else old(velocity).y + Total(forces).y
      ensures velocity == Steered(old(velocity), forces, y, vHoriz, jmp)
      ensures x == old(x) && y == old(y) && forces == old(forces)
    {
      velocity := Vec2(vHoriz, velocity.y);
      for i := 0 to |forces|
        invariant x == old(x) && y == old(y) && forces == old(forces)
        invariant velocity == Vec2(vHoriz + Total(forces[..i]).x, old(velocity).y + Total(forces[..i]).y)
      {
        assert forces[..i + 1][..i] == forces[..i];
        velocity := Vec2(velocity.x + forces[i].x, velocity.y + forces[i].y);
      }
      assert forces[..|forces|] == forces;
      if OnGround(y) && jmp {
        velocity := Vec2(velocity.x, JUMP_SPEED);
      }
    }

    /**
     * Move by the velocity, then push the blob back into its half of the
     * court and up onto the floor.  Velocity and forces are kept.
     */
    method ApplyPhysics()
      modifies this
      ensures x == HorizontalLimit(old(x) + velocity.x) && y == VerticalLimit(old(y) + velocity.y)
      ensures Point(x, y) == Moved(Point(old(x), old(y)), velocity)
      ensures LEFT_LIMIT <= x <= RIGHT_LIMIT && GROUND <= y
      ensures velocity == old(velocity) && forces == old(forces)
    {
      x := x + velocity.x;
      x := Max(x, LEFT_LIMIT);
      x := Min(x, RIGHT_LIMIT);

      y := y + velocity.y;
      y := Max(y, GROUND);
    }
  }

  /** The ball: a circle of radius 0.1, thrown up and to the right. */
  class Ball {
    var circle: Circle

    constructor (x: real, y: real)
      ensures fresh(circle)
      ensures circle.center == Point(x, y) && circle.radius == 0.1 && circle.velocity == Vec2(0.05, 0.04)
    {
      var c := new Circle(x, y, 0.1);
      c.velocity := Vec2(0.05, 0.04);
      circle := c;
    }
  }

  class World {
    var player: Player
    var opponent: Player
    var ball: Ball

    /** The player and the opponent are two blobs. */
    ghost predicate Valid()
      reads this
    {
      player != opponent
    }

    /** The player and the opponent on the floor either side of the net, the ball above the player. */
    constructor ()
      ensures Valid() && fresh(player) && fresh(opponent) && fresh(ball) && fresh(ball.circle)
      ensures player.x == -0.5 && player.y == GROUND && player.forces == [WEIGHT] && player.velocity == ZERO
      ensures opponent.x == 0.5 && opponent.y == GROUND && opponent.forces == [WEIGHT] && opponent.velocity == ZERO
      ensures ball.circle.center == Point(-0.5, -0.3) && ball.circle.radius == 0.1
      ensures ball.circle.velocity == Vec2(0.05, 0.04)
    {
      player := new Player(-0.5, GROUND);
      opponent := new Player(0.5, GROUND);
      ball := new Ball(-0.5, -0.3);
    }

    /** The obstacle segments of this tick, from where the two blobs stand now. */
    method GetParticles() returns (result: seq<Line>)
      ensures result == Obstacles(Point(player.x, player.y), Point(opponent.x, opponent.y))
    {
      result := BOUNDARY;

      var aBody := Point(player.x, player.y);
      var aHead := Point(player.x, player.y + HEAD_HEIGHT);
      var bBody := Point(opponent.x, opponent.y);
      var bHead := Point(opponent.x, opponent.y + HEAD_HEIGHT);

      result := result + Approx(aBody, BODY_RADIUS);
      result := result + Approx(aHead, HEAD_RADIUS);
      result := result + Approx(bBody, BODY_RADIUS);
      result := result + Approx(bHead, HEAD_RADIUS);

      OctagonsOfFour(Disc(aBody, BODY_RADIUS), Disc(aHead, HEAD_RADIUS), Disc(bBody, BODY_RADIUS), Disc(bHead, HEAD_RADIUS));
    }

    /**
     * The player's part of a tick: the held keys give the direction, the
     * player steers and moves.  Nothing but the player changes.
     */
    method MovePlayer(left: bool, right: bool, up: bool)
      modifies player
      ensures player.velocity
              == Steered(old(player.velocity), old(player.forces), old(player.y), WALK_SPEED * Horiz(left, right) as real, up)
      ensures Point(player.x, player.y) == Moved(Point(old(player.x), old(player.y)), player.velocity)
      ensures player.forces == old(player.forces)
    {
      var horiz := 0;
      horiz := horiz + if right then 1 else 0;
      horiz := horiz - if left then 1 else 0;

      var jmp := up;

      player.CalcVelocity(WALK_SPEED * horiz as real, jmp);
      player.ApplyPhysics();
    }

    /**
     * One tick: the player steers by the held keys and moves, and the ball
     * takes a step of the integrator among the obstacles of the blobs'
     * new positions.  The opponent is not touched.  The ball must be able to
     * bounce off what it will hit (see Physics.CanBounce).
     */
    method Tick(left: bool, right: bool, up: bool, sqrt: SqrtFn)
      requires Valid() && IsSqrt(sqrt)
      requires var v := Steered(player.velocity, player.forces, player.y, WALK_SPEED * Horiz(left, right) as real, up);
               var lines := Obstacles(Moved(Point(player.x, player.y), v), Point(opponent.x, opponent.y));
               CanBounce(ball.circle.center, ball.circle.velocity, ball.circle.radius, lines, sqrt)
      modifies player, ball.circle
      ensures Valid() && unchanged(opponent)
      ensures player.velocity
              == Steered(old(player.velocity), old(player.forces), old(player.y), WALK_SPEED * Horiz(left, right) as real, up)
      ensures Point(player.x, player.y) == Moved(Point(old(player.x), old(player.y)), player.velocity)
      ensures player.forces == old(player.forces)
      ensures ball.circle.radius == old(ball.circle.radius)
      ensures Outcome(IntegratedCenter(old(ball.circle.center), old(ball.circle.velocity)),
                      IntegratedVelocity(old(ball.circle.velocity)), ball.circle.radius,
                      Obstacles(Point(player.x, player.y), Point(opponent.x, opponent.y)),
                      ball.circle.center, ball.circle.velocity, sqrt)
      ensures Energy(ball.circle.center, ball.circle.velocity) == Energy(old(ball.circle.center), old(ball.circle.velocity))
    {
      ghost var lines := Obstacles(Moved(Point(player.x, player.y),
                                         Steered(player.velocity, player.forces, player.y, WALK_SPEED * Horiz(left, right) as real, up)),
                                   Point(opponent.x, opponent.y));
      ghost var c, v, r := ball.circle.center, ball.circle.velocity, ball.circle.radius;
      MovePlayer(left, right, up);
      var particles := GetParticles();
      assert particles == lines;
      assert ball.circle.center == c && ball.circle.velocity == v && ball.circle.radius == r;
      Apply(ball.circle, particles, sqrt);
    }
  }
}
