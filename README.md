# Blobby volley: the simulation core in Dafny

This project models the simulation of a small two-player arcade volleyball
game. Each player is a "blob" that stands on the floor of its own half of the
court. The core has three parts:

- **`Geom`** (`geom.dfy`, from `src/geom.rs`): the geometry kernel.
  - Vectors, points and line segments.
  - The clamped projection of a circle's centre onto a segment, and the test
    whether a circle overlaps a segment.
  - The octagon drawn round a circle.
  - The bounce of a circle off a segment. It reflects the velocity across the
    bounce normal and pushes the centre back along it.
- **`Physics`** (`physics.dfy`, from `src/physics.rs`): the ball integrator.
  - Kinetic, potential and total energy.
  - The gravity step: half a kick, the drift, the other half kick.
  - Sorting the obstacle segments by their distance from the ball.
  - Bouncing off the first segment the ball overlaps.
  - Rescaling the speed so that the total energy is what it was before the
    bounce.
- **`Game`** (`game.dfy`, from `src/game.rs`): the world and its tick.
  - The player's velocity from the held keys and a list of forces. A jump is
    allowed only on the ground.
  - The clamp of the player's position to its half of the court and to the
    floor.
  - The list of 38 obstacle segments rebuilt every tick. It holds six
    boundary segments, then the octagons of the two blobs' bodies and heads.
  - The tick itself.

`Reals` (`reals.dfy`) holds the facts about squares of reals that the
geometry needs.

Values are reals. The platform square root is a parameter `sqrt`. The model
assumes only `IsSqrt(sqrt)`: `sqrt(x)` is the non-negative root of every
non-negative `x`.

A `Circle` and a `Player` are classes, because the source updates their
fields in place. Source methods that only read a circle become functions of
the fields they read. Loops over forces and over sorted segments stay loops,
each with its invariants.

The source divides by zero in a few places. The model excludes those cases
by preconditions:

- a segment of length zero;
- a bounce off a segment the centre lies on, so that the bounce vector is
  zero;
- a rescale with zero kinetic energy;
- a rescale with a negative radicand.

`Physics.Apply` takes the obstacle list as a parameter, as its call site
does (`src/game.rs:56`). `src/physics.rs:33-48` defines a one-argument
`apply` with its own fixed six-segment list. The model follows the call site
and keeps the body of `src/physics.rs:34-62`: one sort, then a bounce off
the first overlapping segment and `break`.

## Model

| member | source | states |
|---|---|---|
| Geom.Between | src/geom.rs:28-30 | the vector from a to b: a moved by it is b |
| Geom.Magnitude | src/geom.rs:32-34 | the length is non-negative and its square is vx² + vy²; it is zero exactly for the zero vector |
| Geom.ToUnit | src/geom.rs:36-39 | for a non-zero vector the result has length 1, and the input is the result scaled by the input's positive length (same direction) |
| Geom.ScaleMagnitude | src/geom.rs:41-43 | scaling by k multiplies the length by abs(k) |
| Geom.ScaleInverse | src/geom.rs:41-43 | scaling by a non-zero k is undone by scaling by 1 / k |
| Geom.SqLenScale | src/geom.rs:41-43 | scaling by k multiplies the squared length by k² |
| Geom.Line.New | src/geom.rs:47-52 | the segment from (x1, y1) to (x2, y2) has two distinct end points exactly when the coordinates differ somewhere |
| Geom.Line.ToUnitVector | src/geom.rs:54-56 | the direction of a proper segment has length 1, and the end is the start moved Len along it |
| Geom.Line.Len | src/geom.rs:58-60 | the length is the distance from start to end, and it is non-negative |
| Geom.DotSelf | src/geom.rs:63-65 | a vector's dot product with itself is its squared length |
| Geom.DotScale | src/geom.rs:63-65 | the dot product is symmetric, and scaling one side by k scales it by k |
| Geom.Distance | src/geom.rs:67-71 | the distance is non-negative, its square is the squared coordinate difference, and it is the length of Between(a, b) |
| Geom.DistanceZero | src/geom.rs:67-71 | the distance is zero exactly when the points coincide |
| Geom.ClosestPoint | src/geom.rs:73-88 | the closest point lies on the segment |
| Geom.ClosestPointClamped | src/geom.rs:73-88 | the closest point is the start moved along the direction by the projection parameter clamped to [0, Len]; this covers the start, end and interior cases |
| Geom.ClosestPointIsNearest | src/geom.rs:73-88 | no point of the segment is nearer the centre (squared distance) than the closest point |
| Geom.ClosestPointIsNearestDistance | src/geom.rs:73-88 | no point of the segment is nearer the centre than the closest point |
| Geom.CircleDistance | src/geom.rs:117-121 | the circle's distance from a segment is non-negative |
| Geom.CircleDistanceIsNearest | src/geom.rs:117-121 | the circle's distance is the least distance from the centre to a point of the segment, and some point of the segment attains it |
| Geom.IsIntersecting | src/geom.rs:123-125 | only a circle of positive radius can overlap a segment |
| Geom.IsIntersectingIff | src/geom.rs:123-125 | the circle overlaps the segment exactly when some point of the segment is nearer than the radius |
| Geom.BounceVector | src/geom.rs:127-129 | the bounce vector is as long as the circle's distance from the segment |
| Geom.BounceVectorZero | src/geom.rs:127-129 | the bounce vector is zero exactly when the centre lies on the segment |
| Geom.OnSegmentIsOwnClosest | src/geom.rs:73-88 | a centre on the segment is its own closest point |
| Geom.BounceNormal | src/geom.rs:132-133 | the bounce normal has length 1 |
| Geom.BounceNormalScales | src/geom.rs:132-133 | the bounce vector is the bounce normal scaled by the circle's distance |
| Geom.ReflectPreservesSpeed | src/geom.rs:147-148 | reflecting across a unit normal keeps the speed and negates the normal component (v'·n = -(v·n)) |
| Geom.ReflectSqLen | src/geom.rs:147-148 | reflecting across a unit normal keeps the squared speed |
| Geom.ReflectComponent | src/geom.rs:147-148 | reflecting across a unit normal negates the normal component |
| Geom.ReflectInvolution | src/geom.rs:147-148 | reflecting twice across the same unit normal gives back the velocity |
| Geom.BouncedDistance | src/geom.rs:136-145 | after the push the centre is abs(d - 2 len) from the old closest point, where d is the circle's distance and len is the push length |
| Geom.BounceClearsContact | src/geom.rs:136-145 | after a bounce off a segment it overlapped, the centre is further than the radius from the old contact point |
| Geom.Circle.constructor | src/geom.rs:91-97 | a new circle has the given centre and radius and zero velocity |
| Geom.Circle.BounceCircle | src/geom.rs:131-149 | the radius is kept; the centre moves by -2·len·n, with len = abs(bounce) + radius when v·n >= 0 and abs(bounce) - radius otherwise; the velocity becomes v - 2(v·n)n |
| Geom.Approx | src/geom.rs:99-115 | exactly 8 segments forming a closed chain: each ends where the next starts and the last ends where the first starts; the four axis corners are at the radius from the centre |
| Geom.ApproxInscribed | src/geom.rs:99-115 | the axis corners are at distance exactly the radius from the centre, and every corner is within the radius |
| Geom.VertexInscribed | src/geom.rs:104-114 | corner k is at the radius when k is even and within it when k is odd |
| Geom.ApproxProper | src/geom.rs:99-115 | the octagon of a circle of positive radius has no segment of length zero |
| Physics.KinEnergy | src/physics.rs:7-11 | the kinetic energy is non-negative |
| Physics.KinEnergySpeed | src/physics.rs:7-11 | the kinetic energy is half the square of the speed, and zero exactly at rest |
| Physics.KinEnergyScale | src/physics.rs:7-11 | scaling the velocity by k multiplies the kinetic energy by k² |
| Physics.KinEnergyReflect | src/physics.rs:7-11 | reflection across a unit normal keeps the kinetic energy |
| Physics.PotEnergyHeight | src/physics.rs:13-15 | the potential energy depends on the height alone, strictly increasing with it |
| Physics.EnergyAtRest | src/physics.rs:17-19 | the total energy is at least the potential energy, and equals it exactly when the ball is at rest |
| Physics.RatioRestoresEnergy | src/physics.rs:21-27 | with positive kinetic energy and a non-negative radicand, the ratio is non-negative and scaling by it makes the total energy the given energy |
| Physics.ScaleVelocity | src/physics.rs:21-27 | only the velocity changes, both components by the same ratio, and afterwards the total energy is the given one |
| Physics.HalfApplyGravity | src/physics.rs:29-31 | the vertical speed drops by GRAVITY/2 and nothing else changes |
| Physics.IntegrationStep | src/physics.rs:34-39 | over the step the vertical speed drops by exactly GRAVITY, the horizontal speed is kept, and the centre moves by the velocity after the first half kick |
| Physics.IntegrationKeepsEnergy | src/physics.rs:34-39 | with GRAVITY = 0.0025 as both the kick and the potential-energy slope, the gravity step keeps the total energy exactly: the kinetic energy gained is the potential energy lost |
| Physics.GRAVITY | src/physics.rs:5 | the gravity constant 0.0025, used by the half kicks and by the potential energy |
| Physics.Integrate | src/physics.rs:34-39 | half kick, drift, half kick; the radius is kept |
| Physics.Measure | src/physics.rs:50-53 | each segment is paired with its distance from the ball, in the order of the list |
| Physics.SortByKey | src/physics.rs:50-53 | afterwards the pairs are sorted by distance, nearest first, and they are a permutation of the pairs before |
| Physics.Insert | src/physics.rs:50-53 | one insertion step: a[..i + 1] becomes sorted and holds exactly the elements it held before, the suffix a[i + 1..] is unchanged, and the whole array is a permutation of what it was |
| Physics.SortedByDistance | src/physics.rs:50-53 | a new array holds a permutation of the measured segments, sorted by distance |
| Physics.KeyedMembers | src/physics.rs:50-53 | a permutation of the measured segments holds each segment in the list with its distance, and nothing else |
| Physics.FirstOverlapIsNearest | src/physics.rs:55-56 | in the sorted list, the first segment the ball overlaps has the least distance of all segments |
| Physics.BounceKeepsEnergy | src/physics.rs:57-59 | bouncing and then rescaling gives back the energy measured just before the bounce |
| Physics.Rebound | src/physics.rs:57-59 | capture the energy, bounce off the segment, restore the energy; the radius is kept |
| Physics.BounceOutcome | src/physics.rs:55-60 | a bounce off the first overlapping segment in sorted order is a bounce off a nearest overlapping segment |
| Physics.StayOutcome | src/physics.rs:55-62 | when no segment overlaps, the ball keeps the position and velocity the gravity step gave it |
| Physics.OutcomeKeepsEnergy | src/physics.rs:55-62 | whatever apply does after the gravity step, the energy is what it was after that step |
| Physics.StepKeepsEnergy | src/physics.rs:33-62 | gravity step plus any outcome keeps the total energy the ball had before the step |
| Physics.FirstOverlap | src/physics.rs:55-56 | the scan in sorted order stops at the first segment the ball overlaps: none before it overlaps, it does, and when the scan reaches the end no segment overlaps |
| Physics.Apply | src/physics.rs:33-62 | the radius is kept; after the gravity step, either no segment overlaps and nothing more changes, or exactly one bounce happened, off a nearest overlapping segment, followed by the energy rescale; the whole step leaves the total energy as it was before the step |
| Game.OnGround | src/game.rs:115-117 | a blob is on the ground exactly when its height is within 0.001 of -0.8 |
| Game.HorizontalLimit | src/game.rs:107-109 | the result lies in [-0.87, -0.14]; it is the input when already inside, and the nearer bound otherwise |
| Game.VerticalLimit | src/game.rs:111-112 | the result is never below -0.8; it is the input when at or above -0.8, and -0.8 otherwise |
| Game.Abs | src/game.rs:116 | the absolute value is non-negative and is the input or its negation |
| Game.Max | src/game.rs:108 | the maximum is at least both arguments and is one of them |
| Game.Min | src/game.rs:109 | the minimum is at most both arguments and is one of them |
| Game.TotalConcat | src/game.rs:96-99 | the sum of two lists of forces, one after the other, is the sum of their sums |
| Game.TotalSingle | src/game.rs:88 | the sum of one force is that force |
| Game.SteeredByWeight | src/game.rs:88-103 | a player whose only force is its weight gets exactly vHoriz horizontally, and falls 0.0025 faster unless it jumps from the ground, when it gets 0.06 |
| Game.SteeredExtraForce | src/game.rs:96-99 | one more force adds itself to the steered velocity, except to the vertical speed of a jump from the ground |
| Game.Horiz | src/game.rs:46-48 | the direction is in {-1, 0, 1}: 1 exactly when only Right is held, -1 exactly when only Left is held, 0 when both or neither are |
| Game.Blobs | src/game.rs:32-35 | four discs, each of positive radius |
| Game.Octagons | src/game.rs:37-40 | 8 segments per disc, none of length zero |
| Game.OctagonsLayout | src/game.rs:37-40 | the octagon of disc k takes up segments 8k to 8k + 7 |
| Game.Obstacles | src/game.rs:22-43 | 38 segments, none of length zero |
| Game.ObstaclesLayout | src/game.rs:22-43 | the first six are the floor, the walls and the net; then come the octagons of the player's body and head and the opponent's body and head |
| Game.ObstaclesInscribed | src/game.rs:32-40 | every corner of a blob's octagons lies within the body (radius 0.13) or head (radius 0.1, centred 0.13 higher) it stands for |
| Game.Player.constructor | src/game.rs:84-91 | a blob at the given position, at rest, with its weight (0, -0.0025) as its only force |
| Game.Player.CalcVelocity | src/game.rs:93-104 | the horizontal speed is overwritten with vHoriz plus the sum of the forces; the vertical speed is 0.06 on a jump from the ground and the old one plus the sum of the forces otherwise; position and forces are kept |
| Game.Player.ApplyPhysics | src/game.rs:106-113 | after the move, -0.87 <= x <= -0.14 and y >= -0.8, whatever the velocity was; each coordinate is the moved one clamped; velocity and forces are kept |
| Game.Ball.constructor | src/game.rs:65-73 | a new ball at the given position, with radius 0.1 and velocity (0.05, 0.04) |
| Game.World.constructor | src/game.rs:14-20 | the player at (-0.5, -0.8), the opponent at (0.5, -0.8), both at rest with their weight; the ball at (-0.5, -0.3) |
| Game.World.GetParticles | src/game.rs:22-43 | the obstacle list built for the blobs' current positions |
| Game.World.MovePlayer | src/game.rs:46-53 | the player's velocity is the one its controls give, with horizontal speed 0.02 times the held direction; its position is the moved and clamped one |
| Game.World.Tick | src/game.rs:45-57 | the player steers and moves as MovePlayer says; the opponent is unchanged; the ball takes one integrator step among the obstacles of the blobs' new positions, keeping its total energy |

## Left out

- Floating point: `f32` rounding, overflow and NaN are not modelled. Values are reals, and no result is claimed bit-exact.
- Square root: `f32::sqrt` is the parameter `sqrt`. The model assumes only that it gives the non-negative root.
- Degenerate inputs: a segment of length zero, a bounce from a centre on the segment, and a rescale with zero kinetic energy or a negative radicand are excluded by preconditions. In these cases the source divides by zero or takes the root of a negative number.
- Physics.Apply: it requires `CanBounce`. Every nearest segment the ball overlaps after the gravity step must allow a bounce with a non-negative radicand, and the ball's velocity must not be zero. The source computes NaN velocities otherwise.
- Physics.SortByKey: the library's `sort_by` (a stable merge sort) is modelled by a stable insertion sort instead, on segments paired with their distances. Both sorts are stable, so the body picks the same segment as the source among equal distances. The contract claims only "sorted and a permutation" and leaves ties open, so the segment bounced off is proved to be *a* nearest one, not the particular one among ties.
- Physics.Apply: the ball is integrated as in `src/physics.rs:34-39`. The hard-coded six-segment list of `src/physics.rs:41-48` is not used; the caller's list is used instead (`src/game.rs:55-56`).
- Game.World.Tick: the `HashSet` of held keys is three booleans, `left`, `right` and `up`.
- Game.World.Tick: it requires the ball's `CanBounce` for the obstacles at the player's new position, for the same reason as Physics.Apply.
- Game.OnGround: `is_on_ground` reads only `y`, so it is a function of the height rather than a method of `Player`.
- Game.World.GetParticles: the four `Circle` values the source builds only to call `approx` on them are not allocated; their centres and radii are passed to `Geom.Approx` directly.
- The octagon list of the blobs is built by the recursive `Game.Octagons` over the four discs. `GetParticles` appends the four octagons one by one as the source does, and is proved equal to it.
- Physics.Apply: the loop of `src/physics.rs:55-62` is split into the scan `FirstOverlap`, which returns at the first overlap, and a bounce after it. This is the same as bouncing inside the loop and then breaking.
- Graphics, window handling, input events, the renderer and the main loop (src/graphics.rs, src/os.rs, src/renderer.rs, src/main.rs) are not part of this model.
