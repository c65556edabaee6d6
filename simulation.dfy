/** The fixed-tick physics of simulation.js: a player and a ball moving inside a rectangular field.
    Positions and velocities are `real`. `Math.hypot` is passed in as `hypot`, of which only
    `IsHypot` is known: it is a non-negative square root of the sum of the squares. */
module Simulation {
  import GameLogic
  import Input
  import RealArith
  import Movement

  const FIXED_TIME_STEP: real := 1.0 / 60.0
  /** Ball velocity is multiplied by this every tick. */
  const FRICTION: real := 0.985
  /** Restitution-like factor of the impulse when the player runs into the ball. */
  const BOUNCE: real := 1.2
  /** The kick reaches this far beyond touching distance. */
  const KICK_RANGE_MARGIN: real := 6.0
  /** Speed a kick adds to the ball. */
  const KICK_STRENGTH: real := 320.0

  ghost predicate IsHypot(hypot: (real, real) -> real) {
    forall a: real, b: real :: 0.0 <= hypot(a, b) && hypot(a, b) * hypot(a, b) == a * a + b * b
  }

  /** JavaScript's `x || 1` on a number. */
  function OrOne(x: real): real {
    if x == 0.0 then 1.0 else x
  }

  datatype Field = Field(width: real, height: real)

  /** A body as a value. The ball has no movement speed of its own; it carries 0 there. */
  datatype Body = Body(x: real, y: real, vx: real, vy: real, radius: real, speed: real)

  /** The whole simulation state as a value, as cloneState copies it. */
  datatype Snapshot = Snapshot(time: real, field: Field, player: Body, ball: Body)

  /** A body of this radius has room in the field on both axes. */
  predicate Fits(radius: real, field: Field) {
    2.0 * radius <= field.width && 2.0 * radius <= field.height
  }

  predicate InBounds(b: Body, field: Field) {
    b.radius <= b.x <= field.width - b.radius && b.radius <= b.y <= field.height - b.radius
  }

  function Distance(a: Body, b: Body, hypot: (real, real) -> real): real {
    hypot(b.x - a.x, b.y - a.y)
  }

  function SpeedSquared(b: Body): real {
    b.vx * b.vx + b.vy * b.vy
  }

  /** createSimulation: a 720 by 420 field, the player left of the ball, both at rest. */
  function Initial(): (s: Snapshot)
    ensures s.time == 0.0 && s.field == Field(720.0, 420.0)
    ensures s.player.vx == 0.0 && s.player.vy == 0.0 && s.ball.vx == 0.0 && s.ball.vy == 0.0
    ensures s.player.radius == 16.0 && s.player.speed == 240.0 && s.ball.radius == 10.0
    ensures InBounds(s.player, s.field) && InBounds(s.ball, s.field)
    ensures s.player.x < s.field.width / 2.0 < s.ball.x && s.player.y == s.ball.y == s.field.height / 2.0
    ensures s.ball.x - s.player.x > s.player.radius + s.ball.radius
    ensures s.player.x == 216.0 && s.ball.x == 396.0 && s.player.y == 210.0
  {
    var field := Field(720.0, 420.0);
    Snapshot(0.0, field,
      Body(field.width * 0.3, field.height * 0.5, 0.0, 0.0, 16.0, 240.0),
      Body(field.width * 0.55, field.height * 0.5, 0.0, 0.0, 10.0, 0.0))
  }

  /** +1, -1 or 0 along one axis from its two direction flags. */
  function Axis(positive: bool, negative: bool): real {
    (if positive then 1.0 else 0.0) - (if negative then 1.0 else 0.0)
  }

  /** The vector (dx, dy) divided by `length`; the unit normal when `length` is its length. */
  function Normal(dx: real, dy: real, length: real): (n: (real, real))
    requires length != 0.0
    ensures n.0 * length == dx && n.1 * length == dy
  {
    (dx / length, dy / length)
  }

  /** The player's velocity, set directly from the input: the direction flags, normalised, times the speed. */
  function PlayerVelocity(input: Input.InputSnapshot, speed: real, hypot: (real, real) -> real): (v: (real, real))
    ensures input.left == input.right ==> v.0 == 0.0
    ensures input.up == input.down ==> v.1 == 0.0
  {
    var inputX := Axis(input.right, input.left);
    var inputY := Axis(input.down, input.up);
    var n := Normal(inputX, inputY, OrOne(hypot(inputX, inputY)));
    (n.0 * speed, n.1 * speed)
  }

  /** applyFriction */
  function ApplyFriction(velocity: real, friction: real): real {
    velocity * friction
  }

  /** The body after resolveBoundary: its centre clamped into the field, everything else kept. */
  function Bound(b: Body, field: Field): (r: Body)
    ensures r.vx == b.vx && r.vy == b.vy && r.radius == b.radius && r.speed == b.speed
    // each axis clamped on its own: kept in range, sent to the nearer bound outside it
    ensures b.radius <= b.x <= field.width - b.radius ==> r.x == b.x
    ensures b.x > field.width - b.radius ==> r.x == field.width - b.radius
    ensures b.x < b.radius && b.radius <= field.width - b.radius ==> r.x == b.radius
    ensures b.radius <= b.y <= field.height - b.radius ==> r.y == b.y
    ensures b.y > field.height - b.radius ==> r.y == field.height - b.radius
    ensures b.y < b.radius && b.radius <= field.height - b.radius ==> r.y == b.radius
    ensures Fits(b.radius, field) ==> InBounds(r, field)
    ensures InBounds(b, field) ==> r == b
  {
    b.(x := GameLogic.Clamp(b.x, b.radius, field.width - b.radius),
       y := GameLogic.Clamp(b.y, b.radius, field.height - b.radius))
  }

  /** The centre distance at which the two bodies just touch. */
  function MinDistance(player: Body, ball: Body): real {
    player.radius + ball.radius
  }

  /** The bodies overlap and their centres are apart, so there is a normal to push along. */
  predicate Overlapping(player: Body, ball: Body, hypot: (real, real) -> real) {
    var distance := Distance(player, ball, hypot);
    distance < MinDistance(player, ball) && distance != 0.0
  }

  /** The ball's velocity relative to the player along the normal from the player to the ball;
      positive when the two are separating. */
  function ImpactSpeed(player: Body, ball: Body, hypot: (real, real) -> real): real
    requires Distance(player, ball, hypot) != 0.0
  {
    var n := Normal(ball.x - player.x, ball.y - player.y, Distance(player, ball, hypot));
    (ball.vx - player.vx) * n.0 + (ball.vy - player.vy) * n.1
  }

  /** The ball after resolveCollision: pushed out of the player along the normal and, if the two
      were closing, given an impulse along the normal. */
  function Collide(player: Body, ball: Body, hypot: (real, real) -> real): (r: Body)
    ensures r.radius == ball.radius && r.speed == ball.speed
    ensures !Overlapping(player, ball, hypot) ==> r == ball
    ensures Overlapping(player, ball, hypot) && ImpactSpeed(player, ball, hypot) > 0.0 ==>
              r.vx == ball.vx && r.vy == ball.vy
  {
    var dx := ball.x - player.x;
    var dy := ball.y - player.y;
    var distance := hypot(dx, dy);
    var minDistance := MinDistance(player, ball);
    if distance >= minDistance || distance == 0.0 then
      ball
    else
      var overlap := minDistance - distance;
      var n := Normal(dx, dy, distance);
      var pushed := ball.(x := ball.x + n.0 * overlap, y := ball.y + n.1 * overlap);
      var impactSpeed := ImpactSpeed(player, ball, hypot);
      if impactSpeed > 0.0 then
        pushed
      else
        var impulse := -BOUNCE * impactSpeed;
        pushed.(vx := ball.vx + impulse * n.0, vy := ball.vy + impulse * n.1)
  }

  predicate InKickRange(player: Body, ball: Body, hypot: (real, real) -> real) {
    Distance(player, ball, hypot) < MinDistance(player, ball) + KICK_RANGE_MARGIN
  }

  /** The ball after the kick of stepSimulation. */
  function Kick(player: Body, ball: Body, kick: bool, hypot: (real, real) -> real): (r: Body)
    ensures r.x == ball.x && r.y == ball.y && r.radius == ball.radius && r.speed == ball.speed
    ensures !kick || !InKickRange(player, ball, hypot) ==> r == ball
  {
    if kick && InKickRange(player, ball, hypot) then
      var n := Normal(ball.x - player.x, ball.y - player.y, OrOne(Distance(player, ball, hypot)));
      ball.(vx := ball.vx + n.0 * KICK_STRENGTH, vy := ball.vy + n.1 * KICK_STRENGTH)
    else
      ball
  }

  /** The player with its velocity replaced from the input. */
  function Steered(p: Body, input: Input.InputSnapshot, hypot: (real, real) -> real): (r: Body)
    ensures (r.vx, r.vy) == PlayerVelocity(input, p.speed, hypot)
    ensures r.x == p.x && r.y == p.y && r.radius == p.radius && r.speed == p.speed
  {
    var v := PlayerVelocity(input, p.speed, hypot);
    p.(vx := v.0, vy := v.1)
  }

  /** A body moved by its velocity over `dt` seconds. */
  function Advanced(b: Body, dt: real): (r: Body)
    ensures r.x == b.x + b.vx * dt && r.y == b.y + b.vy * dt
    ensures r.vx == b.vx && r.vy == b.vy && r.radius == b.radius && r.speed == b.speed
    ensures dt == 0.0 ==> r == b
  {
    b.(x := b.x + b.vx * dt, y := b.y + b.vy * dt)
  }

  /** The ball with friction applied to its velocity. */
  function Slowed(b: Body): (r: Body)
    ensures r.x == b.x && r.y == b.y && r.radius == b.radius && r.speed == b.speed
    ensures r.vx == FRICTION * b.vx && r.vy == FRICTION * b.vy
  {
    b.(vx := ApplyFriction(b.vx, FRICTION), vy := ApplyFriction(b.vy, FRICTION))
  }

  /** The player in the first half of a tick: its velocity replaced from the input, its position
      moved by the new velocity, and the result clamped into the field. */
  function MovePlayer(p: Body, input: Input.InputSnapshot, field: Field, dt: real, hypot: (real, real) -> real): (r: Body)
    ensures (r.vx, r.vy) == PlayerVelocity(input, p.speed, hypot)
    ensures r.radius == p.radius && r.speed == p.speed
    ensures Fits(p.radius, field) ==> InBounds(r, field)
  {
    Bound(Advanced(Steered(p, input, hypot), dt), field)
  }

  /** The ball in the first half of a tick: moved by its old velocity, which friction then slows,
      and clamped into the field. */
  function MoveBall(b: Body, field: Field, dt: real): (r: Body)
    ensures r.vx == FRICTION * b.vx && r.vy == FRICTION * b.vy
    ensures r.radius == b.radius && r.speed == b.speed
    ensures Fits(b.radius, field) ==> InBounds(r, field)
  {
    Bound(Slowed(Advanced(b, dt)), field)
  }

  /** The state after stepSimulation: both bodies moved and clamped, then the ball pushed by the
      player and kicked; the player is not touched after its clamp. */
  function StepValue(s: Snapshot, input: Input.InputSnapshot, dt: real, hypot: (real, real) -> real): (r: Snapshot)
    ensures r.time == s.time + dt && r.field == s.field
    ensures r.player == MovePlayer(s.player, input, s.field, dt, hypot)
    ensures r.player.radius == s.player.radius && r.player.speed == s.player.speed
    ensures r.ball.radius == s.ball.radius && r.ball.speed == s.ball.speed
    ensures Fits(s.player.radius, s.field) ==> InBounds(r.player, s.field)
  {
    var player := MovePlayer(s.player, input, s.field, dt, hypot);
    var ball := MoveBall(s.ball, s.field, dt);
    var ball := Collide(player, ball, hypot);
    var ball := Kick(player, ball, input.kick, hypot);
    Snapshot(s.time + dt, s.field, player, ball)
  }

  /** The state after one tick per input, in order. */
  function Ticks(s: Snapshot, inputs: seq<Input.InputSnapshot>, dt: real, hypot: (real, real) -> real): Snapshot
    decreases |inputs|
  {
    if inputs == [] then s else Ticks(StepValue(s, inputs[0], dt, hypot), inputs[1..], dt, hypot)
  }

  // ---------------------------------------------------------------------------------------------
  // What is known of hypot

  /** `hypot` is 0 only at the origin. */
  lemma HypotZero(hypot: (real, real) -> real, dx: real, dy: real)
    requires IsHypot(hypot)
    ensures hypot(dx, dy) == 0.0 <==> dx == 0.0 && dy == 0.0
  {
    RealArith.LengthZero(hypot(dx, dy), dx, dy);
  }

  /** The length of each of the four unit directions, and of the zero vector. */
  lemma HypotOfAxes(hypot: (real, real) -> real)
    requires IsHypot(hypot)
    ensures hypot(1.0, 0.0) == 1.0 && hypot(-1.0, 0.0) == 1.0 && hypot(0.0, 1.0) == 1.0 && hypot(0.0, -1.0) == 1.0
    ensures hypot(0.0, 0.0) == 0.0
  {
    RealArith.SquareRootUnique(hypot(1.0, 0.0), 1.0);
    RealArith.SquareRootUnique(hypot(-1.0, 0.0), 1.0);
    RealArith.SquareRootUnique(hypot(0.0, 1.0), 1.0);
    RealArith.SquareRootUnique(hypot(0.0, -1.0), 1.0);
    RealArith.SquareRootUnique(hypot(0.0, 0.0), 0.0);
  }

  /** A non-zero vector divided by its length has length 1. */
  lemma NormalIsUnit(hypot: (real, real) -> real, dx: real, dy: real)
    requires IsHypot(hypot) && hypot(dx, dy) != 0.0
    ensures Normal(dx, dy, hypot(dx, dy)).0 * Normal(dx, dy, hypot(dx, dy)).0
          + Normal(dx, dy, hypot(dx, dy)).1 * Normal(dx, dy, hypot(dx, dy)).1 == 1.0
  {
    RealArith.UnitNormal(dx, dy, hypot(dx, dy));
  }

  /** A unit vector (n0, n1) scaled by s >= 0 has length s. */
  lemma HypotOfScaledUnit(hypot: (real, real) -> real, u: real, v: real, n0: real, n1: real, s: real)
    requires IsHypot(hypot) && n0 * n0 + n1 * n1 == 1.0 && 0.0 <= s
    requires u == n0 * s && v == n1 * s
    ensures hypot(u, v) == s
  {
    calc {
      hypot(u, v) * hypot(u, v);
      u * u + v * v;
      (n0 * s) * (n0 * s) + (n1 * s) * (n1 * s);
      { RealArith.ScaledUnit(n0, n1, s); }
      s * s;
    }
    RealArith.SquareRootUnique(hypot(u, v), s);
  }

  /** Dividing s times (n0, n1) by s gives back (n0, n1). */
  lemma NormalOfMultiple(u: real, v: real, d: real, n0: real, n1: real, s: real)
    requires s != 0.0 && d == s && u == n0 * s && v == n1 * s
    ensures Normal(u, v, d) == (n0, n1)
  {
    RealArith.MulDiv(n0, s);
    RealArith.MulDiv(n1, s);
  }

  /** Moving a body is integrate_position of the Python helpers applied to its centre. */
  lemma AdvancedIsIntegration(b: Body, dt: real)
    ensures (Advanced(b, dt).x, Advanced(b, dt).y) == Movement.IntegratePosition((b.x, b.y), (b.vx, b.vy), dt)
  {
    calc {
      Advanced(b, dt).x;
      b.x + b.vx * dt;
      Movement.IntegratePosition((b.x, b.y), (b.vx, b.vy), dt).0;
    }
    calc {
      Advanced(b, dt).y;
      b.y + b.vy * dt;
      Movement.IntegratePosition((b.x, b.y), (b.vx, b.vy), dt).1;
    }
  }

  /** Moving for dt1 and then for dt2 is moving for dt1 + dt2. */
  lemma AdvancedSplits(b: Body, dt1: real, dt2: real)
    ensures Advanced(Advanced(b, dt1), dt2) == Advanced(b, dt1 + dt2)
  {
    AdvancedIsIntegration(b, dt1);
    AdvancedIsIntegration(Advanced(b, dt1), dt2);
    AdvancedIsIntegration(b, dt1 + dt2);
    Movement.IntegrateSplits((b.x, b.y), (b.vx, b.vy), dt1, dt2);
  }

  // ---------------------------------------------------------------------------------------------
  // Player velocity

  /** The velocity points along the net input: each component, times the input's length (or 1
      when there is no input), is the net input on its axis times the speed. */
  lemma PlayerVelocityAlongInput(input: Input.InputSnapshot, speed: real, hypot: (real, real) -> real)
    ensures PlayerVelocity(input, speed, hypot).0 * OrOne(hypot(Axis(input.right, input.left), Axis(input.down, input.up)))
            == Axis(input.right, input.left) * speed
    ensures PlayerVelocity(input, speed, hypot).1 * OrOne(hypot(Axis(input.right, input.left), Axis(input.down, input.up)))
            == Axis(input.down, input.up) * speed
  {
  }

  /** With no direction flag held, or with both flags of each axis held, the player stands still. */
  lemma NoNetDirectionStandsStill(input: Input.InputSnapshot, speed: real, hypot: (real, real) -> real)
    requires input.left == input.right && input.up == input.down
    ensures PlayerVelocity(input, speed, hypot) == (0.0, 0.0)
  {
  }

  /** One net direction gives exactly the player's speed along that axis and nothing on the other. */
  lemma SingleDirectionFullSpeed(input: Input.InputSnapshot, speed: real, hypot: (real, real) -> real)
    requires IsHypot(hypot)
    ensures input.right && !input.left && input.up == input.down ==> PlayerVelocity(input, speed, hypot) == (speed, 0.0)
    ensures input.left && !input.right && input.up == input.down ==> PlayerVelocity(input, speed, hypot) == (-speed, 0.0)
    ensures input.down && !input.up && input.left == input.right ==> PlayerVelocity(input, speed, hypot) == (0.0, speed)
    ensures input.up && !input.down && input.left == input.right ==> PlayerVelocity(input, speed, hypot) == (0.0, -speed)
  {
    HypotOfAxes(hypot);
  }

  /** Whenever the player moves at all, it moves at exactly its speed, diagonals included. */
  lemma MovingAtExactSpeed(input: Input.InputSnapshot, speed: real, hypot: (real, real) -> real)
    requires IsHypot(hypot) && 0.0 <= speed
    requires input.left != input.right || input.up != input.down
    ensures hypot(PlayerVelocity(input, speed, hypot).0, PlayerVelocity(input, speed, hypot).1) == speed
  {
    HypotZero(hypot, Axis(input.right, input.left), Axis(input.down, input.up));
    NormalIsUnit(hypot, Axis(input.right, input.left), Axis(input.down, input.up));
    HypotOfScaledUnit(hypot, PlayerVelocity(input, speed, hypot).0, PlayerVelocity(input, speed, hypot).1,
      Normal(Axis(input.right, input.left), Axis(input.down, input.up), hypot(Axis(input.right, input.left), Axis(input.down, input.up))).0,
      Normal(Axis(input.right, input.left), Axis(input.down, input.up), hypot(Axis(input.right, input.left), Axis(input.down, input.up))).1,
      speed);
  }

  // ---------------------------------------------------------------------------------------------
  // Friction, collision and kick

  /** A friction factor in [0, 1] keeps the sign of a velocity and never increases its size. */
  lemma FrictionShrinks(velocity: real, friction: real)
    requires 0.0 <= friction <= 1.0
    ensures ApplyFriction(velocity, friction) * ApplyFriction(velocity, friction) <= velocity * velocity
    ensures 0.0 <= velocity ==> 0.0 <= ApplyFriction(velocity, friction) <= velocity
    ensures velocity <= 0.0 ==> velocity <= ApplyFriction(velocity, friction) <= 0.0
  {
    calc {
      ApplyFriction(velocity, friction) * ApplyFriction(velocity, friction);
      (velocity * friction) * (velocity * friction);
    <= { RealArith.ScaledSquare(velocity, friction); }
      velocity * velocity;
    }
  }

  /** Friction between 0 and 1 never makes the ball faster. */
  lemma FrictionNeverSpeedsUp(b: Body, friction: real)
    requires 0.0 <= friction <= 1.0
    ensures SpeedSquared(b.(vx := ApplyFriction(b.vx, friction), vy := ApplyFriction(b.vy, friction))) <= SpeedSquared(b)
  {
    var vx, vy := ApplyFriction(b.vx, friction), ApplyFriction(b.vy, friction);
    calc {
      SpeedSquared(b.(vx := vx, vy := vy));
      vx * vx + vy * vy;
    <= { FrictionShrinks(b.vx, friction); }
      b.vx * b.vx + vy * vy;
    <= { FrictionShrinks(b.vy, friction); }
      b.vx * b.vx + b.vy * b.vy;
      SpeedSquared(b);
    }
  }

  /** When the bodies overlap, the push leaves the ball touching the player: its centre moves
      along the ray from the player's centre through its own, to the sum of the radii. */
  lemma CollidePushesToContact(player: Body, ball: Body, hypot: (real, real) -> real)
    requires IsHypot(hypot) && Overlapping(player, ball, hypot)
    ensures (Collide(player, ball, hypot).x - player.x) * Distance(player, ball, hypot) == (ball.x - player.x) * MinDistance(player, ball)
    ensures (Collide(player, ball, hypot).y - player.y) * Distance(player, ball, hypot) == (ball.y - player.y) * MinDistance(player, ball)
    ensures Distance(player, Collide(player, ball, hypot), hypot) == MinDistance(player, ball)
  {
    PushedAlongNormal(player, ball, hypot);
    NormalIsUnit(hypot, ball.x - player.x, ball.y - player.y);
    HypotOfScaledUnit(hypot, Collide(player, ball, hypot).x - player.x, Collide(player, ball, hypot).y - player.y,
      Normal(ball.x - player.x, ball.y - player.y, Distance(player, ball, hypot)).0,
      Normal(ball.x - player.x, ball.y - player.y, Distance(player, ball, hypot)).1,
      MinDistance(player, ball));
  }

  /** The push puts the ball's centre at the normal times the sum of the radii from the player's. */
  lemma PushedAlongNormal(player: Body, ball: Body, hypot: (real, real) -> real)
    requires Overlapping(player, ball, hypot)
    ensures Collide(player, ball, hypot).x - player.x
            == Normal(ball.x - player.x, ball.y - player.y, Distance(player, ball, hypot)).0 * MinDistance(player, ball)
    ensures Collide(player, ball, hypot).y - player.y
            == Normal(ball.x - player.x, ball.y - player.y, Distance(player, ball, hypot)).1 * MinDistance(player, ball)
  {
  }
  /** After the push the ball's centre is still apart from the player's, in the same direction. */
  lemma ContactKeepsNormal(player: Body, ball: Body, hypot: (real, real) -> real)
    requires IsHypot(hypot) && Overlapping(player, ball, hypot)
    ensures Distance(player, Collide(player, ball, hypot), hypot) != 0.0
    ensures Normal(Collide(player, ball, hypot).x - player.x, Collide(player, ball, hypot).y - player.y,
                   Distance(player, Collide(player, ball, hypot), hypot))
            == Normal(ball.x - player.x, ball.y - player.y, Distance(player, ball, hypot))
  {
    CollidePushesToContact(player, ball, hypot);
    PushedAlongNormal(player, ball, hypot);
    NormalOfMultiple(Collide(player, ball, hypot).x - player.x, Collide(player, ball, hypot).y - player.y,
      Distance(player, Collide(player, ball, hypot), hypot),
      Normal(ball.x - player.x, ball.y - player.y, Distance(player, ball, hypot)).0,
      Normal(ball.x - player.x, ball.y - player.y, Distance(player, ball, hypot)).1,
      MinDistance(player, ball));
  }

  /** After the collision the ball is no longer closing in on the player along the normal:
      a closing speed `s` turns into a separating speed of `0.2 * -s`, a separating one is kept. */
  lemma CollideStopsApproach(player: Body, ball: Body, hypot: (real, real) -> real)
    requires IsHypot(hypot) && Overlapping(player, ball, hypot)
    ensures Distance(player, Collide(player, ball, hypot), hypot) != 0.0
    ensures ImpactSpeed(player, ball, hypot) <= 0.0 ==>
              ImpactSpeed(player, Collide(player, ball, hypot), hypot) == (BOUNCE - 1.0) * -ImpactSpeed(player, ball, hypot)
    ensures ImpactSpeed(player, ball, hypot) > 0.0 ==>
              ImpactSpeed(player, Collide(player, ball, hypot), hypot) == ImpactSpeed(player, ball, hypot)
    ensures ImpactSpeed(player, Collide(player, ball, hypot), hypot) >= 0.0
  {
    ContactKeepsNormal(player, ball, hypot);
    NormalIsUnit(hypot, ball.x - player.x, ball.y - player.y);
    if ImpactSpeed(player, ball, hypot) <= 0.0 {
      ImpulseAlongUnit(ImpactSpeed(player, ball, hypot),
        Normal(ball.x - player.x, ball.y - player.y, Distance(player, ball, hypot)).0,
        Normal(ball.x - player.x, ball.y - player.y, Distance(player, ball, hypot)).1,
        ball.vx, ball.vy, player.vx, player.vy);
    }
  }

  /** Adding the impulse `-BOUNCE * k` along a unit vector to a velocity whose component relative
      to (pvx, pvy) along it is `k` leaves the relative component `(BOUNCE - 1) * -k`. */
  lemma ImpulseAlongUnit(k: real, n0: real, n1: real, bvx: real, bvy: real, pvx: real, pvy: real)
    requires n0 * n0 + n1 * n1 == 1.0 && k == (bvx - pvx) * n0 + (bvy - pvy) * n1
    ensures (bvx + -BOUNCE * k * n0 - pvx) * n0 + (bvy + -BOUNCE * k * n1 - pvy) * n1 == (BOUNCE - 1.0) * -k
  {
    calc {
      (bvx + -BOUNCE * k * n0 - pvx) * n0 + (bvy + -BOUNCE * k * n1 - pvy) * n1;
      (bvx - pvx) * n0 + (bvy - pvy) * n1 + -BOUNCE * k * (n0 * n0 + n1 * n1);
      k + -BOUNCE * k * 1.0;
      (BOUNCE - 1.0) * -k;
    }
  }

  /** A kick in range adds a velocity of exactly KICK_STRENGTH, pointing from the player to the
      ball; with the centres on top of each other it adds nothing. */
  lemma KickImpulse(player: Body, ball: Body, hypot: (real, real) -> real)
    requires IsHypot(hypot) && InKickRange(player, ball, hypot)
    ensures Distance(player, ball, hypot) == 0.0 ==> Kick(player, ball, true, hypot) == ball
    ensures Distance(player, ball, hypot) != 0.0 ==>
              hypot(Kick(player, ball, true, hypot).vx - ball.vx, Kick(player, ball, true, hypot).vy - ball.vy) == KICK_STRENGTH
    ensures (Kick(player, ball, true, hypot).vx - ball.vx) * Distance(player, ball, hypot) == (ball.x - player.x) * KICK_STRENGTH
    ensures (Kick(player, ball, true, hypot).vy - ball.vy) * Distance(player, ball, hypot) == (ball.y - player.y) * KICK_STRENGTH
  {
    HypotZero(hypot, ball.x - player.x, ball.y - player.y);
    if Distance(player, ball, hypot) != 0.0 {
      NormalIsUnit(hypot, ball.x - player.x, ball.y - player.y);
      HypotOfScaledUnit(hypot, Kick(player, ball, true, hypot).vx - ball.vx, Kick(player, ball, true, hypot).vy - ball.vy,
        Normal(ball.x - player.x, ball.y - player.y, Distance(player, ball, hypot)).0,
        Normal(ball.x - player.x, ball.y - player.y, Distance(player, ball, hypot)).1,
        KICK_STRENGTH);
    }
  }

  // ---------------------------------------------------------------------------------------------
  // Whole ticks

  /** Without a kick and without contact after clamping, the ball's velocity is exactly FRICTION
      times the old one, so the ball never speeds up. */
  lemma BallSlowsWithoutContact(s: Snapshot, input: Input.InputSnapshot, dt: real, hypot: (real, real) -> real)
    requires !input.kick
    requires !Overlapping(MovePlayer(s.player, input, s.field, dt, hypot), MoveBall(s.ball, s.field, dt), hypot)
    ensures StepValue(s, input, dt, hypot).ball.vx == FRICTION * s.ball.vx
    ensures StepValue(s, input, dt, hypot).ball.vy == FRICTION * s.ball.vy
    ensures SpeedSquared(StepValue(s, input, dt, hypot).ball) <= SpeedSquared(s.ball)
  {
    FrictionNeverSpeedsUp(s.ball, FRICTION);
  }

  /** The player stays inside the field after any positive number of ticks. */
  lemma {:induction false} PlayerStaysInField(s: Snapshot, inputs: seq<Input.InputSnapshot>, dt: real, hypot: (real, real) -> real)
    requires Fits(s.player.radius, s.field) && inputs != []
    ensures InBounds(Ticks(s, inputs, dt, hypot).player, s.field) && Ticks(s, inputs, dt, hypot).field == s.field
    decreases |inputs|
  {
    if |inputs| > 1 {
      PlayerStaysInField(StepValue(s, inputs[0], dt, hypot), inputs[1..], dt, hypot);
    }
  }

  /** A resting player that is not steered, and a resting ball, keep their places in the first
      half of a tick while they are inside the field. */
  lemma AtRestStaysPut(p: Body, b: Body, field: Field, dt: real, hypot: (real, real) -> real)
    requires p.vx == 0.0 && p.vy == 0.0 && b.vx == 0.0 && b.vy == 0.0 && InBounds(p, field) && InBounds(b, field)
    ensures MovePlayer(p, Input.InputSnapshot(false, false, false, false, false), field, dt, hypot) == p
    ensures MoveBall(b, field, dt) == b
  {
    NoNetDirectionStandsStill(Input.InputSnapshot(false, false, false, false, false), p.speed, hypot);
    assert Steered(p, Input.InputSnapshot(false, false, false, false, false), hypot) == p;
    assert Advanced(p, dt) == p;
    assert Advanced(b, dt) == b;
    assert Slowed(b) == b;
  }

  /** The ball, unlike the player, can end a tick outside the field: it is clamped before the
      player pushes it. Here the player, beside the left wall, pushes a resting ball near the wall
      towards it, leaving its centre 4 units from the wall, closer than its radius 10. */
  lemma BallCanLeaveField(hypot: (real, real) -> real)
    requires IsHypot(hypot)
    ensures InBounds(Body(30.0, 210.0, 0.0, 0.0, 16.0, 240.0), Field(720.0, 420.0))
    ensures InBounds(Body(12.0, 210.0, 0.0, 0.0, 10.0, 0.0), Field(720.0, 420.0))
    ensures StepValue(Snapshot(0.0, Field(720.0, 420.0), Body(30.0, 210.0, 0.0, 0.0, 16.0, 240.0), Body(12.0, 210.0, 0.0, 0.0, 10.0, 0.0)),
                      Input.InputSnapshot(false, false, false, false, false), FIXED_TIME_STEP, hypot).ball.x == 4.0
  {
    assert InBounds(Body(30.0, 210.0, 0.0, 0.0, 16.0, 240.0), Field(720.0, 420.0));
    assert InBounds(Body(12.0, 210.0, 0.0, 0.0, 10.0, 0.0), Field(720.0, 420.0));
    AtRestStaysPut(Body(30.0, 210.0, 0.0, 0.0, 16.0, 240.0), Body(12.0, 210.0, 0.0, 0.0, 10.0, 0.0), Field(720.0, 420.0), FIXED_TIME_STEP, hypot);
    PushAtWall(hypot);
  }

  /** The push in that example: the ball is moved from x = 12 to x = 4. */
  lemma PushAtWall(hypot: (real, real) -> real)
    requires IsHypot(hypot)
    ensures Collide(Body(30.0, 210.0, 0.0, 0.0, 16.0, 240.0), Body(12.0, 210.0, 0.0, 0.0, 10.0, 0.0), hypot).x == 4.0
  {
    RealArith.SquareRootUnique(hypot(-18.0, 0.0), 18.0);
    assert Normal(-18.0, 0.0, 18.0) == (-1.0, 0.0);
  }

  // ---------------------------------------------------------------------------------------------
  // The mutable state

  /** A body object whose fields stepSimulation updates in place. */
  class Entity {
    var x: real
    var y: real
    var vx: real
    var vy: real
    var radius: real
    var speed: real

    function Value(): Body
      reads this
    {
      Body(x, y, vx, vy, radius, speed)
    }

    constructor (b: Body)
      ensures Value() == b
    {
      x, y, vx, vy, radius, speed := b.x, b.y, b.vx, b.vy, b.radius, b.speed;
    }
  }

  /** resolveBoundary */
  method ResolveBoundary(entity: Entity, field: Field)
    modifies entity
    ensures entity.Value() == Bound(old(entity.Value()), field)
    ensures Fits(entity.radius, field) ==> InBounds(entity.Value(), field)
    ensures entity.vx == old(entity.vx) && entity.vy == old(entity.vy) && entity.radius == old(entity.radius)
  {
    entity.x := GameLogic.Clamp(entity.x, entity.radius, field.width - entity.radius);
    entity.y := GameLogic.Clamp(entity.y, entity.radius, field.height - entity.radius);
  }

  /** Collide on an overlap, with the push and the impulse written out along the normal. */
  lemma CollideOnOverlap(player: Body, ball: Body, hypot: (real, real) -> real)
    requires Overlapping(player, ball, hypot)
    ensures Collide(player, ball, hypot)
            == ball.(x := ball.x + Normal(ball.x - player.x, ball.y - player.y, Distance(player, ball, hypot)).0
                            * (MinDistance(player, ball) - Distance(player, ball, hypot)),
                     y := ball.y + Normal(ball.x - player.x, ball.y - player.y, Distance(player, ball, hypot)).1
                            * (MinDistance(player, ball) - Distance(player, ball, hypot)),
                     vx := if ImpactSpeed(player, ball, hypot) > 0.0 then ball.vx
                           else ball.vx + -BOUNCE * ImpactSpeed(player, ball, hypot)
                                * Normal(ball.x - player.x, ball.y - player.y, Distance(player, ball, hypot)).0,
                     vy := if ImpactSpeed(player, ball, hypot) > 0.0 then ball.vy
                           else ball.vy + -BOUNCE * ImpactSpeed(player, ball, hypot)
                                * Normal(ball.x - player.x, ball.y - player.y, Distance(player, ball, hypot)).1)
  {
  }

  /** resolveCollision: only the ball changes. */
  method ResolveCollision(player: Entity, ball: Entity, hypot: (real, real) -> real)
    requires player != ball
    modifies ball
    ensures ball.Value() == Collide(player.Value(), old(ball.Value()), hypot)
  {
    ghost var before := ball.Value();
    ghost var p := player.Value();
    var dx := ball.x - player.x;
    var dy := ball.y - player.y;
    var distance := hypot(dx, dy);
    var minDistance := player.radius + ball.radius;
    if distance >= minDistance || distance == 0.0 {
      assert !Overlapping(p, before, hypot);
      return;
    }
    CollideOnOverlap(p, before, hypot);

    var overlap := minDistance - distance;
    var n := Normal(dx, dy, distance);
    var nx := n.0;
    var ny := n.1;

    PushOut(ball, nx, ny, overlap);

    var relativeVx := ball.vx - player.vx;
    var relativeVy := ball.vy - player.vy;
    var impactSpeed := relativeVx * nx + relativeVy * ny;
    assert impactSpeed == ImpactSpeed(p, before, hypot);

    if impactSpeed > 0.0 {
      return;
    }

    var impulse := -BOUNCE * impactSpeed;
    ApplyImpulse(ball, impulse, nx, ny);
  }

  /** The push of resolveCollision: the ball's centre moved by `overlap` along (nx, ny). */
  method PushOut(ball: Entity, nx: real, ny: real, overlap: real)
    modifies ball
    ensures ball.Value() == old(ball.Value()).(x := old(ball.x) + nx * overlap, y := old(ball.y) + ny * overlap)
  {
    ball.x := ball.x + nx * overlap;
    ball.y := ball.y + ny * overlap;
  }

  /** The impulse of resolveCollision: `impulse` along (nx, ny) added to the ball's velocity. */
  method ApplyImpulse(ball: Entity, impulse: real, nx: real, ny: real)
    modifies ball
    ensures ball.Value() == old(ball.Value()).(vx := old(ball.vx) + impulse * nx, vy := old(ball.vy) + impulse * ny)
  {
    ball.vx := ball.vx + impulse * nx;
    ball.vy := ball.vy + impulse * ny;
  }

  /** The first lines of stepSimulation: the player's velocity replaced by the normalised input direction times its speed. */
  method SetPlayerVelocity(player: Entity, input: Input.InputSnapshot, hypot: (real, real) -> real)
    modifies player
    ensures player.Value() == Steered(old(player.Value()), input, hypot)
  {
    var inputX := Axis(input.right, input.left);
    var inputY := Axis(input.down, input.up);
    var magnitude := OrOne(hypot(inputX, inputY));
    var n := Normal(inputX, inputY, magnitude);
    player.vx := n.0 * player.speed;
    player.vy := n.1 * player.speed;
  }

  /** One body's position moved by its velocity over `dt` seconds. */
  method Advance(entity: Entity, dt: real)
    modifies entity
    ensures entity.Value() == Advanced(old(entity.Value()), dt)
  {
    entity.x := entity.x + entity.vx * dt;
    entity.y := entity.y + entity.vy * dt;
  }

  /** The ball's velocity slowed by applyFriction. */
  method SlowDown(ball: Entity)
    modifies ball
    ensures ball.Value() == Slowed(old(ball.Value()))
  {
    ball.vx := ApplyFriction(ball.vx, FRICTION);
    ball.vy := ApplyFriction(ball.vy, FRICTION);
  }

  /** The kick at the end of stepSimulation: an in-range kick pushes the ball away from the player. */
  method ApplyKick(player: Entity, ball: Entity, kick: bool, hypot: (real, real) -> real)
    requires player != ball
    modifies ball
    ensures ball.Value() == Kick(player.Value(), old(ball.Value()), kick, hypot)
  {
    if kick {
      var dx := ball.x - player.x;
      var dy := ball.y - player.y;
      var distance := hypot(dx, dy);
      if distance < player.radius + ball.radius + KICK_RANGE_MARGIN {
        var n := Normal(dx, dy, OrOne(distance));
        ball.vx := ball.vx + n.0 * KICK_STRENGTH;
        ball.vy := ball.vy + n.1 * KICK_STRENGTH;
      }
    }
  }

  /** The simulation state object: elapsed time, the field, and the two bodies. */
  class State {
    var time: real
    var field: Field
    var player: Entity
    var ball: Entity

    ghost predicate Valid()
      reads this
    {
      player != ball
    }

    function Value(): Snapshot
      reads this, player, ball
    {
      Snapshot(time, field, player.Value(), ball.Value())
    }

    /** A state object holding the given values in fresh objects. */
    constructor From(s: Snapshot)
      ensures Valid() && fresh(player) && fresh(ball)
      ensures Value() == s
    {
      time := s.time;
      field := s.field;
      player := new Entity(s.player);
      ball := new Entity(s.ball);
    }

    /** createSimulation */
    constructor Create()
      ensures Valid() && fresh(player) && fresh(ball)
      ensures Value() == Initial()
    {
      var s := Initial();
      time := s.time;
      field := s.field;
      player := new Entity(s.player);
      ball := new Entity(s.ball);
    }

    /** cloneState: a copy sharing no object with this state, so stepping one leaves the other alone. */
    method Clone() returns (copy: State)
      requires Valid()
      ensures fresh(copy) && fresh(copy.player) && fresh(copy.ball)
      ensures copy.Valid() && copy.Value() == Value()
    {
      copy := new State.From(Value());
    }

    /** stepSimulation: advances the state in place by one tick of `dt` seconds. */
    method Step(input: Input.InputSnapshot, dt: real, hypot: (real, real) -> real)
      requires Valid()
      modifies this`time, player, ball
      ensures Valid() && player == old(player) && ball == old(ball) && field == old(field)
      ensures Value() == StepValue(old(Value()), input, dt, hypot)
      ensures time == old(time) + dt
      ensures Fits(player.radius, field) ==> InBounds(player.Value(), field)
    {
      ghost var start := Value();
      SetPlayerVelocity(player, input, hypot);
      Advance(player, dt);
      Advance(ball, dt);
      SlowDown(ball);
      ResolveBoundary(player, field);
      ResolveBoundary(ball, field);
      assert player.Value() == MovePlayer(start.player, input, field, dt, hypot);
      assert ball.Value() == MoveBall(start.ball, field, dt);
      ResolveCollision(player, ball, hypot);
      ApplyKick(player, ball, input.kick, hypot);
      time := time + dt;
    }
  }
}
