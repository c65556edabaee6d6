/** The movement helpers of src/game_logic.py: clamping, position integration, bouncing off the
    walls of a rectangle and a sideways spin force. Vectors are pairs of `real`. */
module Movement {
  import GameLogic
  import RealArith

  type Vector = (real, real)

  /** `max(min_value, min(value, max_value))`. When the bounds cross, the lower bound wins. */
  function Clamp(value: real, minValue: real, maxValue: real): (r: real)
    ensures minValue <= maxValue ==> minValue <= r <= maxValue
    ensures minValue <= value <= maxValue ==> r == value
    ensures value < minValue ==> r == minValue
    ensures value > maxValue && minValue <= maxValue ==> r == maxValue
    ensures minValue > maxValue ==> r == minValue
  {
    var atMostMax := if maxValue < value then maxValue else value;
    if atMostMax > minValue then atMostMax else minValue
  }

  /** The two clamps of the repository agree on every proper range and part ways only when the
      bounds cross: this one returns the lower bound, the one of gameLogic.js the upper. */
  lemma ClampsAgreeOnProperRanges(value: real, minValue: real, maxValue: real)
    ensures minValue <= maxValue ==> Clamp(value, minValue, maxValue) == GameLogic.Clamp(value, minValue, maxValue)
    ensures minValue > maxValue ==>
              Clamp(value, minValue, maxValue) == minValue && GameLogic.Clamp(value, minValue, maxValue) == maxValue
  {
  }

  /** integrate_position: the position after moving with `velocity` for `dt`. */
  function IntegratePosition(position: Vector, velocity: Vector, dt: real): (r: Vector)
    ensures dt == 0.0 ==> r.0 == position.0 && r.1 == position.1
    ensures velocity.0 == 0.0 && velocity.1 == 0.0 ==> r.0 == position.0 && r.1 == position.1
  {
    (position.0 + velocity.0 * dt, position.1 + velocity.1 * dt)
  }

  /** Moving for dt1 and then for dt2 at the same velocity is moving for dt1 + dt2. */
  lemma IntegrateSplits(position: Vector, velocity: Vector, dt1: real, dt2: real)
    ensures IntegratePosition(IntegratePosition(position, velocity, dt1), velocity, dt2)
            == IntegratePosition(position, velocity, dt1 + dt2)
  {
    calc {
      IntegratePosition(IntegratePosition(position, velocity, dt1), velocity, dt2).0;
      IntegratePosition(position, velocity, dt1).0 + velocity.0 * dt2;
      position.0 + velocity.0 * dt1 + velocity.0 * dt2;
      position.0 + velocity.0 * (dt1 + dt2);
      IntegratePosition(position, velocity, dt1 + dt2).0;
    }
    calc {
      IntegratePosition(IntegratePosition(position, velocity, dt1), velocity, dt2).1;
      IntegratePosition(position, velocity, dt1).1 + velocity.1 * dt2;
      position.1 + velocity.1 * dt1 + velocity.1 * dt2;
      position.1 + velocity.1 * (dt1 + dt2);
      IntegratePosition(position, velocity, dt1 + dt2).1;
    }
  }

  /** Moving back for the same time returns to the start. */
  lemma IntegrateReverses(position: Vector, velocity: Vector, dt: real)
    ensures IntegratePosition(IntegratePosition(position, velocity, dt), velocity, -dt) == position
  {
    IntegrateSplits(position, velocity, dt, -dt);
  }

  /** A centre at which a circle of `radius` lies inside the rectangle [0, width] by [0, height]. */
  predicate Inside(position: Vector, radius: real, bounds: Vector) {
    radius <= position.0 <= bounds.0 - radius && radius <= position.1 <= bounds.1 - radius
  }

  /** What resolve_wall_collision returns: the new position, the new velocity and whether it hit a wall. */
  datatype WallHit = WallHit(position: Vector, velocity: Vector, collided: bool)

  /** resolve_wall_collision: the centre clamped into the rectangle shrunk by the radius; on each
      axis where that moved the centre, the velocity is reversed and scaled by `restitution`.
      `math.isclose` is modelled as exact equality. */
  function ResolveWallCollision(position: Vector, velocity: Vector, radius: real, bounds: Vector,
                                restitution: real := 1.0): (r: WallHit)
    ensures 2.0 * radius <= bounds.0 && 2.0 * radius <= bounds.1 ==> Inside(r.position, radius, bounds)
    ensures Inside(position, radius, bounds) ==> r == WallHit(position, velocity, false)
    // each axis clamped on its own: kept in range, sent to the nearer bound outside it
    ensures radius <= position.0 <= bounds.0 - radius ==> r.position.0 == position.0
    ensures position.0 < radius ==> r.position.0 == radius
    ensures position.0 > bounds.0 - radius && radius <= bounds.0 - radius ==> r.position.0 == bounds.0 - radius
    ensures radius <= position.1 <= bounds.1 - radius ==> r.position.1 == position.1
    ensures position.1 < radius ==> r.position.1 == radius
    ensures position.1 > bounds.1 - radius && radius <= bounds.1 - radius ==> r.position.1 == bounds.1 - radius
    ensures r.collided <==> r.position != position
    ensures r.position.0 == position.0 ==> r.velocity.0 == velocity.0
    ensures r.position.0 != position.0 ==> r.velocity.0 == -velocity.0 * restitution
    ensures r.position.1 == position.1 ==> r.velocity.1 == velocity.1
    ensures r.position.1 != position.1 ==> r.velocity.1 == -velocity.1 * restitution
  {
    var minX, maxX := radius, bounds.0 - radius;
    var minY, maxY := radius, bounds.1 - radius;
    var newX := Clamp(position.0, minX, maxX);
    var newY := Clamp(position.1, minY, maxY);
    var collidedX := newX != position.0;
    var collidedY := newY != position.1;
    var newVx := if collidedX then -velocity.0 * restitution else velocity.0;
    var newVy := if collidedY then -velocity.1 * restitution else velocity.1;
    WallHit((newX, newY), (newVx, newVy), collidedX || collidedY)
  }

  /** Once resolved, a position that fits stays put: resolving it again reports no collision
      and keeps any velocity. */
  lemma WallCollisionSettles(position: Vector, velocity: Vector, radius: real, bounds: Vector, restitution: real,
                             later: Vector)
    requires 2.0 * radius <= bounds.0 && 2.0 * radius <= bounds.1
    ensures ResolveWallCollision(ResolveWallCollision(position, velocity, radius, bounds, restitution).position,
                                 later, radius, bounds, restitution)
            == WallHit(ResolveWallCollision(position, velocity, radius, bounds, restitution).position, later, false)
  {
  }

  /** A restitution in [0, 1] never makes either velocity component larger; the default of 1
      keeps its size exactly. */
  lemma WallBounceNeverSpeedsUp(position: Vector, velocity: Vector, radius: real, bounds: Vector, restitution: real)
    requires 0.0 <= restitution <= 1.0
    ensures var r := ResolveWallCollision(position, velocity, radius, bounds, restitution);
            r.velocity.0 * r.velocity.0 <= velocity.0 * velocity.0 && r.velocity.1 * r.velocity.1 <= velocity.1 * velocity.1
    ensures var r := ResolveWallCollision(position, velocity, radius, bounds, restitution);
            restitution == 1.0 ==> r.velocity.0 * r.velocity.0 == velocity.0 * velocity.0 && r.velocity.1 * r.velocity.1 == velocity.1 * velocity.1
  {
    var r := ResolveWallCollision(position, velocity, radius, bounds, restitution);
    if r.position.0 != position.0 {
      calc {
        r.velocity.0 * r.velocity.0;
        (-velocity.0 * restitution) * (-velocity.0 * restitution);
        (velocity.0 * restitution) * (velocity.0 * restitution);
      <= { RealArith.ScaledSquare(velocity.0, restitution); }
        velocity.0 * velocity.0;
      }
    }
    if r.position.1 != position.1 {
      calc {
        r.velocity.1 * r.velocity.1;
        (-velocity.1 * restitution) * (-velocity.1 * restitution);
        (velocity.1 * restitution) * (velocity.1 * restitution);
      <= { RealArith.ScaledSquare(velocity.1, restitution); }
        velocity.1 * velocity.1;
      }
    }
  }

  /** The strength of the sideways push in one call: spin_strength * spin * dt. */
  function SpinFactor(spinStrength: real, spin: real, dt: real): (f: real)
    ensures spin == 0.0 || dt == 0.0 || spinStrength == 0.0 ==> f == 0.0
  {
    spinStrength * spin * dt
  }

  /** apply_spin_force: the velocity plus its perpendicular (-vy, vx) scaled by the spin factor. */
  function ApplySpinForce(velocity: Vector, spin: real, spinStrength: real, dt: real): (r: Vector)
  {
    var (vx, vy) := velocity;
    var (perpX, perpY) := (-vy, vx);
    var factor := SpinFactor(spinStrength, spin, dt);
    (vx + perpX * factor, vy + perpY * factor)
  }

  /** Without spin, strength or time the velocity is returned unchanged. */
  lemma NoSpinNoChange(velocity: Vector, spin: real, spinStrength: real, dt: real)
    requires spin == 0.0 || dt == 0.0 || spinStrength == 0.0
    ensures ApplySpinForce(velocity, spin, spinStrength, dt) == velocity
  {
    calc {
      ApplySpinForce(velocity, spin, spinStrength, dt).0;
      velocity.0 + -velocity.1 * SpinFactor(spinStrength, spin, dt);
      velocity.0 + -velocity.1 * 0.0;
      velocity.0;
    }
    calc {
      ApplySpinForce(velocity, spin, spinStrength, dt).1;
      velocity.1 + velocity.0 * SpinFactor(spinStrength, spin, dt);
      velocity.1 + velocity.0 * 0.0;
      velocity.1;
    }
  }

  /** The change spin makes is perpendicular to the velocity it acts on. */
  lemma SpinIsPerpendicular(velocity: Vector, spin: real, spinStrength: real, dt: real)
    ensures (ApplySpinForce(velocity, spin, spinStrength, dt).0 - velocity.0) * velocity.0
          + (ApplySpinForce(velocity, spin, spinStrength, dt).1 - velocity.1) * velocity.1 == 0.0
  {
    calc {
      (ApplySpinForce(velocity, spin, spinStrength, dt).0 - velocity.0) * velocity.0
      + (ApplySpinForce(velocity, spin, spinStrength, dt).1 - velocity.1) * velocity.1;
      (-velocity.1 * SpinFactor(spinStrength, spin, dt)) * velocity.0 + (velocity.0 * SpinFactor(spinStrength, spin, dt)) * velocity.1;
      0.0;
    }
  }

  /** Positive spin turns the velocity clockwise on the screen, whose y axis points down: the
      cross product of the velocity with the change spin adds is the spin factor times the squared
      speed, so it has the factor's sign. */
  lemma SpinTurnsClockwise(velocity: Vector, spin: real, spinStrength: real, dt: real)
    ensures velocity.0 * (ApplySpinForce(velocity, spin, spinStrength, dt).1 - velocity.1)
          - velocity.1 * (ApplySpinForce(velocity, spin, spinStrength, dt).0 - velocity.0)
            == SpinFactor(spinStrength, spin, dt) * (velocity.0 * velocity.0 + velocity.1 * velocity.1)
  {
    calc {
      velocity.0 * (ApplySpinForce(velocity, spin, spinStrength, dt).1 - velocity.1)
      - velocity.1 * (ApplySpinForce(velocity, spin, spinStrength, dt).0 - velocity.0);
      velocity.0 * (velocity.0 * SpinFactor(spinStrength, spin, dt)) - velocity.1 * (-velocity.1 * SpinFactor(spinStrength, spin, dt));
      SpinFactor(spinStrength, spin, dt) * (velocity.0 * velocity.0 + velocity.1 * velocity.1);
    }
  }

  /** Being a sideways push, spin never slows a body: the squared speed grows by the factor
      1 + f * f, where f is the spin factor. */
  lemma SpinNeverSlows(velocity: Vector, spin: real, spinStrength: real, dt: real)
    ensures var r := ApplySpinForce(velocity, spin, spinStrength, dt);
            var f := SpinFactor(spinStrength, spin, dt);
            r.0 * r.0 + r.1 * r.1 == (velocity.0 * velocity.0 + velocity.1 * velocity.1) * (1.0 + f * f)
    ensures var r := ApplySpinForce(velocity, spin, spinStrength, dt);
            r.0 * r.0 + r.1 * r.1 >= velocity.0 * velocity.0 + velocity.1 * velocity.1
  {
    var r := ApplySpinForce(velocity, spin, spinStrength, dt);
    var f := SpinFactor(spinStrength, spin, dt);
    calc {
      r.0 * r.0 + r.1 * r.1;
      (velocity.0 + -velocity.1 * f) * (velocity.0 + -velocity.1 * f) + (velocity.1 + velocity.0 * f) * (velocity.1 + velocity.0 * f);
      (velocity.0 * velocity.0 + velocity.1 * velocity.1) * (1.0 + f * f);
    >= { RealArith.GrowsByAtLeastOne(velocity.0, velocity.1, f); }
      velocity.0 * velocity.0 + velocity.1 * velocity.1;
    }
  }
}
