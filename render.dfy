/** The interpolation of render.js: the frame drawn between two fixed ticks blends the time and
    the two positions linearly and copies everything else from the newer state. */
module Render {
  import Simulation
  import RealArith

  /** The point `alpha` of the way from `start` to `end`; alpha is not clamped. */
  function Lerp(start: real, end: real, alpha: real): (r: real)
    ensures alpha == 0.0 ==> r == start
    ensures alpha == 1.0 ==> r == end
    ensures start == end ==> r == start
  {
    start + (end - start) * alpha
  }

  /** For alpha in [0, 1] the blend lies between the two endpoints, whichever is larger. */
  lemma LerpBetween(start: real, end: real, alpha: real)
    requires 0.0 <= alpha <= 1.0
    ensures Between(Lerp(start, end, alpha), start, end)
  {
    if start <= end {
      calc {
        Lerp(start, end, alpha);
        start + (end - start) * alpha;
      >= { RealArith.FractionOfTheWay(start, end, alpha); }
        start;
      }
      calc {
        Lerp(start, end, alpha);
        start + (end - start) * alpha;
      <= { RealArith.FractionOfTheWay(start, end, alpha); }
        end;
      }
    } else {
      calc {
        Lerp(start, end, alpha);
        start + (end - start) * alpha;
      >= { RealArith.FractionOfTheWay(start, end, alpha); }
        end;
      }
      calc {
        Lerp(start, end, alpha);
        start + (end - start) * alpha;
      <= { RealArith.FractionOfTheWay(start, end, alpha); }
        start;
      }
    }
  }

  /** Alpha is not clamped: outside [0, 1] the blend runs past the endpoints. */
  lemma LerpExtrapolates(start: real, end: real, alpha: real)
    ensures start < end && 1.0 < alpha ==> Lerp(start, end, alpha) > end
    ensures start < end && alpha < 0.0 ==> Lerp(start, end, alpha) < start
  {
    if start < end && 1.0 < alpha {
      calc {
        Lerp(start, end, alpha);
        start + (end - start) * alpha;
      > { RealArith.BeyondTheWay(start, end, alpha); }
        end;
      }
    }
    if start < end && alpha < 0.0 {
      calc {
        Lerp(start, end, alpha);
        start + (end - start) * alpha;
      < { RealArith.BeyondTheWay(start, end, alpha); }
        start;
      }
    }
  }

  /** Blending from the other end with the complementary weight gives the same point. */
  lemma LerpSymmetric(start: real, end: real, alpha: real)
    ensures Lerp(start, end, alpha) == Lerp(end, start, 1.0 - alpha)
  {
    calc {
      Lerp(end, start, 1.0 - alpha);
      end + (start - end) * (1.0 - alpha);
      end + (start - end) - (start - end) * alpha;
      start + (end - start) * alpha;
      Lerp(start, end, alpha);
    }
  }

  /** interpolateState: a new state whose time and positions are blended and whose velocities,
      radii, speeds and field are those of `current`. */
  function Interpolate(previous: Simulation.Snapshot, current: Simulation.Snapshot, alpha: real): (r: Simulation.Snapshot)
    ensures r.field == current.field
    ensures r.player.(x := current.player.x, y := current.player.y) == current.player
    ensures r.ball.(x := current.ball.x, y := current.ball.y) == current.ball
    ensures alpha == 0.0 ==> r.time == previous.time && r.player.x == previous.player.x && r.player.y == previous.player.y
                             && r.ball.x == previous.ball.x && r.ball.y == previous.ball.y
    ensures alpha == 1.0 ==> r == current
  {
    Simulation.Snapshot(
      Lerp(previous.time, current.time, alpha),
      current.field,
      current.player.(x := Lerp(previous.player.x, current.player.x, alpha), y := Lerp(previous.player.y, current.player.y, alpha)),
      current.ball.(x := Lerp(previous.ball.x, current.ball.x, alpha), y := Lerp(previous.ball.y, current.ball.y, alpha)))
  }

  /** The time and the four coordinates that interpolation blends. */
  predicate SameMoment(a: Simulation.Snapshot, b: Simulation.Snapshot) {
    a.time == b.time && a.player.x == b.player.x && a.player.y == b.player.y && a.ball.x == b.ball.x && a.ball.y == b.ball.y
  }

  /** Two states at the same time and places interpolate to the newer one for any alpha. */
  lemma InterpolateStill(previous: Simulation.Snapshot, current: Simulation.Snapshot, alpha: real)
    requires SameMoment(previous, current)
    ensures Interpolate(previous, current, alpha) == current
  {
  }

  /** For alpha in [0, 1] every blended value lies between the old and the new one. */
  lemma InterpolateBetween(previous: Simulation.Snapshot, current: Simulation.Snapshot, alpha: real)
    requires 0.0 <= alpha <= 1.0
    ensures Between(Interpolate(previous, current, alpha).time, previous.time, current.time)
    ensures Between(Interpolate(previous, current, alpha).player.x, previous.player.x, current.player.x)
    ensures Between(Interpolate(previous, current, alpha).player.y, previous.player.y, current.player.y)
    ensures Between(Interpolate(previous, current, alpha).ball.x, previous.ball.x, current.ball.x)
    ensures Between(Interpolate(previous, current, alpha).ball.y, previous.ball.y, current.ball.y)
  {
    LerpBetween(previous.time, current.time, alpha);
    LerpBetween(previous.player.x, current.player.x, alpha);
    LerpBetween(previous.player.y, current.player.y, alpha);
    LerpBetween(previous.ball.x, current.ball.x, alpha);
    LerpBetween(previous.ball.y, current.ball.y, alpha);
  }

  /** `v` lies in the closed interval spanned by `a` and `b`. */
  predicate Between(v: real, a: real, b: real) {
    (a <= v <= b) || (b <= v <= a)
  }
}
