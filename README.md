# Soccer mini-games: the verified core

This project models the self-contained logic of a set of canvas soccer mini-games and proves
properties of it:

- `Simulation` (simulation.js): the fixed-tick physics stepper. A player and a ball move inside a
  rectangular field. Each tick sets the player's velocity from the input and moves both bodies.
  It then slows the ball by friction, clamps both bodies into the field, pushes the ball out of
  the player and applies a kick. The state record is a `State` object holding two `Entity`
  objects, and the steps mutate them in place. Each method is proved equal to a pure function on
  `Body`/`Snapshot` values: `Bound`, `Collide`, `Kick`, `MovePlayer`, `MoveBall`, `StepValue`.
  `Math.hypot` is a parameter `hypot`, constrained by `IsHypot`: it is non-negative and squares to
  the sum of the squares.
- `Render` (render.js): `lerp` and the interpolation of two states for drawing between ticks.
- `Input` (ui.js): the keyboard handler is a class with a set of held key codes and a one-shot
  kick latch. A value-level mirror (`Latch`, `Deliver`, `After`) carries the lemmas about event
  sequences.
- `GameLogic` (gameLogic.js): clamp, combo decay and the power-up spawn countdown, with the test
  vectors of tests/test_game_logic.py.
- `Movement` (src/game_logic.py): the Python clamp, position integration, wall collision with
  restitution, and the perpendicular spin force.
- `Skills` (script.js): `clampTier`, the value logic of `loadSkills`, the multiplier tables and
  the click handler that changes one skill of the page's `skillState` object.
- `RealArith`: small facts of real arithmetic used by the proofs.

Numbers are `real` throughout, except the combo counter, its decay step and the skill tiers,
which are `int`.

Behaviour of the code worth knowing:

- The ball starts at 0.55 of the field's width, right of centre.
- Two bodies whose centres coincide are not separated: `resolveCollision` returns early at
  simulation.js:47.
- The ball is not kept inside the field over a tick. It is clamped at simulation.js:90 and then
  pushed by the collision at simulation.js:55-56. `Simulation.BallCanLeaveField` exhibits a tick
  that leaves a ball 4 units from the left wall, with radius 10. Only the player's bounds survive
  a whole tick (`Simulation.PlayerStaysInField`).
- The two clamps differ when the bounds cross. The one of gameLogic.js (and simulation.js:1)
  returns the upper bound, the Python one the lower (`Movement.ClampsAgreeOnProperRanges`). The
  clamp of simulation.js is the same expression as that of gameLogic.js, so the model uses
  `GameLogic.Clamp` for both.

## Model

| member | source | states |
|---|---|---|
| GameLogic.Clamp | gameLogic.js:1-3 | For min <= max the result lies in [min, max] and is the value itself inside the range. Above max it is max, below min it is min. When min > max it is always max. |
| GameLogic.ApplyComboDecay | gameLogic.js:5-12 | A running timer or a non-positive combo leaves both unchanged. Otherwise the combo drops by decayAmount but never below 0, and the timer becomes 0. A non-negative decay never raises the combo, and a non-negative combo stays non-negative. |
| GameLogic.UpdatePowerUpSpawnTimer | gameLogic.js:14-25 | A spawn happens iff deltaMs >= spawnTimerMs. Without a spawn the timer drops by deltaMs and stays positive. With a spawn it restarts from the interval plus the (non-positive) remainder. No time is lost, and a timer in (0, interval] stays there for frames no longer than one interval. |
| GameLogic.TestVectors | tests/test_game_logic.py:33-52 | The outputs the repository's tests expect of clamp, applyComboDecay and updatePowerUpSpawnTimer. |
| Input.Deliver | ui.js:5-30 | A key-down adds the code and queues a kick iff the code is "Space". A key-up removes the code and leaves the kick flag alone. A read clears the queued kick and keeps the held keys. |
| Input.KeyDownIdempotent | ui.js:6 | A repeated key-down of the same code changes nothing more. |
| Input.KickReportedAtMostOnce | ui.js:7-9 | Over any event sequence, the kicks reads report plus the one still queued never exceed the Space presses (plus a kick queued at the start). |
| Input.KickQueuedIffUnreadPress | ui.js:7-9 | After any event sequence a kick is queued iff some Space press has not yet been followed by a read (or it was queued at the start and nothing has read it). |
| Input.InputHandler.constructor | ui.js:2-3 | A new handler holds no keys and no queued kick. |
| Input.InputHandler.OnKeyDown | ui.js:5-10 | The code joins the held set. The kick flag becomes set iff it was already set or the code is "Space". |
| Input.InputHandler.OnKeyUp | ui.js:12-14 | The code leaves the held set and the kick flag is unchanged. |
| Input.InputHandler.GetInput | ui.js:20-30 | Each direction is reported iff its arrow key or its WASD alias is held. The kick reported is the queued one, which is then cleared. The held set is unchanged. |
| Input.ReadTwice | ui.js:26-28 | Of two reads in a row, the second never reports a kick, and apart from the kick both report the same keys. |
| Simulation.Initial | simulation.js:5-26 | The 720 by 420 field at time 0. Both bodies are at rest and inside the field, with radii 16 and 10 and player speed 240. The player starts at (216, 210) and the ball at (396, 210): 0.3 and 0.55 of the width, on the middle line, apart by more than the sum of the radii. |
| Simulation.Normal | simulation.js:52-53 | The result times the length gives the vector back on both axes. |
| Simulation.PlayerVelocity | simulation.js:73-78 | An axis whose two flags agree gets velocity 0. |
| Simulation.PlayerVelocityAlongInput | simulation.js:73-78 | Each velocity component, times the input's length (or 1 without input), is the net input on that axis times the speed, so the velocity points along the net input direction. |
| Simulation.NoNetDirectionStandsStill | simulation.js:73-78 | No flags, or opposing flags on both axes, give the velocity (0, 0). |
| Simulation.SingleDirectionFullSpeed | simulation.js:73-78 | A single net direction gives exactly +speed or -speed on that axis and 0 on the other. |
| Simulation.MovingAtExactSpeed | simulation.js:73-78 | Whenever some axis has a net direction, diagonals included, the velocity has length exactly the player's speed. |
| Simulation.FrictionShrinks | simulation.js:35 | A factor in [0, 1] keeps the velocity's sign and never increases its size. |
| Simulation.FrictionNeverSpeedsUp | simulation.js:86-87 | Friction in [0, 1] on both components never increases the squared speed. |
| Simulation.Bound | simulation.js:37-40 | Each axis is clamped on its own: a coordinate in [radius, size - radius] is kept, one above goes to size - radius, and one below goes to radius (when the range is not empty). Velocity, radius and speed are kept. A body whose radius fits the field ends inside it, and a body already inside is unchanged. |
| Simulation.Collide | simulation.js:42-69 | Radius and speed are kept. Without overlap, or with coincident centres, the ball is unchanged. A separating ball keeps its velocity. |
| Simulation.CollidePushesToContact | simulation.js:51-56 | On overlap the ball's centre moves along the ray from the player's centre through its own, to exactly the sum of the radii from the player. |
| Simulation.PushedAlongNormal | simulation.js:51-56 | The pushed centre is the player's centre plus the unit normal times the sum of the radii. |
| Simulation.ContactKeepsNormal | simulation.js:51-56 | After the push the centres are still apart, and the normal between them is unchanged. |
| Simulation.CollideStopsApproach | simulation.js:58-68 | After the collision the ball is no longer approaching along the normal. A closing speed s becomes the separating speed 0.2 times -s, and a separating speed is kept. |
| Simulation.Kick | simulation.js:93-103 | The position, radius and speed are kept. Without a kick, or out of range (distance not below the sum of the radii plus 6), the ball is unchanged. |
| Simulation.KickImpulse | simulation.js:93-103 | An in-range kick adds a velocity of length exactly 320, pointing from the player to the ball. With coincident centres it adds nothing. |
| Simulation.Steered | simulation.js:77-78 | The velocity becomes the input velocity at the body's speed, and everything else is kept. |
| Simulation.Advanced | simulation.js:80-84 | The centre moves to position + velocity · dt on both axes. Velocity, radius and speed are kept, and dt = 0 moves nothing. |
| Simulation.AdvancedIsIntegration | simulation.js:80-84 | Moving a body is the Python integrate_position applied to its centre and velocity. |
| Simulation.AdvancedSplits | simulation.js:80-84 | Moving for dt1 and then dt2 is moving for dt1 + dt2. |
| Simulation.Slowed | simulation.js:86-87 | Both velocity components are multiplied by exactly 0.985, and nothing else changes. |
| Simulation.MovePlayer | simulation.js:73-89 | After the first half of a tick the player has the input velocity, its radius and speed. If it fits the field, it is inside it. |
| Simulation.MoveBall | simulation.js:83-90 | After the first half of a tick the ball's velocity is 0.985 times the old one, radius and speed are kept, and if it fits the field it is inside it. |
| Simulation.StepValue | simulation.js:71-106 | Time advances by exactly dt and the field is unchanged. The player is the clamped moved player and is not touched again, so if it fits the field it is inside it. Radii and speeds are kept. |
| Simulation.BallSlowsWithoutContact | simulation.js:83-103 | Without a kick and without contact after the clamp, the ball's velocity is exactly 0.985 times the old one, and its speed never increases. |
| Simulation.PlayerStaysInField | simulation.js:89-104 | After any non-empty run of ticks, a player that fits the field is inside it, and the field is unchanged. |
| Simulation.AtRestStaysPut | simulation.js:77-90 | An unsteered resting player and a resting ball, both inside the field, keep their places through the first half of a tick. |
| Simulation.PushAtWall | simulation.js:51-56 | The collision of the counterexample below moves the ball's centre from x = 12 to x = 4. |
| Simulation.BallCanLeaveField | simulation.js:89-91 | A resting ball near the left wall (centre at x = 12), with the resting player beside it, ends the tick at x = 4 with radius 10: outside the field. |
| Simulation.Entity.constructor | simulation.js:10-24 | The new body object holds the given values. |
| Simulation.ResolveBoundary | simulation.js:37-40 | The entity becomes Bound of its old value: inside the field when it fits, with velocity and radius unchanged. |
| Simulation.ResolveCollision | simulation.js:42-69 | Only the ball changes, and it becomes Collide of the player and its old value. |
| Simulation.SetPlayerVelocity | simulation.js:73-78 | The player becomes Steered of its old value. |
| Simulation.Advance | simulation.js:80-84 | The entity becomes Advanced of its old value. |
| Simulation.SlowDown | simulation.js:86-87 | The ball becomes Slowed of its old value. |
| Simulation.PushOut | simulation.js:55-56 | In place: the ball's centre moves by the overlap along the given normal, and nothing else changes. |
| Simulation.ApplyImpulse | simulation.js:66-68 | In place: the impulse along the given normal is added to the ball's velocity, and nothing else changes. |
| Simulation.ApplyKick | simulation.js:93-103 | Only the ball changes, and it becomes Kick of the player and its old value. |
| Simulation.State.From | simulation.js:28-33 | A state with fresh, distinct body objects holding the given values. |
| Simulation.State.Create | simulation.js:5-26 | A state with fresh, distinct body objects holding the initial values. |
| Simulation.State.Clone | simulation.js:28-33 | A copy with equal values and entirely fresh objects, so it shares nothing with the original. |
| Simulation.State.Step | simulation.js:71-106 | In place: the new value is StepValue of the old one, the body objects and the field are kept, time grows by dt, and a player that fits the field is inside it. |
| Render.Lerp | render.js:1 | Alpha 0 gives start, alpha 1 gives end, and equal endpoints give that endpoint. |
| Render.LerpBetween | render.js:1 | For alpha in [0, 1] the result lies between start and end, in either order. |
| Render.LerpExtrapolates | render.js:1 | Alpha is not clamped: for start < end, alpha above 1 gives a point beyond end, and alpha below 0 a point before start. |
| Render.LerpSymmetric | render.js:1 | Blending from end to start with weight 1 - alpha gives the same point. |
| Render.Interpolate | render.js:3-16 | The field, velocities, radii and speeds are those of current. Alpha 0 gives previous's time and positions, and alpha 1 gives current exactly. |
| Render.InterpolateStill | render.js:3-16 | Two states with the same time and positions interpolate to current for every alpha. |
| Render.InterpolateBetween | render.js:3-16 | For alpha in [0, 1] the time and all four coordinates lie between their previous and current values. |
| Movement.Clamp | src/game_logic.py:11-13 | For min <= max the result lies in [min, max] and is the value itself inside the range. Below min it is min, above max it is max. When min > max it is always min. |
| Movement.ClampsAgreeOnProperRanges | src/game_logic.py:11-13 | On every proper range this clamp equals the one of gameLogic.js. With crossed bounds this one gives the lower bound and that one the upper. |
| Movement.IntegratePosition | src/game_logic.py:16-18 | dt = 0 or zero velocity leaves the position unchanged. |
| Movement.IntegrateSplits | src/game_logic.py:16-18 | Integrating for dt1 and then dt2 is integrating for dt1 + dt2. |
| Movement.IntegrateReverses | src/game_logic.py:16-18 | Integrating for dt and then -dt returns to the start. |
| Movement.ResolveWallCollision | src/game_logic.py:21-57 | Each axis is clamped on its own: a coordinate in [radius, size - radius] is kept, one below goes to radius, and one above goes to size - radius (when the range is not empty). A radius that fits gives a position inside the shrunk rectangle, and a position already inside is returned with no collision. collided holds iff the position moved. On an unmoved axis the velocity is kept; on a moved axis it becomes -v times restitution. |
| Movement.WallCollisionSettles | src/game_logic.py:40-57 | Resolving a resolved position again, with any velocity, reports no collision and changes nothing. |
| Movement.WallBounceNeverSpeedsUp | src/game_logic.py:49-55 | A restitution in [0, 1] never increases either velocity component's size, and the default 1 keeps both sizes exactly. |
| Movement.SpinFactor | src/game_logic.py:72 | Zero spin, zero strength or zero dt gives factor 0. |
| Movement.NoSpinNoChange | src/game_logic.py:70-73 | Zero spin, zero strength or zero dt returns the velocity unchanged. |
| Movement.SpinIsPerpendicular | src/game_logic.py:70-73 | The change spin adds has dot product 0 with the velocity. |
| Movement.SpinTurnsClockwise | src/game_logic.py:66-73 | The cross product of the velocity with the change spin adds is the spin factor times the squared speed. A positive factor therefore turns the velocity clockwise on a screen whose y axis points down. |
| Movement.SpinNeverSlows | src/game_logic.py:70-73 | The squared speed is multiplied by exactly 1 + f * f, with f the spin factor, so it never decreases. |
| Skills.ClampTier | script.js:20 | The result is in [0, 3], clamping from below to 0 and from above to 3, and it is the identity on 0..3. |
| Skills.LoadSkills | script.js:24-40 | All tiers are valid. Nothing stored, or unparseable text, gives the defaults (all 0). A record gives each field, with a missing field as 0, passed through clampTier. |
| Skills.LoadKeepsValidTiers | script.js:31-35 | A missing field loads as 0, and a stored tier in 0..3 loads as itself. |
| Skills.SaveThenLoad | script.js:24-44 | Saving valid tiers and loading them back gives the same tiers. |
| Skills.Multipliers | script.js:7-11 | Each skill's table has four entries, starting at 1 and strictly increasing. |
| Skills.Multiplier | script.js:60-70 | A valid tier picks a multiplier in [1, 1.2], and that multiplier is 1 iff the tier is 0. |
| Skills.MultiplierMonotone | script.js:7-11 | A higher tier never gives a lower multiplier. |
| Skills.WithTier | script.js:84 | The chosen skill gets the new tier and the other two keep theirs. |
| Skills.SkillState.constructor | script.js:77 | The page's state starts as what loadSkills returns, with valid tiers. |
| Skills.SkillState.Select | script.js:80-88 | A click sets the clicked skill to clampTier of the button's tier, and the other two skills are unchanged. Valid tiers stay valid. |

## Left out

- Canvas drawing (`render`, render.js:18-46): it only draws on a display surface.
- Registering and removing the key listeners (ui.js:16-17, 31-34): the handlers are methods called directly.
- `localStorage`, `JSON.parse`, `saveSkills` and the DOM updates in script.js (`updateButtonStates`, `updateStats`, `formatMultiplier`). The stored value is the `Stored` datatype: nothing, unparseable text, or a record of optional integer fields. JSON text `null` and any other value whose field access throws count as unparseable.
- `decay_spin` (src/game_logic.py:76-78): it is built on `math.exp`.
- Floating point: numbers are `real`. `Math.hypot` is a parameter constrained to be a non-negative square root. `math.isclose` in `resolve_wall_collision` is exact equality, so a clamp that moves a coordinate by less than the tolerance counts as a collision in the model and not in the program.
- Skills.LoadSkills: stored fields are integers or missing (a JSON `null` field counts as missing, as `?? 0` treats it). Other JSON values are not modelled. `Math.max` coerces them to numbers: a numeric string such as `"2"` loads as tier 2 and `true` as tier 1. A fractional number, or a value that becomes `NaN` (a non-numeric string, an object), passes through clampTier unchanged and is not a valid index into the multiplier tables.
- Skills.SkillState.Select: the button's tier is an `int`. A `NaN` from `Number(...)` on a malformed data attribute is not modelled, and neither is a button naming an unknown skill.
- The frame-loop driver that calls stepSimulation with FIXED_TIME_STEP and interpolates between ticks is not part of this model.
- Simulation.Ticks: it repeats StepValue over a sequence of inputs. It has no contract of its own and is stated about only through `PlayerStaysInField`.
- Simulation.ApplyFriction and Movement.ApplySpinForce have no contracts on their own results. Their properties are the lemmas `FrictionShrinks`, `NoSpinNoChange`, `SpinIsPerpendicular`, `SpinTurnsClockwise` and `SpinNeverSlows`.
- The ball record of simulation.js has no `speed` field. The model's `Body` carries one, set to 0 for the ball and never read.
