/** Game-rule helpers of gameLogic.js: clamping, combo decay and the power-up spawn countdown.
    JavaScript numbers are modelled as `real`, except the combo counter and its decay step,
    which count hits and are modelled as `int`. */
module GameLogic {

  /** `Math.min(Math.max(value, min), max)`. When `min > max` the upper bound wins. */
  function Clamp(value: real, min: real, max: real): (r: real)
    ensures min <= max ==> min <= r <= max
    ensures min <= value <= max ==> r == value
    ensures value > max ==> r == max
    ensures value < min && min <= max ==> r == min
    ensures min > max ==> r == max
  {
    var atLeastMin := if value > min then value else min;
    if atLeastMin < max then atLeastMin else max
  }

  datatype Combo = Combo(combo: int, comboTimer: real)

  /** Once the combo timer has run out, a positive combo loses `decayAmount`, never dropping below 0. */
  function ApplyComboDecay(combo: int, comboTimer: real, decayAmount: int := 1): (r: Combo)
    ensures comboTimer > 0.0 || combo <= 0 ==> r == Combo(combo, comboTimer)
    ensures comboTimer <= 0.0 && combo > 0 ==>
              r.comboTimer == 0.0 && r.combo == (if combo - decayAmount > 0 then combo - decayAmount else 0)
    ensures decayAmount >= 0 ==> r.combo <= combo
    ensures combo >= 0 ==> r.combo >= 0
  {
    if comboTimer > 0.0 || combo <= 0 then
      Combo(combo, comboTimer)
    else
      var nextCombo := if combo - decayAmount > 0 then combo - decayAmount else 0;
      Combo(nextCombo, 0.0)
  }

  datatype SpawnUpdate = SpawnUpdate(shouldSpawn: bool, nextTimerMs: real)

  /** Counts the spawn timer down by `deltaMs`; when it reaches zero a power-up spawns and the
      timer restarts from `spawnIntervalMs`, carrying over the overshoot. */
  function UpdatePowerUpSpawnTimer(spawnTimerMs: real, deltaMs: real, spawnIntervalMs: real): (r: SpawnUpdate)
    ensures r.shouldSpawn <==> deltaMs >= spawnTimerMs
    ensures !r.shouldSpawn ==> r.nextTimerMs == spawnTimerMs - deltaMs && r.nextTimerMs > 0.0
    ensures r.shouldSpawn ==> r.nextTimerMs == spawnIntervalMs + (spawnTimerMs - deltaMs) && r.nextTimerMs <= spawnIntervalMs
    // no time is lost: the timer drops by exactly deltaMs, plus one interval per spawn
    ensures r.nextTimerMs + deltaMs == spawnTimerMs + (if r.shouldSpawn then spawnIntervalMs else 0.0)
    // a timer in (0, interval] stays there for any frame no longer than one interval
    ensures 0.0 < spawnTimerMs <= spawnIntervalMs && 0.0 <= deltaMs <= spawnIntervalMs ==>
              0.0 < r.nextTimerMs <= spawnIntervalMs
  {
    var remaining := spawnTimerMs - deltaMs;
    if remaining > 0.0 then
      SpawnUpdate(false, remaining)
    else
      SpawnUpdate(true, spawnIntervalMs + remaining)
  }

  /** The inputs and outputs the repository's tests expect of these three functions. */
  lemma TestVectors()
    ensures Clamp(5.0, 0.0, 3.0) == 3.0 && Clamp(-2.0, 0.0, 3.0) == 0.0 && Clamp(2.0, 0.0, 3.0) == 2.0
    ensures ApplyComboDecay(4, 0.0) == Combo(3, 0.0) && ApplyComboDecay(0, 0.0) == Combo(0, 0.0)
    ensures UpdatePowerUpSpawnTimer(500.0, 200.0, 1000.0) == SpawnUpdate(false, 300.0)
    ensures UpdatePowerUpSpawnTimer(100.0, 150.0, 1000.0) == SpawnUpdate(true, 950.0)
  {
  }
}
