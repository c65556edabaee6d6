/** The skill-tier selection of script.js: three skills, each at a tier from 0 to 3 that picks a
    multiplier from a four-entry table, loaded from storage with defaults and changed by clicks. */
module Skills {

  datatype Option<T> = None | Some(value: T)

  datatype Skill = Speed | Stamina | PowerUp

  /** The tiers of the three skills. */
  datatype Tiers = Tiers(speed: int, stamina: int, powerup: int)

  const DEFAULT_SKILLS: Tiers := Tiers(0, 0, 0)

  /** The highest tier; the multiplier tables have one more entry than this. */
  const MAX_TIER: int := 3

  /** What storage holds under the skill key, as far as loadSkills can tell: nothing (or an empty
      string), text that does not parse into an object with fields, or an object whose three
      fields may each be missing. */
  datatype Stored = Missing | Unparseable | Record(speed: Option<int>, stamina: Option<int>, powerup: Option<int>)

  /** `Math.min(Math.max(tier, 0), 3)`. */
  function ClampTier(tier: int): (r: int)
    ensures 0 <= r <= MAX_TIER
    ensures 0 <= tier <= MAX_TIER ==> r == tier
    ensures tier < 0 ==> r == 0
    ensures tier > MAX_TIER ==> r == MAX_TIER
  {
    var atLeastZero := if tier > 0 then tier else 0;
    if atLeastZero < MAX_TIER then atLeastZero else MAX_TIER
  }

  /** `x ?? 0`: a missing field counts as tier 0. */
  function OrZero(field: Option<int>): int {
    match field
    case None => 0
    case Some(v) => v
  }

  /** Every tier is a valid index into the multiplier tables. */
  predicate Valid(t: Tiers) {
    0 <= t.speed <= MAX_TIER && 0 <= t.stamina <= MAX_TIER && 0 <= t.powerup <= MAX_TIER
  }

  /** loadSkills, given what storage holds. */
  function LoadSkills(stored: Stored): (r: Tiers)
    ensures Valid(r)
    ensures stored.Missing? || stored.Unparseable? ==> r == DEFAULT_SKILLS
    ensures stored.Record? ==> r == Tiers(ClampTier(OrZero(stored.speed)), ClampTier(OrZero(stored.stamina)), ClampTier(OrZero(stored.powerup)))
  {
    match stored
    case Missing => DEFAULT_SKILLS
    case Unparseable => DEFAULT_SKILLS
    case Record(speed, stamina, powerup) => Tiers(ClampTier(OrZero(speed)), ClampTier(OrZero(stamina)), ClampTier(OrZero(powerup)))
  }

  /** A stored record of valid tiers loads as exactly those tiers, and a missing field as 0. */
  lemma LoadKeepsValidTiers(stored: Stored)
    requires stored.Record?
    ensures stored.speed.None? ==> LoadSkills(stored).speed == 0
    ensures stored.speed.Some? && 0 <= stored.speed.value <= MAX_TIER ==> LoadSkills(stored).speed == stored.speed.value
    ensures stored.stamina.None? ==> LoadSkills(stored).stamina == 0
    ensures stored.stamina.Some? && 0 <= stored.stamina.value <= MAX_TIER ==> LoadSkills(stored).stamina == stored.stamina.value
    ensures stored.powerup.None? ==> LoadSkills(stored).powerup == 0
    ensures stored.powerup.Some? && 0 <= stored.powerup.value <= MAX_TIER ==> LoadSkills(stored).powerup == stored.powerup.value
  {
  }

  /** Saving valid tiers and loading them back gives the same tiers. */
  lemma SaveThenLoad(t: Tiers)
    requires Valid(t)
    ensures LoadSkills(Record(Some(t.speed), Some(t.stamina), Some(t.powerup))) == t
  {
  }

  /** SKILL_MULTIPLIERS: the same four multipliers for every skill. */
  function Multipliers(skill: Skill): (m: seq<real>)
    ensures |m| == MAX_TIER + 1 && m[0] == 1.0
    ensures forall i, j :: 0 <= i < j < |m| ==> m[i] < m[j]
  {
    [1.0, 1.05, 1.1, 1.2]
  }

  function Tier(t: Tiers, skill: Skill): int {
    match skill
    case Speed => t.speed
    case Stamina => t.stamina
    case PowerUp => t.powerup
  }

  /** The multiplier updateStats shows for a skill: its tier's entry in the table. */
  function Multiplier(t: Tiers, skill: Skill): (r: real)
    requires Valid(t)
    ensures 1.0 <= r <= 1.2
    ensures Tier(t, skill) == 0 <==> r == 1.0
  {
    Multipliers(skill)[Tier(t, skill)]
  }

  /** A higher tier never gives a lower multiplier. */
  lemma MultiplierMonotone(a: Tiers, b: Tiers, skill: Skill)
    requires Valid(a) && Valid(b) && Tier(a, skill) <= Tier(b, skill)
    ensures Multiplier(a, skill) <= Multiplier(b, skill)
  {
    if Tier(a, skill) < Tier(b, skill) {
      assert Multipliers(skill)[Tier(a, skill)] < Multipliers(skill)[Tier(b, skill)];
    }
  }

  /** The tiers with one skill set to `tier`. */
  function WithTier(t: Tiers, skill: Skill, tier: int): (r: Tiers)
    ensures Tier(r, skill) == tier
    ensures forall other :: other != skill ==> Tier(r, other) == Tier(t, other)
  {
    match skill
    case Speed => t.(speed := tier)
    case Stamina => t.(stamina := tier)
    case PowerUp => t.(powerup := tier)
  }

  /** The page's skillState object, which a click on a tier button changes in place. */
  class SkillState {
    var speed: int
    var stamina: int
    var powerup: int

    function Value(): Tiers
      reads this
    {
      Tiers(speed, stamina, powerup)
    }

    /** `const skillState = loadSkills()` */
    constructor (stored: Stored)
      ensures Value() == LoadSkills(stored) && Valid(Value())
    {
      var loaded := LoadSkills(stored);
      speed, stamina, powerup := loaded.speed, loaded.stamina, loaded.powerup;
    }

    /** The click handler: the clicked skill takes the clamped tier of its button; the other
        two skills keep theirs, and the tiers stay valid indices. */
    method Select(skill: Skill, buttonTier: int)
      modifies this
      ensures Value() == WithTier(old(Value()), skill, ClampTier(buttonTier))
      ensures Tier(Value(), skill) == ClampTier(buttonTier)
      ensures forall other :: other != skill ==> Tier(Value(), other) == Tier(old(Value()), other)
      ensures old(Valid(Value())) ==> Valid(Value())
    {
      var tier := ClampTier(buttonTier);
      match skill
      case Speed => speed := tier;
      case Stamina => stamina := tier;
      case PowerUp => powerup := tier;
    }
  }
}
