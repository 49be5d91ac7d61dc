/** One weapon attacking one defending unit: the hit, wound, save, damage and
    feel-no-pain rolls of every attack, and the tallies of a trial. Every roll
    is drawn in turn from one stream of randomness, so each rule below is a
    function of the stream and the position of its next draw. */
module Combat {
  import opened Wrappers
  import opened Text
  import opened Randomness
  import opened Dice
  import opened Models

  /** What one trial did: total damage, models killed and the tallies. */
  datatype AttackOutcome = AttackOutcome(damage: int, kills: int, stats: AttackStatistics)

  /** The outcome before any attack. */
  const NoOutcome := AttackOutcome(0, 0, NoStatistics)

  /** The result of a hit or wound roll: whether it succeeded and whether it
      was critical. */
  datatype Check = Check(success: bool, crit: bool)

  function Max(a: int, b: int): int {
    if a >= b then a else b
  }

  /** `max(lo, min(hi, x))`. */
  function Clamp(x: int, lo: int, hi: int): int {
    Max(lo, if x <= hi then x else hi)
  }

  /** Python truthiness of an optional threshold: `None` and `0` are false. */
  predicate Truthy(o: Option<int>) {
    o.Some? && o.value != 0
  }

  // ---------------------------------------------------------------- wounding

  /** `calculate_wound_target`: the D6 result needed to wound, from strength
      against toughness. */
  function WoundTarget(strength: int, toughness: int): (r: int)
    ensures 2 <= r <= 6
  {
    if strength >= toughness * 2 then 2
    else if strength > toughness then 3
    else if strength == toughness then 4
    else if strength * 2 <= toughness then 6
    else 5
  }

  /** The strength-against-toughness table for a positive toughness: each
      target is reached for exactly one band of strengths. */
  lemma WoundTargetTable(strength: int, toughness: int)
    requires toughness > 0
    ensures WoundTarget(strength, toughness) == 2 <==> strength >= 2 * toughness
    ensures WoundTarget(strength, toughness) == 3 <==> toughness < strength < 2 * toughness
    ensures WoundTarget(strength, toughness) == 4 <==> strength == toughness
    ensures WoundTarget(strength, toughness) == 5 <==> toughness < 2 * strength && strength < toughness
    ensures WoundTarget(strength, toughness) == 6 <==> 2 * strength <= toughness
  {
  }

  /** A stronger weapon never needs a higher roll to wound. */
  lemma WoundTargetMonotone(weaker: int, stronger: int, toughness: int)
    requires weaker <= stronger
    ensures WoundTarget(stronger, toughness) <= WoundTarget(weaker, toughness)
  {
  }

  // ------------------------------------------------------------- hit and wound

  /** `roll_to_hit` on a given roll: critical on the unmodified roll, a hit
      when the modified roll reaches the weapon's skill. */
  function HitCheck(roll: int, skill: int, mods: AttackModifiers): Check {
    Check(roll + mods.hitModifier >= skill, roll >= mods.critHitThreshold)
  }

  /** `roll_to_wound` on a given roll against a wound target. */
  function WoundCheck(roll: int, target: int, mods: AttackModifiers): Check {
    Check(roll + mods.woundModifier >= target, roll >= mods.critWoundThreshold)
  }

  /** Whether a roll is critical does not depend on the skill, the target or
      the modifiers, only on the roll and the critical threshold. */
  lemma CritFromUnmodifiedRoll(roll: int, skill: int, target: int, m1: AttackModifiers, m2: AttackModifiers)
    requires m1.critHitThreshold == m2.critHitThreshold && m1.critWoundThreshold == m2.critWoundThreshold
    ensures HitCheck(roll, skill, m1).crit == HitCheck(roll, 0, m2).crit
    ensures WoundCheck(roll, target, m1).crit == WoundCheck(roll, 0, m2).crit
    ensures HitCheck(roll, skill, m1).crit <==> roll >= m1.critHitThreshold
    ensures WoundCheck(roll, target, m1).crit <==> roll >= m1.critWoundThreshold
  {
  }

  /** A roll that hits (wounds) still does so with a larger modifier, and for a
      fixed modifier the checks succeed exactly from a threshold roll upwards. */
  lemma ChecksMonotone(roll: int, better: int, skill: int, target: int, mods: AttackModifiers)
    requires roll <= better
    ensures HitCheck(roll, skill, mods).success ==> HitCheck(better, skill, mods).success
    ensures WoundCheck(roll, target, mods).success ==> WoundCheck(better, target, mods).success
    ensures HitCheck(roll, skill, mods).success ==> HitCheck(roll, skill, mods.(hitModifier := mods.hitModifier + 1)).success
    ensures WoundCheck(roll, target, mods).success ==> WoundCheck(roll, target, mods.(woundModifier := mods.woundModifier + 1)).success
  {
  }

  /** The keyword, compared after lower-casing, that lets a critical hit wound
      automatically. */
  const LethalHitsKeyword := "lethal hits"

  /** Whether some keyword of the weapon lower-cases to the lethal hits keyword. */
  function HasLethalHits(keywords: seq<string>): (r: bool)
    ensures r <==> exists i :: 0 <= i < |keywords| && Lower(keywords[i]) == LethalHitsKeyword
  {
    if keywords == [] then false
    else
      var init := keywords[..|keywords| - 1];
      var r := HasLethalHits(init) || Lower(keywords[|keywords| - 1]) == LethalHitsKeyword;
      assert forall i :: 0 <= i < |init| ==> init[i] == keywords[i];
      r
  }

  /** Lethal hits is found whatever the letter case of the keywords. */
  lemma LethalHitsIgnoresCase(keywords: seq<string>, other: seq<string>)
    requires |keywords| == |other|
    requires forall i :: 0 <= i < |keywords| ==> Lower(keywords[i]) == Lower(other[i])
    ensures HasLethalHits(keywords) == HasLethalHits(other)
  {
    if HasLethalHits(keywords) {
      var i :| 0 <= i < |keywords| && Lower(keywords[i]) == LethalHitsKeyword;
      assert Lower(other[i]) == LethalHitsKeyword;
    }
    if HasLethalHits(other) {
      var i :| 0 <= i < |other| && Lower(other[i]) == LethalHitsKeyword;
      assert Lower(keywords[i]) == LethalHitsKeyword;
    }
  }

  // ------------------------------------------------------------------ saving

  /** The save needed after armour penetration, improved by a truthy
      invulnerable save, and clamped to `2..6`. */
  function EffectiveSave(save: SaveProfile, ap: int): (r: int)
    ensures 2 <= r <= 6
  {
    var base := save.armour - ap;
    var chosen := if Truthy(save.invulnerable) && save.invulnerable.value < base then save.invulnerable.value else base;
    Clamp(chosen, 2, 6)
  }

  /** An invulnerable save never makes the save harder, and without a truthy
      invulnerable save it is the clamped armour save. Penetration is written
      as a non-positive `ap` (a weapon with `ap = -2` turns a 3+ save into a
      5+), so a numerically larger `weakerAp` penetrates less and never gives
      a higher target than `ap`. */
  lemma EffectiveSaveOrder(save: SaveProfile, ap: int, weakerAp: int)
    requires ap <= weakerAp
    ensures EffectiveSave(save, ap) <= EffectiveSave(save.(invulnerable := None), ap)
    ensures Truthy(save.invulnerable) ==> EffectiveSave(save, ap) <= Clamp(save.invulnerable.value, 2, 6)
    ensures !Truthy(save.invulnerable) ==> EffectiveSave(save, ap) == Clamp(save.armour - ap, 2, 6)
    ensures EffectiveSave(save, weakerAp) <= EffectiveSave(save, ap)
  {
  }

  /** `apply_save` on a given roll: no damage when the roll makes the save,
      the full damage otherwise. */
  function SaveResult(save: SaveProfile, ap: int, damage: int, roll: int): (r: int)
    ensures r == 0 || r == damage
    ensures roll >= EffectiveSave(save, ap) ==> r == 0
    ensures roll < EffectiveSave(save, ap) ==> r == damage
  {
    if roll >= EffectiveSave(save, ap) then 0 else damage
  }

  /** Because of the clamp a natural 6 always saves and a natural 1 never does,
      whatever the armour, penetration and invulnerable save. */
  lemma NaturalSaveRolls(save: SaveProfile, ap: int, damage: int)
    ensures SaveResult(save, ap, damage, 6) == 0
    ensures SaveResult(save, ap, damage, 1) == damage
  {
  }

  // ------------------------------------------------------------ feel no pain

  /** How many of the `n` rolls drawn from position `p` reach `threshold`. */
  function Prevented(source: nat -> nat, p: nat, n: nat, threshold: int): (k: nat)
    ensures k <= n
  {
    if n == 0 then 0
    else Prevented(source, p, n - 1, threshold) + (if Die(source, p + n - 1, 6) >= threshold then 1 else 0)
  }

  /** `range(damage)` has this many elements. */
  function RangeLength(n: int): nat {
    if n > 0 then n else 0
  }

  /** `apply_feel_no_pain` drawn from position `p`: the damage left and the
      position after the rolls. A truthy threshold rolls once per point of
      damage and each roll reaching it ignores one point. */
  function FeelNoPain(damage: int, feelNoPain: Option<int>, source: nat -> nat, p: nat): (r: (int, nat))
    ensures !Truthy(feelNoPain) ==> r == (damage, p)
    ensures Truthy(feelNoPain) ==> r.1 == p + RangeLength(damage)
    ensures damage >= 0 ==> 0 <= r.0 <= damage
    ensures damage < 0 ==> r.0 == damage
  {
    if !Truthy(feelNoPain) then (damage, p)
    else
      var n := RangeLength(damage);
      (damage - Prevented(source, p, n, feelNoPain.value), p + n)
  }

  lemma {:induction false} PreventedExtremes(source: nat -> nat, p: nat, n: nat, threshold: int)
    ensures threshold <= 1 ==> Prevented(source, p, n, threshold) == n
    ensures threshold >= 7 ==> Prevented(source, p, n, threshold) == 0
  {
    if n > 0 {
      PreventedExtremes(source, p, n - 1, threshold);
    }
  }

  /** A truthy threshold of 1 or less ignores all damage; one of 7 or more
      ignores none, though the dice are still rolled. */
  lemma FeelNoPainExtremes(damage: nat, threshold: int, source: nat -> nat, p: nat)
    requires threshold != 0
    ensures threshold <= 1 ==> FeelNoPain(damage, Some(threshold), source, p) == (0, p + damage)
    ensures threshold >= 7 ==> FeelNoPain(damage, Some(threshold), source, p) == (damage, p + damage)
  {
    PreventedExtremes(source, p, damage, threshold);
  }

  // --------------------------------------------------------------- an attack

  /** The damage roll, save and feel-no-pain of an attack that wounded, from
      the damage roll at position `p`. A damage expression that cannot be
      rolled aborts the trial. */
  function DamagePhase(weapon: WeaponProfile, defender: UnitProfile, mods: AttackModifiers, damage: Result<Form, DiceError>,
                       source: nat -> nat, p: nat, o: AttackOutcome): Result<(AttackOutcome, nat), DiceError>
  {
    match EvalRead(damage, source, p)
    case Failure(e) => Failure(e)
    case Success(rolled) =>
      var raw := Max(1, rolled.0 + mods.damageModifier);
      var unsaved := SaveResult(defender.save, weapon.ap + mods.apModifier, raw, Die(source, rolled.1, 6));
      if unsaved == 0 then Success((o, rolled.1 + 1))
      else
        var left := FeelNoPain(unsaved, defender.save.feelNoPain, source, rolled.1 + 1);
        var killed := if left.0 >= defender.wounds then 1 else 0;
        var stats := o.stats.(failedSaves := o.stats.failedSaves + 1);
        Success((AttackOutcome(o.damage + left.0, o.kills + killed, stats), left.1))
  }

  /** The wound step of an attack that hit, from position `p`: a critical hit
      with lethal hits wounds critically without a roll, any other hit rolls
      to wound. */
  function WoundPhase(weapon: WeaponProfile, defender: UnitProfile, mods: AttackModifiers, damage: Result<Form, DiceError>,
                      source: nat -> nat, p: nat, critHit: bool, o: AttackOutcome): Result<(AttackOutcome, nat), DiceError>
  {
    var auto := critHit && HasLethalHits(weapon.keywords);
    var w := if auto then Check(true, true)
             else WoundCheck(Die(source, p, 6), WoundTarget(weapon.strength, defender.toughness), mods);
    var next := if auto then p else p + 1;
    if !w.success then Success((o, next))
    else
      var stats := o.stats.(wounds := o.stats.wounds + 1,
                            critWounds := o.stats.critWounds + if w.crit then 1 else 0);
      DamagePhase(weapon, defender, mods, damage, source, next, o.(stats := stats))
  }

  /** One iteration of the attack loop of `resolve_attack`, from a hit roll at
      position `p`. */
  function AttackStep(weapon: WeaponProfile, defender: UnitProfile, mods: AttackModifiers, damage: Result<Form, DiceError>,
                      source: nat -> nat, p: nat, o: AttackOutcome): Result<(AttackOutcome, nat), DiceError>
  {
    var h := HitCheck(Die(source, p, 6), weapon.skill, mods);
    if !h.success then Success((o, p + 1))
    else
      var stats := o.stats.(hits := o.stats.hits + 1,
                            critHits := o.stats.critHits + if h.crit then 1 else 0);
      WoundPhase(weapon, defender, mods, damage, source, p + 1, h.crit, o.(stats := stats))
  }

  /** The first `n` iterations of the attack loop, from position `p`. */
  function Attacks(n: nat, weapon: WeaponProfile, defender: UnitProfile, mods: AttackModifiers, damage: Result<Form, DiceError>,
                   source: nat -> nat, p: nat): Result<(AttackOutcome, nat), DiceError>
  {
    if n == 0 then Success((NoOutcome, p))
    else
      match Attacks(n - 1, weapon, defender, mods, damage, source, p)
      case Failure(e) => Failure(e)
      case Success(done) => AttackStep(weapon, defender, mods, damage, source, done.1, done.0)
  }

  /** `resolve_attack` from position `p`, for a weapon whose attack and damage
      expressions read as `attacks` and `damage`: roll the number of attacks,
      then resolve that many (none when the roll is not positive). */
  function TrialOf(weapon: WeaponProfile, defender: UnitProfile, mods: AttackModifiers,
                   attacks: Result<Form, DiceError>, damage: Result<Form, DiceError>,
                   source: nat -> nat, p: nat): Result<(AttackOutcome, nat), DiceError>
  {
    match EvalRead(attacks, source, p)
    case Failure(e) => Failure(e)
    case Success(count) => Attacks(RangeLength(count.0), weapon, defender, mods, damage, source, count.1)
  }

  /** `resolve_attack` from position `p`. Reading a dice expression is pure,
      so reading both once for the trial is reading them at each roll. */
  function Trial(weapon: WeaponProfile, defender: UnitProfile, mods: AttackModifiers,
                 source: nat -> nat, p: nat): Result<(AttackOutcome, nat), DiceError>
  {
    TrialOf(weapon, defender, mods, Parse(weapon.attacks.raw), Parse(weapon.damage.raw), source, p)
  }

  // --------------------------------------------------------- counter ordering

  /** The ordering of the tallies after `attacks` attacks: every critical hit
      is a hit, every wound follows a hit, every failed save follows a wound
      and every kill follows a failed save. */
  predicate Ordered(o: AttackOutcome, attacks: nat) {
    && 0 <= o.stats.critHits <= o.stats.hits <= attacks
    && 0 <= o.stats.critWounds <= o.stats.wounds <= o.stats.hits
    && 0 <= o.stats.failedSaves <= o.stats.wounds
    && 0 <= o.kills <= o.stats.failedSaves
    && 0 <= o.damage
  }

  /** The damage phase adds at most one failed save, at most one kill and
      only when it adds a failed save, and no negative damage; without a
      truthy feel-no-pain it adds at least one damage per failed save. */
  lemma DamagePhaseCounts(weapon: WeaponProfile, defender: UnitProfile, mods: AttackModifiers, damage: Result<Form, DiceError>,
                          source: nat -> nat, p: nat, o: AttackOutcome)
    requires DamagePhase(weapon, defender, mods, damage, source, p, o).Success?
    ensures var o' := DamagePhase(weapon, defender, mods, damage, source, p, o).value.0;
      var failed := o'.stats.failedSaves - o.stats.failedSaves;
      && o'.stats == o.stats.(failedSaves := o'.stats.failedSaves)
      && 0 <= failed <= 1
      && 0 <= o'.kills - o.kills <= failed
      && o'.damage >= o.damage
      && (!Truthy(defender.save.feelNoPain) ==> o'.damage - o.damage >= failed)
  {
  }

  /** The wound step adds at most one wound, a critical wound only with a
      wound, and otherwise what the damage phase adds. */
  lemma WoundPhaseCounts(weapon: WeaponProfile, defender: UnitProfile, mods: AttackModifiers, damage: Result<Form, DiceError>,
                         source: nat -> nat, p: nat, critHit: bool, o: AttackOutcome)
    requires WoundPhase(weapon, defender, mods, damage, source, p, critHit, o).Success?
    ensures var o' := WoundPhase(weapon, defender, mods, damage, source, p, critHit, o).value.0;
      var wounded := o'.stats.wounds - o.stats.wounds;
      var failed := o'.stats.failedSaves - o.stats.failedSaves;
      && o'.stats.hits == o.stats.hits && o'.stats.critHits == o.stats.critHits
      && 0 <= o'.stats.critWounds - o.stats.critWounds <= wounded <= 1
      && 0 <= failed <= wounded
      && 0 <= o'.kills - o.kills <= failed
      && o'.damage >= o.damage
      && (!Truthy(defender.save.feelNoPain) ==> o'.damage - o.damage >= failed)
  {
    var auto := critHit && HasLethalHits(weapon.keywords);
    var w := if auto then Check(true, true)
             else WoundCheck(Die(source, p, 6), WoundTarget(weapon.strength, defender.toughness), mods);
    var next := if auto then p else p + 1;
    if w.success {
      var stats := o.stats.(wounds := o.stats.wounds + 1,
                            critWounds := o.stats.critWounds + if w.crit then 1 else 0);
      DamagePhaseCounts(weapon, defender, mods, damage, source, next, o.(stats := stats));
    }
  }

  /** One attack adds at most one hit, a critical hit only with a hit, a
      wound only with a hit, and otherwise what the wound step adds. */
  lemma AttackStepCounts(weapon: WeaponProfile, defender: UnitProfile, mods: AttackModifiers, damage: Result<Form, DiceError>,
                         source: nat -> nat, p: nat, o: AttackOutcome)
    requires AttackStep(weapon, defender, mods, damage, source, p, o).Success?
    ensures var o' := AttackStep(weapon, defender, mods, damage, source, p, o).value.0;
      var hit := o'.stats.hits - o.stats.hits;
      var wounded := o'.stats.wounds - o.stats.wounds;
      var failed := o'.stats.failedSaves - o.stats.failedSaves;
      && 0 <= o'.stats.critHits - o.stats.critHits <= hit <= 1
      && 0 <= o'.stats.critWounds - o.stats.critWounds <= wounded <= hit
      && 0 <= failed <= wounded
      && 0 <= o'.kills - o.kills <= failed
      && o'.damage >= o.damage
      && (!Truthy(defender.save.feelNoPain) ==> o'.damage - o.damage >= failed)
  {
    var h := HitCheck(Die(source, p, 6), weapon.skill, mods);
    if h.success {
      var stats := o.stats.(hits := o.stats.hits + 1,
                            critHits := o.stats.critHits + if h.crit then 1 else 0);
      WoundPhaseCounts(weapon, defender, mods, damage, source, p + 1, h.crit, o.(stats := stats));
    }
  }

  /** After `n` attacks the tallies are ordered, and without a truthy
      feel-no-pain the damage is at least the number of failed saves. */
  lemma {:induction false} AttacksOrdered(n: nat, weapon: WeaponProfile, defender: UnitProfile, mods: AttackModifiers, damage: Result<Form, DiceError>,
                                          source: nat -> nat, p: nat)
    requires Attacks(n, weapon, defender, mods, damage, source, p).Success?
    ensures Ordered(Attacks(n, weapon, defender, mods, damage, source, p).value.0, n)
    ensures !Truthy(defender.save.feelNoPain) ==>
      var o := Attacks(n, weapon, defender, mods, damage, source, p).value.0;
      o.damage >= o.stats.failedSaves
  {
    if n > 0 {
      AttacksOrdered(n - 1, weapon, defender, mods, damage, source, p);
      var done := Attacks(n - 1, weapon, defender, mods, damage, source, p).value;
      AttackStepCounts(weapon, defender, mods, damage, source, done.1, done.0);
    }
  }

  /** Once an attack fails the whole loop fails with its error. */
  lemma {:induction false} AttacksFailurePersists(i: nat, n: nat, weapon: WeaponProfile, defender: UnitProfile,
                                                  mods: AttackModifiers, damage: Result<Form, DiceError>, source: nat -> nat, p: nat)
    requires i < n
    requires Attacks(i, weapon, defender, mods, damage, source, p).Success?
    requires var done := Attacks(i, weapon, defender, mods, damage, source, p).value;
      AttackStep(weapon, defender, mods, damage, source, done.1, done.0).Failure?
    ensures var done := Attacks(i, weapon, defender, mods, damage, source, p).value;
      Attacks(n, weapon, defender, mods, damage, source, p) == AttackStep(weapon, defender, mods, damage, source, done.1, done.0)
  {
    if n > i + 1 {
      AttacksFailurePersists(i, n - 1, weapon, defender, mods, damage, source, p);
    }
  }

  /** The counter bounds of `resolve_attack`: with the number of attacks
      rolled, `crit_hits <= hits <= attacks`, `crit_wounds <= wounds <= hits`,
      `failed_saves <= wounds`, `kills <= failed_saves`, the damage is not
      negative, and without a truthy feel-no-pain every failed save does at
      least one damage. */
  lemma TrialOrdered(weapon: WeaponProfile, defender: UnitProfile, mods: AttackModifiers,
                     attacks: Result<Form, DiceError>, damage: Result<Form, DiceError>, source: nat -> nat, p: nat)
    requires TrialOf(weapon, defender, mods, attacks, damage, source, p).Success?
    ensures EvalRead(attacks, source, p).Success?
    ensures var o := TrialOf(weapon, defender, mods, attacks, damage, source, p).value.0;
      && Ordered(o, RangeLength(EvalRead(attacks, source, p).value.0))
      && (!Truthy(defender.save.feelNoPain) ==> o.damage >= o.stats.failedSaves)
  {
    var count := EvalRead(attacks, source, p).value;
    AttacksOrdered(RangeLength(count.0), weapon, defender, mods, damage, source, count.1);
  }

  /** A critical hit from a weapon with lethal hits wounds, critically, with no
      wound roll: the damage roll comes straight after the hit roll. */
  lemma LethalHitsAutoWound(weapon: WeaponProfile, defender: UnitProfile, mods: AttackModifiers, damage: Result<Form, DiceError>,
                            source: nat -> nat, p: nat, o: AttackOutcome)
    requires HasLethalHits(weapon.keywords)
    requires HitCheck(Die(source, p, 6), weapon.skill, mods) == Check(true, true)
    ensures var s := o.stats;
      var wounded := s.(hits := s.hits + 1, critHits := s.critHits + 1, wounds := s.wounds + 1, critWounds := s.critWounds + 1);
      AttackStep(weapon, defender, mods, damage, source, p, o) == DamagePhase(weapon, defender, mods, damage, source, p + 1, o.(stats := wounded))
  {
  }

  /** The damage phase reads only the damage and penetration modifiers. */
  lemma DamagePhaseModifiers(weapon: WeaponProfile, defender: UnitProfile, mods: AttackModifiers, other: AttackModifiers,
                             damage: Result<Form, DiceError>, source: nat -> nat, p: nat, o: AttackOutcome)
    requires other.damageModifier == mods.damageModifier && other.apModifier == mods.apModifier
    ensures DamagePhase(weapon, defender, mods, damage, source, p, o) == DamagePhase(weapon, defender, other, damage, source, p, o)
  {
  }

  /** For a critical hit with lethal hits neither the wound modifier nor the
      critical wound threshold changes anything. */
  lemma LethalHitsIgnoresWoundModifiers(weapon: WeaponProfile, defender: UnitProfile, mods: AttackModifiers, damage: Result<Form, DiceError>,
                                        source: nat -> nat, p: nat, o: AttackOutcome,
                                        woundModifier: int, critWoundThreshold: int)
    requires HasLethalHits(weapon.keywords)
    requires HitCheck(Die(source, p, 6), weapon.skill, mods) == Check(true, true)
    ensures var other := mods.(woundModifier := woundModifier, critWoundThreshold := critWoundThreshold);
      AttackStep(weapon, defender, mods, damage, source, p, o) == AttackStep(weapon, defender, other, damage, source, p, o)
  {
    var other := mods.(woundModifier := woundModifier, critWoundThreshold := critWoundThreshold);
    assert HitCheck(Die(source, p, 6), weapon.skill, other) == Check(true, true);
    LethalHitsAutoWound(weapon, defender, mods, damage, source, p, o);
    LethalHitsAutoWound(weapon, defender, other, damage, source, p, o);
    var s := o.stats;
    var wounded := s.(hits := s.hits + 1, critHits := s.critHits + 1, wounds := s.wounds + 1, critWounds := s.critWounds + 1);
    DamagePhaseModifiers(weapon, defender, mods, other, damage, source, p + 1, o.(stats := wounded));
  }

  /** The one-attack scenario: skill 2, strength equal to toughness, damage
      "1", a defender with one wound, armour save 7 and no other save. The
      clamp turns the save of 7 into a 6+, so the trial kills exactly when the
      hit roll is at least 2, the wound roll at least 4 and the save roll
      below 6: 5 * 3 * 5 of the 216 equally likely triples, that is 25/72. */
  lemma OneAttackScenario(source: nat -> nat, p: nat)
    ensures var weapon := WeaponProfile("", DiceExpression("1"), 2, 4, 0, DiceExpression("1"), false, []);
      var defender := UnitProfile("", 4, 1, SaveProfile(7, None, None), []);
      var t := Trial(weapon, defender, DefaultModifiers, source, p);
      && t.Success?
      && (t.value.0.kills == 1 <==> 2 <= Die(source, p, 6) && 4 <= Die(source, p + 1, 6) && Die(source, p + 2, 6) < 6)
      && (t.value.0.kills == 0 || t.value.0.kills == 1)
  {
    var weapon := WeaponProfile("", DiceExpression("1"), 2, 4, 0, DiceExpression("1"), false, []);
    var defender := UnitProfile("", 4, 1, SaveProfile(7, None, None), []);
    var one: Result<Form, DiceError> := Success(Literal(1));
    ReadIntText(1);
    assert IntToString(1) == "1";
    ParseNormalText("1");
    assert Parse("1") == one;
    assert Trial(weapon, defender, DefaultModifiers, source, p) == TrialOf(weapon, defender, DefaultModifiers, one, one, source, p);
    assert EvalRead(one, source, p) == Success((1, p));
    assert Attacks(0, weapon, defender, DefaultModifiers, one, source, p) == Success((NoOutcome, p));
    assert TrialOf(weapon, defender, DefaultModifiers, one, one, source, p) ==
      AttackStep(weapon, defender, DefaultModifiers, one, source, p, NoOutcome);
    assert !HasLethalHits(weapon.keywords);
    assert WoundTarget(4, 4) == 4;
    assert EffectiveSave(defender.save, 0) == 6;
    assert EvalRead(one, source, p + 2) == Success((1, p + 2));
    assert FeelNoPain(1, None, source, p + 3) == (1, p + 3);
  }

  // ------------------------------------------------------------ the methods

  /** `roll_to_hit`. */
  method RollToHit(weapon: WeaponProfile, mods: AttackModifiers, rng: Roller) returns (success: bool, crit: bool)
    modifies rng
    ensures Check(success, crit) == HitCheck(Die(rng.source, old(rng.drawn), 6), weapon.skill, mods)
    ensures rng.drawn == old(rng.drawn) + 1
  {
    var roll := rng.RollD6();
    crit := roll >= mods.critHitThreshold;
    var modified := roll + mods.hitModifier;
    success := modified >= weapon.skill;
  }

  /** `roll_to_wound`. */
  method RollToWound(weapon: WeaponProfile, defender: UnitProfile, mods: AttackModifiers, rng: Roller)
    returns (success: bool, crit: bool)
    modifies rng
    ensures Check(success, crit) ==
      WoundCheck(Die(rng.source, old(rng.drawn), 6), WoundTarget(weapon.strength, defender.toughness), mods)
    ensures rng.drawn == old(rng.drawn) + 1
  {
    var target := WoundTarget(weapon.strength, defender.toughness);
    var roll := rng.RollD6();
    crit := roll >= mods.critWoundThreshold;
    var modified := roll + mods.woundModifier;
    success := modified >= target;
  }

  /** `apply_save`: one D6 against the effective save. */
  method ApplySave(save: SaveProfile, ap: int, damage: int, rng: Roller) returns (unsaved: int)
    modifies rng
    ensures unsaved == SaveResult(save, ap, damage, Die(rng.source, old(rng.drawn), 6))
    ensures unsaved == 0 || unsaved == damage
    ensures rng.drawn == old(rng.drawn) + 1
  {
    var effective := save.armour - ap;
    if Truthy(save.invulnerable) {
      if save.invulnerable.value < effective {
        effective := save.invulnerable.value;
      }
    }
    effective := Clamp(effective, 2, 6);
    var roll := rng.RollD6();
    if roll >= effective {
      return 0;
    }
    return damage;
  }

  /** `apply_feel_no_pain`: one D6 per point of damage when the threshold is
      truthy, none otherwise. */
  method ApplyFeelNoPain(damage: int, feelNoPain: Option<int>, rng: Roller) returns (left: int)
    modifies rng
    ensures (left, rng.drawn) == FeelNoPain(damage, feelNoPain, rng.source, old(rng.drawn))
  {
    if !Truthy(feelNoPain) {
      return damage;
    }
    var prevented := 0;
    for i := 0 to RangeLength(damage)
      invariant rng.drawn == old(rng.drawn) + i
      invariant prevented == Prevented(rng.source, old(rng.drawn), i, feelNoPain.value)
    {
      var roll := rng.RollD6();
      if roll >= feelNoPain.value {
        prevented := prevented + 1;
      }
    }
    left := damage - prevented;
  }

  /** The damage step of the attack loop of `resolve_attack`, for an attack
      that wounded: the tallies `o` after it. `damage` is the weapon's damage
      expression as read; rolling it is `weapon.damage.roll()`. */
  method ResolveDamage(weapon: WeaponProfile, defender: UnitProfile, mods: AttackModifiers,
                       damage: Result<Form, DiceError>, o: AttackOutcome, rng: Roller)
    returns (r: Result<AttackOutcome, DiceError>)
    modifies rng
    ensures WithPosition(r, rng.drawn) == DamagePhase(weapon, defender, mods, damage, rng.source, old(rng.drawn), o)
  {
    var stats := o.stats;
    var totalDamage := o.damage;
    var kills := o.kills;
    var adjustedAp := weapon.ap + mods.apModifier;
    if damage.Failure? {
      return Failure(damage.error);
    }
    var damageRoll := RollForm(damage.value, rng);
    if damageRoll.Failure? {
      return Failure(damageRoll.error);
    }
    var rawDamage := Max(1, damageRoll.value + mods.damageModifier);
    var unsaved := ApplySave(defender.save, adjustedAp, rawDamage, rng);
    if unsaved != 0 {
      stats := stats.(failedSaves := stats.failedSaves + 1);
      var finalDamage := ApplyFeelNoPain(unsaved, defender.save.feelNoPain, rng);
      totalDamage := totalDamage + finalDamage;
      if finalDamage >= defender.wounds {
        kills := kills + 1;
      }
    }
    r := Success(AttackOutcome(totalDamage, kills, stats));
  }

  /** One attack spelled out roll by roll: the hit roll at `p`, then, for a
      hit, the wound roll (unless lethal hits wounds automatically), then, for
      a wound, the damage phase. */
  lemma AttackStepRolls(weapon: WeaponProfile, defender: UnitProfile, mods: AttackModifiers,
                        damage: Result<Form, DiceError>, source: nat -> nat, p: nat, o: AttackOutcome)
    ensures var h := HitCheck(Die(source, p, 6), weapon.skill, mods);
      var s1 := o.stats.(hits := o.stats.hits + 1, critHits := o.stats.critHits + if h.crit then 1 else 0);
      var auto := h.crit && HasLethalHits(weapon.keywords);
      var w := if auto then Check(true, true)
               else WoundCheck(Die(source, p + 1, 6), WoundTarget(weapon.strength, defender.toughness), mods);
      var next := if auto then p + 1 else p + 2;
      var s2 := s1.(wounds := s1.wounds + 1, critWounds := s1.critWounds + if w.crit then 1 else 0);
      AttackStep(weapon, defender, mods, damage, source, p, o) ==
        if !h.success then Success((o, p + 1))
        else if !w.success then Success((o.(stats := s1), next))
        else DamagePhase(weapon, defender, mods, damage, source, next, o.(stats := s2))
  {
  }

  /** One pass of the attack loop of `resolve_attack`: the hit roll, the
      wound roll unless lethal hits wounds automatically, and for a wound the
      damage phase, starting from the tallies so far. */
  method ResolveOneAttack(weapon: WeaponProfile, defender: UnitProfile, mods: AttackModifiers,
                          damage: Result<Form, DiceError>, before: AttackOutcome, rng: Roller)
    returns (r: Result<AttackOutcome, DiceError>)
    modifies rng
    ensures WithPosition(r, rng.drawn) == AttackStep(weapon, defender, mods, damage, rng.source, old(rng.drawn), before)
  {
    AttackStepRolls(weapon, defender, mods, damage, rng.source, rng.drawn, before);
    var stats := before.stats;
    var successHit, critHit := RollToHit(weapon, mods, rng);
    if !successHit {
      return Success(before);
    }
    stats := stats.(hits := stats.hits + 1);
    if critHit {
      stats := stats.(critHits := stats.critHits + 1);
    }
    var autoWound := critHit && HasLethalHits(weapon.keywords);
    var successWound := false;
    var critWound := false;
    if autoWound {
      successWound := true;
      critWound := true;
    } else {
      successWound, critWound := RollToWound(weapon, defender, mods, rng);
    }
    if !successWound {
      return Success(before.(stats := stats));
    }
    stats := stats.(wounds := stats.wounds + 1);
    if critWound {
      stats := stats.(critWounds := stats.critWounds + 1);
    }
    r := ResolveDamage(weapon, defender, mods, damage, before.(stats := stats), rng);
  }

  /** The attack loop of `resolve_attack`: `n` attacks in turn, adding up the
      tallies, damage and kills. */
  method ResolveAttacks(n: nat, weapon: WeaponProfile, defender: UnitProfile, mods: AttackModifiers,
                        damage: Result<Form, DiceError>, rng: Roller)
    returns (r: Result<AttackOutcome, DiceError>)
    modifies rng
    ensures WithPosition(r, rng.drawn) == Attacks(n, weapon, defender, mods, damage, rng.source, old(rng.drawn))
  {
    var outcome := NoOutcome;
    for i := 0 to n
      invariant Attacks(i, weapon, defender, mods, damage, rng.source, old(rng.drawn)) == Success((outcome, rng.drawn))
    {
      var after := ResolveOneAttack(weapon, defender, mods, damage, outcome, rng);
      if after.Failure? {
        AttacksFailurePersists(i, n, weapon, defender, mods, damage, rng.source, old(rng.drawn));
        return Failure(after.error);
      }
      outcome := after.value;
    }
    r := Success(outcome);
  }

  /** One trial for a weapon whose attack and damage expressions read as
      `attacks` and `damage`: roll the number of attacks and resolve that many
      (none when the roll is not positive), all drawn from the roller's
      stream. */
  method ResolveTrial(weapon: WeaponProfile, defender: UnitProfile, mods: AttackModifiers,
                      attacks: Result<Form, DiceError>, damage: Result<Form, DiceError>, rng: Roller)
    returns (r: Result<AttackOutcome, DiceError>)
    modifies rng
    ensures WithPosition(r, rng.drawn) == TrialOf(weapon, defender, mods, attacks, damage, rng.source, old(rng.drawn))
  {
    if attacks.Failure? {
      return Failure(attacks.error);
    }
    var attackCount := RollForm(attacks.value, rng);
    if attackCount.Failure? {
      return Failure(attackCount.error);
    }
    r := ResolveAttacks(RangeLength(attackCount.value), weapon, defender, mods, damage, rng);
  }

  /** `resolve_attack`: one trial of the weapon against the defender. Both
      dice expressions are read once for the trial; reading is pure, and a
      text that cannot be read fails only when it is rolled. */
  method ResolveAttack(weapon: WeaponProfile, defender: UnitProfile, mods: AttackModifiers, rng: Roller)
    returns (r: Result<AttackOutcome, DiceError>)
    modifies rng
    ensures WithPosition(r, rng.drawn) == Trial(weapon, defender, mods, rng.source, old(rng.drawn))
  {
    r := ResolveTrial(weapon, defender, mods, Parse(weapon.attacks.raw), Parse(weapon.damage.raw), rng);
  }
}
