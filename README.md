# Combat engine model

A Dafny model of the combat engine of a tabletop wargame simulator. One
weapon attacks one defending unit. Each attack rolls to hit, then to wound
(from a strength-against-toughness table), then rolls the damage, then the
defender rolls a save (armour less penetration, or an invulnerable save,
clamped to 2..6), then feel-no-pain. The engine counts the kills and keeps
five tallies: hits, critical hits, wounds, critical wounds and failed saves.
A Monte Carlo run repeats this trial many times. Its results are summarised
as average damage, kill probability and percentiles of the damage
distribution. Quantities such as "D6+1" are dice expressions, read from text
and rolled afresh each time. The loader has two helpers that read unit
characteristics ("3+") and keyword lists.

## Randomness

Every die comes from an injected stream. A `Randomness.Roller` holds a
`source: nat -> nat` and the count `drawn` of dice taken so far. Die number
`i` with `f` faces is `source(i) % f + 1`. Every statement quantifies over
all sources, and `Randomness.TapeReplays` shows that any tape of die results
is some source. So a property proved for all sources holds for every
sequence of rolls.

Each state-changing method has a specification function. The function
takes the position in the stream and returns the result together with the
new position. The method's `ensures` ties the method's result and
`rng.drawn` to that function, so the number of dice each step consumes is
part of its contract:

- none for a literal;
- `count` for a dice pattern;
- one per point of damage for a truthy feel-no-pain.

## Errors

A Python exception aborts the whole trial or run. The model returns a
`Failure` for each one:

- `ValueError` for an unsupported dice text;
- `ValueError` from `randint(1, 0)` for zero-faced dice;
- `ZeroDivisionError` in the summaries;
- `IndexError` in `percentile`.

Once an attack or trial fails, the whole run fails with the same error
(`Combat.AttacksFailurePersists`, `Simulation.TrialsFailurePersists`).

## Module layout

- `wrappers.dfy`: `Option` and `Result`.
- `text.dfy`: the ASCII string operations Python is used for: `strip`, `lower`, `isdigit`, `split`, `int` and `str` on digits.
- `randomness.dfy`: the die stream and the `Roller` class.
- `dice.dfy`: `DiceExpression.roll` and `from_value`.
- `models.dfy`: the records, the summaries and `percentile`.
- `sorting.dfy`: `sorted()`.
- `combat.dfy`: `resolve_attack` and its helpers.
- `simulation.dfy`: `run_simulation`.
- `loader.dfy`: the two characteristic helpers.

## The one-attack scenario

An armour save of 7 reads naturally as "no save", and then the one-attack
scenario below would kill with probability (5/6)·(1/2) = 5/12. The code does
something else. `apply_save` clamps the effective save into 2..6
(sim/combat.py:37), so a save of 7 becomes 6+ and a natural 6
saves. The model follows the code. `Combat.OneAttackScenario` proves the
exact condition under which that trial kills:

- the hit roll is at least 2;
- the wound roll is at least 4;
- the save roll is below 6.

That is 5·3·5 = 75 of the 216 equally likely triples, i.e. 25/72, not 5/12.

## Model

| member | source | states |
|---|---|---|
| Randomness.Die | sim/combat.py:17-18 | every die drawn lies in `1..faces` |
| Randomness.TapeReplays | sim/models.py:38 | any tape of valid die results is replayed exactly by some stream, so all-sources statements cover every roll sequence |
| Randomness.Roller.Roll | sim/models.py:38 | `random.randint(1, faces)`: returns the next die of the stream and takes exactly one draw |
| Randomness.Roller.RollD6 | sim/combat.py:17-18 | `roll_d6`: a value in `1..6`, the next die of the stream, exactly one draw |
| Text.LeadingDigitCount | sim/battlescribe_loader.py:22 | the length of the maximal leading run of decimal digits: those characters are digits and the next one is not |
| Text.NatToStringRoundTrip | sim/models.py:44 | the decimal text of `n` reads back as `n` |
| Text.LowerUnchanged | sim/models.py:21 | the result of `lower()` has no upper-case letter, and `lower()` leaves a text unchanged exactly when it has none |
| Text.Strip | sim/models.py:21 | the result of `strip()` neither starts nor ends with whitespace |
| Text.StripRemovesOnlySpace | sim/models.py:21 | `strip()` keeps the infix of the text between an all-whitespace prefix and an all-whitespace suffix |
| Text.StripOfStripped | sim/battlescribe_loader.py:29 | a text that neither starts nor ends with whitespace is its own strip |
| Text.StripPadded | sim/models.py:21 | whitespace added around a text does not change its strip |
| Text.LowerStrip | sim/models.py:21 | stripping and lower-casing commute |
| Text.LowerIdempotent | sim/models.py:21 | lower-casing twice is lower-casing once |
| Text.Split | sim/battlescribe_loader.py:29 | `split(",")` gives one field more than there are separators |
| Text.SplitFieldsOmitSeparator | sim/battlescribe_loader.py:29 | no field contains the separator |
| Text.SplitJoin | sim/battlescribe_loader.py:29 | joining the fields with the separator gives back the text |
| Text.SplitAppend | sim/battlescribe_loader.py:29 | splitting `a + sep + b` is splitting `a`, then `b` |
| Dice.RollDice | sim/models.py:36-39 | the loop adds up exactly `count` dice drawn in turn, a total equal to their sum |
| Dice.SumDiceBounds | sim/models.py:36-39 | the sum of `n` dice with `faces` faces lies in `n..n*faces` |
| Dice.RollForm | sim/models.py:29-39 | a literal is returned without drawing; a pattern with dice of no faces fails, otherwise draws `count` dice and adds the modifier; a failure draws nothing |
| Dice.DiceExpression.Roll | sim/models.py:20-39 | `roll` returns what the specification function gives for the text and the stream, and draws nothing on failure |
| Dice.LiteralRolls | sim/models.py:21-23 | a text that is all digits after strip and lower gives that integer and consumes no dice |
| Dice.DiceRollBounds | sim/models.py:29-39 | a pattern draws exactly `count` dice and yields a value in `count + mod .. count * faces + mod` |
| Dice.RollFailure | sim/models.py:18-27 | rolling fails exactly when the text is not read or asks for at least one die of no faces; the text is not read exactly when its normal form is neither all digits nor a match of `^(\d*)d(\d+)([+-]\d+)?$` |
| Dice.ModifierShapeParses | sim/models.py:18 | the modifier reader accepts exactly the group `([+-]\d+)?` |
| Dice.PatternAccepts | sim/models.py:18-34 | every text matching `^(\d*)d(\d+)([+-]\d+)?$`, split into its groups in any way, reads as the count (one when empty), faces and modifier of those groups |
| Dice.AcceptedMatches | sim/models.py:18-34 | every text the pattern reader accepts matches `^(\d*)d(\d+)([+-]\d+)?$`, and the groups it returns give the count, faces and modifier read |
| Dice.PatternIff | sim/models.py:18-27 | the pattern reader accepts a text exactly when it matches `^(\d*)d(\d+)([+-]\d+)?$` |
| Dice.ReadMatches | sim/models.py:20-27 | normalised text is read exactly when it is all digits or matches the pattern |
| Dice.RollDraws | sim/models.py:36-39 | a successful roll advances the stream by the number of dice its form names |
| Dice.WhitespaceAndCaseIgnored | sim/models.py:18-21 | surrounding whitespace and letter case change neither how the text is read nor what it rolls |
| Dice.ModifierRoundTrip | sim/models.py:31-34 | a modifier written as `+n`, `-n` or nothing reads back as itself, with an absent modifier reading as 0 |
| Dice.PatternRoundTrip | sim/models.py:18-34 | a pattern `<count>d<faces><mod>` reads back as exactly that count, faces and modifier |
| Dice.DefaultCountRoundTrip | sim/models.py:33 | a pattern written without a count reads with a count of one |
| Dice.ReadIntText | sim/models.py:22-23 | the decimal text of an int `n >= 0` reads as the literal `n`; that of a negative int is not readable |
| Dice.FromIntRolls | sim/models.py:42-45 | about `DiceExpression.FromInt`, the model of `from_value` on an int: `from_value(n)` for an int `n >= 0` always rolls `n` and draws nothing; for `n < 0` rolling raises |
| Dice.EmptyRefused | sim/models.py:22-27 | the empty text and an all-whitespace text are refused |
| Models.PlusMonoid | sim/combat.py:119-123 | adding tallies field by field is commutative and associative, with zero tallies as its unit |
| Models.SumBounds | sim/models.py:107 | a sum of entries in `lo..hi` lies in `n*lo..n*hi` |
| Models.SumAppend | sim/models.py:107 | the sum of two lists one after the other is the sum of their sums |
| Models.SummariesNeedIterations | sim/models.py:105-111 | about `SimulationResult.AverageDamage` and `SimulationResult.KillProbability`, the models of `average_damage` and `kill_probability`: both fail, by division by zero, exactly when `iterations` is 0 |
| Models.KillProbabilityBounds | sim/models.py:109-111 | about `SimulationResult.KillProbability`: with `0 <= kills <= iterations` and `iterations > 0` the kill probability lies in `0..1`, and is 1 when every trial killed |
| Models.AverageDamageBounds | sim/models.py:105-107 | about `SimulationResult.AverageDamage`: with one entry per iteration, each in `0..most`, the average damage lies in `0..most` |
| Models.AverageDamageNonNegative | sim/models.py:105-107 | the average of non-negative damages is not negative |
| Models.NonNegativeSum | sim/models.py:107 | a sum of non-negative entries is not negative |
| Sorting.Insert | sim/models.py:115 | insertion adds one element to the length |
| Sorting.InsertSorted | sim/models.py:115 | insertion into a sorted list keeps it sorted, with `x` first when it goes before the old head |
| Sorting.InsertPermutes | sim/models.py:115 | insertion adds exactly the one element to the multiset |
| Sorting.SortStep | sim/models.py:115 | inserting the head into a sorted permutation of the tail gives a sorted permutation of the whole |
| Sorting.Sort | sim/models.py:115 | `sorted()`: an ascending permutation of the input |
| Sorting.SortEnds | sim/models.py:115 | the first sorted element is the least and the last the greatest, both taken from the input |
| Models.RankIndexBounds | sim/models.py:118 | for `n >= 1` values and a percent in `0..100` the fractional index lies in `0..n-1` and grows with the percent |
| Models.ReadAtInRange | sim/models.py:119-122 | inside `0..n-1` neither index is out of range and the reading interpolates `ordered[floor(i)]` and `ordered[min(floor(i)+1, n-1)]` |
| Models.PercentileInterpolates | sim/models.py:114-122 | about `Models.Percentile`, the model of `percentile`: for a percent in `0..100` the percentile is the interpolation of the sorted values at `(n-1)*percent/100` |
| Models.BetweenEnds | sim/models.py:122 | the interpolated value `a*(1-w) + b*w` lies between `a` and `b` for `a <= b` and a weight in `0..1` |
| Models.InterpolationBetween | sim/models.py:119-122 | on sorted values the interpolation lies between its two neighbours, and between the least and greatest value |
| Models.InterpolationMonotone | sim/models.py:119-122 | on sorted values the interpolation never decreases as the index grows |
| Models.InterpolationAtWhole | sim/models.py:119-122 | at a whole index the interpolation reads that element |
| Models.PercentileBetweenMinAndMax | sim/models.py:114-122 | every percentile in `0..100` succeeds and lies between the least and greatest value |
| Models.PercentileEnds | sim/models.py:114-122 | about `Models.Percentile`: percentile 0 is the least value and percentile 100 the greatest |
| Models.PercentileOfNothing | sim/models.py:115-117 | about `Models.Percentile`: no values give 0.0 for every percent |
| Models.PercentilePastEndFails | sim/models.py:118-122 | when the fractional index reaches the length, the lookup raises `IndexError` |
| Models.PercentileMinusOneWraps | sim/models.py:118-122 | at fractional index -1 Python's negative indexing reads the greatest value |
| Models.ReadAtMinusOne | sim/models.py:119-122 | at index -1 the lower index is the last position and the weight is 0 |
| Models.PercentileMonotone | sim/models.py:114-122 | raising the percent within `0..100` never lowers the percentile |
| Combat.WoundTarget | sim/combat.py:21-30 | the wound target always lies in `2..6` |
| Combat.WoundTargetTable | sim/combat.py:21-30 | for positive toughness, each band of strength against toughness (`S >= 2T`, `T < S < 2T`, `S == T`, `T < 2S` with `S < T`, `2S <= T`) gives exactly the target 2, 3, 4, 5 or 6 respectively, both directions |
| Combat.WoundTargetMonotone | sim/combat.py:21-30 | a stronger weapon never needs a higher roll to wound |
| Combat.CritFromUnmodifiedRoll | sim/combat.py:56-68 | a hit or wound is critical exactly when the unmodified roll reaches its critical threshold, whatever the skill, target and other modifiers |
| Combat.ChecksMonotone | sim/combat.py:56-68 | a hit or wound roll that succeeds still succeeds with a higher roll or a larger modifier |
| Combat.HasLethalHits | sim/combat.py:84 | true exactly when some keyword, lower-cased, is "lethal hits" |
| Combat.LethalHitsIgnoresCase | sim/combat.py:84 | the letter case of the keywords does not matter |
| Combat.EffectiveSave | sim/combat.py:34-37 | the effective save always lies in `2..6` |
| Combat.EffectiveSaveOrder | sim/combat.py:34-37 | a truthy invulnerable save never makes the save worse and caps it at its own clamped value; without one it is the clamped `armour - ap`; a more negative `ap`, which penetrates more, never gives a lower target |
| Combat.SaveResult | sim/combat.py:39-42 | the unsaved damage is 0 when the roll reaches the effective save and the full damage otherwise |
| Combat.NaturalSaveRolls | sim/combat.py:37-42 | because of the clamp a natural 6 always saves and a natural 1 never does |
| Combat.Prevented | sim/combat.py:49-52 | at most `n` of `n` rolls are prevented |
| Combat.FeelNoPain | sim/combat.py:45-53 | a `None` or 0 threshold leaves the damage and draws nothing; otherwise exactly `damage` rolls are drawn and the damage left lies in `0..damage` |
| Combat.PreventedExtremes | sim/combat.py:50-52 | a threshold of at most 1 prevents every roll and one of at least 7 prevents none |
| Combat.FeelNoPainExtremes | sim/combat.py:45-53 | a truthy threshold of at most 1 ignores all damage and one of at least 7 ignores none, still drawing `damage` dice |
| Combat.DamagePhaseCounts | sim/combat.py:97-105 | the damage step adds at most one failed save, a kill only with a failed save, no negative damage, and without feel-no-pain at least one damage per failed save (because of the minimum of 1) |
| Combat.WoundPhaseCounts | sim/combat.py:84-105 | the wound step adds at most one wound, a critical wound only with a wound, and otherwise what the damage step adds |
| Combat.AttackStepCounts | sim/combat.py:78-105 | one attack adds at most one hit, a critical hit only with a hit, a wound only with a hit, and otherwise what the wound step adds |
| Combat.AttacksOrdered | sim/combat.py:77-105 | after `n` attacks the tallies obey the counter bounds, with `hits <= n` |
| Combat.AttacksFailurePersists | sim/combat.py:77-105 | an attack that raises aborts the whole attack loop with its error |
| Combat.TrialOrdered | sim/combat.py:76-107 | after `resolve_attack`: `crit_hits <= hits <= attacks rolled`, `crit_wounds <= wounds <= hits`, `failed_saves <= wounds`, `kills <= failed_saves`, damage not negative, and without feel-no-pain `damage >= failed_saves` |
| Combat.LethalHitsAutoWound | sim/combat.py:84-89 | a critical hit with lethal hits counts as a wound and a critical wound, and its damage roll comes straight after the hit roll, with no wound roll drawn |
| Combat.DamagePhaseModifiers | sim/combat.py:97-98 | the damage step reads only the penetration and damage modifiers |
| Combat.LethalHitsIgnoresWoundModifiers | sim/combat.py:84-91 | for a critical hit with lethal hits neither the wound modifier nor the critical wound threshold changes anything |
| Combat.OneAttackScenario | sim/combat.py:71-107 | for one skill-2 attack with strength equal to toughness, damage 1, one wound and an armour save of 7, the trial kills exactly when the hit roll is at least 2, the wound roll at least 4 and the save roll below 6 |
| Combat.RollToHit | sim/combat.py:56-60 | `roll_to_hit` takes one die and returns whether `roll + hit modifier >= skill` and whether `roll >= crit threshold` |
| Combat.RollToWound | sim/combat.py:63-68 | `roll_to_wound` takes one die and returns whether `roll + wound modifier` reaches the wound target and whether `roll >= crit threshold` |
| Combat.ApplySave | sim/combat.py:33-42 | `apply_save` takes one die and returns 0 or the full damage, as the effective save decides |
| Combat.ApplyFeelNoPain | sim/combat.py:45-53 | the loop counts the rolls that reach the threshold, drawing one die per point of damage when the threshold is truthy and none otherwise |
| Combat.ResolveDamage | sim/combat.py:97-105 | the damage step updates failed saves, damage and kills as its specification function says, drawing its dice from the stream |
| Combat.AttackStepRolls | sim/combat.py:78-105 | one attack spelled out roll by roll: the hit roll, the wound roll unless lethal hits wounds automatically, then the damage step |
| Combat.ResolveOneAttack | sim/combat.py:78-105 | one pass of the attack loop updates the tallies and draws dice as its specification function says |
| Combat.ResolveAttacks | sim/combat.py:77-105 | the attack loop runs the `n` attacks in turn, as the specification function says |
| Combat.ResolveTrial | sim/combat.py:71-107 | one trial rolls the number of attacks and resolves that many, none when the roll is not positive |
| Combat.ResolveAttack | sim/combat.py:71-107 | `resolve_attack` returns the outcome and consumes the dice its specification function gives for the weapon, defender, modifiers and stream |
| Simulation.KillingTrials | sim/combat.py:118 | each trial adds at most one to the kills, so they are at most the number of trials, and not negative when no trial's kills are |
| Simulation.TrialsPrefix | sim/combat.py:115-123 | a run of `n` trials has `n` outcomes, and its first `m` outcomes are the run of `m` trials |
| Simulation.TrialsEntry | sim/combat.py:115-116 | entry `i` of a run is the trial drawn from where the first `i` trials left the stream |
| Simulation.TrialsCompose | sim/combat.py:115-123 | running `a` trials and then `b` more from where they stopped is running `a + b` trials |
| Simulation.TrialsOrdered | sim/combat.py:115-118 | every outcome of a run has non-negative kills and damage, and tallies ordered as the steps of an attack are: critical hits among hits, critical wounds among wounds, wounds at most hits, failed saves at most wounds |
| Simulation.TotalStatsAppend | sim/combat.py:119-123 | the summed tallies of two runs one after the other are the sum of their summed tallies |
| Simulation.TotalStatsOrdered | sim/combat.py:119-123 | the counter bounds survive summing over a run |
| Simulation.SimulateShape | sim/combat.py:110-133 | the result has one damage entry per trial, entry `i` being trial `i`'s damage; kills are at most the iterations; the tallies are the field-by-field sum of the trials' tallies |
| Simulation.SimulationTalliesOrdered | sim/combat.py:119-133 | the aggregated tallies of a run are ordered: critical hits among hits, critical wounds among wounds, wounds at most hits, failed saves at most wounds |
| Simulation.SimulationSummaries | sim/combat.py:110-133 | for a positive number of iterations the kill probability of the result lies in `0..1` and the average damage is not negative |
| Simulation.SummaryAppend | sim/combat.py:117-123 | one more trial appends its damage, adds `min(kills, 1)` to the kills and adds its tallies field by field |
| Simulation.TrialsStep | sim/combat.py:115-116 | a run one trial longer is the shorter run followed by the next trial |
| Simulation.TrialsFailurePersists | sim/combat.py:115-116 | a trial that raises aborts the whole run with its error |
| Simulation.RunTrials | sim/combat.py:115-123 | the loop collects damages, killing trials and summed tallies, and ends where the specification function of `n` trials says |
| Simulation.RunSimulation | sim/combat.py:110-133 | `run_simulation` returns the summary its specification function gives and consumes exactly the dice of the trials it ran |
| Loader.ParseIntFromCharacteristic | sim/battlescribe_loader.py:21-23 | nothing exactly when the text is empty or does not start with a digit; the value is otherwise a natural number |
| Loader.ReadsWholeDigitRun | sim/battlescribe_loader.py:21-23 | the value read is that of the whole maximal leading digit run |
| Loader.CharacteristicRoundTrip | sim/battlescribe_loader.py:21-23 | a number written in decimal and followed by a non-digit, or nothing, reads back as that number |
| Loader.CharacteristicExamples | sim/battlescribe_loader.py:21-23 | "3+" reads as 3, "12" as 12, and "D6" and "" as nothing |
| Loader.Kept | sim/battlescribe_loader.py:29 | a field contributes nothing or one stripped, non-empty keyword |
| Loader.StrippedFields | sim/battlescribe_loader.py:29 | there are no more keywords than fields |
| Loader.StrippedFieldsAreKeywords | sim/battlescribe_loader.py:29 | every keyword kept is non-empty and stripped |
| Loader.StrippedFieldsAppend | sim/battlescribe_loader.py:29 | the comprehension over two field lists is the concatenation of the comprehensions |
| Loader.ParseKeywords | sim/battlescribe_loader.py:26-29 | `None` and "" give no keywords; there are at most one more than the commas; every keyword is non-empty and stripped |
| Loader.KeywordsAppend | sim/battlescribe_loader.py:26-29 | the keywords of `a + "," + b` are those of `a` followed by those of `b`, so order is kept and no keyword spans a comma |
| Loader.KeywordsOfText | sim/battlescribe_loader.py:26-29 | the empty value needs no case of its own: its one blank field is dropped |
| Loader.KeywordsOfOneField | sim/battlescribe_loader.py:29 | a comma-free value gives its stripped text as its one keyword, or nothing when it is blank |
| Loader.KeywordsRoundTrip | sim/battlescribe_loader.py:26-29 | stripped, non-empty, comma-free keywords joined by commas read back as themselves |

## Left out

- `random.randint` is replaced by an injected stream of dice (see Randomness). Statements about the distribution of outcomes, such as convergence of the mean, are not made.
- Reading dice once: Python reads a weapon's attack and damage texts at every roll. The model reads each once per trial (`Combat.ResolveAttack`) and once per run (`Simulation.RunSimulation`), then rolls the read form. Reading is pure and a text that cannot be read fails when it is first rolled, so this behaves the same, and `Combat.Trial` and `Simulation.Simulate` are stated in terms of the text.
- The helper steps of `resolve_attack` are methods of their own (`Combat.ResolveOneAttack`, `Combat.ResolveDamage`, `Combat.ResolveTrial`), and `run_simulation` is `Simulation.RunTrials`. Each is proved against the same specification function as the inline code it stands for.
- `AttackStatistics` is modelled as a value. Python adds into the fields of `aggregate_stats` one at a time. `Simulation.RunTrials` adds the five fields at once with `AttackStatistics.Plus`, which gives the same fields.
- Python's exceptions are modelled as a `Failure` result that aborts the run. Catching them is not modelled, since the engine never catches them.
- Text is ASCII. Python's Unicode-aware `isdigit`, `\d`, `strip` and `lower` accept more characters than the model does.
- Floats are modelled as exact reals. Rounding in `average_damage`, `kill_probability` and `percentile` is not modelled.
- The float branch of `DiceExpression.from_value` (`int(float)` truncation) and its string branch are not modelled. The int branch is `Dice.DiceExpression.FromInt`.
- The dataclass defaults are not modelled as defaults: every `SaveProfile`, `WeaponProfile` and `UnitProfile` is built with all its fields (`invulnerable` and `feel_no_pain` default to `None`, `is_melee` to `False`, `keywords` and `weapons` to the empty list). `AttackModifiers()` with its defaults is `Models.DefaultModifiers`.
- `run_simulation`'s default of 10000 iterations is a default argument; `Simulation.RunSimulation` takes the number of iterations from its caller.
- The `name` fields, the `attacker`, `defender` and `weapon` names in `SimulationResult`, the unused `attacker` parameter of `resolve_attack`, and `is_melee` and the unit's weapon list take no part in the engine. They are kept as fields or left out.
- The XML loading of the loader (`_get_characteristic`, `load_weapon_profile`, `load_unit_profile`, the `find_*` queries) is I/O over an XML library and is not part of this model. The command-line runner, the datasheet toolkit and the Rust XML utilities are not part of this model either.
- `percentile` is not guarded against percents outside `0..100`. The model keeps Python's behaviour there: a truncated index past the end raises `IndexError`, and a negative index reads from the end. Only these two cases are stated (`Models.PercentilePastEndFails`, `Models.PercentileMinusOneWraps`).
