/** `run_simulation`: many independent trials of one weapon against one
    defender, all drawn in turn from the same stream, summarised into a
    damage distribution, a count of trials that killed and the summed
    tallies. */
module Simulation {
  import opened Wrappers
  import opened Randomness
  import opened Dice
  import opened Models
  import opened Combat

  /** The outcomes of the first `n` trials from position `p`, in the order
      they ran, and the position after them. The first trial that fails
      aborts the run. */
  function Trials(n: nat, weapon: WeaponProfile, defender: UnitProfile, mods: AttackModifiers,
                  attacks: Result<Form, DiceError>, damage: Result<Form, DiceError>,
                  source: nat -> nat, p: nat): Result<(seq<AttackOutcome>, nat), DiceError>
  {
    if n == 0 then Success(([], p))
    else
      match Trials(n - 1, weapon, defender, mods, attacks, damage, source, p)
      case Failure(e) => Failure(e)
      case Success(done) =>
        match TrialOf(weapon, defender, mods, attacks, damage, source, done.1)
        case Failure(e) => Failure(e)
        case Success(next) => Success((done.0 + [next.0], next.1))
  }

  /** The total damage of every trial, in order. */
  function Damages(outcomes: seq<AttackOutcome>): (d: seq<int>)
    ensures |d| == |outcomes|
    ensures forall i :: 0 <= i < |outcomes| ==> d[i] == outcomes[i].damage
  {
    seq(|outcomes|, i requires 0 <= i < |outcomes| => outcomes[i].damage)
  }

  /** `total_kills`: the number of trials that killed at least one model
      (each trial adds `min(kills, 1)`). */
  function KillingTrials(outcomes: seq<AttackOutcome>): (k: int)
    ensures k <= |outcomes|
    ensures (forall i :: 0 <= i < |outcomes| ==> outcomes[i].kills >= 0) ==> k >= 0
  {
    if outcomes == [] then 0
    else
      var last := outcomes[|outcomes| - 1];
      KillingTrials(outcomes[..|outcomes| - 1]) + (if last.kills < 1 then last.kills else 1)
  }

  /** `aggregate_stats`: the field-by-field sum of the trials' tallies. */
  function TotalStats(outcomes: seq<AttackOutcome>): AttackStatistics {
    if outcomes == [] then NoStatistics
    else TotalStats(outcomes[..|outcomes| - 1]).Plus(outcomes[|outcomes| - 1].stats)
  }

  /** The simulation result of a run that produced these outcomes. */
  function Summary(iterations: int, outcomes: seq<AttackOutcome>): SimulationResult {
    SimulationResult(iterations, Damages(outcomes), KillingTrials(outcomes), TotalStats(outcomes))
  }

  /** `run_simulation` from position `p`, for a weapon whose attack and
      damage expressions read as `attacks` and `damage`: `iterations` trials
      (none when it is not positive), summarised. */
  function SimulateOf(weapon: WeaponProfile, defender: UnitProfile, mods: AttackModifiers,
                      attacks: Result<Form, DiceError>, damage: Result<Form, DiceError>, iterations: int,
                      source: nat -> nat, p: nat): Result<(SimulationResult, nat), DiceError>
  {
    match Trials(RangeLength(iterations), weapon, defender, mods, attacks, damage, source, p)
    case Failure(e) => Failure(e)
    case Success(run) => Success((Summary(iterations, run.0), run.1))
  }

  /** `run_simulation` from position `p`. */
  function Simulate(weapon: WeaponProfile, defender: UnitProfile, mods: AttackModifiers, iterations: int,
                    source: nat -> nat, p: nat): Result<(SimulationResult, nat), DiceError>
  {
    SimulateOf(weapon, defender, mods, Parse(weapon.attacks.raw), Parse(weapon.damage.raw), iterations, source, p)
  }

  // ---------------------------------------------------------------- lemmas

  /** A run of `n` trials has `n` outcomes, and its first `m` outcomes are the
      run of `m` trials. */
  lemma {:induction false} TrialsPrefix(m: nat, n: nat, weapon: WeaponProfile, defender: UnitProfile,
                                        mods: AttackModifiers, attacks: Result<Form, DiceError>,
                    damage: Result<Form, DiceError>, source: nat -> nat, p: nat)
    requires m <= n
    requires Trials(n, weapon, defender, mods, attacks, damage, source, p).Success?
    decreases n
    ensures Trials(m, weapon, defender, mods, attacks, damage, source, p).Success?
    ensures |Trials(n, weapon, defender, mods, attacks, damage, source, p).value.0| == n
    ensures Trials(m, weapon, defender, mods, attacks, damage, source, p).value.0 ==
      Trials(n, weapon, defender, mods, attacks, damage, source, p).value.0[..m]
  {
    if n > 0 {
      var done := Trials(n - 1, weapon, defender, mods, attacks, damage, source, p).value;
      TrialsPrefix(n - 1, n - 1, weapon, defender, mods, attacks, damage, source, p);
      if m < n {
        TrialsPrefix(m, n - 1, weapon, defender, mods, attacks, damage, source, p);
        var all := Trials(n, weapon, defender, mods, attacks, damage, source, p).value.0;
        assert all[..m] == done.0[..m];
      } else {
        assert Trials(n, weapon, defender, mods, attacks, damage, source, p).value.0[..m] ==
          Trials(n, weapon, defender, mods, attacks, damage, source, p).value.0;
      }
    }
  }

  /** Entry `i` of a run is trial `i`: the trial drawn from where the first
      `i` trials left the stream. */
  lemma TrialsEntry(i: nat, n: nat, weapon: WeaponProfile, defender: UnitProfile,
                    mods: AttackModifiers, attacks: Result<Form, DiceError>,
                    damage: Result<Form, DiceError>, source: nat -> nat, p: nat)
    requires i < n
    requires Trials(n, weapon, defender, mods, attacks, damage, source, p).Success?
    ensures Trials(i, weapon, defender, mods, attacks, damage, source, p).Success?
    ensures var q := Trials(i, weapon, defender, mods, attacks, damage, source, p).value.1;
      && TrialOf(weapon, defender, mods, attacks, damage, source, q).Success?
      && |Trials(n, weapon, defender, mods, attacks, damage, source, p).value.0| == n
      && Trials(n, weapon, defender, mods, attacks, damage, source, p).value.0[i] == TrialOf(weapon, defender, mods, attacks, damage, source, q).value.0
  {
    TrialsPrefix(i + 1, n, weapon, defender, mods, attacks, damage, source, p);
    TrialsPrefix(i, i, weapon, defender, mods, attacks, damage, source, p);
    var run := Trials(i + 1, weapon, defender, mods, attacks, damage, source, p).value.0;
    assert run[i] == Trials(n, weapon, defender, mods, attacks, damage, source, p).value.0[..i + 1][i];
  }

  /** Running `a` trials and then `b` more from where they stopped is running
      `a + b` trials. */
  lemma {:induction false} TrialsCompose(a: nat, b: nat, weapon: WeaponProfile, defender: UnitProfile,
                                         mods: AttackModifiers, attacks: Result<Form, DiceError>,
                    damage: Result<Form, DiceError>, source: nat -> nat, p: nat)
    requires Trials(a, weapon, defender, mods, attacks, damage, source, p).Success?
    ensures var first := Trials(a, weapon, defender, mods, attacks, damage, source, p).value;
      Trials(a + b, weapon, defender, mods, attacks, damage, source, p) ==
        match Trials(b, weapon, defender, mods, attacks, damage, source, first.1)
        case Failure(e) => Failure(e)
        case Success(rest) => Success((first.0 + rest.0, rest.1))
  {
    if b > 0 {
      TrialsCompose(a, b - 1, weapon, defender, mods, attacks, damage, source, p);
      var first := Trials(a, weapon, defender, mods, attacks, damage, source, p).value;
      assert a + b - 1 == a + (b - 1);
      var rest := Trials(b - 1, weapon, defender, mods, attacks, damage, source, first.1);
      if rest.Success? {
        assert Trials(a + b - 1, weapon, defender, mods, attacks, damage, source, p) ==
          Success((first.0 + rest.value.0, rest.value.1));
        var next := TrialOf(weapon, defender, mods, attacks, damage, source, rest.value.1);
        if next.Success? {
          assert first.0 + rest.value.0 + [next.value.0] == first.0 + (rest.value.0 + [next.value.0]);
        }
      } else {
        assert Trials(a + b - 1, weapon, defender, mods, attacks, damage, source, p) == Failure(rest.error);
      }
    } else {
      var first := Trials(a, weapon, defender, mods, attacks, damage, source, p).value;
      assert first.0 + [] == first.0;
    }
  }

  /** Tallies that keep the order of an attack's steps: critical hits are
      among the hits, wounds at most the hits, critical wounds among the
      wounds, failed saves at most the wounds. */
  predicate TalliesOrdered(s: AttackStatistics) {
    0 <= s.critHits <= s.hits && 0 <= s.critWounds <= s.wounds <= s.hits && 0 <= s.failedSaves <= s.wounds
  }

  /** Every outcome of a run has ordered tallies, and no negative kills or
      damage. */
  lemma {:induction false} TrialsOrdered(n: nat, weapon: WeaponProfile, defender: UnitProfile,
                                         mods: AttackModifiers, attacks: Result<Form, DiceError>,
                    damage: Result<Form, DiceError>, source: nat -> nat, p: nat)
    requires Trials(n, weapon, defender, mods, attacks, damage, source, p).Success?
    ensures var outcomes := Trials(n, weapon, defender, mods, attacks, damage, source, p).value.0;
      forall i :: 0 <= i < |outcomes| ==>
        0 <= outcomes[i].kills && 0 <= outcomes[i].damage && TalliesOrdered(outcomes[i].stats)
  {
    if n > 0 {
      TrialsOrdered(n - 1, weapon, defender, mods, attacks, damage, source, p);
      var done := Trials(n - 1, weapon, defender, mods, attacks, damage, source, p).value;
      TrialOrdered(weapon, defender, mods, attacks, damage, source, done.1);
    }
  }

  /** The summed tallies of two runs one after the other are the sum of their
      summed tallies. */
  lemma {:induction false} TotalStatsAppend(a: seq<AttackOutcome>, b: seq<AttackOutcome>)
    ensures TotalStats(a + b) == TotalStats(a).Plus(TotalStats(b))
  {
    if b == [] {
      assert a + b == a;
    } else {
      assert (a + b)[..|a + b| - 1] == a + b[..|b| - 1];
      TotalStatsAppend(a, b[..|b| - 1]);
      PlusMonoid(TotalStats(a), TotalStats(b[..|b| - 1]), b[|b| - 1].stats);
    }
  }

  /** Ordered tallies stay ordered when summed: over a whole run critical
      hits are at most hits, wounds at most hits, and so on. */
  lemma {:induction false} TotalStatsOrdered(outcomes: seq<AttackOutcome>)
    requires forall i :: 0 <= i < |outcomes| ==> TalliesOrdered(outcomes[i].stats)
    ensures TalliesOrdered(TotalStats(outcomes))
  {
    if outcomes != [] {
      TotalStatsOrdered(outcomes[..|outcomes| - 1]);
    }
  }

  /** What `run_simulation` returns: one damage entry per trial, entry `i`
      being trial `i`'s damage; at most one killing trial counted per trial;
      the tallies summed over the trials. */
  lemma SimulateShape(weapon: WeaponProfile, defender: UnitProfile, mods: AttackModifiers,
                      attacks: Result<Form, DiceError>, damage: Result<Form, DiceError>, iterations: int,
                      source: nat -> nat, p: nat)
    requires SimulateOf(weapon, defender, mods, attacks, damage, iterations, source, p).Success?
    ensures var r := SimulateOf(weapon, defender, mods, attacks, damage, iterations, source, p).value.0;
      var outcomes := Trials(RangeLength(iterations), weapon, defender, mods, attacks, damage, source, p).value.0;
      && r.iterations == iterations
      && |r.damageDistribution| == |outcomes| == RangeLength(iterations)
      && (forall i :: 0 <= i < |outcomes| ==> r.damageDistribution[i] == outcomes[i].damage)
      && 0 <= r.kills <= RangeLength(iterations)
      && r.stats == TotalStats(outcomes)
  {
    var n := RangeLength(iterations);
    TrialsPrefix(n, n, weapon, defender, mods, attacks, damage, source, p);
    TrialsOrdered(n, weapon, defender, mods, attacks, damage, source, p);
  }

  /** For a positive number of iterations the kill probability is a
      probability and the average damage is not negative. */
  lemma SimulationSummaries(weapon: WeaponProfile, defender: UnitProfile, mods: AttackModifiers,
                            attacks: Result<Form, DiceError>, damage: Result<Form, DiceError>, iterations: int,
                            source: nat -> nat, p: nat)
    requires iterations > 0
    requires SimulateOf(weapon, defender, mods, attacks, damage, iterations, source, p).Success?
    ensures var r := SimulateOf(weapon, defender, mods, attacks, damage, iterations, source, p).value.0;
      && r.KillProbability().Success? && 0.0 <= r.KillProbability().value <= 1.0
      && r.AverageDamage().Success? && 0.0 <= r.AverageDamage().value
  {
    SimulateShape(weapon, defender, mods, attacks, damage, iterations, source, p);
    var r := SimulateOf(weapon, defender, mods, attacks, damage, iterations, source, p).value.0;
    KillProbabilityBounds(r);
    TrialsOrdered(RangeLength(iterations), weapon, defender, mods, attacks, damage, source, p);
    AverageDamageNonNegative(r);
  }

  /** The aggregated tallies of a whole run keep the order of an attack's
      steps: over all trials critical hits are among the hits, wounds at most
      the hits, and failed saves at most the wounds. */
  lemma SimulationTalliesOrdered(weapon: WeaponProfile, defender: UnitProfile, mods: AttackModifiers,
                                 attacks: Result<Form, DiceError>, damage: Result<Form, DiceError>, iterations: int,
                                 source: nat -> nat, p: nat)
    requires SimulateOf(weapon, defender, mods, attacks, damage, iterations, source, p).Success?
    ensures TalliesOrdered(SimulateOf(weapon, defender, mods, attacks, damage, iterations, source, p).value.0.stats)
  {
    var outcomes := Trials(RangeLength(iterations), weapon, defender, mods, attacks, damage, source, p).value.0;
    TrialsOrdered(RangeLength(iterations), weapon, defender, mods, attacks, damage, source, p);
    TotalStatsOrdered(outcomes);
  }

  /** One more trial adds its damage to the end of the distribution, adds one
      to the killing trials if it killed, and adds its tallies field by
      field. */
  lemma SummaryAppend(iterations: int, outcomes: seq<AttackOutcome>, o: AttackOutcome)
    ensures var s := Summary(iterations, outcomes);
      var t := s.stats;
      Summary(iterations, outcomes + [o]) == SimulationResult(
        iterations,
        s.damageDistribution + [o.damage],
        s.kills + (if o.kills < 1 then o.kills else 1),
        t.Plus(o.stats))
  {
    assert (outcomes + [o])[..|outcomes|] == outcomes;
  }

  // ---------------------------------------------------------------- method

  /** `n` trials drawn in turn from the roller's stream, for a weapon whose
      expressions read as `attacks` and `damage`, summarised as they run. */
  method RunTrials(n: nat, weapon: WeaponProfile, defender: UnitProfile, mods: AttackModifiers,
                   attacks: Result<Form, DiceError>, damage: Result<Form, DiceError>, iterations: int, rng: Roller)
    returns (r: Result<SimulationResult, DiceError>)
    modifies rng
    ensures WithPosition(r, rng.drawn) ==
      match Trials(n, weapon, defender, mods, attacks, damage, rng.source, old(rng.drawn))
      case Failure(e) => Failure(e)
      case Success(run) => Success((Summary(iterations, run.0), run.1))
  {
    var damageRolls: seq<int> := [];
    var totalKills := 0;
    var aggregateStats := NoStatistics;
    ghost var outcomes: seq<AttackOutcome> := [];

    for i := 0 to n
      invariant Trials(i, weapon, defender, mods, attacks, damage, rng.source, old(rng.drawn)) == Success((outcomes, rng.drawn))
      invariant SimulationResult(iterations, damageRolls, totalKills, aggregateStats) == Summary(iterations, outcomes)
    {
      var outcome := ResolveTrial(weapon, defender, mods, attacks, damage, rng);
      if outcome.Failure? {
        TrialsFailurePersists(i, n, weapon, defender, mods, attacks, damage, rng.source, old(rng.drawn));
        return Failure(outcome.error);
      }
      var o := outcome.value;
      damageRolls := damageRolls + [o.damage];
      totalKills := totalKills + (if o.kills < 1 then o.kills else 1);
      aggregateStats := aggregateStats.Plus(o.stats);
      SummaryAppend(iterations, outcomes, o);
      TrialsStep(i, weapon, defender, mods, attacks, damage, rng.source, old(rng.drawn));
      outcomes := outcomes + [o];
    }
    r := Success(SimulationResult(iterations, damageRolls, totalKills, aggregateStats));
  }

  /** `run_simulation`: `iterations` trials (none when it is not positive)
      drawn in turn from the roller's stream. Both dice expressions are read
      once for the run; reading is pure, and a text that cannot be read fails
      when the first trial rolls it. */
  method RunSimulation(weapon: WeaponProfile, defender: UnitProfile, mods: AttackModifiers, iterations: int, rng: Roller)
    returns (r: Result<SimulationResult, DiceError>)
    modifies rng
    ensures WithPosition(r, rng.drawn) == Simulate(weapon, defender, mods, iterations, rng.source, old(rng.drawn))
  {
    var attacks, damage := Parse(weapon.attacks.raw), Parse(weapon.damage.raw);
    r := RunTrials(RangeLength(iterations), weapon, defender, mods, attacks, damage, iterations, rng);
  }

  /** A run one trial longer is the shorter run followed by one more trial. */
  lemma TrialsStep(i: nat, weapon: WeaponProfile, defender: UnitProfile, mods: AttackModifiers,
                   attacks: Result<Form, DiceError>, damage: Result<Form, DiceError>, source: nat -> nat, p: nat)
    requires Trials(i, weapon, defender, mods, attacks, damage, source, p).Success?
    requires TrialOf(weapon, defender, mods, attacks, damage, source, Trials(i, weapon, defender, mods, attacks, damage, source, p).value.1).Success?
    ensures var done := Trials(i, weapon, defender, mods, attacks, damage, source, p).value;
      var next := TrialOf(weapon, defender, mods, attacks, damage, source, done.1).value;
      Trials(i + 1, weapon, defender, mods, attacks, damage, source, p) == Success((done.0 + [next.0], next.1))
  {
  }

  /** Once a trial fails the whole run fails with its error. */
  lemma {:induction false} TrialsFailurePersists(i: nat, n: nat, weapon: WeaponProfile, defender: UnitProfile,
                                                 mods: AttackModifiers, attacks: Result<Form, DiceError>,
                    damage: Result<Form, DiceError>, source: nat -> nat, p: nat)
    requires i < n
    requires Trials(i, weapon, defender, mods, attacks, damage, source, p).Success?
    requires TrialOf(weapon, defender, mods, attacks, damage, source, Trials(i, weapon, defender, mods, attacks, damage, source, p).value.1).Failure?
    ensures Trials(n, weapon, defender, mods, attacks, damage, source, p) ==
      Failure(TrialOf(weapon, defender, mods, attacks, damage, source, Trials(i, weapon, defender, mods, attacks, damage, source, p).value.1).error)
  {
    if n > i + 1 {
      TrialsFailurePersists(i, n - 1, weapon, defender, mods, attacks, damage, source, p);
    }
  }
}
