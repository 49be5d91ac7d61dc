/** The engine's value records and the summary statistics of a simulation. */
module Models {
  import opened Wrappers
  import opened Dice
  import opened Sorting

  /** Additive offsets to the hit, wound, armour-penetration and damage rolls,
      and the unmodified rolls at or above which a hit or a wound is critical. */
  datatype AttackModifiers = AttackModifiers(
    hitModifier: int,
    woundModifier: int,
    apModifier: int,
    damageModifier: int,
    critHitThreshold: int,
    critWoundThreshold: int)

  /** `AttackModifiers()` with every field at its default. */
  const DefaultModifiers := AttackModifiers(0, 0, 0, 0, 6, 6)

  /** Armour save, and the optional invulnerable save and feel-no-pain
      thresholds (`None` where Python has `None`). */
  datatype SaveProfile = SaveProfile(armour: int, invulnerable: Option<int>, feelNoPain: Option<int>)

  datatype WeaponProfile = WeaponProfile(
    name: string,
    attacks: DiceExpression,
    skill: int,
    strength: int,
    ap: int,
    damage: DiceExpression,
    isMelee: bool,
    keywords: seq<string>)

  datatype UnitProfile = UnitProfile(
    name: string,
    toughness: int,
    wounds: int,
    save: SaveProfile,
    weapons: seq<WeaponProfile>)

  /** Per-phase tallies. `failedSaves` counts attacks whose save did NOT stop
      them, that is attacks that went on to inflict damage. */
  datatype AttackStatistics = AttackStatistics(
    hits: int,
    critHits: int,
    wounds: int,
    critWounds: int,
    failedSaves: int)
  {
    /** The field-by-field sum of two tallies. */
    function Plus(other: AttackStatistics): AttackStatistics {
      AttackStatistics(
        hits + other.hits,
        critHits + other.critHits,
        wounds + other.wounds,
        critWounds + other.critWounds,
        failedSaves + other.failedSaves)
    }
  }

  /** `AttackStatistics()`: every counter at zero. */
  const NoStatistics := AttackStatistics(0, 0, 0, 0, 0)

  /** Tallies form a commutative monoid under `Plus`, so they can be merged in
      any grouping and order. */
  lemma PlusMonoid(a: AttackStatistics, b: AttackStatistics, c: AttackStatistics)
    ensures a.Plus(b) == b.Plus(a)
    ensures a.Plus(b).Plus(c) == a.Plus(b.Plus(c))
    ensures a.Plus(NoStatistics) == a
  {
  }

  /** Division by zero and an index outside a list, both raised by Python. */
  datatype MathError = ZeroDivision | IndexOutOfRange

  function Sum(s: seq<int>): int {
    if s == [] then 0 else Sum(s[..|s| - 1]) + s[|s| - 1]
  }

  lemma {:induction false} SumBounds(s: seq<int>, lo: int, hi: int)
    requires forall i :: 0 <= i < |s| ==> lo <= s[i] <= hi
    ensures |s| * lo <= Sum(s) <= |s| * hi
  {
    if s != [] {
      SumBounds(s[..|s| - 1], lo, hi);
      assert (|s| - 1) * lo + lo == |s| * lo;
      assert (|s| - 1) * hi + hi == |s| * hi;
    }
  }

  lemma {:induction false} SumAppend(a: seq<int>, b: seq<int>)
    ensures Sum(a + b) == Sum(a) + Sum(b)
  {
    if b != [] {
      assert (a + b)[..|a + b| - 1] == a + b[..|b| - 1];
      SumAppend(a, b[..|b| - 1]);
    } else {
      assert a + b == a;
    }
  }

  /** The outcome of a whole simulation run. */
  datatype SimulationResult = SimulationResult(
    iterations: int,
    damageDistribution: seq<int>,
    kills: int,
    stats: AttackStatistics)
  {
    /** `average_damage`: the total damage over the number of iterations. */
    function AverageDamage(): Result<real, MathError> {
      if iterations == 0 then Failure(ZeroDivision)
      else Success(Sum(damageDistribution) as real / iterations as real)
    }

    /** `kill_probability`: the trials with a kill over the number of iterations. */
    function KillProbability(): Result<real, MathError> {
      if iterations == 0 then Failure(ZeroDivision)
      else Success(kills as real / iterations as real)
    }
  }

  /** Both summaries fail on zero iterations and only then. */
  lemma SummariesNeedIterations(r: SimulationResult)
    ensures r.AverageDamage().Failure? <==> r.iterations == 0
    ensures r.KillProbability().Failure? <==> r.iterations == 0
  {
  }

  /** With `0 <= kills <= iterations`, the kill probability is a probability. */
  lemma KillProbabilityBounds(r: SimulationResult)
    requires 0 <= r.kills <= r.iterations && r.iterations > 0
    ensures r.KillProbability().Success?
    ensures 0.0 <= r.KillProbability().value <= 1.0
    ensures r.kills == r.iterations ==> r.KillProbability().value == 1.0
  {
    var k, n := r.kills as real, r.iterations as real;
    assert k / n <= 1.0 by {
      assert k <= n;
      assert k / n <= n / n;
    }
  }

  /** When the distribution has one entry per iteration, each within
      `0..most`, the average damage lies within `0..most` too. */
  lemma AverageDamageBounds(r: SimulationResult, most: int)
    requires r.iterations > 0 && |r.damageDistribution| == r.iterations
    requires forall i :: 0 <= i < |r.damageDistribution| ==> 0 <= r.damageDistribution[i] <= most
    ensures r.AverageDamage().Success?
    ensures 0.0 <= r.AverageDamage().value <= most as real
  {
    var n := r.iterations;
    SumBounds(r.damageDistribution, 0, most);
    var total := Sum(r.damageDistribution) as real;
    assert 0.0 <= total <= n as real * most as real;
    assert total / n as real <= most as real by {
      assert total <= most as real * n as real;
    }
  }

  /** A distribution of damages that are not negative has a non-negative
      average. */
  lemma AverageDamageNonNegative(r: SimulationResult)
    requires r.iterations > 0
    requires forall i :: 0 <= i < |r.damageDistribution| ==> 0 <= r.damageDistribution[i]
    ensures r.AverageDamage().Success? && 0.0 <= r.AverageDamage().value
  {
    NonNegativeSum(r.damageDistribution);
  }

  lemma {:induction false} NonNegativeSum(s: seq<int>)
    requires forall i :: 0 <= i < |s| ==> 0 <= s[i]
    ensures 0 <= Sum(s)
  {
    if s != [] {
      NonNegativeSum(s[..|s| - 1]);
    }
  }

  /** Python's `int(x)` on a float: truncation towards zero. */
  function Trunc(x: real): int {
    if x >= 0.0 then x.Floor else -((-x).Floor)
  }

  /** Python's `s[i]`, where a negative `i` counts from the end. */
  function PyIndex(s: seq<int>, i: int): Result<int, MathError> {
    if 0 <= i < |s| then Success(s[i])
    else if -|s| <= i < 0 then Success(s[|s| + i])
    else Failure(IndexOutOfRange)
  }

  /** `percentile(values, percent)`: linear interpolation between the two order
      statistics around the fractional index `(n - 1) * percent / 100`; 0.0 for
      no values. */
  function Percentile(values: seq<int>, percent: real): Result<real, MathError> {
    var ordered := Sort(values);
    if ordered == [] then Success(0.0)
    else ReadAt(ordered, RankIndex(|ordered|, percent))
  }

  /** The interpolated reading of `ordered` at a fractional index, with the
      index truncated and looked up as Python does. */
  function ReadAt(ordered: seq<int>, index: real): Result<real, MathError>
    requires ordered != []
  {
    var n := |ordered|;
    var lower := Trunc(index);
    var upper := Upper(lower, n);
    var weight := index - lower as real;
    match PyIndex(ordered, lower)
    case Failure(e) => Failure(e)
    case Success(a) =>
      match PyIndex(ordered, upper)
      case Failure(e) => Failure(e)
      case Success(b) => Success(a as real * (1.0 - weight) + b as real * weight)
  }

  /** The fractional index `(n - 1) * (percent / 100)` of a percentile. */
  function RankIndex(n: nat, percent: real): real {
    (n - 1) as real * (percent / 100.0)
  }

  /** For `n >= 1` values and a percent in `0..100` the fractional index lies
      in `0..n-1`, and it grows with the percent. */
  lemma RankIndexBounds(n: nat, p: real, q: real)
    requires n >= 1 && 0.0 <= p <= q <= 100.0
    ensures 0.0 <= RankIndex(n, p) <= RankIndex(n, q) <= (n - 1) as real
  {
    var m := (n - 1) as real;
    assert 0.0 <= p / 100.0 <= q / 100.0 <= 1.0;
    assert m * (p / 100.0) <= m * (q / 100.0);
    assert m * (q / 100.0) <= m * 1.0;
  }

  function Upper(l: int, n: nat): int {
    if l + 1 < n - 1 then l + 1 else n - 1
  }

  /** Linear interpolation between `ordered[floor(i)]` and the next position
      (capped at the last one), at the fraction of `i` above its floor. */
  function Interpolation(ordered: seq<int>, index: real): real
    requires ordered != [] && 0.0 <= index <= (|ordered| - 1) as real
  {
    var l := index.Floor;
    var w := index - l as real;
    ordered[l] as real * (1.0 - w) + ordered[Upper(l, |ordered|)] as real * w
  }

  /** Inside `0..n-1` the truncated index and its successor are positions of
      `ordered`, and the reading is their interpolation. */
  lemma ReadAtInRange(ordered: seq<int>, index: real)
    requires ordered != [] && 0.0 <= index <= (|ordered| - 1) as real
    ensures ReadAt(ordered, index) == Success(Interpolation(ordered, index))
  {
    var l := index.Floor;
    assert Trunc(index) == l;
    var u := Upper(l, |ordered|);
    assert PyIndex(ordered, l) == Success(ordered[l]);
    assert PyIndex(ordered, u) == Success(ordered[u]);
    var w := index - l as real;
    var mix := ordered[l] as real * (1.0 - w) + ordered[u] as real * w;
    assert ReadAt(ordered, index).Success?;
    assert ReadAt(ordered, index).value == mix;
    assert Interpolation(ordered, index) == mix;
  }

  /** For a percent in `0..100` the reading is the interpolation of the sorted
      values at the fractional index `(n - 1) * percent / 100`, with no index
      out of range. */
  lemma PercentileInterpolates(values: seq<int>, percent: real)
    requires |values| > 0 && 0.0 <= percent <= 100.0
    ensures 0.0 <= RankIndex(|values|, percent) <= (|values| - 1) as real
    ensures Percentile(values, percent) == Success(Interpolation(Sort(values), RankIndex(|values|, percent)))
  {
    var o, i := Sort(values), RankIndex(|values|, percent);
    RankIndexBounds(|values|, percent, percent);
    assert o != [];
    ReadAtInRange(o, i);
  }

  /** `a <= v <= b` for `v = a*(1-w) + b*w`, when `a <= b` and the weight is
      in `0..1`. */
  lemma BetweenEnds(a: real, b: real, w: real, v: real)
    requires a <= b && 0.0 <= w <= 1.0 && v == a * (1.0 - w) + b * w
    ensures a <= v <= b
  {
    assert v - a == (b - a) * w;
    assert b - v == (b - a) * (1.0 - w);
    ProductNonNegative(b - a, w);
    ProductNonNegative(b - a, 1.0 - w);
  }

  /** On sorted values the interpolation lies between its two neighbours, and
      so between the first and the last value. */
  lemma InterpolationBetween(ordered: seq<int>, index: real)
    requires ordered != [] && 0.0 <= index <= (|ordered| - 1) as real
    requires Sorted(ordered)
    ensures var l := index.Floor;
      ordered[l] as real <= Interpolation(ordered, index) <= ordered[Upper(l, |ordered|)] as real
    ensures ordered[0] as real <= Interpolation(ordered, index) <= ordered[|ordered| - 1] as real
  {
    var l := index.Floor;
    var u := Upper(l, |ordered|);
    var w := index - l as real;
    assert 0 <= l <= u < |ordered|;
    assert 0.0 <= w <= 1.0;
    var lo, hi := ordered[l] as real, ordered[u] as real;
    assert ordered[0] <= ordered[l] <= ordered[u] <= ordered[|ordered| - 1];
    BetweenEnds(lo, hi, w, Interpolation(ordered, index));
  }

  lemma ProductNonNegative(x: real, y: real)
    requires 0.0 <= x && 0.0 <= y
    ensures 0.0 <= x * y
  {
  }

  /** On sorted values the interpolation never decreases as the index grows. */
  lemma InterpolationMonotone(ordered: seq<int>, i: real, j: real)
    requires ordered != [] && 0.0 <= i <= j <= (|ordered| - 1) as real
    requires Sorted(ordered)
    ensures Interpolation(ordered, i) <= Interpolation(ordered, j)
  {
    var n := |ordered|;
    var li, lj := i.Floor, j.Floor;
    InterpolationBetween(ordered, i);
    InterpolationBetween(ordered, j);
    if li == lj {
      var a, b := ordered[li] as real, ordered[Upper(li, n)] as real;
      assert a <= b;
      var wi, wj := i - li as real, j - lj as real;
      assert a * (1.0 - wi) + b * wi == a + (b - a) * wi;
      assert a * (1.0 - wj) + b * wj == a + (b - a) * wj;
      assert 0.0 <= wj - wi;
      assert (b - a) * wj - (b - a) * wi == (b - a) * (wj - wi);
      ProductNonNegative(b - a, wj - wi);
    } else {
      assert li < lj;
      assert Upper(li, n) <= lj;
      assert ordered[Upper(li, n)] <= ordered[lj];
      assert Interpolation(ordered, i) <= ordered[Upper(li, n)] as real;
      assert ordered[lj] as real <= Interpolation(ordered, j);
    }
  }

  /** Interpolating at a whole index reads that element. */
  lemma InterpolationAtWhole(ordered: seq<int>, k: nat)
    requires k < |ordered|
    ensures Interpolation(ordered, k as real) == ordered[k] as real
  {
    assert (k as real).Floor == k;
  }

  /** Every percentile in `0..100` lies between the least and greatest value. */
  lemma PercentileBetweenMinAndMax(values: seq<int>, percent: real)
    requires |values| > 0 && 0.0 <= percent <= 100.0
    ensures Percentile(values, percent).Success?
    ensures forall k :: 0 <= k < |values| ==> Sort(values)[0] <= values[k] <= Sort(values)[|values| - 1]
    ensures Sort(values)[0] as real <= Percentile(values, percent).value <= Sort(values)[|values| - 1] as real
  {
    PercentileInterpolates(values, percent);
    SortEnds(values);
    InterpolationBetween(Sort(values), RankIndex(|values|, percent));
  }

  /** Percentile 0 is the least value and percentile 100 the greatest. */
  lemma PercentileEnds(values: seq<int>)
    requires |values| > 0
    ensures Percentile(values, 0.0) == Success(Sort(values)[0] as real)
    ensures Percentile(values, 100.0) == Success(Sort(values)[|values| - 1] as real)
  {
    var n := |values|;
    PercentileInterpolates(values, 0.0);
    PercentileInterpolates(values, 100.0);
    assert RankIndex(n, 0.0) == 0 as real;
    assert RankIndex(n, 100.0) == (n - 1) as real;
    InterpolationAtWhole(Sort(values), 0);
    InterpolationAtWhole(Sort(values), n - 1);
  }

  /** No values: 0.0 for every percent. */
  lemma PercentileOfNothing(percent: real)
    ensures Percentile([], percent) == Success(0.0)
  {
  }

  /** Outside `0..100` the code is not guarded: once the fractional index
      reaches the length, the truncated index runs off the end and Python
      raises `IndexError`. */
  lemma PercentilePastEndFails(values: seq<int>, percent: real)
    requires values != [] && RankIndex(|values|, percent) >= |values| as real
    ensures Percentile(values, percent) == Failure(IndexOutOfRange)
  {
    var ordered := Sort(values);
    var index := RankIndex(|ordered|, percent);
    assert index.Floor >= |ordered|;
  }

  /** Below 0 the index goes negative and Python's negative indexing reads
      from the end: at index -1 the reading is the greatest value. */
  lemma PercentileMinusOneWraps(values: seq<int>, percent: real)
    requires values != [] && RankIndex(|values|, percent) == -1.0
    ensures Percentile(values, percent) == Success(Sort(values)[|values| - 1] as real)
  {
    var ordered := Sort(values);
    var n := |ordered|;
    assert n >= 2;
    ReadAtMinusOne(ordered, RankIndex(n, percent));
  }

  lemma ReadAtMinusOne(ordered: seq<int>, index: real)
    requires |ordered| >= 2 && index == -1.0
    ensures ReadAt(ordered, index) == Success(ordered[|ordered| - 1] as real)
  {
    var n := |ordered|;
    var lower := Trunc(index);
    assert lower == -1;
    assert Upper(lower, n) == 0;
    assert PyIndex(ordered, lower) == Success(ordered[n - 1]);
    assert PyIndex(ordered, 0) == Success(ordered[0]);
    var w := index - lower as real;
    assert w == 0.0;
    var a, b := ordered[n - 1] as real, ordered[0] as real;
    assert a * (1.0 - w) + b * w == a * 1.0 + b * 0.0 == a;
    assert ReadAt(ordered, index).Success?;
    assert ReadAt(ordered, index).value == a * (1.0 - w) + b * w;
  }


  /** Raising the percent never lowers the reading. */
  lemma PercentileMonotone(values: seq<int>, p: real, q: real)
    requires |values| > 0 && 0.0 <= p <= q <= 100.0
    ensures Percentile(values, p).Success? && Percentile(values, q).Success?
    ensures Percentile(values, p).value <= Percentile(values, q).value
  {
    PercentileInterpolates(values, p);
    PercentileInterpolates(values, q);
    RankIndexBounds(|values|, p, q);
    InterpolationMonotone(Sort(values), RankIndex(|values|, p), RankIndex(|values|, q));
  }
}
