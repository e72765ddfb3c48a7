/**
  The health-oriented risk score, over exact reals: the accumulation loop with its six
  components, the two-place rounding of score and penalty, and how the score answers to
  changes in the findings.
*/
module Risk {
  import opened Prelude

  datatype Severity = Critical | High | Medium | Low | Info

  datatype Status = Open | Acknowledged | Resolved | Suppressed

  /** The parts of a finding the score depends on; times are in microseconds. */
  datatype Finding = Finding(
    scanId: string,
    severity: Severity,
    category: string,
    status: Status,
    exploitability: Option<real>,
    exposure: Option<real>,
    complianceImpact: Option<real>,
    firstSeenAt: Option<int>,
    detectedAt: int)

  datatype Configuration = Configuration(
    penalties: map<Severity, real>,
    exploitabilityWeight: real,
    assetCriticalityWeight: real,
    exposureWeight: real,
    complianceImpactWeight: real,
    ageWeight: real,
    ageSaturationDays: real,
    acknowledgedMultiplier: real,
    healthyMinimum: real,
    lowMinimum: real,
    mediumMinimum: real,
    highMinimum: real)

  datatype Level = HealthyLevel | LowLevel | MediumLevel | HighLevel | CriticalLevel

  const MICROSECONDS_IN_A_DAY := 86_400_000_000

  predicate IsFraction(x: real) {
    0.0 <= x <= 1.0
  }

  /** The ranges and orders the configuration's validators require. */
  predicate ValidConfiguration(c: Configuration) {
    && (forall s: Severity :: s in c.penalties && 0.0 <= c.penalties[s] <= 100.0)
    && c.penalties[Critical] >= c.penalties[High] >= c.penalties[Medium] >= c.penalties[Low] >= c.penalties[Info]
    && IsFraction(c.exploitabilityWeight) && IsFraction(c.assetCriticalityWeight) && IsFraction(c.exposureWeight)
    && IsFraction(c.complianceImpactWeight) && IsFraction(c.ageWeight) && IsFraction(c.acknowledgedMultiplier)
    && c.ageSaturationDays > 0.0
    && 100.0 >= c.healthyMinimum > c.lowMinimum > c.mediumMinimum > c.highMinimum >= 0.0
  }

  predicate OptionalFraction(x: Option<real>) {
    x.Some? ==> IsFraction(x.value)
  }

  predicate ValidFinding(f: Finding) {
    OptionalFraction(f.exploitability) && OptionalFraction(f.exposure) && OptionalFraction(f.complianceImpact)
  }

  /** The circumstances of one calculation. */
  datatype Setting = Setting(assetCriticality: real, exposure: real, now: int)

  predicate ValidSetting(s: Setting) {
    IsFraction(s.assetCriticality) && IsFraction(s.exposure)
  }

  predicate IsActive(f: Finding) {
    f.status != Resolved && f.status != Suppressed
  }

  function OrZero(x: Option<real>): real {
    if x.Some? then x.value else 0.0
  }

  function Max(a: real, b: real): real {
    if a < b then b else a
  }

  function Min(a: real, b: real): real {
    if a < b then a else b
  }

  function BaseOf(c: Configuration, f: Finding): real
    requires ValidConfiguration(c)
  {
    if f.status == Acknowledged then c.penalties[f.severity] * c.acknowledgedMultiplier else c.penalties[f.severity]
  }

  function ComplianceFactor(f: Finding): real {
    if f.complianceImpact.Some? then f.complianceImpact.value else if f.category == "compliance" then 1.0 else 0.0
  }

  function AgeFactor(c: Configuration, f: Finding, now: int): real
    requires ValidConfiguration(c)
  {
    var origin := if f.firstSeenAt.Some? then f.firstSeenAt.value else f.detectedAt;
    Min(1.0, Max(0.0, (now - origin) as real / MICROSECONDS_IN_A_DAY as real) / c.ageSaturationDays)
  }

  function Weighted(weight: real, factor: real): real {
    weight * factor
  }

  /** One contribution to a component: `base * weight * factor`. */
  function Loaded(base: real, weight: real, factor: real): real {
    base * weight * factor
  }

  /** One plus the weighted factors: how much a finding's base penalty is loaded. */
  ghost function Loading(c: Configuration, f: Finding, s: Setting): real
    requires ValidConfiguration(c)
  {
    1.0 + Weighted(c.exploitabilityWeight, OrZero(f.exploitability))
        + Weighted(c.assetCriticalityWeight, s.assetCriticality)
        + Weighted(c.exposureWeight, Max(s.exposure, OrZero(f.exposure)))
        + Weighted(c.complianceImpactWeight, ComplianceFactor(f))
        + Weighted(c.ageWeight, AgeFactor(c, f, s.now))
  }

  lemma ProductMonotone(a: real, b: real, x: real, y: real)
    requires 0.0 <= a <= b && 0.0 <= x <= y
    ensures 0.0 <= a * x <= b * y
  {
    assert a * x <= a * y <= b * y;
  }

  lemma WeightedRange(weight: real, factor: real, larger: real)
    requires 0.0 <= weight && 0.0 <= factor <= larger
    ensures 0.0 <= Weighted(weight, factor) <= Weighted(weight, larger)
  {
    ProductMonotone(weight, weight, factor, larger);
  }

  /** What one finding takes off the score: nothing unless it is active. */
  ghost function PenaltyOf(c: Configuration, f: Finding, s: Setting): real
    requires ValidConfiguration(c)
  {
    if IsActive(f) then BaseOf(c, f) * Loading(c, f, s) else 0.0
  }

  /** The uncapped penalty of a list of findings. */
  ghost function RawPenalty(c: Configuration, findings: seq<Finding>, s: Setting): real
    requires ValidConfiguration(c)
  {
    if findings == [] then 0.0
    else RawPenalty(c, findings[..|findings| - 1], s) + PenaltyOf(c, findings[|findings| - 1], s)
  }

  // ---------------------------------------------------------------- rounding

  /** Rounds to the nearest integer, ties to even. */
  function RoundHalfEven(y: real): int {
    var n := y.Floor;
    var rest := y - n as real;
    if rest < 0.5 then n else if rest > 0.5 then n + 1 else if n % 2 == 0 then n else n + 1
  }

  /** `round(x, 2)` */
  function RoundTwo(x: real): real {
    RoundHalfEven(x * 100.0) as real / 100.0
  }

  lemma RoundingIsNearest(y: real)
    ensures -0.5 <= y - RoundHalfEven(y) as real <= 0.5
  {
  }

  lemma RoundingMonotoneOn(x: real, y: real)
    requires x <= y
    ensures RoundHalfEven(x) <= RoundHalfEven(y)
  {
    assert x.Floor <= y.Floor;
  }

  lemma RoundingIsMonotone(x: real, y: real)
    requires x <= y
    ensures RoundHalfEven(x) <= RoundHalfEven(y)
    ensures RoundTwo(x) <= RoundTwo(y)
  {
    RoundingMonotoneOn(x, y);
    RoundingMonotoneOn(x * 100.0, y * 100.0);
  }

  /** `round(x, 4)` */
  function RoundFour(x: real): real {
    RoundHalfEven(x * 10_000.0) as real / 10_000.0
  }

  /** Two places are half a hundredth off at most, four places half a ten-thousandth. */
  lemma RoundedIsNear(x: real)
    ensures -0.005 <= RoundTwo(x) - x <= 0.005
    ensures -0.00005 <= RoundFour(x) - x <= 0.00005
  {
    hide RoundHalfEven;
    RoundingIsNearest(x * 100.0);
    RoundingIsNearest(x * 10_000.0);
  }

  /** Rounding is symmetric about any even whole number. */
  lemma RoundingMirrors(y: real, m: int)
    requires m % 2 == 0
    ensures RoundHalfEven(m as real - y) == m - RoundHalfEven(y)
  {
    var n := y.Floor;
    var rest := y - n as real;
    if rest == 0.0 {
      assert (m as real - y).Floor == m - n;
    } else {
      assert (m as real - y).Floor == m - n - 1;
    }
  }

  lemma MirroredHundredths(penalty: real)
    ensures (100.0 - penalty) * 100.0 == 10_000 as real - penalty * 100.0
  {
  }

  lemma HundredthsSum(a: int)
    ensures (10_000 - a) as real / 100.0 + a as real / 100.0 == 100.0
  {
  }

  /** Score and penalty still sum to exactly 100 once both are rounded. */
  lemma RoundedSumIsHundred(penalty: real)
    ensures RoundTwo(100.0 - penalty) + RoundTwo(penalty) == 100.0
  {
    hide RoundHalfEven;
    RoundingMirrors(penalty * 100.0, 10_000);
    MirroredHundredths(penalty);
    HundredthsSum(RoundHalfEven(penalty * 100.0));
  }

  lemma RoundTwoKeepsRange(x: real)
    requires 0.0 <= x <= 100.0
    ensures 0.0 <= RoundTwo(x) <= 100.0
  {
    RoundingIsMonotone(0.0, x);
    RoundingIsMonotone(x, 100.0);
    assert RoundHalfEven(0.0) == 0 && RoundHalfEven(10_000.0) == 10_000;
  }

  // ---------------------------------------------------------------- level and score

  function LevelForScore(c: Configuration, score: real): Level {
    if score >= c.healthyMinimum then HealthyLevel
    else if score >= c.lowMinimum then LowLevel
    else if score >= c.mediumMinimum then MediumLevel
    else if score >= c.highMinimum then HighLevel
    else CriticalLevel
  }

  /** Higher is worse. */
  function Badness(level: Level): nat {
    match level
    case HealthyLevel => 0
    case LowLevel => 1
    case MediumLevel => 2
    case HighLevel => 3
    case CriticalLevel => 4
  }

  /** The published penalty and score: the penalty is capped at 100, and both are rounded to two places. */
  function Penalty(raw: real): real {
    RoundTwo(Min(100.0, raw))
  }

  function Score(raw: real): real {
    RoundTwo(Max(0.0, 100.0 - Min(100.0, raw)))
  }

  ghost function ScoreOf(c: Configuration, findings: seq<Finding>, s: Setting): real
    requires ValidConfiguration(c)
  {
    Score(RawPenalty(c, findings, s))
  }

  /** The six accumulators. */
  datatype Components =
      Components(base: real, exploitability: real, assetCriticality: real, exposure: real, complianceImpact: real,
          age: real)

  function Total(t: Components): real {
    t.base + t.exploitability + t.assetCriticality + t.exposure + t.complianceImpact + t.age
  }

  /** The six contributions of all active findings, each summed on its own. */
  ghost function ComponentTotals(c: Configuration, findings: seq<Finding>, s: Setting): Components
    requires ValidConfiguration(c)
  {
    if findings == [] then Components(0.0, 0.0, 0.0, 0.0, 0.0, 0.0)
    else
      var t, f := ComponentTotals(c, findings[..|findings| - 1], s), findings[|findings| - 1];
      if !IsActive(f) then t
      else
        var b := BaseOf(c, f);
        Components(
          t.base + b,
          t.exploitability + Loaded(b, c.exploitabilityWeight, OrZero(f.exploitability)),
          t.assetCriticality + Loaded(b, c.assetCriticalityWeight, s.assetCriticality),
          t.exposure + Loaded(b, c.exposureWeight, Max(s.exposure, OrZero(f.exposure))),
          t.complianceImpact + Loaded(b, c.complianceImpactWeight, ComplianceFactor(f)),
          t.age + Loaded(b, c.ageWeight, AgeFactor(c, f, s.now)))
  }

  lemma Distribute(b: real, p: real, q: real, r: real, t: real, u: real)
    ensures b * (1.0 + p + q + r + t + u) == b + b * p + b * q + b * r + b * t + b * u
  {
  }

  lemma Regroup(b: real, w: real, x: real)
    ensures b * Weighted(w, x) == Loaded(b, w, x)
  {
  }

  /** The loaded penalty is the sum of the six contributions. */
  lemma LoadingSplits(c: Configuration, f: Finding, s: Setting)
    requires ValidConfiguration(c)
    ensures var b := BaseOf(c, f);
            b * Loading(c, f, s) ==
              b + Loaded(b, c.exploitabilityWeight, OrZero(f.exploitability))
                + Loaded(b, c.assetCriticalityWeight, s.assetCriticality)
                + Loaded(b, c.exposureWeight, Max(s.exposure, OrZero(f.exposure)))
                + Loaded(b, c.complianceImpactWeight, ComplianceFactor(f))
                + Loaded(b, c.ageWeight, AgeFactor(c, f, s.now))
  {
    hide Weighted, Loaded, AgeFactor, BaseOf;
    var b := BaseOf(c, f);
    var (p, q, r) := (Weighted(c.exploitabilityWeight, OrZero(f.exploitability)),
        Weighted(c.assetCriticalityWeight, s.assetCriticality),
                      Weighted(c.exposureWeight, Max(s.exposure, OrZero(f.exposure))));
    var (t, u) := (Weighted(c.complianceImpactWeight, ComplianceFactor(f)),
        Weighted(c.ageWeight, AgeFactor(c, f, s.now)));
    Distribute(b, p, q, r, t, u);
    Regroup(b, c.exploitabilityWeight, OrZero(f.exploitability));
    Regroup(b, c.assetCriticalityWeight, s.assetCriticality);
    Regroup(b, c.exposureWeight, Max(s.exposure, OrZero(f.exposure)));
    Regroup(b, c.complianceImpactWeight, ComplianceFactor(f));
    Regroup(b, c.ageWeight, AgeFactor(c, f, s.now));
  }

  lemma PenaltySplits(c: Configuration, f: Finding, s: Setting)
    requires ValidConfiguration(c)
    ensures PenaltyOf(c, f, s) == if !IsActive(f) then 0.0 else
              BaseOf(c, f) + Loaded(BaseOf(c, f), c.exploitabilityWeight, OrZero(f.exploitability))
                + Loaded(BaseOf(c, f), c.assetCriticalityWeight, s.assetCriticality)
                + Loaded(BaseOf(c, f), c.exposureWeight, Max(s.exposure, OrZero(f.exposure)))
                + Loaded(BaseOf(c, f), c.complianceImpactWeight, ComplianceFactor(f))
                + Loaded(BaseOf(c, f), c.ageWeight, AgeFactor(c, f, s.now))
  {
    hide Loaded, Loading, BaseOf, AgeFactor;
    LoadingSplits(c, f, s);
  }

  /** The accumulators sum to the findings' base penalties, each times one plus its weighted factors. */
  lemma {:induction false} AccumulatorsSumToPenalty(c: Configuration, findings: seq<Finding>, s: Setting)
    requires ValidConfiguration(c)
    ensures Total(ComponentTotals(c, findings, s)) == RawPenalty(c, findings, s)
  {
    hide Loaded, PenaltyOf, BaseOf, AgeFactor;
    if findings == [] {
    } else {
      AccumulatorsSumToPenalty(c, findings[..|findings| - 1], s);
      PenaltySplits(c, findings[|findings| - 1], s);
    }
  }

  /** What is published about the calculation. */
  datatype Factors = Factors(components: Components, activeFindings: nat, rawPenalty: real)

  function Rounded(t: Components): Components {
    Components(RoundFour(t.base), RoundFour(t.exploitability), RoundFour(t.assetCriticality), RoundFour(t.exposure),
               RoundFour(t.complianceImpact), RoundFour(t.age))
  }

  /** The published components still account for the penalty, up to their rounding. */
  lemma RoundedTotalIsNear(t: Components)
    ensures -0.0003 <= Total(Rounded(t)) - Total(t) <= 0.0003
  {
    hide RoundFour;
    RoundedIsNear(t.base);
    RoundedIsNear(t.exploitability);
    RoundedIsNear(t.assetCriticality);
    RoundedIsNear(t.exposure);
    RoundedIsNear(t.complianceImpact);
    RoundedIsNear(t.age);
  }

  datatype RiskScore = RiskScore(
    scanId: string, score: real, level: Level, penalty: real, counts: map<Severity, nat>, factors: Factors)

  datatype Outcome = Scored(risk: RiskScore) | ValueError

  ghost function CountOf(findings: seq<Finding>, severity: Severity): nat {
    if findings == [] then 0
    else CountOf(findings[..|findings| - 1], severity)
         + if IsActive(findings[|findings| - 1]) && findings[|findings| - 1].severity == severity then 1 else 0
  }

  ghost function ActiveCount(findings: seq<Finding>): nat {
    if findings == [] then 0
    else ActiveCount(findings[..|findings| - 1]) + if IsActive(findings[|findings| - 1]) then 1 else 0
  }

  /** Every active finding is counted under exactly one severity. */
  lemma {:induction false} CountsSumToActive(findings: seq<Finding>)
    ensures CountOf(findings, Critical) + CountOf(findings, High) + CountOf(findings, Medium) + CountOf(findings, Low)
            + CountOf(findings, Info) == ActiveCount(findings)
  {
    if findings == [] {
    } else {
      CountsSumToActive(findings[..|findings| - 1]);
    }
  }

  function CountTotal(counts: map<Severity, nat>): nat
    requires forall severity: Severity :: severity in counts
  {
    counts[Critical] + counts[High] + counts[Medium] + counts[Low] + counts[Info]
  }

  /** Whether the scan identifier is given or can be inferred, and fits every finding. */
  ghost predicate Identified(findings: seq<Finding>, scanId: Option<string>) {
    if scanId.None? then findings != [] && forall i | 0 <= i < |findings| :: findings[i].scanId == findings[0].scanId
    else forall i | 0 <= i < |findings| :: findings[i].scanId == scanId.value
  }

  // ---------------------------------------------------------------- how the score responds

  lemma DivideMonotone(a: real, b: real, d: real)
    requires 0.0 <= a <= b && d > 0.0
    ensures 0.0 <= a / d <= b / d
  {
    var q, r := a / d, b / d;
    assert q * d == a && r * d == b;
    assert q > r ==> q * d > r * d;
  }

  lemma AgeFactorRange(c: Configuration, f: Finding, now: int, later: int)
    requires ValidConfiguration(c) && now <= later
    ensures 0.0 <= AgeFactor(c, f, now) <= AgeFactor(c, f, later) <= 1.0
  {
    var origin := if f.firstSeenAt.Some? then f.firstSeenAt.value else f.detectedAt;
    var before := Max(0.0, (now - origin) as real / MICROSECONDS_IN_A_DAY as real);
    var after := Max(0.0, (later - origin) as real / MICROSECONDS_IN_A_DAY as real);
    assert 0.0 <= before <= after;
    DivideMonotone(before, after, c.ageSaturationDays);
  }

  lemma LoadingGrowsWithTime(c: Configuration, f: Finding, s: Setting, later: int)
    requires ValidConfiguration(c) && ValidSetting(s) && ValidFinding(f) && s.now <= later
    ensures 1.0 <= Loading(c, f, s) <= Loading(c, f, s.(now := later))
  {
    hide Weighted, AgeFactor;
    AgeFactorRange(c, f, s.now, later);
    WeightedRange(c.ageWeight, AgeFactor(c, f, s.now), AgeFactor(c, f, later));
    WeightedRange(c.exploitabilityWeight, OrZero(f.exploitability), OrZero(f.exploitability));
    WeightedRange(c.assetCriticalityWeight, s.assetCriticality, s.assetCriticality);
    WeightedRange(c.exposureWeight, Max(s.exposure, OrZero(f.exposure)), Max(s.exposure, OrZero(f.exposure)));
    WeightedRange(c.complianceImpactWeight, ComplianceFactor(f), ComplianceFactor(f));
  }

  lemma BaseRange(c: Configuration, f: Finding)
    requires ValidConfiguration(c)
    ensures 0.0 <= BaseOf(c, f) <= c.penalties[f.severity]
  {
    ProductMonotone(c.acknowledgedMultiplier, 1.0, c.penalties[f.severity], c.penalties[f.severity]);
  }

  lemma PenaltyIsNonnegative(c: Configuration, f: Finding, s: Setting)
    requires ValidConfiguration(c) && ValidSetting(s) && ValidFinding(f)
    ensures PenaltyOf(c, f, s) >= 0.0
  {
    BaseRange(c, f);
    LoadingGrowsWithTime(c, f, s, s.now);
    ProductMonotone(0.0, BaseOf(c, f), 0.0, Loading(c, f, s));
  }

  lemma {:induction false} RawIsNonnegative(c: Configuration, findings: seq<Finding>, s: Setting)
    requires ValidConfiguration(c) && ValidSetting(s) && forall i | 0 <= i < |findings| :: ValidFinding(findings[i])
    ensures RawPenalty(c, findings, s) >= 0.0
  {
    if findings == [] {
    } else {
      RawIsNonnegative(c, findings[..|findings| - 1], s);
      PenaltyIsNonnegative(c, findings[|findings| - 1], s);
    }
  }

  function SeverityRank(s: Severity): nat {
    match s
    case Critical => 4
    case High => 3
    case Medium => 2
    case Low => 1
    case Info => 0
  }

  predicate NoLighter(a: Severity, b: Severity) {
    SeverityRank(a) >= SeverityRank(b)
  }

  lemma HeavierBase(c: Configuration, f: Finding, severity: Severity)
    requires ValidConfiguration(c) && NoLighter(severity, f.severity)
    ensures 0.0 <= BaseOf(c, f) <= BaseOf(c, f.(severity := severity))
  {
    assert c.penalties[severity] >= c.penalties[f.severity];
    BaseRange(c, f);
    ProductMonotone(c.penalties[f.severity], c.penalties[severity], c.acknowledgedMultiplier, c.acknowledgedMultiplier);
  }

  /** Raising a finding's severity never lowers its penalty. */
  lemma RaisedSeverity(c: Configuration, f: Finding, severity: Severity, s: Setting)
    requires ValidConfiguration(c) && ValidSetting(s) && ValidFinding(f) && NoLighter(severity, f.severity)
    ensures PenaltyOf(c, f.(severity := severity), s) >= PenaltyOf(c, f, s)
  {
    hide Weighted;
    var g := f.(severity := severity);
    HeavierBase(c, f, severity);
    LoadingGrowsWithTime(c, f, s, s.now);
    assert AgeFactor(c, f, s.now) == AgeFactor(c, g, s.now);
    assert Loading(c, f, s) == Loading(c, g, s);
    ProductMonotone(BaseOf(c, f), BaseOf(c, g), Loading(c, f, s), Loading(c, f, s));
  }

  /** Acknowledging, resolving or suppressing an open finding never raises its penalty. */
  lemma Relieved(c: Configuration, f: Finding, status: Status, s: Setting)
    requires ValidConfiguration(c) && ValidSetting(s) && ValidFinding(f)
    requires f.status == Open || status == Resolved || status == Suppressed
    ensures PenaltyOf(c, f.(status := status), s) <= PenaltyOf(c, f, s)
  {
    var g := f.(status := status);
    hide Weighted;
    PenaltyIsNonnegative(c, f, s);
    if IsActive(g) {
      assert AgeFactor(c, f, s.now) == AgeFactor(c, g, s.now);
      BaseRange(c, g);
      LoadingGrowsWithTime(c, f, s, s.now);
      assert Loading(c, f, s) == Loading(c, g, s);
      ProductMonotone(BaseOf(c, g), BaseOf(c, f), Loading(c, f, s), Loading(c, f, s));
    }
  }

  /** A larger raw penalty never gives a higher score or a better level. */
  lemma ScoreFalls(c: Configuration, findings: seq<Finding>, s: Setting, others: seq<Finding>, t: Setting)
    requires ValidConfiguration(c) && RawPenalty(c, findings, s) <= RawPenalty(c, others, t)
    ensures ScoreOf(c, others, t) <= ScoreOf(c, findings, s)
    ensures Badness(LevelForScore(c, ScoreOf(c, findings, s))) <= Badness(LevelForScore(c, ScoreOf(c, others, t)))
  {
    hide RawPenalty, RoundTwo;
    RoundingIsMonotone(Max(0.0, 100.0 - Min(100.0, RawPenalty(c, others, t))),
        Max(0.0, 100.0 - Min(100.0, RawPenalty(c, findings, s))));
  }

  lemma {:induction false} RawOfConcat(c: Configuration, a: seq<Finding>, b: seq<Finding>, s: Setting)
    requires ValidConfiguration(c)
    ensures RawPenalty(c, a + b, s) == RawPenalty(c, a, s) + RawPenalty(c, b, s)
    decreases |b|
  {
    if b == [] {
      assert a + b == a;
    } else {
      var front := b[..|b| - 1];
      RawOfConcat(c, a, front, s);
      assert (a + b)[..|a + b| - 1] == a + front;
    }
  }

  lemma RawSplit(c: Configuration, findings: seq<Finding>, i: nat, f: Finding, s: Setting)
    requires ValidConfiguration(c) && i < |findings|
    ensures RawPenalty(c, findings[i := f], s) == RawPenalty(c, findings[..i], s) + PenaltyOf(c, f, s)
            + RawPenalty(c, findings[i + 1..], s)
  {
    assert findings[i := f] == findings[..i] + [f] + findings[i + 1..];
    RawOfConcat(c, findings[..i] + [f], findings[i + 1..], s);
    RawOfConcat(c, findings[..i], [f], s);
    assert [f][..0] == [];
    assert RawPenalty(c, [f], s) == PenaltyOf(c, f, s);
  }

  /** Replacing a finding by one with no smaller penalty never raises the score or improves the level. */
  lemma HeavierFinding(c: Configuration, findings: seq<Finding>, i: nat, f: Finding, s: Setting)
    requires ValidConfiguration(c) && i < |findings| && PenaltyOf(c, findings[i], s) <= PenaltyOf(c, f, s)
    ensures ScoreOf(c, findings[i := f], s) <= ScoreOf(c, findings, s)
    ensures Badness(LevelForScore(c, ScoreOf(c, findings, s)))
            <= Badness(LevelForScore(c, ScoreOf(c, findings[i := f], s)))
  {
    RawSplit(c, findings, i, f, s);
    RawSplit(c, findings, i, findings[i], s);
    assert findings[i := findings[i]] == findings;
    ScoreFalls(c, findings, s, findings[i := f], s);
  }

  /** Raising a severity anywhere in the list never raises the score or improves the level. */
  lemma RaisingSeverityNeverHelps(c: Configuration, findings: seq<Finding>, i: nat, severity: Severity, s: Setting)
    requires ValidConfiguration(c) && ValidSetting(s) && i < |findings| && ValidFinding(findings[i])
             && NoLighter(severity, findings[i].severity)
    ensures ScoreOf(c, findings[i := findings[i].(severity := severity)], s) <= ScoreOf(c, findings, s)
    ensures Badness(LevelForScore(c, ScoreOf(c, findings, s)))
            <= Badness(LevelForScore(c, ScoreOf(c, findings[i := findings[i].(severity := severity)], s)))
  {
    RaisedSeverity(c, findings[i], severity, s);
    HeavierFinding(c, findings, i, findings[i].(severity := severity), s);
  }

  /** Acknowledging an open finding, or resolving or suppressing any, never lowers the score or worsens the level. */
  lemma RelievingNeverHurts(c: Configuration, findings: seq<Finding>, i: nat, status: Status, s: Setting)
    requires ValidConfiguration(c) && ValidSetting(s) && i < |findings| && ValidFinding(findings[i])
    requires findings[i].status == Open || status == Resolved || status == Suppressed
    ensures var relieved := findings[i := findings[i].(status := status)];
            && ScoreOf(c, findings, s) <= ScoreOf(c, relieved, s)
            && Badness(LevelForScore(c, ScoreOf(c, relieved, s))) <= Badness(LevelForScore(c, ScoreOf(c, findings, s)))
  {
    var relieved := findings[i := findings[i].(status := status)];
    Relieved(c, findings[i], status, s);
    HeavierFinding(c, relieved, i, findings[i], s);
    assert relieved[i := findings[i]] == findings;
  }

  /** Adding a finding anywhere never raises the score or improves the level. */
  lemma AddingNeverHelps(c: Configuration, before: seq<Finding>, f: Finding, after: seq<Finding>, s: Setting)
    requires ValidConfiguration(c) && ValidSetting(s) && ValidFinding(f)
    ensures ScoreOf(c, before + [f] + after, s) <= ScoreOf(c, before + after, s)
    ensures Badness(LevelForScore(c, ScoreOf(c, before + after, s)))
            <= Badness(LevelForScore(c, ScoreOf(c, before + [f] + after, s)))
  {
    RawOfConcat(c, before + [f], after, s);
    RawOfConcat(c, before, [f], s);
    RawOfConcat(c, before, after, s);
    assert [f][..0] == [];
    assert RawPenalty(c, [f], s) == PenaltyOf(c, f, s);
    PenaltyIsNonnegative(c, f, s);
    ScoreFalls(c, before + after, s, before + [f] + after, s);
  }

  /** As time passes the same findings never score higher. */
  lemma AgeingPenalty(c: Configuration, f: Finding, s: Setting, later: int)
    requires ValidConfiguration(c) && ValidSetting(s) && s.now <= later && ValidFinding(f)
    ensures PenaltyOf(c, f, s) <= PenaltyOf(c, f, s.(now := later))
  {
    LoadingGrowsWithTime(c, f, s, later);
    BaseRange(c, f);
    ProductMonotone(BaseOf(c, f), BaseOf(c, f), Loading(c, f, s), Loading(c, f, s.(now := later)));
    hide Loading, BaseOf;
  }

  lemma {:induction false} AgeingRaw(c: Configuration, findings: seq<Finding>, s: Setting, later: int)
    requires ValidConfiguration(c) && ValidSetting(s) && s.now <= later && forall i | 0 <= i < |findings| ::
             ValidFinding(findings[i])
    ensures RawPenalty(c, findings, s) <= RawPenalty(c, findings, s.(now := later))
  {
    if findings == [] {
    } else {
      hide PenaltyOf, ValidConfiguration, ValidFinding;
      AgeingRaw(c, findings[..|findings| - 1], s, later);
      AgeingPenalty(c, findings[|findings| - 1], s, later);
    }
  }

  lemma WaitingNeverHelps(c: Configuration, findings: seq<Finding>, s: Setting, later: int)
    requires ValidConfiguration(c) && ValidSetting(s) && s.now <= later && forall i | 0 <= i < |findings| ::
             ValidFinding(findings[i])
    ensures ScoreOf(c, findings, s.(now := later)) <= ScoreOf(c, findings, s)
    ensures Badness(LevelForScore(c, ScoreOf(c, findings, s)))
            <= Badness(LevelForScore(c, ScoreOf(c, findings, s.(now := later))))
  {
    AgeingRaw(c, findings, s, later);
    ScoreFalls(c, findings, s, findings, s.(now := later));
  }

  lemma PlaceOf(a: seq<Finding>, b: seq<Finding>) returns (i: nat)
    requires a != [] && multiset(a) == multiset(b)
    ensures i < |b| && b[i] == a[|a| - 1] && multiset(a[..|a| - 1]) == multiset(b[..i] + b[i + 1..])
  {
    var f := a[|a| - 1];
    assert a == a[..|a| - 1] + [f];
    assert f in multiset(b);
    i :| 0 <= i < |b| && b[i] == f;
    assert b == b[..i] + [f] + b[i + 1..];
    assert multiset(a[..|a| - 1]) == multiset(a) - multiset{f};
  }

  /** The score does not depend on the order of the findings. */
  lemma {:induction false} OrderIsIrrelevant(c: Configuration, a: seq<Finding>, b: seq<Finding>, s: Setting)
    requires ValidConfiguration(c) && multiset(a) == multiset(b)
    ensures RawPenalty(c, a, s) == RawPenalty(c, b, s) && ScoreOf(c, a, s) == ScoreOf(c, b, s)
    decreases |a|
  {
    hide PenaltyOf;
    if a == [] {
      assert |multiset(b)| == 0;
    } else {
      var f := a[|a| - 1];
      var i := PlaceOf(a, b);
      var rest := b[..i] + b[i + 1..];
      OrderIsIrrelevant(c, a[..|a| - 1], rest, s);
      RawSplit(c, b, i, f, s);
      assert b[i := f] == b;
      RawOfConcat(c, b[..i], b[i + 1..], s);
    }
  }

  // ---------------------------------------------------------------- the calculation

  method ResolveScan(findings: seq<Finding>, scanId: Option<string>) returns (scan: Option<string>)
    ensures scan.Some? <==> Identified(findings, scanId)
    ensures scan.Some? ==>
              && (forall i | 0 <= i < |findings| :: findings[i].scanId == scan.value)
              && (scanId.Some? ==> scan == scanId)
  {
    if scanId.None? {
      if findings == [] || (exists i | 0 <= i < |findings| :: findings[i].scanId != findings[0].scanId) {
        return None;
      }
      return Some(findings[0].scanId);
    }
    if exists i | 0 <= i < |findings| :: findings[i].scanId != scanId.value {
      return None;
    }
    return scanId;
  }

  /** The loop over active findings. */
  method Accumulate(c: Configuration, findings: seq<Finding>, s: Setting) returns (components: Components,
          counts: map<Severity, nat>, active: nat)
    requires ValidConfiguration(c)
    ensures components == ComponentTotals(c, findings, s) && active == ActiveCount(findings)
    ensures forall severity: Severity :: severity in counts && counts[severity] == CountOf(findings, severity)
  {
    hide Loaded, AgeFactor, BaseOf, ValidConfiguration;
    counts := map[Critical := 0, High := 0, Medium := 0, Low := 0, Info := 0];
    assert forall severity: Severity :: severity in counts && counts[severity] == 0 by {
      forall severity: Severity ensures severity in counts && counts[severity] == 0 {
        match severity case Critical => case High => case Medium => case Low => case Info =>
      }
    }
    active := 0;
    var base, exploitability, asset, exposed, compliance, age := 0.0, 0.0, 0.0, 0.0, 0.0, 0.0;
    for i := 0 to |findings|
      invariant Components(base, exploitability, asset, exposed, compliance, age)
                == ComponentTotals(c, findings[..i], s)
      invariant forall severity: Severity :: severity in counts && counts[severity] == CountOf(findings[..i], severity)
      invariant active == ActiveCount(findings[..i])
    {
      var f := findings[i];
      assert findings[..i + 1][..i] == findings[..i];
      if IsActive(f) {
        active := active + 1;
        counts := counts[f.severity := counts[f.severity] + 1];
        var b := BaseOf(c, f);
        base := base + b;
        exploitability := exploitability + Loaded(b, c.exploitabilityWeight, OrZero(f.exploitability));
        asset := asset + Loaded(b, c.assetCriticalityWeight, s.assetCriticality);
        exposed := exposed + Loaded(b, c.exposureWeight, Max(s.exposure, OrZero(f.exposure)));
        compliance := compliance + Loaded(b, c.complianceImpactWeight, ComplianceFactor(f));
        age := age + Loaded(b, c.ageWeight, AgeFactor(c, f, s.now));
      }
    }
    assert findings[..|findings|] == findings;
    components := Components(base, exploitability, asset, exposed, compliance, age);
  }

  predicate Near(a: real, b: real, distance: real) {
    -distance <= a - b <= distance
  }

  lemma ScoreIsSound(raw: real)
    requires raw >= 0.0
    ensures 0.0 <= Score(raw) <= 100.0 && Score(raw) + Penalty(raw) == 100.0
    ensures Near(Score(raw), Max(0.0, 100.0 - raw), 0.005)
  {
    hide RoundTwo, RoundFour;
    RoundedSumIsHundred(Min(100.0, raw));
    RoundTwoKeepsRange(Max(0.0, 100.0 - Min(100.0, raw)));
    RoundedIsNear(Max(0.0, 100.0 - Min(100.0, raw)));
  }

  lemma CalculationIsSound(c: Configuration, findings: seq<Finding>, s: Setting)
    requires ValidConfiguration(c) && ValidSetting(s) && forall i | 0 <= i < |findings| :: ValidFinding(findings[i])
    ensures var t, raw := ComponentTotals(c, findings, s), RawPenalty(c, findings, s);
            && Total(t) == raw && 0.0 <= Score(raw) <= 100.0 && Score(raw) + Penalty(raw) == 100.0
            && Near(Score(raw), Max(0.0, 100.0 - raw), 0.005) && Near(Total(Rounded(t)), raw, 0.0003)
            && ScoreOf(c, findings, s) == Score(raw)
    ensures forall counts: map<Severity, nat> |
              forall severity: Severity :: severity in counts && counts[severity] == CountOf(findings, severity) ::
              CountTotal(counts) == ActiveCount(findings)
  {
    hide RawPenalty, ComponentTotals, Score, Penalty, Rounded, CountOf, ActiveCount;
    AccumulatorsSumToPenalty(c, findings, s);
    RawIsNonnegative(c, findings, s);
    CountsSumToActive(findings);
    RoundedTotalIsNear(ComponentTotals(c, findings, s));
    ScoreIsSound(RawPenalty(c, findings, s));
  }

  /** `RiskEngine.calculate` */
  method Calculate(c: Configuration, findings: seq<Finding>, scanId: Option<string>,
          s: Setting) returns (outcome: Outcome)
    requires ValidConfiguration(c) && forall i | 0 <= i < |findings| :: ValidFinding(findings[i])
    ensures outcome.Scored? <==> ValidSetting(s) && Identified(findings, scanId)
    ensures outcome.Scored? ==>
              && outcome.risk.score == ScoreOf(c, findings, s) && 0.0 <= outcome.risk.score <= 100.0
              && outcome.risk.score + outcome.risk.penalty == 100.0
              && outcome.risk.level == LevelForScore(c, outcome.risk.score)
              && Near(outcome.risk.score, Max(0.0, 100.0 - RawPenalty(c, findings, s)), 0.005)
              && outcome.risk.factors.components == Rounded(ComponentTotals(c, findings, s))
              && outcome.risk.factors.rawPenalty == RoundFour(RawPenalty(c, findings, s))
              && Near(Total(outcome.risk.factors.components), RawPenalty(c, findings, s), 0.0003)
              && outcome.risk.factors.activeFindings == ActiveCount(findings)
              && (forall severity: Severity ::
                    severity in outcome.risk.counts && outcome.risk.counts[severity] == CountOf(findings, severity))
              && CountTotal(outcome.risk.counts) == outcome.risk.factors.activeFindings
              && (forall i | 0 <= i < |findings| :: findings[i].scanId == outcome.risk.scanId)
              && (scanId.Some? ==> outcome.risk.scanId == scanId.value)
  {
    hide *;
    if !ValidSetting(s) {
      return ValueError;
    }
    var scan := ResolveScan(findings, scanId);
    if scan.None? {
      return ValueError;
    }
    var components, counts, active := Accumulate(c, findings, s);
    var raw := Total(components);
    CalculationIsSound(c, findings, s);
    var factors := Factors(Rounded(components), active, RoundFour(raw));
    return Scored(RiskScore(scan.value, Score(raw), LevelForScore(c, Score(raw)), Penalty(raw), counts, factors));
  }
}
