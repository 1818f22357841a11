/** The recommendation score: eight weighted components over financials, prices and evidence, less a risk penalty. */
module Engine {
  import opened Prelude
  import opened Rounding
  import opened Sorting

  /** A provider dictionary: the number each key holds, if it holds one. */
  type Figures = map<string, Option<real>>

  datatype Evidence = Evidence(id: string, evidenceType: string, sourceType: string, confidence: real)

  datatype Risk = Risk(tag: string, points: real, text: string, evidenceIds: seq<string>)

  datatype ScoreInput = ScoreInput(
    ticker: string,
    financials: Option<Figures>,
    previousFinancials: Option<Figures>,
    priceMetrics: Option<Figures>,
    fallbackPriceMetrics: Option<Figures>,
    evidence: seq<Evidence>,
    risks: seq<Risk>)

  /** The field constraints of the input models. */
  predicate WellFormed(input: ScoreInput) {
    && (forall e :: e in input.evidence ==> 0.0 <= e.confidence <= 1.0)
    && (forall r :: r in input.risks ==> r.points >= 0.0)
  }

  datatype Name =
    | FinancialStability | Profitability | Growth | Valuation | NewsAttention | DisclosureEvent | Liquidity
    | MomentumVolatility

  const NAMES := [FinancialStability, Profitability, Growth, Valuation, NewsAttention, DisclosureEvent, Liquidity,
                  MomentumVolatility]

  function Weight(name: Name): int {
    match name
    case FinancialStability => 20
    case Profitability => 15
    case Growth => 15
    case _ => 10
  }

  function Label(name: Name): string {
    match name
    case FinancialStability => "financial_stability"
    case Profitability => "profitability"
    case Growth => "growth"
    case Valuation => "valuation"
    case NewsAttention => "news_attention"
    case DisclosureEvent => "disclosure_event"
    case Liquidity => "liquidity"
    case MomentumVolatility => "momentum_volatility"
  }

  function Clamp(value: real, minimum: real, maximum: real): real {
    var capped := if value < maximum then value else maximum;
    if capped > minimum then capped else minimum
  }

  function RatioScore(value: real, weak: real, excellent: real): (r: real)
    ensures 30.0 <= r <= 90.0
  {
    if excellent == weak then 50.0 else Clamp(30.0 + (value - weak) / (excellent - weak) * 60.0, 30.0, 90.0)
  }

  function InverseRatioScore(value: real, excellent: real, weak: real): (r: real)
    ensures 30.0 <= r <= 90.0
  {
    if weak == excellent then 50.0 else Clamp(30.0 + (weak - value) / (weak - excellent) * 60.0, 30.0, 90.0)
  }

  function Number(figures: Figures, key: string): Option<real> {
    if key in figures then figures[key] else None
  }

  function OrEmpty(figures: Option<Figures>): Figures {
    if figures.Some? then figures.value else map[]
  }

  /** The price figures used and whether they are the fallback ones; an empty dictionary counts as none. */
  function Prices(input: ScoreInput): (Figures, bool) {
    if OrEmpty(input.priceMetrics) != map[] then (input.priceMetrics.value, false)
    else if OrEmpty(input.fallbackPriceMetrics) != map[] then (input.fallbackPriceMetrics.value, true)
    else (map[], false)
  }

  function FinancialStabilityScore(input: ScoreInput): Option<real> {
    var f := OrEmpty(input.financials);
    var liabilities, equity, assets :=
      Number(f, "total_liabilities"), Number(f, "total_equity"), Number(f, "total_assets");
    if liabilities.None? || equity.None? || equity.value <= 0.0 then None
    else
      var debt := InverseRatioScore(liabilities.value / equity.value, 0.4, 1.8);
      if assets.Some? && assets.value > 0.0 then
        Some(debt * 0.65 + RatioScore(equity.value / assets.value, 0.2, 0.7) * 0.35)
      else
        Some(debt)
  }

  function ProfitabilityScore(input: ScoreInput): Option<real> {
    var f := OrEmpty(input.financials);
    var revenue, operating, net := Number(f, "revenue"), Number(f, "operating_income"), Number(f, "net_income");
    if revenue.None? || revenue.value <= 0.0 || operating.None? then None
    else
      var margin := RatioScore(operating.value / revenue.value, -0.05, 0.2);
      if net.None? then Some(margin)
      else Some(margin * 0.65 + RatioScore(net.value / revenue.value, -0.05, 0.15) * 0.35)
  }

  function GrowthScore(input: ScoreInput): Option<real> {
    var current, previous := OrEmpty(input.financials), OrEmpty(input.previousFinancials);
    var revenue, before := Number(current, "revenue"), Number(previous, "revenue");
    var income, incomeBefore := Number(current, "operating_income"), Number(previous, "operating_income");
    if revenue.None? || before.None? || before.value <= 0.0 || income.None? || incomeBefore.None? then None
    else
      var sales := RatioScore((revenue.value - before.value) / before.value, -0.15, 0.25);
      var earnings :=
        if incomeBefore.value <= 0.0 then (if income.value > 0.0 then 50.0 else 35.0)
        else RatioScore((income.value - incomeBefore.value) / incomeBefore.value, -0.2, 0.3);
      Some(sales * 0.6 + earnings * 0.4)
  }

  function ValuationScore(input: ScoreInput): Option<real> {
    var f := OrEmpty(input.financials);
    var cap, net, equity := Number(Prices(input).0, "market_cap"), Number(f, "net_income"), Number(f, "total_equity");
    if cap.None? || cap.value <= 0.0 then None
    else
      var per := if net.Some? && net.value > 0.0 then [InverseRatioScore(cap.value / net.value, 8.0, 35.0)] else [];
      var pbr :=
        if equity.Some? && equity.value > 0.0 then [InverseRatioScore(cap.value / equity.value, 0.8, 4.0)] else [];
      var scores := per + pbr;
      if scores == [] then None
      else if |scores| == 1 then Some(scores[0])
      else Some((scores[0] + scores[1]) / 2.0)
  }

  function OfType(evidence: seq<Evidence>, sourceType: string): seq<Evidence> {
    if evidence == [] then []
    else
      var last := evidence[|evidence| - 1];
      OfType(evidence[..|evidence| - 1], sourceType) + if last.sourceType == sourceType then [last] else []
  }

  function ConfidenceSum(items: seq<Evidence>): real {
    if items == [] then 0.0 else ConfidenceSum(items[..|items| - 1]) + items[|items| - 1].confidence
  }

  /** The attention formula: a base, a step for each item, and a share of the mean confidence, capped at 100. */
  function Attention(count: real, sum: real, base: real, step: real, share: real): real
    requires count > 0.0
  {
    var score := base + count * step + sum / count * share;
    if score < 100.0 then score else 100.0
  }

  function AttentionScore(items: seq<Evidence>, base: real, step: real, share: real): Option<real> {
    if items == [] then None
    else
      Some(Attention(|items| as real, ConfidenceSum(items), base, step, share))
  }

  function NewsScore(input: ScoreInput): Option<real> {
    AttentionScore(OfType(input.evidence, "news"), 45.0, 20.0, 15.0)
  }

  function DisclosureScore(input: ScoreInput): Option<real> {
    AttentionScore(OfType(input.evidence, "disclosure"), 50.0, 18.0, 12.0)
  }

  function LiquidityScore(input: ScoreInput): Option<real> {
    var p := Prices(input).0;
    var volume, trading, cap := Number(p, "volume"), Number(p, "trading_value"), Number(p, "market_cap");
    if volume.None? || trading.None? then None
    else
      var v := RatioScore(volume.value, 100000.0, 5000000.0);
      var t := RatioScore(trading.value, 5000000000.0, 300000000000.0);
      if cap.None? then Some(v * 0.45 + t * 0.55)
      else Some(v * 0.3 + t * 0.45 + RatioScore(cap.value, 100000000000.0, 20000000000000.0) * 0.25)
  }

  function MomentumVolatilityScore(input: ScoreInput): Option<real> {
    var p := Prices(input).0;
    var momentum, volatility := Number(p, "momentum_20d"), Number(p, "volatility_20d");
    if momentum.None? || volatility.None? then None
    else
      Some(RatioScore(momentum.value, -0.1, 0.15) * 0.55 + InverseRatioScore(volatility.value, 0.12, 0.55) * 0.45)
  }

  function RawScore(name: Name, input: ScoreInput): Option<real> {
    match name
    case FinancialStability => FinancialStabilityScore(input)
    case Profitability => ProfitabilityScore(input)
    case Growth => GrowthScore(input)
    case Valuation => ValuationScore(input)
    case NewsAttention => NewsScore(input)
    case DisclosureEvent => DisclosureScore(input)
    case Liquidity => LiquidityScore(input)
    case MomentumVolatility => MomentumVolatilityScore(input)
  }

  /** Only the three price components report the fallback. */
  function UsedFallback(name: Name, input: ScoreInput): bool {
    (name.Valuation? || name.Liquidity? || name.MomentumVolatility?) && Prices(input).1
  }

  datatype Component =
    Component(name: Name, raw: Option<real>, weighted: real, usedFallback: bool, evidenceIds: seq<string>)

  function Ids(items: seq<Evidence>): seq<string> {
    seq(|items|, i requires 0 <= i < |items| => items[i].id)
  }

  function Matching(evidence: seq<Evidence>, kind: string): seq<Evidence> {
    if evidence == [] then []
    else
      var last := evidence[|evidence| - 1];
      Matching(evidence[..|evidence| - 1], kind) + if last.evidenceType == kind then [last] else []
  }

  function EvidenceIdsFor(evidence: seq<Evidence>, name: Name): seq<string> {
    var matching := Matching(evidence, Label(name));
    if matching != [] then Ids(matching)
    else if name.NewsAttention? then Ids(OfType(evidence, "news"))
    else if name.DisclosureEvent? then Ids(OfType(evidence, "disclosure"))
    else []
  }

  function WeightedScore(name: Name, raw: Option<real>): real {
    if raw.None? then 0.0 else Clamp(raw.value, 0.0, 100.0) * Weight(name) as real / 100.0
  }

  function ComponentOf(name: Name, input: ScoreInput): Component {
    var raw := RawScore(name, input);
    Component(name, if raw.None? then None else Some(Clamp(raw.value, 0.0, 100.0)), WeightedScore(name, raw),
              UsedFallback(name, input), EvidenceIdsFor(input.evidence, name))
  }

  function Components(input: ScoreInput): seq<Component> {
    seq(|NAMES|, i requires 0 <= i < |NAMES| => ComponentOf(NAMES[i], input))
  }

  type Raws = Name -> Option<real>

  function RawsOf(input: ScoreInput): Raws {
    name => RawScore(name, input)
  }

  function RawTotal(raws: Raws): real {
    WeightedScore(FinancialStability, raws(FinancialStability)) + WeightedScore(Profitability, raws(Profitability))
    + WeightedScore(Growth, raws(Growth)) + WeightedScore(Valuation, raws(Valuation))
    + WeightedScore(NewsAttention, raws(NewsAttention)) + WeightedScore(DisclosureEvent, raws(DisclosureEvent))
    + WeightedScore(Liquidity, raws(Liquidity)) + WeightedScore(MomentumVolatility, raws(MomentumVolatility))
  }

  function Penalty(risks: seq<Risk>): real {
    if risks == [] then 0.0 else Penalty(risks[..|risks| - 1]) + risks[|risks| - 1].points
  }

  function Total(raws: Raws, penalty: real): real {
    Clamp(Round1(RawTotal(raws) - penalty), 0.0, 100.0)
  }

  function Missing(raws: Raws): set<Name> {
    set name | name in NAMES && raws(name).None?
  }

  function FallbackData(input: ScoreInput): set<Name> {
    set name | name in NAMES && UsedFallback(name, input)
  }

  function EvidenceCount(input: ScoreInput): nat {
    |set e | e in input.evidence :: e.id|
  }

  datatype Level = Weak | Medium | Strong

  function EvidenceLevel(count: nat, missing: nat): Level {
    if count >= 4 && missing <= 1 then Strong else if count >= 2 then Medium else Weak
  }

  datatype Reason = Reason(component: Name, contribution: real, evidenceIds: seq<string>)

  /** The sort key of the reasons, largest first. */
  predicate AtLeast(c: Component, d: Component) {
    c.weighted > d.weighted || (c.weighted == d.weighted && Weight(c.name) >= Weight(d.name))
  }

  function TopComponents(input: ScoreInput): (r: seq<Component>)
    ensures |r| == 3
  {
    var sorted := Sort(AtLeast, Components(input));
    assert |sorted| == |multiset(sorted)| == |NAMES|;
    sorted[..3]
  }

  function Reasons(input: ScoreInput): seq<Reason> {
    var top := TopComponents(input);
    var firstTwo := Ids(if |input.evidence| <= 2 then input.evidence else input.evidence[..2]);
    seq(|top|, i requires 0 <= i < |top| =>
      Reason(top[i].name, top[i].weighted, if top[i].evidenceIds != [] then top[i].evidenceIds else firstTwo))
  }

  datatype ScoreResult = ScoreResult(
    ticker: string,
    total: real,
    components: seq<Component>,
    missing: set<Name>,
    fallbackData: set<Name>,
    penalty: real,
    riskTags: set<string>,
    evidenceCount: nat,
    level: Level,
    reasons: seq<Reason>)

  function Score(input: ScoreInput): ScoreResult {
    var raws := RawsOf(input);
    ScoreResult(
      input.ticker,
      Total(raws, Penalty(input.risks)),
      Components(input),
      Missing(raws),
      FallbackData(input),
      Penalty(input.risks),
      set r | r in input.risks :: r.tag,
      EvidenceCount(input),
      EvidenceLevel(EvidenceCount(input), |Missing(raws)|),
      Reasons(input))
  }

  // ---- Ranges ----

  /** A ratio component stays within 30 and 90, whatever the figures. */
  lemma RatioComponentRange(name: Name, input: ScoreInput)
    requires !name.NewsAttention? && !name.DisclosureEvent?
    ensures RawScore(name, input).Some? ==> 30.0 <= RawScore(name, input).value <= 90.0
  {}

  lemma {:induction false} ConfidenceSumRange(items: seq<Evidence>)
    requires forall e :: e in items ==> 0.0 <= e.confidence <= 1.0
    ensures 0.0 <= ConfidenceSum(items) <= |items| as real
  {
    if items != [] { ConfidenceSumRange(items[..|items| - 1]); }
  }

  lemma MeanShareRange(sum: real, n: real, share: real)
    requires n > 0.0 && 0.0 <= sum <= n && share >= 0.0
    ensures 0.0 <= sum / n * share <= share
  {
    var mean := sum / n;
    assert mean * n == sum;
    assert 0.0 <= mean <= 1.0;
  }

  lemma AttentionRange(items: seq<Evidence>, base: real, step: real, share: real)
    requires items != [] && share >= 0.0 && forall e :: e in items ==> 0.0 <= e.confidence <= 1.0
    ensures AttentionScore(items, base, step, share).Some?
    ensures var low := base + |items| as real * step;
            var score := AttentionScore(items, base, step, share).value;
            (score >= low || score == 100.0) && score <= low + share && score <= 100.0
  {
    ConfidenceSumRange(items);
    AttentionOfRange(|items| as real, ConfidenceSum(items), base, step, share);
  }

  lemma AttentionOfRange(n: real, sum: real, base: real, step: real, share: real)
    requires n > 0.0 && 0.0 <= sum <= n && share >= 0.0
    ensures var low, score := base + n * step, Attention(n, sum, base, step, share);
            (score >= low || score == 100.0) && score <= low + share && score <= 100.0
  {
    MeanShareRange(sum, n, share);
  }

  lemma {:induction false} OfTypeWithin(evidence: seq<Evidence>, sourceType: string)
    ensures forall e :: e in OfType(evidence, sourceType) ==> e in evidence
  {
    if evidence != [] { OfTypeWithin(evidence[..|evidence| - 1], sourceType); }
  }

  lemma AttentionComponentRange(input: ScoreInput)
    requires WellFormed(input)
    ensures NewsScore(input).Some? ==> 65.0 <= NewsScore(input).value <= 100.0
    ensures DisclosureScore(input).Some? ==> 68.0 <= DisclosureScore(input).value <= 100.0
  {
    var news, disclosures := OfType(input.evidence, "news"), OfType(input.evidence, "disclosure");
    OfTypeWithin(input.evidence, "news");
    OfTypeWithin(input.evidence, "disclosure");
    if news != [] { AttentionRange(news, 45.0, 20.0, 15.0); }
    if disclosures != [] { AttentionRange(disclosures, 50.0, 18.0, 12.0); }
  }

  function Low(name: Name): real {
    if name.NewsAttention? then 65.0 else if name.DisclosureEvent? then 68.0 else 30.0
  }

  function High(name: Name): real {
    if name.NewsAttention? || name.DisclosureEvent? then 100.0 else 90.0
  }

  ghost predicate InRange(raws: Raws) {
    forall name :: raws(name).Some? ==> Low(name) <= raws(name).value <= High(name)
  }

  /** Every component is missing or within its range. */
  lemma ComponentsInRange(input: ScoreInput)
    requires WellFormed(input)
    ensures InRange(RawsOf(input))
  {
    forall name: Name ensures RawScore(name, input).Some? ==> Low(name) <= RawScore(name, input).value <= High(name) {
      if name.NewsAttention? || name.DisclosureEvent? { AttentionComponentRange(input); }
      else { RatioComponentRange(name, input); }
    }
  }

  lemma {:induction false} PenaltyRange(risks: seq<Risk>)
    requires forall r :: r in risks ==> r.points >= 0.0
    ensures Penalty(risks) >= 0.0
  {
    if risks != [] { PenaltyRange(risks[..|risks| - 1]); }
  }

  /** The most and the least a present component can add to the total. */
  function MaxShare(name: Name): real {
    match name
    case FinancialStability => 18.0
    case Profitability => 13.5
    case Growth => 13.5
    case NewsAttention => 10.0
    case DisclosureEvent => 10.0
    case _ => 9.0
  }

  function MinShare(name: Name): real {
    match name
    case FinancialStability => 6.0
    case Profitability => 4.5
    case Growth => 4.5
    case NewsAttention => 6.5
    case DisclosureEvent => 6.8
    case _ => 3.0
  }

  lemma WeightedRange(name: Name, raw: Option<real>)
    requires raw.Some? ==> Low(name) <= raw.value <= High(name)
    ensures 0.0 <= WeightedScore(name, raw) <= MaxShare(name)
    ensures raw.Some? ==> WeightedScore(name, raw) >= MinShare(name)
  {}

  lemma RawTotalRange(raws: Raws)
    requires InRange(raws)
    ensures 0.0 <= RawTotal(raws) <= 92.0
    ensures Missing(raws) == {} ==> RawTotal(raws) >= 37.3
  {
    if Missing(raws) == {} {
      forall name: Name ensures raws(name).Some? {
        NamesComplete(name);
        assert name !in Missing(raws);
      }
    }
    WeightedRange(FinancialStability, raws(FinancialStability));
    WeightedRange(Profitability, raws(Profitability));
    WeightedRange(Growth, raws(Growth));
    WeightedRange(Valuation, raws(Valuation));
    WeightedRange(NewsAttention, raws(NewsAttention));
    WeightedRange(DisclosureEvent, raws(DisclosureEvent));
    WeightedRange(Liquidity, raws(Liquidity));
    WeightedRange(MomentumVolatility, raws(MomentumVolatility));
  }

  lemma NamesComplete(name: Name)
    ensures name in NAMES
  {
    match name
    case FinancialStability => assert NAMES[0] == name;
    case Profitability => assert NAMES[1] == name;
    case Growth => assert NAMES[2] == name;
    case Valuation => assert NAMES[3] == name;
    case NewsAttention => assert NAMES[4] == name;
    case DisclosureEvent => assert NAMES[5] == name;
    case Liquidity => assert NAMES[6] == name;
    case MomentumVolatility => assert NAMES[7] == name;
  }

  /** No candidate scores above 92 or below 0; with every component present and no penalty none scores below 37.3. */
  lemma TotalRange(input: ScoreInput)
    requires WellFormed(input)
    ensures 0.0 <= Score(input).total <= 92.0
    ensures Score(input).missing == {} && Score(input).penalty == 0.0 ==> Score(input).total >= 37.3
  {
    ComponentsInRange(input);
    PenaltyRange(input.risks);
    TotalRangeOf(RawsOf(input), Penalty(input.risks));
  }

  lemma TotalRangeOf(raws: Raws, penalty: real)
    requires InRange(raws) && penalty >= 0.0
    ensures 0.0 <= Total(raws, penalty) <= 92.0
    ensures Missing(raws) == {} && penalty == 0.0 ==> Total(raws, penalty) >= 37.3
  {
    RawTotalRange(raws);
    RoundedRange(RawTotal(raws) - penalty);
  }

  lemma RoundedRange(x: real)
    ensures x <= 92.0 ==> Round1(x) <= 92.0
    ensures x >= 37.3 ==> Round1(x) >= 37.3
  {
    Round1Fixes(920);
    Round1Fixes(373);
    if x <= 92.0 { Round1Monotone(x, 92.0); }
    if x >= 37.3 { Round1Monotone(37.3, x); }
  }

  /** Two candidates at the bounds: every component at its best, and every component at its worst. */
  function Best(): ScoreInput {
    ScoreInput("A",
      Some(map["total_liabilities" := Some(0.0), "total_equity" := Some(100000000000000.0),
               "total_assets" := Some(100000000000000.0), "revenue" := Some(100000000000000.0),
               "operating_income" := Some(100000000000000.0), "net_income" := Some(100000000000000.0)]),
      Some(map["revenue" := Some(50000000000000.0), "operating_income" := Some(50000000000000.0)]),
      Some(map["market_cap" := Some(20000000000000.0), "volume" := Some(5000000.0),
               "trading_value" := Some(300000000000.0), "momentum_20d" := Some(1.0), "volatility_20d" := Some(0.0)]),
      None, [News(1.0), News(1.0), Filing(1.0), Filing(1.0), Filing(1.0)], [])
  }

  function Worst(): ScoreInput {
    ScoreInput("B",
      Some(map["total_liabilities" := Some(2.0), "total_equity" := Some(1.0), "total_assets" := Some(10.0),
               "revenue" := Some(1.0), "operating_income" := Some(-1.0), "net_income" := Some(-1.0)]),
      Some(map["revenue" := Some(2.0), "operating_income" := Some(1.0)]),
      Some(map["market_cap" := Some(10.0), "volume" := Some(0.0), "trading_value" := Some(0.0),
               "momentum_20d" := Some(-1.0), "volatility_20d" := Some(1.0)]),
      None, [News(0.0), Filing(0.0)], [])
  }

  function News(confidence: real): Evidence {
    Evidence("n", "news", "news", confidence)
  }

  function Filing(confidence: real): Evidence {
    Evidence("d", "disclosure", "disclosure", confidence)
  }

  /** The upper bound of the total is attained. */
  lemma UpperBoundAttained(input: ScoreInput)
    requires input == Best()
    ensures WellFormed(input) && Score(input).total == 92.0
  {
    BestRaws();
    AllAtBest(input);
  }

  /** The lower bound of the total, for a candidate with no missing component and no penalty, is attained. */
  lemma LowerBoundAttained(input: ScoreInput)
    requires input == Worst()
    ensures WellFormed(input) && Score(input).missing == {} && Score(input).penalty == 0.0
    ensures Score(input).total == 37.3
  {
    WorstRaws();
    AllAtWorst(input);
  }

  predicate AtBest(name: Name, input: ScoreInput) { RawScore(name, input) == Some(High(name)) }

  predicate AtWorst(name: Name, input: ScoreInput) { RawScore(name, input) == Some(Low(name)) }

  lemma BestRaws()
    ensures forall name :: AtBest(name, Best())
  {
    BestAttention(Best(), [News(1.0), News(1.0)], [Filing(1.0), Filing(1.0), Filing(1.0)]);
    BestFinancials();
    BestPrices();
    forall name ensures AtBest(name, Best()) {
      match name
      case FinancialStability => case Profitability => case Growth => case Valuation =>
      case NewsAttention => case DisclosureEvent => case Liquidity => case MomentumVolatility =>
    }
  }

  lemma BestFinancials()
    ensures AtBest(FinancialStability, Best()) && AtBest(Profitability, Best()) && AtBest(Growth, Best())
  {}

  lemma BestPrices()
    ensures AtBest(Valuation, Best()) && AtBest(Liquidity, Best()) && AtBest(MomentumVolatility, Best())
  {}

  lemma BestAttention(input: ScoreInput, news: seq<Evidence>, filings: seq<Evidence>)
    requires news == [News(1.0), News(1.0)] && filings == [Filing(1.0), Filing(1.0), Filing(1.0)]
    requires input.evidence == news + filings
    ensures AtBest(NewsAttention, input) && AtBest(DisclosureEvent, input)
  {
    TwoKinds(news, filings, "news", "disclosure", 1.0);
    assert NewsScore(input) == Some(Attention(2.0, 2.0, 45.0, 20.0, 15.0));
    assert DisclosureScore(input) == Some(Attention(3.0, 3.0, 50.0, 18.0, 12.0));
  }

  lemma {:induction false} UniformKind(items: seq<Evidence>, sourceType: string, kind: string)
    requires forall e :: e in items ==> e.sourceType == sourceType
    ensures OfType(items, kind) == if kind == sourceType then items else []
  {
    if items != [] {
      UniformKind(items[..|items| - 1], sourceType, kind);
      assert items == items[..|items| - 1] + [items[|items| - 1]];
    }
  }

  lemma {:induction false} UniformSum(items: seq<Evidence>, confidence: real)
    requires forall e :: e in items ==> e.confidence == confidence
    ensures ConfidenceSum(items) == |items| as real * confidence
  {
    if items != [] {
      UniformSum(items[..|items| - 1], confidence);
      OneMoreShare(|items| as real, confidence);
    }
  }

  lemma OneMoreShare(n: real, c: real)
    ensures (n - 1.0) * c + c == n * c
  {}

  lemma TwoKinds(x: seq<Evidence>, y: seq<Evidence>, xKind: string, yKind: string, confidence: real)
    requires xKind != yKind
    requires forall e :: e in x ==> e.sourceType == xKind && e.confidence == confidence
    requires forall e :: e in y ==> e.sourceType == yKind && e.confidence == confidence
    ensures OfType(x + y, xKind) == x && ConfidenceSum(x) == |x| as real * confidence
    ensures OfType(x + y, yKind) == y && ConfidenceSum(y) == |y| as real * confidence
  {
    OfTypeSplit(x, y, xKind);
    OfTypeSplit(x, y, yKind);
    UniformKind(x, xKind, xKind);
    UniformKind(x, xKind, yKind);
    UniformKind(y, yKind, xKind);
    UniformKind(y, yKind, yKind);
    UniformSum(x, confidence);
    UniformSum(y, confidence);
  }

  lemma WorstRaws()
    ensures forall name :: AtWorst(name, Worst())
  {
    WorstAttention(Worst(), [News(0.0)], [Filing(0.0)]);
    WorstFinancials();
    WorstPrices();
    forall name ensures AtWorst(name, Worst()) {
      match name
      case FinancialStability => case Profitability => case Growth => case Valuation =>
      case NewsAttention => case DisclosureEvent => case Liquidity => case MomentumVolatility =>
    }
  }

  lemma WorstFinancials()
    ensures AtWorst(FinancialStability, Worst()) && AtWorst(Profitability, Worst()) && AtWorst(Growth, Worst())
  {}

  lemma WorstPrices()
    ensures AtWorst(Valuation, Worst()) && AtWorst(Liquidity, Worst()) && AtWorst(MomentumVolatility, Worst())
  {}

  lemma WorstAttention(input: ScoreInput, news: seq<Evidence>, filings: seq<Evidence>)
    requires news == [News(0.0)] && filings == [Filing(0.0)] && input.evidence == news + filings
    ensures AtWorst(NewsAttention, input) && AtWorst(DisclosureEvent, input)
  {
    TwoKinds(news, filings, "news", "disclosure", 0.0);
    assert |news| as real * 0.0 == 0.0 && |filings| as real * 0.0 == 0.0;
    assert NewsScore(input) == Some(Attention(1.0, 0.0, 45.0, 20.0, 15.0));
    assert DisclosureScore(input) == Some(Attention(1.0, 0.0, 50.0, 18.0, 12.0));
  }

  lemma AllAtBest(input: ScoreInput)
    requires input.risks == [] && forall name :: AtBest(name, input)
    ensures Score(input).total == 92.0
  {
    var raws := RawsOf(input);
    forall name ensures raws(name) == Some(High(name)) { assert AtBest(name, input); }
    TotalAtBest(raws);
  }

  lemma AllAtWorst(input: ScoreInput)
    requires input.risks == [] && forall name :: AtWorst(name, input)
    ensures Score(input).missing == {} && Score(input).penalty == 0.0 && Score(input).total == 37.3
  {
    var raws := RawsOf(input);
    forall name ensures raws(name) == Some(Low(name)) { assert AtWorst(name, input); }
    TotalAtWorst(raws);
  }

  lemma TotalAtBest(raws: Raws)
    requires forall name :: raws(name) == Some(High(name))
    ensures Total(raws, 0.0) == 92.0
  {
    assert RawTotal(raws) == 92.0;
    Round1Fixes(920);
  }

  lemma TotalAtWorst(raws: Raws)
    requires forall name :: raws(name) == Some(Low(name))
    ensures Missing(raws) == {} && Total(raws, 0.0) == 37.3
  {
    assert RawTotal(raws) == 37.3;
    Round1Fixes(373);
  }

  // ---- One more piece of evidence ----

  function WithEvidence(input: ScoreInput, i: nat, e: Evidence): ScoreInput
    requires i <= |input.evidence|
  {
    input.(evidence := input.evidence[..i] + [e] + input.evidence[i..])
  }

  lemma {:induction false} OfTypeSplit(a: seq<Evidence>, b: seq<Evidence>, sourceType: string)
    ensures OfType(a + b, sourceType) == OfType(a, sourceType) + OfType(b, sourceType)
  {
    if b == [] {
      assert a + b == a;
    } else {
      OfTypeSplit(a, b[..|b| - 1], sourceType);
      DropLastOfSum(a, b);
    }
  }

  lemma OfTypeGrows(evidence: seq<Evidence>, i: nat, e: Evidence, sourceType: string)
    requires i <= |evidence|
    ensures var more := OfType(evidence[..i] + [e] + evidence[i..], sourceType);
            |more| == |OfType(evidence, sourceType)| + if e.sourceType == sourceType then 1 else 0
    ensures e.sourceType != sourceType ==>
              OfType(evidence[..i] + [e] + evidence[i..], sourceType) == OfType(evidence, sourceType)
  {
    OfTypeSplit(evidence[..i] + [e], evidence[i..], sourceType);
    OfTypeSplit(evidence[..i], [e], sourceType);
    OfTypeSplit(evidence[..i], evidence[i..], sourceType);
    assert evidence[..i] + evidence[i..] == evidence;
    assert OfType([e], sourceType) == if e.sourceType == sourceType then [e] else [];
  }

  /** A step larger than the confidence share outweighs any fall of the mean. */
  lemma AttentionGrows(items: seq<Evidence>, more: seq<Evidence>, base: real, step: real, share: real)
    requires |more| == |items| + 1 && 0.0 <= share <= step && base + step >= 0.0
    requires forall e :: e in items || e in more ==> 0.0 <= e.confidence <= 1.0
    ensures Risen(AttentionScore(items, base, step, share), AttentionScore(more, base, step, share))
  {
    var before, after := AttentionScore(items, base, step, share), AttentionScore(more, base, step, share);
    AttentionRange(more, base, step, share);
    if items != [] { AttentionRange(items, base, step, share); }
    assert |more| as real == |items| as real + 1.0;
    StepOutweighs(|items| as real, base, step, share, before, after);
  }

  lemma StepOutweighs(n: real, base: real, step: real, share: real, before: Option<real>, after: Option<real>)
    requires n >= 0.0 && 0.0 <= share <= step && base + step >= 0.0
    requires before.Some? ==> before.value <= base + n * step + share && before.value <= 100.0
    requires after.Some? && (after.value >= base + (n + 1.0) * step || after.value == 100.0)
    ensures Risen(before, after)
  {
    StepUp(n, base, step);
  }

  lemma StepUp(n: real, base: real, step: real)
    requires n >= 0.0 && step >= 0.0
    ensures base + (n + 1.0) * step == base + n * step + step
    ensures base + n * step >= base
  {}

  lemma OtherScoresIgnoreEvidence(name: Name, input: ScoreInput, evidence: seq<Evidence>)
    requires !name.NewsAttention? && !name.DisclosureEvent?
    ensures RawScore(name, input.(evidence := evidence)) == RawScore(name, input)
  {}

  /** A component that can only have risen: present if it was, and no lower. */
  predicate Risen(before: Option<real>, after: Option<real>) {
    (before.Some? ==> after.Some? && after.value >= before.value)
    && (before.None? && after.Some? ==> after.value >= 0.0)
  }

  lemma EvidenceRaisesComponent(input: ScoreInput, i: nat, e: Evidence, name: Name)
    requires i <= |input.evidence| && WellFormed(input) && 0.0 <= e.confidence <= 1.0
    ensures Risen(RawScore(name, input), RawScore(name, WithEvidence(input, i, e)))
  {
    var more := WithEvidence(input, i, e).evidence;
    assert forall x :: x in more ==> x == e || x in input.evidence;
    if name.NewsAttention? {
      AttentionRises(input.evidence, more, i, e, "news", 45.0, 20.0, 15.0);
    } else if name.DisclosureEvent? {
      AttentionRises(input.evidence, more, i, e, "disclosure", 50.0, 18.0, 12.0);
    } else {
      OtherScoresIgnoreEvidence(name, input, more);
    }
  }

  lemma AttentionRises(
      evidence: seq<Evidence>, more: seq<Evidence>, i: nat, e: Evidence, kind: string, base: real,
      step: real, share: real)
    requires i <= |evidence| && more == evidence[..i] + [e] + evidence[i..]
    requires forall x :: x in evidence || x in more ==> 0.0 <= x.confidence <= 1.0
    requires 0.0 <= share <= step && base + step >= 0.0
    ensures Risen(AttentionScore(OfType(evidence, kind), base, step, share),
                  AttentionScore(OfType(more, kind), base, step, share))
  {
    OfTypeGrows(evidence, i, e, kind);
    OfTypeWithin(evidence, kind);
    OfTypeWithin(more, kind);
    if e.sourceType == kind { AttentionGrows(OfType(evidence, kind), OfType(more, kind), base, step, share); }
  }

  function Rank(level: Level): nat {
    match level case Weak => 0 case Medium => 1 case Strong => 2
  }

  lemma TotalMonotone(a: Raws, b: Raws, penalty: real, less: real)
    requires less <= penalty && forall name :: Risen(a(name), b(name))
    ensures Total(b, less) >= Total(a, penalty)
    ensures Missing(b) <= Missing(a)
  {
    forall name: Name ensures WeightedScore(name, b(name)) >= WeightedScore(name, a(name)) {
      assert Risen(a(name), b(name));
    }
    forall name | name in Missing(b) ensures name in Missing(a) { assert Risen(a(name), b(name)); }
    Round1Monotone(RawTotal(a) - penalty, RawTotal(b) - less);
  }

  /** Adding one evidence reference, anywhere in the list, never lowers the total, the evidence count or the level. */
  lemma EvidenceNeverHurts(input: ScoreInput, i: nat, e: Evidence)
    requires i <= |input.evidence| && WellFormed(input) && 0.0 <= e.confidence <= 1.0
    ensures var before, after := Score(input), Score(WithEvidence(input, i, e));
            && after.total >= before.total
            && after.evidenceCount >= before.evidenceCount
            && Rank(after.level) >= Rank(before.level)
  {
    var more := WithEvidence(input, i, e);
    var a, b := RawsOf(input), RawsOf(more);
    forall name ensures Risen(a(name), b(name)) {
      EvidenceRaisesComponent(input, i, e, name);
    }
    TotalMonotone(a, b, Penalty(input.risks), Penalty(input.risks));
    SubsetSize(Missing(b), Missing(a));
    CountGrows(input, i, e);
  }

  lemma CountGrows(input: ScoreInput, i: nat, e: Evidence)
    requires i <= |input.evidence|
    ensures EvidenceCount(WithEvidence(input, i, e)) >= EvidenceCount(input)
  {
    var more := WithEvidence(input, i, e);
    var ids, moreIds := set x | x in input.evidence :: x.id, set x | x in more.evidence :: x.id;
    forall id | id in ids ensures id in moreIds {
      var x :| x in input.evidence && x.id == id;
      assert input.evidence == input.evidence[..i] + input.evidence[i..];
      assert x in more.evidence;
    }
    SubsetSize(ids, moreIds);
  }

  lemma {:induction false} SubsetSize<T>(a: set<T>, b: set<T>)
    requires a <= b
    ensures |a| <= |b|
  {
    assert b == a + (b - a);
  }

  lemma ScoresIgnoreRisks(name: Name, input: ScoreInput, risks: seq<Risk>)
    ensures RawScore(name, input.(risks := risks)) == RawScore(name, input)
  {}

  /** Adding a risk never raises the total. */
  lemma RiskNeverHelps(input: ScoreInput, risk: Risk)
    requires risk.points >= 0.0
    ensures Score(input.(risks := input.risks + [risk])).total <= Score(input).total
  {
    var more := input.(risks := input.risks + [risk]);
    assert more.risks[..|more.risks| - 1] == input.risks;
    var a, b := RawsOf(more), RawsOf(input);
    forall name ensures Risen(a(name), b(name)) { ScoresIgnoreRisks(name, input, more.risks); }
    TotalMonotone(a, b, Penalty(more.risks), Penalty(input.risks));
  }

  // ---- Reasons ----

  lemma AtLeastIsPreorder()
    ensures TotalPreorder(AtLeast)
  {}

  /** The three reasons are the best three: no other component has a larger score, or the same score and more weight;
      and they come best first. */
  lemma ReasonsAreTheBest(input: ScoreInput)
    ensures SortedBy(AtLeast, TopComponents(input))
    ensures multiset(TopComponents(input)) <= multiset(Components(input))
    ensures forall t, c ::
              t in TopComponents(input) && c in multiset(Components(input)) - multiset(TopComponents(input))
              ==> AtLeast(t, c)
  {
    AtLeastIsPreorder();
    var all := Components(input);
    SortSorted(AtLeast, all);
    SameSize(Sort(AtLeast, all), all);
    assert |all| == |NAMES| == 8;
    FirstThree(Sort(AtLeast, all), all);
  }

  /** Among components of one score and weight the earlier one in the list of components comes first. */
  lemma ReasonsKeepTies(input: ScoreInput, i: nat, j: nat)
    requires i < j < 3
    requires TopComponents(input)[i].weighted == TopComponents(input)[j].weighted
    requires Weight(TopComponents(input)[i].name) == Weight(TopComponents(input)[j].name)
    ensures Place(TopComponents(input)[i].name) < Place(TopComponents(input)[j].name)
  {
    ComponentsPlaced(input);
    FirstThreeTies(Components(input), TopComponents(input), i, j);
  }

  lemma FirstThreeTies(all: seq<Component>, top: seq<Component>, i: nat, j: nat)
    requires forall m, n :: 0 <= m < n < |all| ==> Place(all[m].name) < Place(all[n].name)
    requires |Sort(AtLeast, all)| >= 3 && top == Sort(AtLeast, all)[..3] && i < j < 3
    requires top[i].weighted == top[j].weighted && Weight(top[i].name) == Weight(top[j].name)
    ensures Place(top[i].name) < Place(top[j].name)
  {
    var rank := (c: Component) => Place(c.name);
    SortKeepsTies(AtLeast, rank, all);
    var sorted := Sort(AtLeast, all);
    assert AtLeast(sorted[i], sorted[j]) && AtLeast(sorted[j], sorted[i]);
    assert rank(sorted[i]) < rank(sorted[j]);
  }

  lemma ComponentsPlaced(input: ScoreInput)
    ensures var all := Components(input);
            && |all| == 8 && |Sort(AtLeast, all)| == 8
            && forall m, n :: 0 <= m < n < |all| ==> Place(all[m].name) < Place(all[n].name)
  {
    var all := Components(input);
    SameSize(Sort(AtLeast, all), all);
    forall m, n | 0 <= m < n < |all| ensures Place(all[m].name) < Place(all[n].name) {
      NamesPlaced(m);
      NamesPlaced(n);
    }
  }

  /** A component's place in the list. */
  function Place(name: Name): int {
    match name
    case FinancialStability => 0
    case Profitability => 1
    case Growth => 2
    case Valuation => 3
    case NewsAttention => 4
    case DisclosureEvent => 5
    case Liquidity => 6
    case MomentumVolatility => 7
  }

  lemma NamesPlaced(i: nat)
    requires i < |NAMES|
    ensures Place(NAMES[i]) == i
  {}

  /** What a component cites: the evidence filed under its name; failing that, for news attention the news, for the
      disclosure event the disclosures, and for the others nothing. */
  lemma CitedExactly(evidence: seq<Evidence>, name: Name, id: string)
    ensures id in EvidenceIdsFor(evidence, name) <==>
              exists e :: e in evidence && e.id == id
                && if exists x :: x in evidence && x.evidenceType == Label(name) then e.evidenceType == Label(name)
                   else (name == NewsAttention && e.sourceType == "news")
                        || (name == DisclosureEvent && e.sourceType == "disclosure")
  {
    MatchingExactly(evidence, Label(name));
    OfTypeExactly(evidence, "news");
    OfTypeExactly(evidence, "disclosure");
    IdsExactly(Matching(evidence, Label(name)), id);
    IdsExactly(OfType(evidence, "news"), id);
    IdsExactly(OfType(evidence, "disclosure"), id);
    if Matching(evidence, Label(name)) != [] { assert Matching(evidence, Label(name))[0] in evidence; }
  }

  lemma {:induction false} MatchingExactly(evidence: seq<Evidence>, kind: string)
    ensures forall e :: e in Matching(evidence, kind) <==> e in evidence && e.evidenceType == kind
  {
    if evidence != [] {
      MatchingExactly(evidence[..|evidence| - 1], kind);
      assert evidence == evidence[..|evidence| - 1] + [evidence[|evidence| - 1]];
    }
  }

  lemma {:induction false} OfTypeExactly(evidence: seq<Evidence>, sourceType: string)
    ensures forall e :: e in OfType(evidence, sourceType) <==> e in evidence && e.sourceType == sourceType
  {
    if evidence != [] {
      OfTypeExactly(evidence[..|evidence| - 1], sourceType);
      assert evidence == evidence[..|evidence| - 1] + [evidence[|evidence| - 1]];
    }
  }

  lemma IdsExactly(items: seq<Evidence>, id: string)
    ensures id in Ids(items) <==> exists e :: e in items && e.id == id
  {
    forall e | e in items && e.id == id ensures id in Ids(items) {
      var i :| 0 <= i < |items| && items[i] == e;
      assert Ids(items)[i] == id;
    }
  }

  /** A reason names its component and its share of the total, and cites what the component cites; when that is nothing
      it cites the first two pieces of evidence. */
  lemma ReasonsAreExact(input: ScoreInput, i: nat)
    requires i < 3
    ensures |Reasons(input)| == 3
    ensures var reason, name := Reasons(input)[i], TopComponents(input)[i].name;
            && reason.component == name && reason.contribution == WeightedScore(name, RawScore(name, input))
            && reason.evidenceIds
               == (if EvidenceIdsFor(input.evidence, name) != [] then EvidenceIdsFor(input.evidence, name)
                   else FirstIds(input.evidence))
  {
    TopIsComponent(input, i);
  }

  /** The ids of the first two pieces of evidence, or of the one there is. */
  function FirstIds(evidence: seq<Evidence>): seq<string> {
    if |evidence| >= 2 then [evidence[0].id, evidence[1].id] else if |evidence| == 1 then [evidence[0].id] else []
  }

  lemma TopIsComponent(input: ScoreInput, i: nat)
    requires i < 3
    ensures TopComponents(input)[i] == ComponentOf(TopComponents(input)[i].name, input)
  {
    var all, top := Components(input), TopComponents(input);
    ReasonsAreTheBest(input);
    assert top[i] in multiset(top);
    assert top[i] in multiset(all);
    var j :| 0 <= j < |all| && all[j] == top[i];
  }

  // ---- What a score says ----

  /** Every component has its place, its score and its share of the total, by weights of 20, 15, 15 and five times 10,
      and is missing exactly when it has no score. */
  lemma ScoreSaysExactly(input: ScoreInput, name: Name)
    requires WellFormed(input)
    ensures |Components(input)| == 8 && Components(input)[Place(name)].name == name
    ensures Components(input)[Place(name)].raw == RawScore(name, input)
    ensures Components(input)[Place(name)].weighted == Points(name, RawScore(name, input))
    ensures name in Missing(RawsOf(input)) <==> RawScore(name, input).None?
  {
    ComponentsInRange(input);
    assert RawsOf(input)(name) == RawScore(name, input);
    PlacedComponent(input, name);
    NamesComplete(name);
    SharesExact(input, name, RawScore(name, input));
  }

  function Points(name: Name, raw: Option<real>): real {
    if raw.None? then 0.0
    else if name.FinancialStability? then raw.value / 5.0
    else if name.Profitability? || name.Growth? then raw.value * 3.0 / 20.0
    else raw.value / 10.0
  }

  lemma PlacedComponent(input: ScoreInput, name: Name)
    ensures |Components(input)| == 8 && Components(input)[Place(name)] == ComponentOf(name, input)
  {
    var i := Place(name);
    NamesPlaced(i);
    assert NAMES[i] == name;
  }

  lemma SharesExact(input: ScoreInput, name: Name, raw: Option<real>)
    requires raw == RawScore(name, input) && (raw.Some? ==> 0.0 <= raw.value <= 100.0)
    ensures ComponentOf(name, input).raw == raw && ComponentOf(name, input).weighted == Points(name, raw)
  {}

  lemma LevelIsExact(input: ScoreInput)
    ensures var score := Score(input);
            && score.ticker == input.ticker && score.penalty == Penalty(input.risks)
            && score.evidenceCount == |set e | e in input.evidence :: e.id|
            && (score.level == Strong <==> score.evidenceCount >= 4 && |score.missing| <= 1)
            && (score.level == Weak <==> score.evidenceCount < 2)
            && forall tag :: tag in score.riskTags <==> exists r :: r in input.risks && r.tag == tag
  {}

  /** Fallback prices count like present ones, and are used only when there are no present ones; then, and only then,
      the three price components are marked. */
  lemma FallbackIsExact(input: ScoreInput, figures: Figures)
    requires figures != map[]
    ensures var present := input.(priceMetrics := Some(figures));
            var fallen := input.(priceMetrics := None, fallbackPriceMetrics := Some(figures));
            && (forall name :: RawScore(name, fallen) == RawScore(name, present))
            && FallbackData(present) == {} && FallbackData(fallen) == {Valuation, Liquidity, MomentumVolatility}
  {
    var present := input.(priceMetrics := Some(figures));
    var fallen := input.(priceMetrics := None, fallbackPriceMetrics := Some(figures));
    assert Prices(present) == (figures, false) && Prices(fallen) == (figures, true);
    forall name: Name ensures RawScore(name, fallen) == RawScore(name, present) { SamePrices(name, fallen, present); }
    assert {Valuation, Liquidity, MomentumVolatility} <= (set name | name in NAMES) by {
      NamesComplete(Valuation);
      NamesComplete(Liquidity);
      NamesComplete(MomentumVolatility);
    }
  }

  lemma SamePrices(name: Name, a: ScoreInput, b: ScoreInput)
    requires a == b.(priceMetrics := a.priceMetrics, fallbackPriceMetrics := a.fallbackPriceMetrics)
    requires Prices(a).0 == Prices(b).0
    ensures RawScore(name, a) == RawScore(name, b)
  {}

  /** A reason cites only evidence it was given. */
  lemma ReasonsCiteEvidence(input: ScoreInput, i: nat, id: string)
    requires i < 3 && id in Reasons(input)[i].evidenceIds
    ensures exists e :: e in input.evidence && e.id == id
  {
    var all, top := Components(input), TopComponents(input)[i];
    ReasonsAreTheBest(input);
    assert top in multiset(TopComponents(input));
    assert top in multiset(all);
    var j :| 0 <= j < |all| && all[j] == top;
    if top.evidenceIds != [] { EvidenceIdsWithin(input.evidence, top.name); }
  }

  lemma FirstThree(sorted: seq<Component>, all: seq<Component>)
    requires |sorted| >= 3 && multiset(sorted) == multiset(all) && SortedBy(AtLeast, sorted)
    ensures SortedBy(AtLeast, sorted[..3]) && multiset(sorted[..3]) <= multiset(all)
    ensures forall t, c :: t in sorted[..3] && c in multiset(all) - multiset(sorted[..3]) ==> AtLeast(t, c)
  {
    var rest := sorted[3..];
    assert sorted == sorted[..3] + rest;
    forall t, c | t in sorted[..3] && c in multiset(all) - multiset(sorted[..3]) ensures AtLeast(t, c) {
      assert c in multiset(rest);
      var i :| 0 <= i < 3 && sorted[i] == t;
      var j :| 0 <= j < |rest| && rest[j] == c;
      assert AtLeast(sorted[i], sorted[j + 3]);
    }
  }

  lemma {:induction false} MatchingWithin(evidence: seq<Evidence>, kind: string)
    ensures forall e :: e in Matching(evidence, kind) ==> e in evidence
  {
    if evidence != [] { MatchingWithin(evidence[..|evidence| - 1], kind); }
  }

  lemma EvidenceIdsWithin(evidence: seq<Evidence>, name: Name)
    ensures forall id :: id in EvidenceIdsFor(evidence, name) ==> exists e :: e in evidence && e.id == id
  {
    MatchingWithin(evidence, Label(name));
    OfTypeWithin(evidence, "news");
    OfTypeWithin(evidence, "disclosure");
  }
}
