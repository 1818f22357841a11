/** Which way each figure moves the score. Debt, equity, assets, income, profit, the previous period, volume, trading
    value, momentum and volatility each move it one way as long as no figure changes sign. Revenue, market
    capitalisation, and a profit, an equity, assets or a past figure that changes sign can move it either way; for each
    the exact change and the exact condition of a fall are given. */
module Directions {
  import opened Prelude
  import opened Rounding
  import opened Engine

  // ---- The ratio scales ----

  lemma ClampMonotone(x: real, y: real, minimum: real, maximum: real)
    requires x <= y
    ensures Clamp(x, minimum, maximum) <= Clamp(y, minimum, maximum)
  {}

  lemma QuotientMonotone(x: real, y: real, d: real)
    requires x <= y && d > 0.0
    ensures x / d <= y / d
  {
    assert y / d - x / d == (y - x) / d;
  }

  lemma QuotientAntitone(x: real, d: real, e: real)
    requires x >= 0.0 && 0.0 < d <= e
    ensures x / e <= x / d
  {
    var p, q := x / e, x / d;
    assert p * e == x && q * d == x;
    assert p * d <= p * e;
    assert (q - p) * d >= 0.0;
  }

  /** A ratio scale runs from 30 at the weak end to 90 at the excellent end and never falls in between. */
  lemma RatioScale(x: real, y: real, weak: real, excellent: real)
    requires weak < excellent && x <= y
    ensures RatioScore(x, weak, excellent) <= RatioScore(y, weak, excellent)
    ensures RatioScore(weak, weak, excellent) == 30.0 && RatioScore(excellent, weak, excellent) == 90.0
  {
    var d := excellent - weak;
    QuotientMonotone(x - weak, y - weak, d);
    assert d / d == 1.0;
    ClampMonotone(30.0 + (x - weak) / d * 60.0, 30.0 + (y - weak) / d * 60.0, 30.0, 90.0);
  }

  /** An inverse scale is the ratio scale of the negated figure. */
  lemma InverseIsNegated(x: real, excellent: real, weak: real)
    requires excellent < weak
    ensures InverseRatioScore(x, excellent, weak) == RatioScore(-x, -weak, -excellent)
  {
    assert -x - -weak == weak - x && -excellent - -weak == weak - excellent;
  }

  lemma InverseScale(x: real, y: real, excellent: real, weak: real)
    requires excellent < weak && x <= y
    ensures InverseRatioScore(x, excellent, weak) >= InverseRatioScore(y, excellent, weak)
    ensures x <= excellent ==> InverseRatioScore(x, excellent, weak) == 90.0
  {
    InverseIsNegated(x, excellent, weak);
    InverseIsNegated(y, excellent, weak);
    RatioScale(-y, -x, -weak, -excellent);
    if x <= excellent { RatioScale(-excellent, -x, -weak, -excellent); }
  }

  // ---- The figures the components read ----

  datatype Books = Books(
    revenue: Option<real>, operating: Option<real>, net: Option<real>, assets: Option<real>, liabilities: Option<real>,
    equity: Option<real>)

  function BooksOf(figures: Option<Figures>): Books {
    var f := OrEmpty(figures);
    Books(Number(f, "revenue"), Number(f, "operating_income"), Number(f, "net_income"), Number(f, "total_assets"),
          Number(f, "total_liabilities"), Number(f, "total_equity"))
  }

  datatype Market = Market(
    cap: Option<real>, volume: Option<real>, trading: Option<real>, momentum: Option<real>, volatility: Option<real>)

  function MarketOf(input: ScoreInput): Market {
    var p := Prices(input).0;
    Market(Number(p, "market_cap"), Number(p, "volume"), Number(p, "trading_value"), Number(p, "momentum_20d"),
           Number(p, "volatility_20d"))
  }

  function Now(input: ScoreInput): Books { BooksOf(input.financials) }

  function Before(input: ScoreInput): Books { BooksOf(input.previousFinancials) }

  predicate Positive(x: Option<real>) {
    x.Some? && x.value > 0.0
  }

  // ---- Stronger candidates ----

  /** Both numbers are there or neither is, and the second is at least the first. */
  predicate NoLess(x: Option<real>, y: Option<real>) {
    (x.Some? <==> y.Some?) && (x.Some? ==> x.value <= y.value)
  }

  /** At least as large, and on the same side of zero. */
  predicate NoLessSameSide(x: Option<real>, y: Option<real>) {
    NoLess(x, y) && (Positive(x) <==> Positive(y))
  }

  /** As much revenue, nothing weaker, and no profit, equity or assets that change sign. */
  predicate StrongerBooks(f: Books, g: Books) {
    && f.revenue == g.revenue
    && NoLess(f.operating, g.operating)
    && NoLessSameSide(f.net, g.net)
    && NoLessSameSide(f.equity, g.equity)
    && NoLess(g.liabilities, f.liabilities)
    && NoLessSameSide(g.assets, f.assets)
  }

  /** A previous period that is no better to compare with, and of the same signs. */
  predicate EasierPast(f: Books, g: Books) {
    NoLessSameSide(g.revenue, f.revenue) && NoLessSameSide(g.operating, f.operating)
  }

  predicate StrongerMarket(p: Market, q: Market) {
    && p.cap == q.cap
    && NoLess(p.volume, q.volume)
    && NoLess(p.trading, q.trading)
    && NoLess(p.momentum, q.momentum)
    && NoLess(q.volatility, p.volatility)
  }

  /** `b` is at least as strong as `a`, at the same revenue and market capitalisation. */
  predicate Stronger(a: ScoreInput, b: ScoreInput) {
    && StrongerBooks(Now(a), Now(b))
    && EasierPast(Before(a), Before(b))
    && StrongerMarket(MarketOf(a), MarketOf(b))
    && a.evidence == b.evidence
    && a.risks == b.risks
  }

  lemma DebtImproves(l: real, e: real, l': real, e': real)
    requires l' <= l && 0.0 < e <= e'
    ensures InverseRatioScore(l / e, 0.4, 1.8) <= InverseRatioScore(l' / e', 0.4, 1.8)
  {
    if l' <= 0.0 {
      QuotientMonotone(l', 0.0, e');
      InverseScale(l' / e', 0.4, 0.4, 1.8);
    } else {
      QuotientAntitone(l', e, e');
      QuotientMonotone(l', l, e);
      InverseScale(l' / e', l / e, 0.4, 1.8);
    }
  }

  lemma EquityShareImproves(e: real, t: real, e': real, t': real)
    requires 0.0 < e <= e' && 0.0 < t' <= t
    ensures RatioScore(e / t, 0.2, 0.7) <= RatioScore(e' / t', 0.2, 0.7)
  {
    QuotientMonotone(e, e', t);
    QuotientAntitone(e', t', t);
    RatioScale(e / t, e' / t', 0.2, 0.7);
  }

  lemma LessOne(x: real, b: real)
    requires b > 0.0
    ensures (x - b) / b == x / b - 1.0
  {
    var q, r := x / b, (x - b) / b;
    assert q * b == x && r * b == x - b;
    assert (q - 1.0) * b == x - b;
    CancelFactor(q - 1.0, r, b);
  }

  lemma CancelFactor(p: real, q: real, b: real)
    requires b > 0.0 && p * b == q * b
    ensures p == q
  {
    assert (p - q) * b == 0.0;
  }

  /** Growth over a smaller positive base is no less, up to the scale's weak end. */
  lemma GrowthOver(x: real, b: real, x': real, b': real, weak: real, excellent: real)
    requires x <= x' && 0.0 < b' <= b && -1.0 < weak < excellent
    ensures RatioScore((x - b) / b, weak, excellent) <= RatioScore((x' - b') / b', weak, excellent)
  {
    LessOne(x, b);
    LessOne(x', b');
    if x <= 0.0 {
      QuotientMonotone(x, 0.0, b);
      RatioScale((x - b) / b, weak, weak, excellent);
    } else {
      QuotientMonotone(x, x', b);
      QuotientAntitone(x', b', b);
      RatioScale((x - b) / b, (x' - b') / b', weak, excellent);
    }
  }

  lemma MultipleImproves(cap: real, x: real, y: real, excellent: real, weak: real)
    requires cap > 0.0 && 0.0 < x <= y && excellent < weak
    ensures InverseRatioScore(cap / x, excellent, weak) <= InverseRatioScore(cap / y, excellent, weak)
  {
    QuotientAntitone(cap, x, y);
    InverseScale(cap / y, cap / x, excellent, weak);
  }

  lemma MarginImproves(x: real, y: real, revenue: real, excellent: real)
    requires x <= y && revenue > 0.0 && excellent > -0.05
    ensures RatioScore(x / revenue, -0.05, excellent) <= RatioScore(y / revenue, -0.05, excellent)
  {
    QuotientMonotone(x, y, revenue);
    RatioScale(x / revenue, y / revenue, -0.05, excellent);
  }

  lemma StabilityImproves(a: ScoreInput, b: ScoreInput)
    requires Stronger(a, b)
    ensures Risen(FinancialStabilityScore(a), FinancialStabilityScore(b))
  {
    var f, g := Now(a), Now(b);
    if f.liabilities.Some? && Positive(f.equity) {
      DebtImproves(f.liabilities.value, f.equity.value, g.liabilities.value, g.equity.value);
      if Positive(f.assets) { EquityShareImproves(f.equity.value, f.assets.value, g.equity.value, g.assets.value); }
    }
  }

  lemma ProfitabilityImproves(a: ScoreInput, b: ScoreInput)
    requires Stronger(a, b)
    ensures Risen(ProfitabilityScore(a), ProfitabilityScore(b))
  {
    var f, g := Now(a), Now(b);
    if Positive(f.revenue) && f.operating.Some? {
      MarginImproves(f.operating.value, g.operating.value, f.revenue.value, 0.2);
      if f.net.Some? { MarginImproves(f.net.value, g.net.value, f.revenue.value, 0.15); }
    }
  }

  lemma GrowthImproves(a: ScoreInput, b: ScoreInput)
    requires Stronger(a, b)
    ensures Risen(GrowthScore(a), GrowthScore(b))
  {
    var f, g, f0, g0 := Now(a), Now(b), Before(a), Before(b);
    if f.revenue.Some? && Positive(f0.revenue) && f.operating.Some? && f0.operating.Some? {
      GrowthOver(f.revenue.value, f0.revenue.value, g.revenue.value, g0.revenue.value, -0.15, 0.25);
      if Positive(f0.operating) {
        GrowthOver(f.operating.value, f0.operating.value, g.operating.value, g0.operating.value, -0.2, 0.3);
      }
    }
  }

  lemma ValuationImproves(a: ScoreInput, b: ScoreInput)
    requires Stronger(a, b)
    ensures Risen(ValuationScore(a), ValuationScore(b))
  {
    var f, g, cap := Now(a), Now(b), MarketOf(a).cap;
    if Positive(cap) {
      if Positive(f.net) { MultipleImproves(cap.value, f.net.value, g.net.value, 8.0, 35.0); }
      if Positive(f.equity) { MultipleImproves(cap.value, f.equity.value, g.equity.value, 0.8, 4.0); }
    }
  }

  lemma LiquidityImproves(a: ScoreInput, b: ScoreInput)
    requires Stronger(a, b)
    ensures Risen(LiquidityScore(a), LiquidityScore(b))
  {
    var p, q := MarketOf(a), MarketOf(b);
    if p.volume.Some? && p.trading.Some? {
      RatioScale(p.volume.value, q.volume.value, 100000.0, 5000000.0);
      RatioScale(p.trading.value, q.trading.value, 5000000000.0, 300000000000.0);
    }
  }

  lemma MomentumImproves(a: ScoreInput, b: ScoreInput)
    requires Stronger(a, b)
    ensures Risen(MomentumVolatilityScore(a), MomentumVolatilityScore(b))
  {
    var p, q := MarketOf(a), MarketOf(b);
    if p.momentum.Some? && p.volatility.Some? {
      RatioScale(p.momentum.value, q.momentum.value, -0.1, 0.15);
      InverseScale(q.volatility.value, p.volatility.value, 0.12, 0.55);
    }
  }

  /** At the same revenue and market capitalisation and with the same figures known, a candidate at least as strong in
      every other figure never scores lower and misses no more components, as long as neither profit, equity, assets nor
      a figure of the previous period changes sign. */
  lemma StrongerNeverScoresLower(a: ScoreInput, b: ScoreInput)
    requires Stronger(a, b)
    ensures Score(b).total >= Score(a).total
    ensures Score(b).missing <= Score(a).missing
  {
    var x, y := RawsOf(a), RawsOf(b);
    forall name ensures Risen(x(name), y(name)) {
      match name
      case FinancialStability => StabilityImproves(a, b);
      case Profitability => ProfitabilityImproves(a, b);
      case Growth => GrowthImproves(a, b);
      case Valuation => ValuationImproves(a, b);
      case NewsAttention =>
      case DisclosureEvent =>
      case Liquidity => LiquidityImproves(a, b);
      case MomentumVolatility => MomentumImproves(a, b);
    }
    TotalMonotone(x, y, Penalty(a.risks), Penalty(b.risks));
  }

  // ---- One figure changes ----

  /** The same candidate but for its current books. */
  predicate SameButBooks(a: ScoreInput, b: ScoreInput, books: Books) {
    && Now(b) == books
    && b.previousFinancials == a.previousFinancials
    && MarketOf(b) == MarketOf(a)
    && b.evidence == a.evidence
    && b.risks == a.risks
  }

  /** What is displayed of a total before rounding. */
  function Displayed(x: real): real {
    Clamp(Round1(x), 0.0, 100.0)
  }

  function Net(input: ScoreInput): real {
    RawTotal(RawsOf(input)) - Penalty(input.risks)
  }

  /** The total before rounding and before the penalty changes by so much. */
  ghost predicate Moves(a: ScoreInput, b: ScoreInput, change: real) {
    RawTotal(RawsOf(b)) == RawTotal(RawsOf(a)) + change
  }

  lemma TotalOfScore(input: ScoreInput, raws: Raws, penalty: real)
    requires raws == RawsOf(input) && penalty == Penalty(input.risks)
    ensures Score(input).total == Total(raws, penalty)
  {}

  lemma TotalOfNet(raws: Raws, penalty: real, net: real)
    requires net == RawTotal(raws) - penalty
    ensures Total(raws, penalty) == Displayed(net)
  {}

  lemma ScoreTotal(input: ScoreInput, raws: Raws, penalty: real, net: real)
    requires raws == RawsOf(input) && penalty == Penalty(input.risks) && net == RawTotal(raws) - penalty
    ensures Score(input).total == Displayed(net)
  {
    TotalOfScore(input, raws, penalty);
    TotalOfNet(raws, penalty, net);
  }

  lemma Shown(input: ScoreInput, net: real)
    requires net == Net(input)
    ensures Score(input).total == Displayed(net)
  {
    ScoreTotal(input, RawsOf(input), Penalty(input.risks), net);
  }

  lemma NetMoves(a: ScoreInput, b: ScoreInput, change: real)
    requires Moves(a, b, change) && b.risks == a.risks
    ensures Net(b) == Net(a) + change
  {}

  /** What a change of the total does to the score that is shown: it is the changed total, rounded to a tenth and kept
      within 0 and 100. */
  lemma MovesShow(a: ScoreInput, b: ScoreInput, change: real, before: real, after: real)
    requires Moves(a, b, change) && b.risks == a.risks && before == Net(a) && after == before + change
    ensures Score(a).total == Displayed(before) && Score(b).total == Displayed(after)
  {
    NetMoves(a, b, change);
    Shown(a, before);
    Shown(b, after);
  }

  /** The score shown falls, in terms of the total before and of its change. */
  ghost predicate ShownFalls(a: ScoreInput, change: real) {
    Displayed(Net(a) + change) < Displayed(Net(a))
  }

  /** So it falls exactly if rounding and bounding leave a fall, for which the change must be negative. */
  lemma FallIsExact(a: ScoreInput, b: ScoreInput, change: real)
    requires Moves(a, b, change) && b.risks == a.risks
    ensures Score(b).total < Score(a).total <==> ShownFalls(a, change)
    ensures Score(b).total < Score(a).total ==> change < 0.0
  {
    FallBetween(a, b, change, Net(a), Net(a) + change);
  }

  lemma FallBetween(a: ScoreInput, b: ScoreInput, change: real, before: real, after: real)
    requires Moves(a, b, change) && b.risks == a.risks && before == Net(a) && after == before + change
    ensures Score(b).total < Score(a).total <==> ShownFalls(a, change)
    ensures Score(b).total < Score(a).total ==> change < 0.0
  {
    MovesShow(a, b, change, before, after);
    FallOf(a, change, before, after, Score(a).total, Score(b).total);
  }

  lemma FallOf(a: ScoreInput, change: real, before: real, after: real, p: real, q: real)
    requires before == Net(a) && after == before + change && p == Displayed(before) && q == Displayed(after)
    ensures q < p <==> ShownFalls(a, change)
    ensures q < p ==> change < 0.0
  {
    DisplayedMonotone(before, after);
  }

  lemma DisplayedMonotone(x: real, y: real)
    ensures x <= y ==> Displayed(x) <= Displayed(y)
  {
    if x <= y { Round1Monotone(x, y); }
  }

  /** A component's share of the total. */
  function Share(raws: Raws, name: Name): real {
    WeightedScore(name, raws(name))
  }

  /** How much a component's share of the total differs. */
  function ShareChange(a: ScoreInput, b: ScoreInput, name: Name): real {
    Share(RawsOf(b), name) - Share(RawsOf(a), name)
  }

  /** News, disclosures, momentum and risks are the same. */
  predicate RestKept(a: ScoreInput, b: ScoreInput) {
    && RawsOf(b)(NewsAttention) == RawsOf(a)(NewsAttention)
    && RawsOf(b)(DisclosureEvent) == RawsOf(a)(DisclosureEvent)
    && RawsOf(b)(MomentumVolatility) == RawsOf(a)(MomentumVolatility)
    && b.risks == a.risks
  }

  /** When three components keep their scores, the total changes by what the other five change. */
  lemma TotalChange(x: Raws, y: Raws)
    requires x(NewsAttention) == y(NewsAttention) && x(DisclosureEvent) == y(DisclosureEvent)
    requires x(MomentumVolatility) == y(MomentumVolatility)
    ensures RawTotal(y) - RawTotal(x)
         == Share(y, FinancialStability) - Share(x, FinancialStability)
            + Share(y, Profitability) - Share(x, Profitability)
            + Share(y, Growth) - Share(x, Growth) + Share(y, Valuation) - Share(x, Valuation)
            + Share(y, Liquidity) - Share(x, Liquidity)
  {}

  lemma MovesByShares(
      a: ScoreInput, b: ScoreInput, stability: real,
      profitability: real, growth: real, valuation: real, liquidity: real)
    requires RestKept(a, b)
    requires ShareChange(a, b, FinancialStability) == stability && ShareChange(a, b, Profitability) == profitability
    requires ShareChange(a, b, Growth) == growth && ShareChange(a, b, Valuation) == valuation
    requires ShareChange(a, b, Liquidity) == liquidity
    ensures Moves(a, b, stability + profitability + growth + valuation + liquidity)
  {
    TotalChange(RawsOf(a), RawsOf(b));
  }

  // ---- Fewer assets ----

  function DebtScore(f: Books): real
    requires f.liabilities.Some? && Positive(f.equity)
  {
    InverseRatioScore(f.liabilities.value / f.equity.value, 0.4, 1.8)
  }

  function EquityShareScore(f: Books): real
    requires Positive(f.equity) && Positive(f.assets)
  {
    RatioScore(f.equity.value / f.assets.value, 0.2, 0.7)
  }

  /** The financial stability in these terms, 0 when there is none. */
  function StabilityAt(f: Books): real {
    if f.liabilities.None? || !Positive(f.equity) then 0.0
    else if Positive(f.assets) then DebtScore(f) * 0.65 + EquityShareScore(f) * 0.35
    else DebtScore(f)
  }

  lemma StabilityRange(f: Books)
    ensures if f.liabilities.None? || !Positive(f.equity) then StabilityAt(f) == 0.0 else 30.0 <= StabilityAt(f) <= 90.0
  {}

  lemma StabilityShare(a: ScoreInput)
    ensures Share(RawsOf(a), FinancialStability) == StabilityAt(Now(a)) * 0.2
  {
    var f, score := Now(a), FinancialStabilityScore(a);
    StabilityRange(f);
    assert score == if f.liabilities.None? || !Positive(f.equity) then None else Some(StabilityAt(f));
  }

  predicate FewerAssets(a: ScoreInput, b: ScoreInput, assets: real) {
    && Now(a).assets.Some? && assets <= Now(a).assets.value
    && SameButBooks(a, b, Now(a).(assets := Some(assets)))
  }

  function AssetsChange(a: ScoreInput, assets: real): real {
    (StabilityAt(Now(a).(assets := Some(assets))) - StabilityAt(Now(a))) * 0.2
  }

  /** Fewer assets move financial stability alone. They lower the total before rounding if and only if they are no
      longer positive, so that the equity's share in them is not counted any more, and that share scored above the
      debt. */
  lemma FewerAssetsIsExact(a: ScoreInput, b: ScoreInput, assets: real)
    requires FewerAssets(a, b, assets)
    ensures Moves(a, b, AssetsChange(a, assets))
    ensures Score(b).total < Score(a).total <==> ShownFalls(a, AssetsChange(a, assets))
    ensures RawTotal(RawsOf(b)) < RawTotal(RawsOf(a))
       <==> && Now(a).liabilities.Some? && Positive(Now(a).equity) && Positive(Now(a).assets) && assets <= 0.0
            && EquityShareScore(Now(a)) > DebtScore(Now(a))
  {
    AssetsOthers(a, b, assets);
    StabilityShare(a);
    StabilityShare(b);
    MovesByShares(a, b, AssetsChange(a, assets), 0.0, 0.0, 0.0, 0.0);
    FallIsExact(a, b, AssetsChange(a, assets));
    AssetsSign(Now(a), assets);
  }

  lemma AssetsSign(f: Books, assets: real)
    requires f.assets.Some? && assets <= f.assets.value
    ensures StabilityAt(f.(assets := Some(assets))) < StabilityAt(f)
       <==> && f.liabilities.Some? && Positive(f.equity) && Positive(f.assets) && assets <= 0.0
            && EquityShareScore(f) > DebtScore(f)
  {
    if Positive(f.equity) && assets > 0.0 {
      EquityShareImproves(f.equity.value, f.assets.value, f.equity.value, assets);
    }
  }

  lemma AssetsOthers(a: ScoreInput, b: ScoreInput, assets: real)
    requires FewerAssets(a, b, assets)
    ensures RestKept(a, b) && ShareChange(a, b, Profitability) == 0.0 && ShareChange(a, b, Growth) == 0.0
    ensures ShareChange(a, b, Valuation) == 0.0 && ShareChange(a, b, Liquidity) == 0.0
  {
    assert RawScore(Profitability, b) == RawScore(Profitability, a);
    assert RawScore(Growth, b) == RawScore(Growth, a);
    assert RawScore(Valuation, b) == RawScore(Valuation, a);
    assert RawScore(Liquidity, b) == RawScore(Liquidity, a);
    AssetsRest(a, b, assets);
  }

  lemma AssetsRest(a: ScoreInput, b: ScoreInput, assets: real)
    requires FewerAssets(a, b, assets)
    ensures RestKept(a, b)
  {}

  // ---- A weaker past ----

  /** The same candidate but for the previous period. */
  predicate SameButPast(a: ScoreInput, b: ScoreInput, books: Books) {
    && Before(b) == books
    && b.financials == a.financials
    && MarketOf(b) == MarketOf(a)
    && b.evidence == a.evidence
    && b.risks == a.risks
  }

  /** Growth is scored: both periods are known and the past revenue was positive. */
  predicate Grows(f: Books, f0: Books) {
    f.revenue.Some? && Positive(f0.revenue) && f.operating.Some? && f0.operating.Some?
  }

  function SalesScore(revenue: real, before: real): real
    requires before > 0.0
  {
    RatioScore((revenue - before) / before, -0.15, 0.25)
  }

  /** The flat score of the income when the past one was not positive. */
  function FlatScore(income: real): real {
    if income > 0.0 then 50.0 else 35.0
  }

  function IncomeScore(income: real, before: real): real {
    if before <= 0.0 then FlatScore(income) else RatioScore((income - before) / before, -0.2, 0.3)
  }

  /** The growth in these terms, 0 when there is none. */
  function GrowthAt(f: Books, f0: Books): real {
    if Grows(f, f0) then
      SalesScore(f.revenue.value, f0.revenue.value) * 0.6 + IncomeScore(f.operating.value, f0.operating.value) * 0.4
    else 0.0
  }

  lemma GrowthRange(f: Books, f0: Books)
    ensures if Grows(f, f0) then 30.0 <= GrowthAt(f, f0) <= 90.0 else GrowthAt(f, f0) == 0.0
  {}

  lemma GrowthShare(a: ScoreInput)
    ensures Share(RawsOf(a), Growth) == GrowthAt(Now(a), Before(a)) * 0.15
  {
    GrowthRange(Now(a), Before(a));
    assert GrowthScore(a) == if Grows(Now(a), Before(a)) then Some(GrowthAt(Now(a), Before(a))) else None;
  }

  function PastChange(a: ScoreInput, books: Books): real {
    (GrowthAt(Now(a), books) - GrowthAt(Now(a), Before(a))) * 0.15
  }

  /** The previous period moves growth alone. */
  lemma PastMoves(a: ScoreInput, b: ScoreInput, books: Books)
    requires SameButPast(a, b, books)
    ensures Moves(a, b, PastChange(a, books))
    ensures Score(b).total < Score(a).total <==> ShownFalls(a, PastChange(a, books))
  {
    PastOthers(a, b, books);
    GrowthShare(a);
    GrowthShare(b);
    MovesByShares(a, b, 0.0, 0.0, PastChange(a, books), 0.0, 0.0);
    FallIsExact(a, b, PastChange(a, books));
  }

  lemma PastOthers(a: ScoreInput, b: ScoreInput, books: Books)
    requires SameButPast(a, b, books)
    ensures RestKept(a, b) && ShareChange(a, b, FinancialStability) == 0.0
    ensures ShareChange(a, b, Profitability) == 0.0
    ensures ShareChange(a, b, Valuation) == 0.0 && ShareChange(a, b, Liquidity) == 0.0
  {
    assert RawScore(FinancialStability, b) == RawScore(FinancialStability, a);
    assert RawScore(Profitability, b) == RawScore(Profitability, a);
    assert RawScore(Valuation, b) == RawScore(Valuation, a);
    assert RawScore(Liquidity, b) == RawScore(Liquidity, a);
    PastRest(a, b, books);
  }

  lemma PastRest(a: ScoreInput, b: ScoreInput, books: Books)
    requires SameButPast(a, b, books)
    ensures RestKept(a, b)
  {}

  /** `b` is `a` with a lower operating income a year before. */
  predicate LowerPastIncome(a: ScoreInput, b: ScoreInput, before: real) {
    && Before(a).operating.Some? && before <= Before(a).operating.value
    && SameButPast(a, b, Before(a).(operating := Some(before)))
  }

  /** A lower past income is easier to beat, but one that is no longer positive counts as flat growth: it lowers the
      total before rounding if and only if growth was scored and the income scored above the flat 50, or 35 for a
      present loss. */
  lemma LowerPastIncomeIsExact(a: ScoreInput, b: ScoreInput, before: real)
    requires LowerPastIncome(a, b, before)
    ensures Moves(a, b, PastChange(a, Before(a).(operating := Some(before))))
    ensures Score(b).total < Score(a).total <==> ShownFalls(a, PastChange(a, Before(a).(operating := Some(before))))
    ensures RawTotal(RawsOf(b)) < RawTotal(RawsOf(a))
       <==> && Grows(Now(a), Before(a)) && Positive(Before(a).operating) && before <= 0.0
            && IncomeScore(Now(a).operating.value, Before(a).operating.value) > FlatScore(Now(a).operating.value)
  {
    PastMoves(a, b, Before(a).(operating := Some(before)));
    PastIncomeSign(Now(a), Before(a), before);
  }

  lemma PastIncomeSign(f: Books, f0: Books, before: real)
    requires f0.operating.Some? && before <= f0.operating.value
    ensures GrowthAt(f, f0.(operating := Some(before))) < GrowthAt(f, f0)
       <==> && Grows(f, f0) && Positive(f0.operating) && before <= 0.0
            && IncomeScore(f.operating.value, f0.operating.value) > FlatScore(f.operating.value)
  {
    if Grows(f, f0) && before > 0.0 {
      GrowthOver(f.operating.value, f0.operating.value, f.operating.value, before, -0.2, 0.3);
    }
  }

  /** `b` is `a` with a lower revenue a year before. */
  predicate LowerPastRevenue(a: ScoreInput, b: ScoreInput, before: real) {
    && Before(a).revenue.Some? && before <= Before(a).revenue.value
    && SameButPast(a, b, Before(a).(revenue := Some(before)))
  }

  /** A lower past revenue is easier to beat, but without a positive one growth is not scored: it lowers the total
      before rounding if and only if growth was scored and is not any more. */
  lemma LowerPastRevenueIsExact(a: ScoreInput, b: ScoreInput, before: real)
    requires LowerPastRevenue(a, b, before)
    ensures Moves(a, b, PastChange(a, Before(a).(revenue := Some(before))))
    ensures Score(b).total < Score(a).total <==> ShownFalls(a, PastChange(a, Before(a).(revenue := Some(before))))
    ensures RawTotal(RawsOf(b)) < RawTotal(RawsOf(a)) <==> Grows(Now(a), Before(a)) && before <= 0.0
  {
    PastMoves(a, b, Before(a).(revenue := Some(before)));
    PastRevenueSign(Now(a), Before(a), before);
  }

  lemma PastRevenueSign(f: Books, f0: Books, before: real)
    requires f0.revenue.Some? && before <= f0.revenue.value
    ensures GrowthAt(f, f0.(revenue := Some(before))) < GrowthAt(f, f0) <==> Grows(f, f0) && before <= 0.0
  {
    GrowthRange(f, f0);
    if Grows(f, f0) && before > 0.0 {
      GrowthOver(f.revenue.value, f0.revenue.value, f.revenue.value, before, -0.15, 0.25);
    }
  }

  // ---- A loss that turns into a profit ----

  function PriceEarnings(cap: real, net: real): real
    requires net > 0.0
  {
    InverseRatioScore(cap / net, 8.0, 35.0)
  }

  function PriceBook(cap: real, equity: real): real
    requires equity > 0.0
  {
    InverseRatioScore(cap / equity, 0.8, 4.0)
  }

  /** The valuation at a market capitalisation: the score of the earnings, of the book, or their mean. */
  function ValuedAt(f: Books, cap: real): real {
    if Positive(f.net) && Positive(f.equity) then
      (PriceEarnings(cap, f.net.value) + PriceBook(cap, f.equity.value)) / 2.0
    else if Positive(f.net) then PriceEarnings(cap, f.net.value)
    else if Positive(f.equity) then PriceBook(cap, f.equity.value)
    else 0.0
  }

  /** The valuation, in these terms; none without a profit or an equity to compare with. */
  function ValuationOf(f: Books, cap: Option<real>): Option<real> {
    if Positive(cap) && (Positive(f.net) || Positive(f.equity)) then Some(ValuedAt(f, cap.value)) else None
  }

  lemma ValuationAt(a: ScoreInput)
    ensures ValuationScore(a) == ValuationOf(Now(a), MarketOf(a).cap)
  {}

  lemma ValuationShare(a: ScoreInput, v: Option<real>)
    requires v == ValuationOf(Now(a), MarketOf(a).cap)
    ensures Share(RawsOf(a), Valuation) == if v.Some? then v.value * 0.1 else 0.0
  {
    ValuationAt(a);
    RatioComponentRange(Valuation, a);
  }

  /** `b` is `a` with a net income that was not positive and now is. */
  predicate FirstProfit(a: ScoreInput, b: ScoreInput, profit: real) {
    && Now(a).net.Some? && Now(a).net.value <= 0.0 && profit > 0.0
    && SameButBooks(a, b, Now(a).(net := Some(profit)))
  }

  predicate Falls(before: Option<real>, after: Option<real>) {
    before.Some? && (after.None? || after.value < before.value)
  }

  /** What a first profit brings into the valuation: a price-earnings score, averaged with the price-book score if there
      is one. */
  function ProfitToValuation(f: Books, cap: Option<real>, profit: real): real
    requires profit > 0.0
  {
    if !Positive(cap) then 0.0
    else if Positive(f.equity) then (PriceEarnings(cap.value, profit) - PriceBook(cap.value, f.equity.value)) / 2.0
    else PriceEarnings(cap.value, profit)
  }

  /** What it brings into profitability: its share of the net margin. */
  function ProfitToMargin(a: ScoreInput, profit: real): real {
    var f := Now(a);
    if !Positive(f.revenue) || f.operating.None? || f.net.None? then 0.0
    else
      (RatioScore(profit / f.revenue.value, -0.05, 0.15)
       - RatioScore(f.net.value / f.revenue.value, -0.05, 0.15)) * 0.35
  }

  /** The valuation falls if and only if there was a price-book score alone and the new price-earnings score is below
      it. */
  lemma FirstProfitValuation(a: ScoreInput, b: ScoreInput, profit: real)
    requires FirstProfit(a, b, profit)
    ensures Falls(ValuationScore(a), ValuationScore(b))
       <==> && Positive(MarketOf(a).cap) && Positive(Now(a).equity)
            && PriceEarnings(MarketOf(a).cap.value, profit) < PriceBook(MarketOf(a).cap.value, Now(a).equity.value)
    ensures ShareChange(a, b, Valuation) == ProfitToValuation(Now(a), MarketOf(a).cap, profit) * 0.1
  {
    ValuationAt(a);
    ValuationAt(b);
    ValuationShare(a, ValuationOf(Now(a), MarketOf(a).cap));
    ValuationShare(b, ValuationOf(Now(b), MarketOf(b).cap));
    FirstProfitValued(Now(a), MarketOf(a).cap, profit);
  }

  lemma FirstProfitValued(f: Books, cap: Option<real>, profit: real)
    requires f.net.Some? && f.net.value <= 0.0 && profit > 0.0
    ensures var x, y := ValuationOf(f, cap), ValuationOf(f.(net := Some(profit)), cap);
            && (x.Some? ==> y.Some?)
            && (if y.Some? then y.value else 0.0) - (if x.Some? then x.value else 0.0)
               == ProfitToValuation(f, cap, profit)
  {}

  lemma FirstProfitMargin(a: ScoreInput, b: ScoreInput, profit: real)
    requires FirstProfit(a, b, profit)
    ensures ShareChange(a, b, Profitability) == ProfitToMargin(a, profit) * 0.15
    ensures ProfitToMargin(a, profit) >= 0.0
  {
    var f := Now(a);
    if Positive(f.revenue) && f.operating.Some? { MarginImproves(f.net.value, profit, f.revenue.value, 0.15); }
  }

  function ProfitChange(a: ScoreInput, profit: real): real
    requires profit > 0.0
  {
    ProfitToMargin(a, profit) * 0.15 + ProfitToValuation(Now(a), MarketOf(a).cap, profit) * 0.1
  }

  lemma FirstProfitMoves(a: ScoreInput, b: ScoreInput, profit: real)
    requires FirstProfit(a, b, profit)
    ensures Moves(a, b, ProfitChange(a, profit))
  {
    FirstProfitOthers(a, b, profit);
    FirstProfitValuation(a, b, profit);
    FirstProfitMargin(a, b, profit);
    var margin, valuation := ProfitToMargin(a, profit), ProfitToValuation(Now(a), MarketOf(a).cap, profit);
    MovesByShares(a, b, 0.0, margin * 0.15, 0.0, valuation * 0.1, 0.0);
  }

  /** A first profit moves the total by exactly this much. Before rounding it lowers it if and only if the new
      price-earnings score joins a price-book score that exceeds it by more than 1.05 times the gain of the margin
      score. */
  lemma FirstProfitIsExact(a: ScoreInput, b: ScoreInput, profit: real)
    requires FirstProfit(a, b, profit)
    ensures Moves(a, b, ProfitChange(a, profit))
    ensures Score(b).total < Score(a).total <==> ShownFalls(a, ProfitChange(a, profit))
    ensures RawTotal(RawsOf(b)) < RawTotal(RawsOf(a))
       <==> && Positive(MarketOf(a).cap) && Positive(Now(a).equity)
            && PriceBook(MarketOf(a).cap.value, Now(a).equity.value) - PriceEarnings(MarketOf(a).cap.value, profit)
               > 3.0 * ProfitToMargin(a, profit)
  {
    FirstProfitMoves(a, b, profit);
    FallIsExact(a, b, ProfitChange(a, profit));
    FirstProfitMargin(a, b, profit);
    FirstProfitSign(a, profit);
  }

  lemma FirstProfitOthers(a: ScoreInput, b: ScoreInput, profit: real)
    requires FirstProfit(a, b, profit)
    ensures RestKept(a, b) && ShareChange(a, b, FinancialStability) == 0.0
    ensures ShareChange(a, b, Growth) == 0.0 && ShareChange(a, b, Liquidity) == 0.0
  {
    FirstProfitRest(a, b, profit);
    assert RawScore(FinancialStability, b) == RawScore(FinancialStability, a);
    assert RawScore(Growth, b) == RawScore(Growth, a);
    assert RawScore(Liquidity, b) == RawScore(Liquidity, a);
  }

  lemma FirstProfitRest(a: ScoreInput, b: ScoreInput, profit: real)
    requires FirstProfit(a, b, profit)
    ensures RestKept(a, b)
  {}

  lemma FirstProfitSign(a: ScoreInput, profit: real)
    requires profit > 0.0 && ProfitToMargin(a, profit) >= 0.0
    ensures ProfitChange(a, profit) < 0.0
       <==> && Positive(MarketOf(a).cap) && Positive(Now(a).equity)
            && PriceBook(MarketOf(a).cap.value, Now(a).equity.value) - PriceEarnings(MarketOf(a).cap.value, profit)
               > 3.0 * ProfitToMargin(a, profit)
  {}

  // ---- An equity that turns positive ----

  predicate FirstEquity(a: ScoreInput, b: ScoreInput, equity: real) {
    && Now(a).equity.Some? && Now(a).equity.value <= 0.0 && equity > 0.0
    && SameButBooks(a, b, Now(a).(equity := Some(equity)))
  }

  function EquityToValuation(f: Books, cap: Option<real>, equity: real): real
    requires equity > 0.0
  {
    if !Positive(cap) then 0.0
    else if Positive(f.net) then (PriceBook(cap.value, equity) - PriceEarnings(cap.value, f.net.value)) / 2.0
    else PriceBook(cap.value, equity)
  }

  lemma FirstEquityValuation(a: ScoreInput, b: ScoreInput, equity: real)
    requires FirstEquity(a, b, equity)
    ensures Falls(ValuationScore(a), ValuationScore(b))
       <==> && Positive(MarketOf(a).cap) && Positive(Now(a).net)
            && PriceBook(MarketOf(a).cap.value, equity) < PriceEarnings(MarketOf(a).cap.value, Now(a).net.value)
    ensures ShareChange(a, b, Valuation) == EquityToValuation(Now(a), MarketOf(a).cap, equity) * 0.1
    ensures EquityToValuation(Now(a), MarketOf(a).cap, equity) >= -30.0
  {
    ValuationAt(a);
    ValuationAt(b);
    ValuationShare(a, ValuationOf(Now(a), MarketOf(a).cap));
    ValuationShare(b, ValuationOf(Now(b), MarketOf(b).cap));
    FirstEquityValued(Now(a), MarketOf(a).cap, equity);
  }

  lemma FirstEquityValued(f: Books, cap: Option<real>, equity: real)
    requires f.equity.Some? && f.equity.value <= 0.0 && equity > 0.0
    ensures var x, y := ValuationOf(f, cap), ValuationOf(f.(equity := Some(equity)), cap);
            && (x.Some? ==> y.Some?)
            && (if y.Some? then y.value else 0.0) - (if x.Some? then x.value else 0.0)
               == EquityToValuation(f, cap, equity)
  {}

  /** The stability that appears, if the liabilities are known, and what valuation gains or loses. */
  function EquityChange(a: ScoreInput, equity: real): real
    requires equity > 0.0
  {
    StabilityAt(Now(a).(equity := Some(equity))) * 0.2 + EquityToValuation(Now(a), MarketOf(a).cap, equity) * 0.1
  }

  lemma FirstEquityMoves(a: ScoreInput, b: ScoreInput, equity: real)
    requires FirstEquity(a, b, equity)
    ensures Moves(a, b, EquityChange(a, equity))
  {
    FirstEquityOthers(a, b, equity);
    FirstEquityStability(a, b, equity);
    FirstEquityValuation(a, b, equity);
    var valuation := EquityToValuation(Now(a), MarketOf(a).cap, equity);
    MovesByShares(a, b, StabilityAt(Now(b)) * 0.2, 0.0, 0.0, valuation * 0.1, 0.0);
  }

  /** A first positive equity moves the total by the financial-stability component that appears and by its price-book
      score. With liabilities known the component outweighs any fall of the valuation; without them the total before
      rounding falls if and only if the price-book score joins a price-earnings score above it. */
  lemma FirstEquityIsExact(a: ScoreInput, b: ScoreInput, equity: real)
    requires FirstEquity(a, b, equity)
    ensures Moves(a, b, EquityChange(a, equity))
    ensures Score(b).total < Score(a).total <==> ShownFalls(a, EquityChange(a, equity))
    ensures RawTotal(RawsOf(b)) < RawTotal(RawsOf(a))
       <==> && Now(a).liabilities.None? && Positive(MarketOf(a).cap) && Positive(Now(a).net)
            && PriceBook(MarketOf(a).cap.value, equity) < PriceEarnings(MarketOf(a).cap.value, Now(a).net.value)
  {
    FirstEquityMoves(a, b, equity);
    FallIsExact(a, b, EquityChange(a, equity));
    FirstEquityStability(a, b, equity);
    FirstEquityValuation(a, b, equity);
    FirstEquitySign(a, equity);
  }

  lemma FirstEquityOthers(a: ScoreInput, b: ScoreInput, equity: real)
    requires FirstEquity(a, b, equity)
    ensures RestKept(a, b) && ShareChange(a, b, Profitability) == 0.0
    ensures ShareChange(a, b, Growth) == 0.0 && ShareChange(a, b, Liquidity) == 0.0
  {
    FirstEquityRest(a, b, equity);
    assert RawScore(Profitability, b) == RawScore(Profitability, a);
    assert RawScore(Growth, b) == RawScore(Growth, a);
    assert RawScore(Liquidity, b) == RawScore(Liquidity, a);
  }

  lemma FirstEquityRest(a: ScoreInput, b: ScoreInput, equity: real)
    requires FirstEquity(a, b, equity)
    ensures RestKept(a, b)
  {}

  lemma FirstEquityStability(a: ScoreInput, b: ScoreInput, equity: real)
    requires FirstEquity(a, b, equity)
    ensures ShareChange(a, b, FinancialStability) == StabilityAt(Now(b)) * 0.2
    ensures Now(a).liabilities.Some? ==> StabilityAt(Now(b)) >= 30.0
    ensures Now(a).liabilities.None? ==> StabilityAt(Now(b)) == 0.0
  {
    StabilityShare(a);
    StabilityShare(b);
    StabilityRange(Now(b));
  }

  lemma FirstEquitySign(a: ScoreInput, equity: real)
    requires equity > 0.0
    ensures EquityToValuation(Now(a), MarketOf(a).cap, equity) < 0.0
       <==> && Positive(MarketOf(a).cap) && Positive(Now(a).net)
            && PriceBook(MarketOf(a).cap.value, equity) < PriceEarnings(MarketOf(a).cap.value, Now(a).net.value)
  {}

  // ---- Revenue ----

  predicate MoreRevenue(a: ScoreInput, b: ScoreInput, revenue: real) {
    && Now(a).revenue.Some? && revenue >= Now(a).revenue.value
    && SameButBooks(a, b, Now(a).(revenue := Some(revenue)))
  }

  /** The profitability at a revenue, 0 when there is none. */
  function MarginsAt(f: Books, revenue: real): real {
    if revenue <= 0.0 || f.operating.None? then 0.0
    else
      var margin := RatioScore(f.operating.value / revenue, -0.05, 0.2);
      if f.net.None? then margin else margin * 0.65 + RatioScore(f.net.value / revenue, -0.05, 0.15) * 0.35
  }

  /** What a revenue brings into growth. */
  function SalesAt(f: Books, f0: Books, revenue: real): real {
    if Grows(f, f0) then SalesScore(revenue, f0.revenue.value) * 0.6 else 0.0
  }

  function RevenueChange(a: ScoreInput, revenue: real): real
    requires Now(a).revenue.Some?
  {
    var f, f0, was := Now(a), Before(a), Now(a).revenue.value;
    (MarginsAt(f, revenue) - MarginsAt(f, was)) * 0.15 + (SalesAt(f, f0, revenue) - SalesAt(f, f0, was)) * 0.15
  }

  lemma MarginsShare(a: ScoreInput, revenue: real)
    requires Now(a).revenue == Some(revenue)
    ensures Share(RawsOf(a), Profitability) == MarginsAt(Now(a), revenue) * 0.15
  {
    RatioComponentRange(Profitability, a);
  }

  lemma ProfitabilityOfRevenue(a: ScoreInput, b: ScoreInput, revenue: real)
    requires MoreRevenue(a, b, revenue)
    ensures ShareChange(a, b, Profitability)
         == (MarginsAt(Now(a), revenue) - MarginsAt(Now(a), Now(a).revenue.value)) * 0.15
  {
    MarginsShare(a, Now(a).revenue.value);
    MarginsShare(b, revenue);
    assert MarginsAt(Now(b), revenue) == MarginsAt(Now(a), revenue);
  }

  lemma GrowthOfRevenue(a: ScoreInput, b: ScoreInput, revenue: real)
    requires MoreRevenue(a, b, revenue)
    ensures ShareChange(a, b, Growth)
         == (SalesAt(Now(a), Before(a), revenue) - SalesAt(Now(a), Before(a), Now(a).revenue.value)) * 0.15
  {
    GrowthShare(a);
    GrowthShare(b);
  }

  /** More revenue at the same income moves profitability and growth alone: before rounding it lowers the total if and
      only if the margins lose more than the sales growth gains, which a first positive revenue never does. */
  lemma MoreRevenueIsExact(a: ScoreInput, b: ScoreInput, revenue: real)
    requires MoreRevenue(a, b, revenue)
    ensures Moves(a, b, RevenueChange(a, revenue))
    ensures Score(b).total < Score(a).total <==> ShownFalls(a, RevenueChange(a, revenue))
    ensures var f, f0, was := Now(a), Before(a), Now(a).revenue.value;
            && (RawTotal(RawsOf(b)) < RawTotal(RawsOf(a))) ==
               (MarginsAt(f, was) - MarginsAt(f, revenue) > SalesAt(f, f0, revenue) - SalesAt(f, f0, was))
            && (RawTotal(RawsOf(b)) < RawTotal(RawsOf(a)) ==> was > 0.0)
  {
    MoreRevenueMoves(a, b, revenue);
    FallIsExact(a, b, RevenueChange(a, revenue));
    SalesGrow(Now(a), Before(a), Now(a).revenue.value, revenue);
  }

  lemma SalesGrow(f: Books, f0: Books, was: real, revenue: real)
    requires was <= revenue
    ensures SalesAt(f, f0, was) <= SalesAt(f, f0, revenue)
  {
    if Grows(f, f0) {
      var before := f0.revenue.value;
      QuotientMonotone(was - before, revenue - before, before);
      RatioScale((was - before) / before, (revenue - before) / before, -0.15, 0.25);
    }
  }

  lemma MoreRevenueMoves(a: ScoreInput, b: ScoreInput, revenue: real)
    requires MoreRevenue(a, b, revenue)
    ensures Moves(a, b, RevenueChange(a, revenue))
  {
    RevenueOthers(a, b, revenue);
    ProfitabilityOfRevenue(a, b, revenue);
    GrowthOfRevenue(a, b, revenue);
    var f, f0, was := Now(a), Before(a), Now(a).revenue.value;
    var margins, sales := MarginsAt(f, revenue) - MarginsAt(f, was), SalesAt(f, f0, revenue) - SalesAt(f, f0, was);
    MovesByShares(a, b, 0.0, margins * 0.15, sales * 0.15, 0.0, 0.0);
  }

  lemma RevenueOthers(a: ScoreInput, b: ScoreInput, revenue: real)
    requires MoreRevenue(a, b, revenue)
    ensures RestKept(a, b) && ShareChange(a, b, FinancialStability) == 0.0
    ensures ShareChange(a, b, Valuation) == 0.0 && ShareChange(a, b, Liquidity) == 0.0
  {
    RevenueRest(a, b, revenue);
    RevenueNotValued(a, b, revenue);
    assert RawScore(FinancialStability, b) == RawScore(FinancialStability, a);
    assert RawScore(Liquidity, b) == RawScore(Liquidity, a);
  }

  lemma RevenueNotValued(a: ScoreInput, b: ScoreInput, revenue: real)
    requires MoreRevenue(a, b, revenue)
    ensures RawScore(Valuation, b) == RawScore(Valuation, a)
  {}

  lemma RevenueRest(a: ScoreInput, b: ScoreInput, revenue: real)
    requires MoreRevenue(a, b, revenue)
    ensures RestKept(a, b)
  {}

  // ---- Market capitalisation ----

  predicate LargerCap(a: ScoreInput, b: ScoreInput, cap: real) {
    && MarketOf(a).cap.Some? && cap >= MarketOf(a).cap.value
    && MarketOf(b) == MarketOf(a).(cap := Some(cap))
    && b.financials == a.financials && b.previousFinancials == a.previousFinancials
    && b.evidence == a.evidence && b.risks == a.risks
  }

  /** The valuation at a market capitalisation, 0 when there is none. */
  function WorthAt(f: Books, cap: real): real {
    if cap > 0.0 then ValuedAt(f, cap) else 0.0
  }

  /** What the market capitalisation adds to liquidity. */
  function SizeShare(p: Market, cap: real): real {
    if p.volume.None? || p.trading.None? then 0.0
    else RatioScore(cap, 100000000000.0, 20000000000000.0) * 0.25
  }

  function CapChange(a: ScoreInput, cap: real): real
    requires MarketOf(a).cap.Some?
  {
    var f, p, was := Now(a), MarketOf(a), MarketOf(a).cap.value;
    (WorthAt(f, cap) - WorthAt(f, was)) * 0.1 + (SizeShare(p, cap) - SizeShare(p, was)) * 0.1
  }

  lemma CapValuation(a: ScoreInput, b: ScoreInput, cap: real)
    requires LargerCap(a, b, cap)
    ensures ShareChange(a, b, Valuation) == (WorthAt(Now(a), cap) - WorthAt(Now(a), MarketOf(a).cap.value)) * 0.1
  {
    ValuationShare(a, ValuationOf(Now(a), MarketOf(a).cap));
    ValuationShare(b, ValuationOf(Now(b), MarketOf(b).cap));
  }

  lemma LiquidityOfCap(a: ScoreInput, b: ScoreInput, cap: real)
    requires LargerCap(a, b, cap)
    ensures ShareChange(a, b, Liquidity)
         == (SizeShare(MarketOf(a), cap) - SizeShare(MarketOf(a), MarketOf(a).cap.value)) * 0.1
  {
    RatioComponentRange(Liquidity, a);
    RatioComponentRange(Liquidity, b);
  }

  /** A larger market capitalisation moves valuation and liquidity alone: before rounding it lowers the total if and
      only if the valuation loses more than the liquidity gains, which a first positive capitalisation never does. */
  lemma LargerCapIsExact(a: ScoreInput, b: ScoreInput, cap: real)
    requires LargerCap(a, b, cap)
    ensures Moves(a, b, CapChange(a, cap))
    ensures Score(b).total < Score(a).total <==> ShownFalls(a, CapChange(a, cap))
    ensures var f, p, was := Now(a), MarketOf(a), MarketOf(a).cap.value;
            && (RawTotal(RawsOf(b)) < RawTotal(RawsOf(a))) ==
               (WorthAt(f, was) - WorthAt(f, cap) > SizeShare(p, cap) - SizeShare(p, was))
            && (RawTotal(RawsOf(b)) < RawTotal(RawsOf(a)) ==> was > 0.0)
  {
    CapMoves(a, b, cap);
    FallIsExact(a, b, CapChange(a, cap));
    var was := MarketOf(a).cap.value;
    RatioScale(was, cap, 100000000000.0, 20000000000000.0);
    WorthRange(Now(a), cap);
  }

  lemma WorthRange(f: Books, cap: real)
    ensures 0.0 <= WorthAt(f, cap) <= 90.0
  {}

  lemma CapMoves(a: ScoreInput, b: ScoreInput, cap: real)
    requires LargerCap(a, b, cap)
    ensures Moves(a, b, CapChange(a, cap))
  {
    var f, p, was := Now(a), MarketOf(a), MarketOf(a).cap.value;
    CapOthers(a, b, cap);
    CapValuation(a, b, cap);
    LiquidityOfCap(a, b, cap);
    var valuation, liquidity := WorthAt(f, cap) - WorthAt(f, was), SizeShare(p, cap) - SizeShare(p, was);
    MovesByShares(a, b, 0.0, 0.0, 0.0, valuation * 0.1, liquidity * 0.1);
  }

  lemma CapOthers(a: ScoreInput, b: ScoreInput, cap: real)
    requires LargerCap(a, b, cap)
    ensures RestKept(a, b) && ShareChange(a, b, FinancialStability) == 0.0
    ensures ShareChange(a, b, Profitability) == 0.0 && ShareChange(a, b, Growth) == 0.0
  {
    CapRest(a, b, cap);
    assert RawScore(FinancialStability, b) == RawScore(FinancialStability, a);
    assert RawScore(Profitability, b) == RawScore(Profitability, a);
    assert RawScore(Growth, b) == RawScore(Growth, a);
  }

  lemma CapRest(a: ScoreInput, b: ScoreInput, cap: real)
    requires LargerCap(a, b, cap)
    ensures RestKept(a, b)
  {}

  // ---- Trading ----

  /** The same candidate but for its volume, trading value, momentum and volatility, all known before and after. */
  predicate OtherTrading(a: ScoreInput, b: ScoreInput) {
    var p, q := MarketOf(a), MarketOf(b);
    && q.cap == p.cap
    && p.volume.Some? && q.volume.Some? && p.trading.Some? && q.trading.Some?
    && p.momentum.Some? && q.momentum.Some? && p.volatility.Some? && q.volatility.Some?
    && b.financials == a.financials && b.previousFinancials == a.previousFinancials
    && b.evidence == a.evidence && b.risks == a.risks
  }

  /** Where a figure stands on its scale: 0 at the weak end or below, 1 at the excellent end or above. */
  function Standing(x: real, weak: real, excellent: real): real
    requires weak != excellent
  {
    Clamp((x - weak) / (excellent - weak), 0.0, 1.0)
  }

  lemma StandingScore(x: real, weak: real, excellent: real)
    requires weak != excellent
    ensures weak < excellent ==> RatioScore(x, weak, excellent) == 30.0 + 60.0 * Standing(x, weak, excellent)
    ensures weak > excellent ==> InverseRatioScore(x, excellent, weak) == 30.0 + 60.0 * Standing(x, weak, excellent)
  {
    var d := excellent - weak;
    assert (x - weak) / d == (weak - x) / -d by { NegatedQuotient(x - weak, d); }
  }

  lemma NegatedQuotient(x: real, d: real)
    requires d != 0.0
    ensures x / d == -x / -d
  {
    var q := x / d;
    assert q * d == x && q * -d == -x;
  }

  /** Points of the total for a whole scale: 6 for the two halves of momentum and volatility together, 6 for liquidity,
      of which a known market capitalisation takes a quarter. */
  function TradingPoints(p: Market): real
    requires p.volume.Some? && p.trading.Some? && p.momentum.Some? && p.volatility.Some?
  {
    var volume := Standing(p.volume.value, 100000.0, 5000000.0);
    var trading := Standing(p.trading.value, 5000000000.0, 300000000000.0);
    (if p.cap.None? then volume * 2.7 + trading * 3.3 else volume * 1.8 + trading * 2.7)
    + Standing(p.momentum.value, -0.1, 0.15) * 3.3 + Standing(p.volatility.value, 0.55, 0.12) * 2.7
  }

  /** How much the total changes with volume, trading value, momentum and volatility, each by its points per scale. */
  lemma TradingIsExact(a: ScoreInput, b: ScoreInput, change: real)
    requires OtherTrading(a, b) && change == TradingPoints(MarketOf(b)) - TradingPoints(MarketOf(a))
    ensures Moves(a, b, change)
    ensures Score(b).total < Score(a).total <==> ShownFalls(a, change)
  {
    TradingMoves(a, b, change);
    FallIsExact(a, b, change);
  }

  lemma TradingMoves(a: ScoreInput, b: ScoreInput, change: real)
    requires OtherTrading(a, b) && change == TradingPoints(MarketOf(b)) - TradingPoints(MarketOf(a))
    ensures Moves(a, b, change) && b.risks == a.risks
  {
    TradingShares(a);
    TradingShares(b);
    TradingOthers(a, b);
    TradingTotal(RawsOf(a), RawsOf(b));
  }

  lemma TradingTotal(x: Raws, y: Raws)
    requires forall name :: name != Liquidity && name != MomentumVolatility ==> x(name) == y(name)
    ensures RawTotal(y) - RawTotal(x)
         == Share(y, Liquidity) + Share(y, MomentumVolatility) - Share(x, Liquidity) - Share(x, MomentumVolatility)
  {}

  lemma TradingOthers(a: ScoreInput, b: ScoreInput)
    requires OtherTrading(a, b)
    ensures b.risks == a.risks
    ensures forall name :: name != Liquidity && name != MomentumVolatility ==> RawsOf(a)(name) == RawsOf(b)(name)
  {
    forall name: Name | name != Liquidity && name != MomentumVolatility
      ensures RawScore(name, a) == RawScore(name, b)
    {
      ValuationAt(a);
      ValuationAt(b);
    }
  }

  lemma TradingShares(a: ScoreInput)
    requires var p := MarketOf(a); p.volume.Some? && p.trading.Some? && p.momentum.Some? && p.volatility.Some?
    ensures var p := MarketOf(a);
            Share(RawsOf(a), Liquidity) + Share(RawsOf(a), MomentumVolatility)
            == TradingPoints(p) + 6.0
               + if p.cap.Some? then RatioScore(p.cap.value, 100000000000.0, 20000000000000.0) * 0.025 - 0.75 else 0.0
  {
    var p := MarketOf(a);
    StandingScore(p.volume.value, 100000.0, 5000000.0);
    StandingScore(p.trading.value, 5000000000.0, 300000000000.0);
    StandingScore(p.momentum.value, -0.1, 0.15);
    StandingScore(p.volatility.value, 0.55, 0.12);
    RatioComponentRange(Liquidity, a);
    RatioComponentRange(MomentumVolatility, a);
  }

  // ---- Candidates whose score falls ----

  /** The scores of the four components that the candidates below have. */
  datatype Few =
    Few(stability: Option<real>, profitability: Option<real>, growth: Option<real>, valuation: Option<real>)

  predicate OnlyFew(raws: Raws, few: Few) {
    && raws(FinancialStability) == few.stability && raws(Profitability) == few.profitability
    && raws(Growth) == few.growth && raws(Valuation) == few.valuation
    && raws(NewsAttention).None? && raws(DisclosureEvent).None?
    && raws(Liquidity).None? && raws(MomentumVolatility).None?
  }

  function FewTotal(few: Few): real {
    WeightedScore(FinancialStability, few.stability) + WeightedScore(Profitability, few.profitability)
    + WeightedScore(Growth, few.growth) + WeightedScore(Valuation, few.valuation)
  }

  lemma FewComponents(a: ScoreInput, raws: Raws, few: Few, tenths: nat)
    requires raws == RawsOf(a) && a.risks == [] && tenths <= 1000
    requires OnlyFew(raws, few) && FewTotal(few) == tenths as real / 10.0
    ensures Score(a).total == tenths as real / 10.0
  {
    assert Penalty(a.risks) == 0.0;
    TotalOfScore(a, raws, 0.0);
    FewRaws(raws, few, tenths);
  }

  lemma FewRaws(raws: Raws, few: Few, tenths: nat)
    requires tenths <= 1000 && OnlyFew(raws, few) && FewTotal(few) == tenths as real / 10.0
    ensures Total(raws, 0.0) == tenths as real / 10.0
  {
    assert RawTotal(raws) - 0.0 == tenths as real / 10.0;
    Round1Fixes(tenths);
  }

  /** A candidate known by profit, equity and market capitalisation alone. */
  function Valued(cap: real, net: real, equity: real): ScoreInput {
    ScoreInput("A", Some(map["net_income" := Some(net), "total_equity" := Some(equity)]), None,
               Some(map["market_cap" := Some(cap)]), None, [], [])
  }

  lemma ValuedParts(a: ScoreInput, cap: real, net: real, equity: real)
    requires a == Valued(cap, net, equity)
    ensures MarketOf(a) == Market(Some(cap), None, None, None, None)
    ensures Now(a) == Books(None, None, Some(net), None, None, Some(equity))
    ensures a.previousFinancials.None? && a.evidence == [] && a.risks == []
  {}

  function ValuedBooks(net: real, equity: real): Books {
    Books(None, None, Some(net), None, None, Some(equity))
  }

  lemma ValuedTotal(a: ScoreInput, cap: real, net: real, equity: real, tenths: nat)
    requires a == Valued(cap, net, equity) && cap > 0.0 && (net > 0.0 || equity > 0.0) && tenths <= 100
    requires ValuedAt(ValuedBooks(net, equity), cap) == tenths as real
    ensures Score(a).total == tenths as real / 10.0
  {
    ValuedParts(a, cap, net, equity);
    assert ValuationScore(a) == Some(tenths as real);
    FewComponents(a, RawsOf(a), Few(None, None, None, Some(tenths as real)), tenths);
  }

  /** A first profit of 1 takes a candidate worth 100, with an equity of 200, from 9.0 to 6.0. */
  lemma FirstProfitCanHurt(a: ScoreInput, b: ScoreInput)
    requires a == Valued(100.0, 0.0, 200.0) && b == Valued(100.0, 1.0, 200.0)
    ensures FirstProfit(a, b, 1.0) && Score(a).total == 9.0 && Score(b).total == 6.0
  {
    ValuedParts(a, 100.0, 0.0, 200.0);
    ValuedParts(b, 100.0, 1.0, 200.0);
    ProfitPrices();
    ValuedTotal(a, 100.0, 0.0, 200.0, 90);
    ValuedTotal(b, 100.0, 1.0, 200.0, 60);
  }

  lemma ProfitPrices()
    ensures ValuedAt(ValuedBooks(0.0, 200.0), 100.0) == 90.0 && ValuedAt(ValuedBooks(1.0, 200.0), 100.0) == 60.0
  {}

  /** So does a first equity of 1 for a candidate worth 100 with a profit of 100 and no known liabilities. */
  lemma FirstEquityCanHurt(a: ScoreInput, b: ScoreInput)
    requires a == Valued(100.0, 100.0, 0.0) && b == Valued(100.0, 100.0, 1.0)
    ensures FirstEquity(a, b, 1.0) && Score(a).total == 9.0 && Score(b).total == 6.0
  {
    ValuedParts(a, 100.0, 100.0, 0.0);
    ValuedParts(b, 100.0, 100.0, 1.0);
    EquityPrices();
    ValuedTotal(a, 100.0, 100.0, 0.0, 90);
    ValuedTotal(b, 100.0, 100.0, 1.0, 60);
  }

  lemma EquityPrices()
    ensures ValuedAt(ValuedBooks(100.0, 0.0), 100.0) == 90.0 && ValuedAt(ValuedBooks(100.0, 1.0), 100.0) == 60.0
  {}

  /** Ten times the market capitalisation on the same profit and equity. */
  lemma LargerCapCanHurt(a: ScoreInput, b: ScoreInput)
    requires a == Valued(100.0, 12.5, 125.0) && b == Valued(1000.0, 12.5, 125.0)
    ensures LargerCap(a, b, 1000.0) && Score(a).total == 9.0 && Score(b).total == 3.0
  {
    ValuedParts(a, 100.0, 12.5, 125.0);
    ValuedParts(b, 1000.0, 12.5, 125.0);
    CapPrices();
    ValuedTotal(a, 100.0, 12.5, 125.0, 90);
    ValuedTotal(b, 1000.0, 12.5, 125.0, 30);
  }

  lemma CapPrices()
    ensures ValuedAt(ValuedBooks(12.5, 125.0), 100.0) == 90.0 && ValuedAt(ValuedBooks(12.5, 125.0), 1000.0) == 30.0
  {}

  /** A candidate known by revenue and operating income, now and before, alone. */
  function Earning(revenue: real, operating: real, revenueBefore: real, operatingBefore: real): ScoreInput {
    ScoreInput("A", Some(map["revenue" := Some(revenue), "operating_income" := Some(operating)]),
               Some(map["revenue" := Some(revenueBefore), "operating_income" := Some(operatingBefore)]),
               None, None, [], [])
  }

  lemma EarningParts(a: ScoreInput, revenue: real, operating: real, revenueBefore: real, operatingBefore: real)
    requires a == Earning(revenue, operating, revenueBefore, operatingBefore)
    ensures MarketOf(a) == Market(None, None, None, None, None)
    ensures Now(a) == Books(Some(revenue), Some(operating), None, None, None, None)
    ensures Before(a) == Books(Some(revenueBefore), Some(operatingBefore), None, None, None, None)
    ensures a.evidence == [] && a.risks == []
  {}

  /** The score of such a candidate from its two components. */
  lemma EarningTotal(
      a: ScoreInput, revenue: real, revenueBefore: real, operatingBefore: real, margin: real, growth: Option<real>,
      tenths: nat)
    requires a == Earning(revenue, 20.0, revenueBefore, operatingBefore) && revenue > 0.0 && tenths <= 1000
    requires RatioScore(20.0 / revenue, -0.05, 0.2) == margin
    requires growth == if revenueBefore <= 0.0 then None
                       else Some(SalesScore(revenue, revenueBefore) * 0.6 + IncomeScore(20.0, operatingBefore) * 0.4)
    requires FewTotal(Few(None, Some(margin), growth, None)) == tenths as real / 10.0
    ensures Score(a).total == tenths as real / 10.0
  {
    EarningParts(a, revenue, 20.0, revenueBefore, operatingBefore);
    assert ProfitabilityScore(a) == Some(margin);
    assert GrowthScore(a) == growth;
    FewComponents(a, RawsOf(a), Few(None, Some(margin), growth, None), tenths);
  }

  /** The candidate that earns 20 on a revenue of 100, after 10 on 50. */
  lemma DoubledScore(a: ScoreInput)
    requires a == Earning(100.0, 20.0, 50.0, 10.0)
    ensures Score(a).total == 27.0
  {
    EarningTotal(a, 100.0, 50.0, 10.0, 90.0, Some(90.0), 270);
  }

  /** The candidate that earns 20 on a revenue of 200, after 10 on 50. */
  lemma QuadrupledScore(a: ScoreInput)
    requires a == Earning(200.0, 20.0, 50.0, 10.0)
    ensures Score(a).total == 23.4
  {
    assert RatioScore(20.0 / 200.0, -0.05, 0.2) == 66.0;
    EarningTotal(a, 200.0, 50.0, 10.0, 66.0, Some(90.0), 234);
  }

  /** Twice the revenue at the same income, after a year of half the revenue and income: growth is at its best
      already. */
  lemma MoreRevenueCanHurt(a: ScoreInput, b: ScoreInput)
    requires a == Earning(100.0, 20.0, 50.0, 10.0) && b == Earning(200.0, 20.0, 50.0, 10.0)
    ensures MoreRevenue(a, b, 200.0) && Score(a).total == 27.0 && Score(b).total == 23.4
  {
    EarningParts(a, 100.0, 20.0, 50.0, 10.0);
    EarningParts(b, 200.0, 20.0, 50.0, 10.0);
    DoubledScore(a);
    QuadrupledScore(b);
  }

  /** The same candidate, had it earned nothing the year before instead of 10. */
  lemma LowerPastIncomeCanHurt(a: ScoreInput, b: ScoreInput)
    requires a == Earning(100.0, 20.0, 50.0, 10.0) && b == Earning(100.0, 20.0, 50.0, 0.0)
    ensures LowerPastIncome(a, b, 0.0) && Score(a).total == 27.0 && Score(b).total == 24.6
  {
    EarningParts(a, 100.0, 20.0, 50.0, 10.0);
    EarningParts(b, 100.0, 20.0, 50.0, 0.0);
    DoubledScore(a);
    EarningTotal(b, 100.0, 50.0, 0.0, 90.0, Some(74.0), 246);
  }

  /** The same candidate, had it sold nothing the year before instead of 50. */
  lemma LowerPastRevenueCanHurt(a: ScoreInput, b: ScoreInput)
    requires a == Earning(100.0, 20.0, 50.0, 10.0) && b == Earning(100.0, 20.0, 0.0, 10.0)
    ensures LowerPastRevenue(a, b, 0.0) && Score(a).total == 27.0 && Score(b).total == 13.5
  {
    EarningParts(a, 100.0, 20.0, 50.0, 10.0);
    EarningParts(b, 100.0, 20.0, 0.0, 10.0);
    DoubledScore(a);
    EarningTotal(b, 100.0, 0.0, 10.0, 90.0, None, 135);
  }

  /** A candidate known by its assets, and by liabilities of 180 and an equity of 100, alone. */
  function Endowed(assets: real): ScoreInput {
    ScoreInput("A", Some(map["total_assets" := Some(assets), "total_liabilities" := Some(180.0),
                             "total_equity" := Some(100.0)]), None, None, None, [], [])
  }

  lemma EndowedParts(a: ScoreInput, assets: real)
    requires a == Endowed(assets)
    ensures MarketOf(a) == Market(None, None, None, None, None)
    ensures Now(a) == Books(None, None, None, Some(assets), Some(180.0), Some(100.0))
    ensures a.previousFinancials.None? && a.evidence == [] && a.risks == []
  {}

  lemma EndowedTotal(a: ScoreInput, assets: real, stability: real, tenths: nat)
    requires a == Endowed(assets) && tenths <= 1000
    requires stability == StabilityAt(Books(None, None, None, Some(assets), Some(180.0), Some(100.0)))
    requires FewTotal(Few(Some(stability), None, None, None)) == tenths as real / 10.0
    ensures Score(a).total == tenths as real / 10.0
  {
    EndowedParts(a, assets);
    assert FinancialStabilityScore(a) == Some(stability);
    FewComponents(a, RawsOf(a), Few(Some(stability), None, None, None), tenths);
  }

  /** Assets that vanish take the equity's good share in them away. */
  lemma FewerAssetsCanHurt(a: ScoreInput, b: ScoreInput)
    requires a == Endowed(100.0) && b == Endowed(0.0)
    ensures FewerAssets(a, b, 0.0) && Score(a).total == 10.2 && Score(b).total == 6.0
  {
    EndowedParts(a, 100.0);
    EndowedParts(b, 0.0);
    EndowedTotal(a, 100.0, 51.0, 102);
    EndowedTotal(b, 0.0, 30.0, 60);
  }
}
