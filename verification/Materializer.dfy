/** Materialising recommendation scores: read a ticker's facts and risk rows, score them, upsert the score row,
    replace the reason rows, and delete and rewrite the risk rows. */
module Materializer {
  import opened Prelude
  import opened Rounding
  import opened Sorting
  import opened Engine

  /** A score row's natural key within one score version. */
  datatype Key = Key(ticker: string, asOf: int)

  datatype Source = Live | Mock | Fallback

  datatype PriceRow = PriceRow(source: Source, figures: Figures)

  /** What the other tables hold for a ticker on the date: statements, prices and evidence, newest first. */
  datatype Facts = Facts(
    financials: Option<Figures>,
    previousFinancials: Option<Figures>,
    prices: seq<PriceRow>,
    evidence: seq<Evidence>,
    documents: map<string, string>,
    freshness: map<string, string>)

  datatype Severity = HighRisk | MediumRisk | LowRisk

  /** A risk row; the penalty column holds hundredths. */
  datatype RiskRow = RiskRow(
    key: Key, tag: string, severity: Severity, cents: int, text: string, description: string, evidenceIds: seq<string>)

  datatype ScoreRow = ScoreRow(
    total: real,
    level: Level,
    components: seq<Component>,
    evidenceCount: nat,
    missing: set<Name>,
    freshness: map<string, string>,
    fallbackData: set<Name>,
    penalty: real,
    providers: map<string, string>,
    eligible: bool)

  /** A reason row; its id is the key, the score version and the index. */
  datatype ReasonRow =
    ReasonRow(index: nat, key: Key, component: Name, evidenceIds: seq<string>, documents: set<string>)

  /** A score row of another score version. */
  datatype PastKey = PastKey(key: Key, version: string)

  /** `scores` holds the rows of the current score version, `past` those of the others. */
  datatype Tables = Tables(
    scores: map<Key, ScoreRow>, reasons: map<Key, seq<ReasonRow>>, risks: seq<RiskRow>, past: map<PastKey, ScoreRow>)

  // ---- One ticker ----

  /** The newest price row that is neither mock nor fallback. */
  function LatestPrice(prices: seq<PriceRow>): Option<PriceRow> {
    if prices == [] then None
    else if prices[0].source.Live? then Some(prices[0])
    else LatestPrice(prices[1..])
  }

  function RowsOf(rows: seq<RiskRow>, key: Key): seq<RiskRow> {
    if rows == [] then []
    else
      var last := rows[|rows| - 1];
      RowsOf(rows[..|rows| - 1], key) + if last.key == key then [last] else []
  }

  function Without(rows: seq<RiskRow>, key: Key): seq<RiskRow> {
    if rows == [] then []
    else
      var last := rows[|rows| - 1];
      Without(rows[..|rows| - 1], key) + if last.key == key then [] else [last]
  }

  predicate ByTag(a: RiskRow, b: RiskRow) {
    TextAtMost(a.tag, b.tag)
  }

  function RiskOf(row: RiskRow): Risk {
    Risk(row.tag, row.cents as real / 100.0, row.text, row.evidenceIds)
  }

  /** The risks read back, ordered by tag. */
  function RisksOf(rows: seq<RiskRow>): seq<Risk> {
    Image(Sort(ByTag, rows), RiskOf)
  }

  function SeverityOf(points: real): Severity {
    if points >= 5.0 then HighRisk else if points > 0.0 then MediumRisk else LowRisk
  }

  function RiskRowOf(key: Key, risk: Risk): RiskRow {
    RiskRow(key, risk.tag, SeverityOf(risk.points), RoundHalfEven(risk.points * 100.0), risk.text, risk.text,
            risk.evidenceIds)
  }

  function Rewritten(key: Key, risks: seq<Risk>): seq<RiskRow> {
    Image(risks, risk => RiskRowOf(key, risk))
  }

  function InputOf(ticker: string, facts: Facts, risks: seq<Risk>): ScoreInput {
    var price := LatestPrice(facts.prices);
    var isFallback := price.Some? && price.value.source.Fallback?;
    var figures := if price.Some? then Some(price.value.figures) else None;
    ScoreInput(
      ticker, facts.financials, facts.previousFinancials,
      if isFallback then None else figures, if isFallback then figures else None,
      facts.evidence, risks)
  }

  function ScoreRowOf(result: ScoreResult, facts: Facts): ScoreRow {
    ScoreRow(Round2(result.total), result.level, result.components, result.evidenceCount, result.missing,
             facts.freshness, result.fallbackData, result.penalty, map[], result.evidenceCount >= 2)
  }

  function DocumentsOf(evidenceIds: seq<string>, documents: map<string, string>): set<string> {
    set id | id in evidenceIds && id in documents :: documents[id]
  }

  function ReasonRowsOf(key: Key, result: ScoreResult, facts: Facts): seq<ReasonRow> {
    seq(|result.reasons|, i requires 0 <= i < |result.reasons| =>
      var reason := result.reasons[i];
      ReasonRow(i + 1, key, reason.component, reason.evidenceIds, DocumentsOf(reason.evidenceIds, facts.documents)))
  }

  /** What the tables hold for one key: the score row, its reasons and its risk rows. */
  datatype View = View(score: Option<ScoreRow>, reasons: seq<ReasonRow>, risks: seq<RiskRow>)

  function ViewOf(t: Tables, key: Key): View {
    View(if key in t.scores then Some(t.scores[key]) else None, if key in t.reasons then t.reasons[key] else [],
         RowsOf(t.risks, key))
  }

  /** The field constraints of the score input, which raise when they fail. */
  predicate Admissible(risks: seq<RiskRow>, facts: Facts) {
    WellFormed(InputOf("", facts, RisksOf(risks)))
  }

  function ResultOf(key: Key, facts: Facts, rows: seq<RiskRow>): ScoreResult {
    Score(InputOf(key.ticker, facts, RisksOf(rows)))
  }

  /** One ticker's pass over the tables. */
  function Step(t: Tables, key: Key, facts: Facts): Tables {
    var rows := RowsOf(t.risks, key);
    var result := ResultOf(key, facts, rows);
    Tables(t.scores[key := ScoreRowOf(result, facts)],
           t.reasons[key := ReasonRowsOf(key, result, facts)],
           Without(t.risks, key) + Rewritten(key, RisksOf(rows)),
           t.past)
  }

  /** What a pass makes of a key's view. */
  function Renew(v: View, key: Key, facts: Facts): View {
    var result := ResultOf(key, facts, v.risks);
    View(Some(ScoreRowOf(result, facts)), ReasonRowsOf(key, result, facts), Rewritten(key, RisksOf(v.risks)))
  }

  // ---- Frames ----

  lemma {:induction false} RowsOfSplit(a: seq<RiskRow>, b: seq<RiskRow>, key: Key)
    ensures RowsOf(a + b, key) == RowsOf(a, key) + RowsOf(b, key)
  {
    if b == [] {
      assert a + b == a;
    } else {
      RowsOfSplit(a, b[..|b| - 1], key);
      DropLastOfSum(a, b);
    }
  }

  lemma {:induction false} WithoutKeepsOthers(rows: seq<RiskRow>, key: Key, other: Key)
    ensures RowsOf(Without(rows, key), other) == if other == key then [] else RowsOf(rows, other)
  {
    if rows != [] {
      var n := |rows| - 1;
      WithoutKeepsOthers(rows[..n], key, other);
      RowsOfSplit(Without(rows[..n], key), if rows[n].key == key then [] else [rows[n]], other);
    }
  }

  lemma {:induction false} RowsOfUniform(rows: seq<RiskRow>, key: Key, other: Key)
    requires forall i :: 0 <= i < |rows| ==> rows[i].key == key
    ensures RowsOf(rows, other) == if other == key then rows else []
  {
    if rows != [] { RowsOfUniform(rows[..|rows| - 1], key, other); }
  }

  /** A pass renews its own key and leaves every other key's score, reasons and risk rows as they are. */
  lemma StepView(t: Tables, key: Key, facts: Facts, other: Key)
    ensures ViewOf(Step(t, key, facts), other)
         == if other == key then Renew(ViewOf(t, key), key, facts) else ViewOf(t, other)
  {
    StepRisks(t.risks, key, RisksOf(RowsOf(t.risks, key)), other);
  }

  lemma StepRisks(rows: seq<RiskRow>, key: Key, risks: seq<Risk>, other: Key)
    ensures RowsOf(Without(rows, key) + Rewritten(key, risks), other)
         == if other == key then Rewritten(key, risks) else RowsOf(rows, other)
  {
    RowsOfSplit(Without(rows, key), Rewritten(key, risks), other);
    WithoutKeepsOthers(rows, key, other);
    RowsOfUniform(Rewritten(key, risks), key, other);
  }

  // ---- Risks survive the rewrite ----

  /** Hundredths read as a number and written back are the same hundredths. */
  lemma CentsRoundTrip(cents: int)
    ensures RoundHalfEven(cents as real / 100.0 * 100.0) == cents
  {
    assert cents as real / 100.0 * 100.0 == cents as real;
  }

  lemma RewriteRoundTrip(key: Key, rows: seq<RiskRow>)
    ensures Image(Rewritten(key, Image(rows, RiskOf)), RiskOf) == Image(rows, RiskOf)
  {
    var back := Rewritten(key, Image(rows, RiskOf));
    forall i | 0 <= i < |rows| ensures RiskOf(back[i]) == RiskOf(rows[i]) { CentsRoundTrip(rows[i].cents); }
  }

  lemma ByTagIsPreorder()
    ensures TotalPreorder(ByTag)
  {
    forall a: RiskRow, b: RiskRow ensures ByTag(a, b) || ByTag(b, a) { TextTotal(a.tag, b.tag); }
    forall a: RiskRow, b: RiskRow, c: RiskRow | ByTag(a, b) && ByTag(b, c) ensures ByTag(a, c) {
      TextTransitive(a.tag, b.tag, c.tag);
    }
  }

  /** The rewritten rows read back as the risks they were written from. */
  lemma RewrittenReadBack(key: Key, rows: seq<RiskRow>)
    ensures RisksOf(Rewritten(key, RisksOf(rows))) == RisksOf(rows)
  {
    ByTagIsPreorder();
    SortSorted(ByTag, rows);
    var sorted := Sort(ByTag, rows);
    var back := Rewritten(key, RisksOf(rows));
    forall i, j | 0 <= i < j < |back| ensures ByTag(back[i], back[j]) {
      assert back[i] == RiskRowOf(key, RiskOf(sorted[i])) && back[j] == RiskRowOf(key, RiskOf(sorted[j]));
      assert ByTag(sorted[i], sorted[j]);
    }
    SortFixes(ByTag, back);
    RewriteRoundTrip(key, sorted);
  }

  /** What a risk row says, apart from the derived severity and description. */
  datatype Essence = Essence(tag: string, cents: int, text: string, evidenceIds: seq<string>)

  function EssenceOf(row: RiskRow): Essence {
    Essence(row.tag, row.cents, row.text, row.evidenceIds)
  }

  ghost function Essences(t: Tables, key: Key): multiset<Essence> {
    multiset(Image(RowsOf(t.risks, key), EssenceOf))
  }

  lemma RewriteKeepsEssence(key: Key, rows: seq<RiskRow>)
    ensures multiset(Image(Rewritten(key, RisksOf(rows)), EssenceOf)) == multiset(Image(rows, EssenceOf))
  {
    var sorted, back := Sort(ByTag, rows), Rewritten(key, RisksOf(rows));
    forall i | 0 <= i < |sorted| ensures EssenceOf(back[i]) == EssenceOf(sorted[i]) {
      assert back[i] == RiskRowOf(key, RiskOf(sorted[i]));
      CentsRoundTrip(sorted[i].cents);
    }
    assert Image(back, EssenceOf) == Image(sorted, EssenceOf);
    ImageIgnoresOrder(sorted, rows, EssenceOf);
  }

  /** Reading, deleting and rewriting the risks loses, adds and alters none. */
  lemma StepConservesRisks(t: Tables, key: Key, facts: Facts, other: Key)
    ensures Essences(Step(t, key, facts), other) == Essences(t, other)
  {
    StepView(t, key, facts, other);
    RewriteKeepsEssence(key, RowsOf(t.risks, key));
    assert ViewOf(Step(t, key, facts), other).risks == RowsOf(Step(t, key, facts).risks, other);
  }

  /** A second pass over the same facts changes nothing. */
  lemma RenewTwice(v: View, key: Key, facts: Facts)
    ensures Renew(Renew(v, key, facts), key, facts) == Renew(v, key, facts)
  {
    RewrittenReadBack(key, v.risks);
  }

  lemma RenewedOnce(v: View, middle: View, key: Key, facts: Facts, before: bool, now: bool)
    requires middle == if before then Renew(v, key, facts) else v
    ensures (if now then Renew(middle, key, facts) else middle) == if before || now then Renew(v, key, facts) else v
  {
    RenewTwice(v, key, facts);
  }

  // ---- What the rows hold ----

  /** Storing the total in hundredths loses nothing. */
  lemma StoredTotalIsExact(raws: Raws, penalty: real)
    ensures Round2(Total(raws, penalty)) == Total(raws, penalty)
  {
    StoredTenths(RawTotal(raws) - penalty);
  }

  lemma StoredTenths(x: real)
    ensures Round2(Clamp(Round1(x), 0.0, 100.0)) == Clamp(Round1(x), 0.0, 100.0)
  {
    var tenths := RoundHalfEven(x * 10.0);
    var kept := if tenths < 0 then 0 else if tenths > 1000 then 1000 else tenths;
    assert Clamp(Round1(x), 0.0, 100.0) == kept as real / 10.0 == (kept * 10) as real / 100.0;
    CentsRoundTrip(kept * 10);
  }

  /** A rewritten row's severity is high from five points on, medium above none, and low at none; its description is its
      text; its points are those read. */
  lemma RewrittenRows(key: Key, rows: seq<RiskRow>, i: nat)
    requires i < |Rewritten(key, RisksOf(rows))|
    ensures var row := Rewritten(key, RisksOf(rows))[i];
            && row.key == key && row.description == row.text
            && (row.severity.HighRisk? <==> row.cents >= 500)
            && (row.severity.LowRisk? <==> row.cents <= 0)
            && exists r :: r in rows && EssenceOf(r) == EssenceOf(row)
                 && r.tag == row.tag && r.cents == row.cents && r.text == row.text && r.evidenceIds == row.evidenceIds
  {
    var sorted := Sort(ByTag, rows);
    CentsRoundTrip(sorted[i].cents);
    assert Rewritten(key, RisksOf(rows))[i] == RiskRowOf(key, RiskOf(sorted[i]));
    assert sorted[i] in multiset(sorted);
    assert EssenceOf(sorted[i]) == EssenceOf(Rewritten(key, RisksOf(rows))[i]);
  }

  // ---- A batch of tickers ----

  type Snapshot = string -> Facts

  /** The passes over a list of tickers, in order. */
  function MaterializeAll(t: Tables, asOf: int, tickers: seq<string>, facts: Snapshot): Tables {
    if tickers == [] then t
    else
      var ticker := tickers[|tickers| - 1];
      Step(MaterializeAll(t, asOf, tickers[..|tickers| - 1], facts), Key(ticker, asOf), facts(ticker))
  }

  ghost predicate Touched(key: Key, asOf: int, tickers: seq<string>) {
    key.asOf == asOf && key.ticker in tickers
  }

  lemma TouchedExtends(key: Key, asOf: int, tickers: seq<string>)
    requires tickers != []
    ensures var n := |tickers| - 1;
            Touched(key, asOf, tickers) <==> Touched(key, asOf, tickers[..n]) || key == Key(tickers[n], asOf)
  {
    assert tickers == tickers[..|tickers| - 1] + [tickers[|tickers| - 1]];
  }

  /** What a batch leaves: each of its tickers renewed once, everything else as it was - whatever the order of the list
      and however often a ticker is on it. */
  lemma {:induction false} BatchView(t: Tables, asOf: int, tickers: seq<string>, facts: Snapshot, key: Key)
    ensures ViewOf(MaterializeAll(t, asOf, tickers, facts), key)
         == if Touched(key, asOf, tickers) then Renew(ViewOf(t, key), key, facts(key.ticker)) else ViewOf(t, key)
  {
    if tickers != [] {
      var n := |tickers| - 1;
      var front, last := tickers[..n], Key(tickers[n], asOf);
      var before := MaterializeAll(t, asOf, front, facts);
      BatchView(t, asOf, front, facts, key);
      StepView(before, last, facts(tickers[n]), key);
      TouchedExtends(key, asOf, tickers);
      RenewedOnce(ViewOf(t, key), ViewOf(before, key), key, facts(key.ticker), Touched(key, asOf, front), key == last);
    }
  }

  ghost predicate SameViews(a: Tables, b: Tables) {
    forall key :: ViewOf(a, key) == ViewOf(b, key)
  }

  lemma {:induction false} RowsOfCounts(rows: seq<RiskRow>, row: RiskRow)
    ensures multiset(rows)[row] == multiset(RowsOf(rows, row.key))[row]
  {
    if rows != [] {
      var n := |rows| - 1;
      RowsOfCounts(rows[..n], row);
      assert rows == rows[..n] + [rows[n]];
    }
  }

  function ReasonsAt(t: Tables, key: Key): seq<ReasonRow> {
    if key in t.reasons then t.reasons[key] else []
  }

  /** The same rows in every table; risk rows as a bag, as their order in storage means nothing. */
  ghost predicate SameRows(a: Tables, b: Tables) {
    && a.scores == b.scores
    && a.past == b.past
    && multiset(a.risks) == multiset(b.risks)
    && forall key :: ReasonsAt(a, key) == ReasonsAt(b, key)
  }

  /** Tables with the same views hold the same rows. */
  lemma SameViewsSameRows(a: Tables, b: Tables)
    requires SameViews(a, b) && a.past == b.past
    ensures SameRows(a, b)
  {
    forall key ensures key in a.scores <==> key in b.scores {
      assert ViewOf(a, key) == ViewOf(b, key);
    }
    forall key | key in a.scores ensures a.scores[key] == b.scores[key] {
      assert ViewOf(a, key) == ViewOf(b, key);
    }
    forall key ensures ReasonsAt(a, key) == ReasonsAt(b, key) {
      assert ViewOf(a, key) == ViewOf(b, key);
    }
    SameRiskBags(a, b);
  }

  lemma SameRiskBags(a: Tables, b: Tables)
    requires SameViews(a, b)
    ensures multiset(a.risks) == multiset(b.risks)
  {
    forall row: RiskRow ensures multiset(a.risks)[row] == multiset(b.risks)[row] {
      RowsOfCounts(a.risks, row);
      RowsOfCounts(b.risks, row);
      assert ViewOf(a, row.key) == ViewOf(b, row.key);
    }
  }

  lemma {:induction false} PastKept(t: Tables, asOf: int, tickers: seq<string>, facts: Snapshot)
    ensures MaterializeAll(t, asOf, tickers, facts).past == t.past
  {
    if tickers != [] { PastKept(t, asOf, tickers[..|tickers| - 1], facts); }
  }

  /** A second materialisation of the same or fewer tickers leaves every row as it is. */
  lemma MaterializeTwice(t: Tables, asOf: int, tickers: seq<string>, again: seq<string>, facts: Snapshot)
    requires forall x :: x in again ==> x in tickers
    ensures var once := MaterializeAll(t, asOf, tickers, facts);
            SameRows(MaterializeAll(once, asOf, again, facts), once)
  {
    var once := MaterializeAll(t, asOf, tickers, facts);
    forall key ensures ViewOf(MaterializeAll(once, asOf, again, facts), key) == ViewOf(once, key) {
      BatchView(t, asOf, tickers, facts, key);
      BatchView(once, asOf, again, facts, key);
      if Touched(key, asOf, again) { RenewTwice(ViewOf(t, key), key, facts(key.ticker)); }
    }
    PastKept(once, asOf, again, facts);
    SameViewsSameRows(MaterializeAll(once, asOf, again, facts), once);
  }

  /** Batches compose: two lists one after the other leave what any one list with the same tickers leaves. */
  lemma BatchesCompose(t: Tables, asOf: int, a: seq<string>, b: seq<string>, all: seq<string>, facts: Snapshot)
    requires forall x :: x in all <==> x in a || x in b
    ensures SameRows(MaterializeAll(MaterializeAll(t, asOf, a, facts), asOf, b, facts),
                     MaterializeAll(t, asOf, all, facts))
  {
    var first := MaterializeAll(t, asOf, a, facts);
    forall key
      ensures ViewOf(MaterializeAll(first, asOf, b, facts), key) == ViewOf(MaterializeAll(t, asOf, all, facts), key)
    {
      BatchView(t, asOf, a, facts, key);
      BatchView(first, asOf, b, facts, key);
      BatchView(t, asOf, all, facts, key);
      RenewTwice(ViewOf(t, key), key, facts(key.ticker));
    }
    PastKept(t, asOf, a, facts);
    PastKept(first, asOf, b, facts);
    PastKept(t, asOf, all, facts);
    SameViewsSameRows(MaterializeAll(first, asOf, b, facts), MaterializeAll(t, asOf, all, facts));
  }

  /** A run of materialisations: dates, ticker lists and the facts of the day. */
  datatype Batch = Batch(asOf: int, tickers: seq<string>, facts: Snapshot)

  function Runs(t: Tables, batches: seq<Batch>): Tables {
    if batches == [] then t
    else
      var last := batches[|batches| - 1];
      MaterializeAll(Runs(t, batches[..|batches| - 1]), last.asOf, last.tickers, last.facts)
  }

  lemma {:induction false} BatchConservesRisks(t: Tables, asOf: int, tickers: seq<string>, facts: Snapshot, key: Key)
    ensures Essences(MaterializeAll(t, asOf, tickers, facts), key) == Essences(t, key)
  {
    if tickers != [] {
      var n := |tickers| - 1;
      BatchConservesRisks(t, asOf, tickers[..n], facts, key);
      StepConservesRisks(MaterializeAll(t, asOf, tickers[..n], facts), Key(tickers[n], asOf), facts(tickers[n]), key);
    }
  }

  /** Any number of runs, on any dates, over any tickers and facts, keeps every key's risks as a bag. */
  lemma {:induction false} RunsConserveRisks(t: Tables, batches: seq<Batch>, key: Key)
    ensures Essences(Runs(t, batches), key) == Essences(t, key)
  {
    if batches != [] {
      var n := |batches| - 1;
      RunsConserveRisks(t, batches[..n], key);
      BatchConservesRisks(Runs(t, batches[..n]), batches[n].asOf, batches[n].tickers, batches[n].facts, key);
    }
  }

  /** The fallback prices of the engine are never reached from here: a mock or fallback price row is not read. */
  lemma {:induction false} NoFallbackPrices(prices: seq<PriceRow>)
    ensures LatestPrice(prices).Some? ==> LatestPrice(prices).value.source.Live?
  {
    if prices != [] { NoFallbackPrices(prices[1..]); }
  }

  lemma FallbackNeverUsed(key: Key, facts: Facts, rows: seq<RiskRow>)
    ensures ResultOf(key, facts, rows).fallbackData == {}
  {
    NoFallbackPrices(facts.prices);
    var input := InputOf(key.ticker, facts, RisksOf(rows));
    assert input.fallbackPriceMetrics.None?;
    assert forall name :: !UsedFallback(name, input);
  }

  // ---- Which facts count ----

  /** The row at k is live and no earlier one is, or no row is live at all. */
  ghost predicate FirstLive(prices: seq<PriceRow>, k: Option<nat>) {
    match k
    case Some(i) => i < |prices| && prices[i].source.Live? && forall j :: 0 <= j < i ==> !prices[j].source.Live?
    case None => forall j :: 0 <= j < |prices| ==> !prices[j].source.Live?
  }

  lemma {:induction false} LatestIsFirstLive(prices: seq<PriceRow>, k: Option<nat>)
    requires FirstLive(prices, k)
    ensures LatestPrice(prices) == if k.Some? then Some(prices[k.value]) else None
  {
    if prices != [] && k != Some(0) {
      LatestIsFirstLive(prices[1..], if k.Some? then Some(k.value - 1) else None);
    }
  }

  /** The facts without the price rows but one, or without any. */
  function OnlyPrice(facts: Facts, k: Option<nat>): Facts {
    facts.(prices := if k.Some? && k.value < |facts.prices| then [facts.prices[k.value]] else [])
  }

  lemma OnePriceCounts(facts: Facts, k: Option<nat>, ticker: string, risks: seq<Risk>)
    requires FirstLive(facts.prices, k)
    ensures InputOf(ticker, OnlyPrice(facts, k), risks) == InputOf(ticker, facts, risks)
  {
    LatestIsFirstLive(facts.prices, k);
    LatestIsFirstLive(OnlyPrice(facts, k).prices, if k.Some? then Some(0) else None);
  }

  lemma OnePriceStep(t: Tables, key: Key, facts: Facts, k: Option<nat>)
    requires FirstLive(facts.prices, k)
    ensures Step(t, key, OnlyPrice(facts, k)) == Step(t, key, facts)
  {
    OnePriceCounts(facts, k, key.ticker, RisksOf(RowsOf(t.risks, key)));
  }

  /** Of a ticker's price rows, newest first, only the first live one counts: a materialisation leaves the same tables
      when every other row is gone. */
  lemma {:induction false} OnlyNewestLiveCounts(
      t: Tables, asOf: int, tickers: seq<string>, facts: Snapshot, first: string -> Option<nat>)
    requires forall ticker :: FirstLive(facts(ticker).prices, first(ticker))
    ensures MaterializeAll(t, asOf, tickers, x => OnlyPrice(facts(x), first(x)))
         == MaterializeAll(t, asOf, tickers, facts)
  {
    if tickers != [] {
      var n := |tickers| - 1;
      OnlyNewestLiveCounts(t, asOf, tickers[..n], facts, first);
      OnePriceStep(MaterializeAll(t, asOf, tickers[..n], facts), Key(tickers[n], asOf), facts(tickers[n]),
                   first(tickers[n]));
    }
  }

  /** What the engine is given: the statements and the evidence as they are, the risks read, and as present prices the
      figures of the first live row. */
  function Given(ticker: string, facts: Facts, k: Option<nat>, risks: seq<Risk>): ScoreInput
    requires k.Some? ==> k.value < |facts.prices|
  {
    ScoreInput(ticker, facts.financials, facts.previousFinancials,
               if k.Some? then Some(facts.prices[k.value].figures) else None, None, facts.evidence, risks)
  }

  lemma GivenIsInput(ticker: string, facts: Facts, k: Option<nat>, risks: seq<Risk>)
    requires FirstLive(facts.prices, k)
    ensures InputOf(ticker, facts, risks) == Given(ticker, facts, k, risks)
  {
    LatestIsFirstLive(facts.prices, k);
  }

  /** What a pass stores is the score of exactly the ticker's facts and of its risks of the day. */
  lemma StoredScore(t: Tables, key: Key, facts: Facts, k: Option<nat>, result: ScoreResult)
    requires FirstLive(facts.prices, k)
    requires result == Score(Given(key.ticker, facts, k, RisksOf(RowsOf(t.risks, key))))
    ensures var after := Step(t, key, facts);
            && key in after.scores && Holds(after.scores[key], result) && after.scores[key].freshness == facts.freshness
            && key in after.reasons && |after.reasons[key]| == |result.reasons|
            && forall i :: 0 <= i < |result.reasons| ==>
                 Explains(after.reasons[key][i], key, i, result.reasons[i], facts.documents)
  {
    var risks := RisksOf(RowsOf(t.risks, key));
    GivenIsInput(key.ticker, facts, k, risks);
    TotalIsStored(Given(key.ticker, facts, k, risks), result);
    RowHolds(result, facts);
    ReasonsExplain(key, result, facts);
  }

  lemma TotalIsStored(input: ScoreInput, result: ScoreResult)
    requires result == Score(input)
    ensures Round2(result.total) == result.total
  {
    StoredTotalIsExact(RawsOf(input), Penalty(input.risks));
  }

  lemma RowHolds(result: ScoreResult, facts: Facts)
    requires Round2(result.total) == result.total
    ensures Holds(ScoreRowOf(result, facts), result) && ScoreRowOf(result, facts).freshness == facts.freshness
  {}

  lemma ReasonsExplain(key: Key, result: ScoreResult, facts: Facts)
    ensures var rows := ReasonRowsOf(key, result, facts);
            && |rows| == |result.reasons|
            && forall i :: 0 <= i < |rows| ==> Explains(rows[i], key, i, result.reasons[i], facts.documents)
  {}

  /** Which facts can be scored at all: confidences from 0 to 1 and no negative penalties. */
  lemma AdmissibleExactly(risks: seq<RiskRow>, facts: Facts)
    ensures Admissible(risks, facts)
       <==> (forall e :: e in facts.evidence ==> 0.0 <= e.confidence <= 1.0)
            && forall r :: r in risks ==> r.cents >= 0
  {
    var sorted := Sort(ByTag, risks);
    forall r | r in risks ensures r in sorted { assert r in multiset(sorted); }
    forall r | r in sorted ensures r in risks { assert r in multiset(sorted); }
    forall r | r in risks && r.cents < 0 ensures !Admissible(risks, facts) {
      var i :| 0 <= i < |sorted| && sorted[i] == r;
      assert RisksOf(risks)[i] == RiskOf(r) && RisksOf(risks)[i].points < 0.0;
    }
    if forall r :: r in risks ==> r.cents >= 0 {
      forall x | x in RisksOf(risks) ensures x.points >= 0.0 {
        var i :| 0 <= i < |sorted| && RisksOf(risks)[i] == x;
        assert x == RiskOf(sorted[i]) && sorted[i] in sorted && sorted[i].cents >= 0;
      }
    }
  }

  /** Without a live price row the three price components are missing. */
  lemma NoPricesNoPriceScores(ticker: string, facts: Facts, risks: seq<Risk>)
    ensures {Valuation, Liquidity, MomentumVolatility} <= Missing(RawsOf(Given(ticker, facts, None, risks)))
  {
    assert Prices(Given(ticker, facts, None, risks)).0 == map[];
  }

  /** The stored row says what the result says: its total to the hundredth, and eligible from two evidence ids on. */
  ghost predicate Holds(row: ScoreRow, result: ScoreResult) {
    && row.total == result.total && row.level == result.level && row.components == result.components
    && row.evidenceCount == result.evidenceCount && row.missing == result.missing
    && row.fallbackData == result.fallbackData && row.penalty == result.penalty
    && row.providers == map[] && (row.eligible <==> result.evidenceCount >= 2)
  }

  ghost predicate Explains(row: ReasonRow, key: Key, i: nat, reason: Reason, documents: map<string, string>) {
    && row.index == i + 1 && row.key == key
    && row.component == reason.component && row.evidenceIds == reason.evidenceIds
    && forall d :: d in row.documents <==>
         exists id :: id in reason.evidenceIds && id in documents && documents[id] == d
  }

  // ---- The materialiser over mutable tables ----

  datatype Stock = Stock(ticker: string, market: string, active: bool)

  function ActiveTickers(stocks: seq<Stock>, wanted: Option<seq<string>>): seq<string> {
    if stocks == [] then []
    else
      var last := stocks[|stocks| - 1];
      ActiveTickers(stocks[..|stocks| - 1], wanted)
      + if last.active && (wanted.None? || last.ticker in wanted.value) then [last.ticker] else []
  }

  /** The active stocks asked for, or all of them, by ticker. */
  function Selected(stocks: seq<Stock>, wanted: Option<seq<string>>): (r: seq<string>) {
    Sort(TextAtMost, ActiveTickers(stocks, wanted))
  }

  lemma {:induction false} ActiveTickersExact(stocks: seq<Stock>, wanted: Option<seq<string>>, ticker: string)
    ensures ticker in ActiveTickers(stocks, wanted)
       <==> (wanted.Some? ==> ticker in wanted.value) && exists s :: s in stocks && s.active && s.ticker == ticker
  {
    if stocks != [] {
      var n := |stocks| - 1;
      ActiveTickersExact(stocks[..n], wanted, ticker);
      assert stocks == stocks[..n] + [stocks[n]];
    }
  }

  lemma SelectedExact(stocks: seq<Stock>, wanted: Option<seq<string>>, ticker: string)
    ensures ticker in Selected(stocks, wanted)
       <==> (wanted.Some? ==> ticker in wanted.value) && exists s :: s in stocks && s.active && s.ticker == ticker
  {
    var listed := ActiveTickers(stocks, wanted);
    ActiveTickersExact(stocks, wanted, ticker);
    assert ticker in listed <==> ticker in multiset(listed);
    assert ticker in Selected(stocks, wanted) <==> ticker in multiset(Selected(stocks, wanted));
  }

  datatype Summary = Summary(processed: nat, created: nat, updated: nat, reasons: nat, risks: nat)

  /** How many of the tickers have no score row yet, counting a repeated ticker once. */
  function Unscored(t: Tables, asOf: int, tickers: seq<string>): nat {
    |set x | x in tickers && Key(x, asOf) !in t.scores|
  }

  function RiskCount(t: Tables, asOf: int, tickers: seq<string>): nat {
    if tickers == [] then 0
    else
      RiskCount(t, asOf, tickers[..|tickers| - 1]) + |RowsOf(t.risks, Key(tickers[|tickers| - 1], asOf))|
  }

  ghost predicate AllAdmissible(t: Tables, asOf: int, tickers: seq<string>, facts: Snapshot) {
    forall x :: x in tickers ==> Admissible(RowsOf(t.risks, Key(x, asOf)), facts(x))
  }

  lemma RewrittenLength(key: Key, rows: seq<RiskRow>)
    ensures |Rewritten(key, RisksOf(rows))| == |rows|
  {
    assert |multiset(Sort(ByTag, rows))| == |multiset(rows)|;
  }

  lemma PassCounts(key: Key, facts: Facts, rows: seq<RiskRow>)
    ensures |ResultOf(key, facts, rows).reasons| == 3 && |RisksOf(rows)| == |rows|
  {
    assert |multiset(Sort(ByTag, rows))| == |multiset(rows)|;
  }

  /** Whether a ticker's input is admissible, and how many risks it has, do not depend on the passes made before. */
  lemma AdmissibleThroughout(t: Tables, asOf: int, done: seq<string>, facts: Snapshot, ticker: string)
    ensures var rows := RowsOf(MaterializeAll(t, asOf, done, facts).risks, Key(ticker, asOf));
            && Admissible(rows, facts(ticker)) == Admissible(RowsOf(t.risks, Key(ticker, asOf)), facts(ticker))
            && |rows| == |RowsOf(t.risks, Key(ticker, asOf))|
  {
    var key := Key(ticker, asOf);
    var rows := RowsOf(t.risks, key);
    BatchView(t, asOf, done, facts, key);
    RewrittenReadBack(key, rows);
    RewrittenLength(key, rows);
    assert ViewOf(MaterializeAll(t, asOf, done, facts), key).risks
        == if Touched(key, asOf, done) then Rewritten(key, RisksOf(rows)) else rows;
  }

  lemma {:induction false} ScoredThroughout(t: Tables, asOf: int, done: seq<string>, facts: Snapshot, key: Key)
    ensures key in MaterializeAll(t, asOf, done, facts).scores <==> key in t.scores || Touched(key, asOf, done)
  {
    BatchView(t, asOf, done, facts, key);
    var v := ViewOf(MaterializeAll(t, asOf, done, facts), key);
    assert v.score.Some? <==> key in MaterializeAll(t, asOf, done, facts).scores;
    assert ViewOf(t, key).score.Some? <==> key in t.scores;
  }

  lemma UnscoredStep(t: Tables, asOf: int, done: seq<string>, ticker: string)
    requires ticker !in done
    ensures Unscored(t, asOf, done + [ticker])
         == Unscored(t, asOf, done) + if Key(ticker, asOf) in t.scores then 0 else 1
  {
    var before := set x | x in done && Key(x, asOf) !in t.scores;
    var after := set x | x in done + [ticker] && Key(x, asOf) !in t.scores;
    assert after == if Key(ticker, asOf) in t.scores then before else before + {ticker};
  }

  /** After a run no ticker of it is unscored, so a second run creates none. */
  lemma SecondRunCreatesNone(t: Tables, asOf: int, tickers: seq<string>, facts: Snapshot)
    ensures Unscored(MaterializeAll(t, asOf, tickers, facts), asOf, tickers) == 0
  {
    forall x | x in tickers ensures Key(x, asOf) in MaterializeAll(t, asOf, tickers, facts).scores {
      ScoredThroughout(t, asOf, tickers, facts, Key(x, asOf));
    }
    assert (set x | x in tickers && Key(x, asOf) !in MaterializeAll(t, asOf, tickers, facts).scores) == {};
  }

  class RecommendationSession {
    var scores: map<Key, ScoreRow>
    var reasons: map<Key, seq<ReasonRow>>
    var risks: seq<RiskRow>
    var past: map<PastKey, ScoreRow>

    ghost function Contents(): Tables
      reads this
    {
      Tables(scores, reasons, risks, past)
    }

    constructor ()
      ensures Contents() == Tables(map[], map[], [], map[])
    {
      scores, reasons, risks, past := map[], map[], [], map[];
    }

    method UpsertScore(key: Key, result: ScoreResult, facts: Facts) returns (created: bool)
      modifies this`scores
      ensures scores == old(scores)[key := ScoreRowOf(result, facts)]
      ensures created == (key !in old(scores))
    {
      created := key !in scores;
      scores := scores[key := ScoreRowOf(result, facts)];
    }

    method ReplaceReasons(key: Key, result: ScoreResult, facts: Facts) returns (count: nat)
      modifies this`reasons
      ensures reasons == old(reasons)[key := ReasonRowsOf(key, result, facts)]
      ensures count == |result.reasons|
    {
      var was := reasons;
      reasons := reasons[key := []];
      var rows := ReasonRowsOf(key, result, facts);
      for i := 0 to |result.reasons|
        invariant reasons == was[key := rows[..i]]
      {
        var reason := result.reasons[i];
        assert rows[..i + 1] == rows[..i] + [rows[i]];
        assert reasons[key] == rows[..i];
        reasons := reasons[key := reasons[key] + [
          ReasonRow(i + 1, key, reason.component, reason.evidenceIds,
                    DocumentsOf(reason.evidenceIds, facts.documents))]];
      }
      assert rows[..|rows|] == rows;
      count := |result.reasons|;
    }

    method ReplaceRisks(key: Key, list: seq<Risk>) returns (count: nat)
      modifies this`risks
      ensures risks == Without(old(risks), key) + Rewritten(key, list)
      ensures count == |list|
    {
      risks := Without(risks, key);
      var kept := risks;
      for i := 0 to |list|
        invariant risks == kept + Rewritten(key, list)[..i]
      {
        risks := risks + [RiskRowOf(key, list[i])];
      }
      count := |list|;
    }

    /** The three writes of a pass. */
    method WritePass(key: Key, facts: Facts, result: ScoreResult, list: seq<Risk>)
      returns (created: bool, reasonCount: nat, riskCount: nat)
      modifies this`scores, this`reasons, this`risks
      ensures scores == old(scores)[key := ScoreRowOf(result, facts)]
      ensures reasons == old(reasons)[key := ReasonRowsOf(key, result, facts)]
      ensures risks == Without(old(risks), key) + Rewritten(key, list)
      ensures created == (key !in old(scores)) && reasonCount == |result.reasons| && riskCount == |list|
    {
      created := UpsertScore(key, result, facts);
      reasonCount := ReplaceReasons(key, result, facts);
      riskCount := ReplaceRisks(key, list);
    }

    /** One ticker of the loop; raises, leaving the tables alone, when the score input breaks its field constraints. */
    method MaterializeOne(key: Key, facts: Facts) returns (ok: bool, created: bool, reasonCount: nat, riskCount: nat)
      modifies this`scores, this`reasons, this`risks
      ensures ok == Admissible(old(RowsOf(risks, key)), facts)
      ensures ok ==> Contents() == Step(old(Contents()), key, facts)
      ensures ok ==> created == (key !in old(scores)) && reasonCount == 3 && riskCount == old(|RowsOf(risks, key)|)
      ensures !ok ==> Contents() == old(Contents())
    {
      var rows := RowsOf(risks, key);
      ok, created, reasonCount, riskCount := Admissible(rows, facts), false, 0, 0;
      if ok {
        PassCounts(key, facts, rows);
        created, reasonCount, riskCount := WritePass(key, facts, ResultOf(key, facts, rows), RisksOf(rows));
      }
    }

    /** The loop over the stocks; an inadmissible input stops it with None. */
    method MaterializeTickers(asOf: int, tickers: seq<string>, facts: Snapshot) returns (summary: Option<Summary>)
      requires Distinct(tickers)
      modifies this`scores, this`reasons, this`risks
      ensures summary.Some? <==> AllAdmissible(old(Contents()), asOf, tickers, facts)
      ensures summary.Some? ==>
                && Progress(old(Contents()), Contents(), asOf, tickers, facts,
                            summary.value.created, summary.value.risks)
                && summary.value.created + summary.value.updated == summary.value.processed == |tickers|
                && summary.value.reasons == 3 * |tickers|
    {
      ghost var was := Contents();
      var created, updated, reasonCount, riskCount := 0, 0, 0, 0;
      ghost var done: seq<string> := [];
      for i := 0 to |tickers|
        invariant done == tickers[..i]
        invariant Progress(was, Contents(), asOf, done, facts, created, riskCount)
        invariant created + updated == i && reasonCount == 3 * i
      {
        var ticker := tickers[i];
        NextTicker(was, Contents(), asOf, done, ticker, facts, created, riskCount);
        var ok, isNew, r, k := MaterializeOne(Key(ticker, asOf), facts(ticker));
        TakeOneMore(tickers, i);
        done := done + [ticker];
        if !ok {
          assert ticker in tickers;
          return None;
        }
        created := created + if isNew then 1 else 0;
        updated := updated + if isNew then 0 else 1;
        reasonCount, riskCount := reasonCount + r, riskCount + k;
      }
      TakeAll(tickers);
      return Some(Summary(|tickers|, created, updated, reasonCount, riskCount));
    }

    /** Scores the active stocks asked for. An inadmissible input raises and the transaction is rolled back. */
    method MaterializeRecommendationScores(asOf: int, stocks: seq<Stock>, wanted: Option<seq<string>>, facts: Snapshot)
      returns (summary: Option<Summary>)
      requires Distinct(ActiveTickers(stocks, wanted))
      modifies this`scores, this`reasons, this`risks
      ensures summary.Some? <==> AllAdmissible(old(Contents()), asOf, Selected(stocks, wanted), facts)
      ensures summary.None? ==> Contents() == old(Contents())
      ensures summary.Some? ==>
                var tickers, was := Selected(stocks, wanted), old(Contents());
                && Contents() == MaterializeAll(was, asOf, tickers, facts)
                && summary.value.created == Unscored(was, asOf, tickers)
                && summary.value.created + summary.value.updated == summary.value.processed == |tickers|
                && summary.value.reasons == 3 * |tickers|
                && summary.value.risks == RiskCount(was, asOf, tickers)
    {
      var savedScores, savedReasons, savedRisks := scores, reasons, risks;
      DistinctSorted(ActiveTickers(stocks, wanted));
      summary := MaterializeTickers(asOf, Selected(stocks, wanted), facts);
      if summary.None? {
        scores, reasons, risks := savedScores, savedReasons, savedRisks;
      }
    }
  }

  /** How far a run has come: the tickers done, all admissible, and the counts so far. */
  ghost predicate Progress(
      was: Tables, now: Tables, asOf: int, done: seq<string>, facts: Snapshot, created: int, riskCount: int) {
    && now == MaterializeAll(was, asOf, done, facts)
    && AllAdmissible(was, asOf, done, facts)
    && created == Unscored(was, asOf, done)
    && riskCount == RiskCount(was, asOf, done)
  }

  lemma NextTicker(
      was: Tables, now: Tables, asOf: int, done: seq<string>, ticker: string, facts: Snapshot, created: int,
      riskCount: int)
    requires ticker !in done && Progress(was, now, asOf, done, facts, created, riskCount)
    ensures var key, rows := Key(ticker, asOf), RowsOf(now.risks, Key(ticker, asOf));
            && Admissible(rows, facts(ticker)) == Admissible(RowsOf(was.risks, key), facts(ticker))
            && (Admissible(rows, facts(ticker)) ==>
                  Progress(was, Step(now, key, facts(ticker)), asOf, done + [ticker], facts,
                           created + (if key in now.scores then 0 else 1), riskCount + |rows|))
  {
    assert (done + [ticker])[..|done|] == done;
    AdmissibleThroughout(was, asOf, done, facts, ticker);
    ScoredThroughout(was, asOf, done, facts, Key(ticker, asOf));
    UnscoredStep(was, asOf, done, ticker);
  }
}
