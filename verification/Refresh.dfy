/** Refreshing score snapshots: one event scores a page of a stock universe, the tickers it names, or the tickers a
    provider batch fetched, and stamps the provider status on their score rows. */
module Refresh {
  import opened Prelude
  import opened Sorting
  import opened Engine
  import opened Materializer

  // ---- Universes and pages ----

  datatype Universe = All | TierA | TierB

  function DefaultLimit(universe: Universe): nat {
    if universe.TierA? then 100 else 300
  }

  /** The page size: the requested one when positive, else the universe's own, and never more than 300. */
  function LimitOf(requested: Option<int>, universe: Universe): (r: nat)
    ensures 1 <= r <= 300
    ensures requested.Some? && 1 <= requested.value <= 300 ==> r == requested.value
  {
    var limit := if requested.Some? && requested.value > 0 then requested.value else DefaultLimit(universe);
    if limit < 300 then limit else 300
  }

  function OffsetOf(requested: Option<int>): nat {
    if requested.Some? && requested.value >= 0 then requested.value else 0
  }

  /** A ticker's latest price row; the unique (ticker, date) constraint makes it one row at most. */
  datatype Quote = Quote(marketCap: Option<real>, tradingValue: Option<real>)

  type Quotes = map<string, Quote>

  function QuoteOf(quotes: Quotes, ticker: string): Quote {
    if ticker in quotes then quotes[ticker] else Quote(None, None)
  }

  /** Descending with nulls last. */
  predicate Above(a: Option<real>, b: Option<real>) {
    a.Some? && (b.None? || a.value > b.value)
  }

  predicate Ahead(quotes: Quotes, universe: Universe, a: string, b: string) {
    var p, q := QuoteOf(quotes, a), QuoteOf(quotes, b);
    if universe.All? then TextAtMost(a, b)
    else
      || Above(p.marketCap, q.marketCap)
      || (p.marketCap == q.marketCap && Above(p.tradingValue, q.tradingValue))
      || (p.marketCap == q.marketCap && p.tradingValue == q.tradingValue && TextAtMost(a, b))
  }

  function Order(quotes: Quotes, universe: Universe): (string, string) -> bool {
    (a, b) => Ahead(quotes, universe, a, b)
  }

  function InMarkets(stocks: seq<Stock>, markets: seq<string>): seq<string> {
    if stocks == [] then []
    else
      var last := stocks[|stocks| - 1];
      InMarkets(stocks[..|stocks| - 1], markets)
      + if last.active && (markets == [] || last.market in markets) then [last.ticker] else []
  }

  /** The whole universe in its order. */
  function Listing(stocks: seq<Stock>, markets: seq<string>, quotes: Quotes, universe: Universe): seq<string> {
    Sort(Order(quotes, universe), InMarkets(stocks, markets))
  }

  function Page(list: seq<string>, offset: nat, limit: nat): seq<string> {
    if offset >= |list| then []
    else if offset + limit <= |list| then list[offset..offset + limit]
    else list[offset..]
  }

  /** The pages a caller gets who starts at an offset and advances it by a fixed step until the list ends. */
  function Pages(list: seq<string>, offset: nat, step: nat, limit: nat): seq<seq<string>>
    requires step > 0
    decreases |list| - offset
  {
    if offset >= |list| then [] else [Page(list, offset, limit)] + Pages(list, offset + step, step, limit)
  }

  function Concat(pages: seq<seq<string>>): seq<string> {
    if pages == [] then [] else pages[0] + Concat(pages[1..])
  }

  lemma OrderIsTotal(quotes: Quotes, universe: Universe)
    ensures TotalPreorder(Order(quotes, universe)) && Antisymmetric(Order(quotes, universe))
  {
    var leq := Order(quotes, universe);
    forall a, b ensures leq(a, b) || leq(b, a) { TextTotal(a, b); }
    forall a, b | leq(a, b) && leq(b, a) ensures a == b { TextTotal(a, b); }
    forall a, b, c | leq(a, b) && leq(b, c) ensures leq(a, c) {
      if TextAtMost(a, b) && TextAtMost(b, c) { TextTransitive(a, b, c); }
    }
  }

  lemma {:induction false} InMarketsSplit(a: seq<Stock>, b: seq<Stock>, markets: seq<string>)
    ensures InMarkets(a + b, markets) == InMarkets(a, markets) + InMarkets(b, markets)
  {
    if b == [] {
      assert a + b == a;
    } else {
      InMarketsSplit(a, b[..|b| - 1], markets);
      DropLastOfSum(a, b);
    }
  }

  lemma InMarketsWithoutOne(a: seq<Stock>, i: nat, markets: seq<string>)
    requires i < |a|
    ensures multiset(InMarkets(a, markets))
         == multiset(InMarkets(a[..i] + a[i + 1..], markets)) + multiset(InMarkets([a[i]], markets))
  {
    assert a == a[..i] + [a[i]] + a[i + 1..];
    InMarketsSplit(a[..i] + [a[i]], a[i + 1..], markets);
    InMarketsSplit(a[..i], [a[i]], markets);
    InMarketsSplit(a[..i], a[i + 1..], markets);
  }

  lemma {:induction false} InMarketsIgnoresOrder(a: seq<Stock>, b: seq<Stock>, markets: seq<string>)
    requires multiset(a) == multiset(b)
    ensures multiset(InMarkets(a, markets)) == multiset(InMarkets(b, markets))
  {
    if a == [] {
      assert |multiset(b)| == 0;
    } else {
      var n := |a| - 1;
      var i := Match(a, b);
      InMarketsIgnoresOrder(a[..n], b[..i] + b[i + 1..], markets);
      InMarketsWithoutOne(a, n, markets);
      InMarketsWithoutOne(b, i, markets);
      assert a[..n] + a[n + 1..] == a[..n];
    }
  }

  /** The ordering is total, so every query sees the same listing whatever order the rows are stored in. */
  lemma ListingIgnoresRowOrder(a: seq<Stock>, b: seq<Stock>, markets: seq<string>, quotes: Quotes, universe: Universe)
    requires multiset(a) == multiset(b)
    ensures Listing(a, markets, quotes, universe) == Listing(b, markets, quotes, universe)
  {
    OrderIsTotal(quotes, universe);
    InMarketsIgnoresOrder(a, b, markets);
    SortSorted(Order(quotes, universe), InMarkets(a, markets));
    SortSorted(Order(quotes, universe), InMarkets(b, markets));
    SortedUnique(Order(quotes, universe), Listing(a, markets, quotes, universe), Listing(b, markets, quotes, universe));
  }

  lemma {:induction false} InMarketsExact(stocks: seq<Stock>, markets: seq<string>, ticker: string)
    ensures ticker in InMarkets(stocks, markets)
       <==> exists s :: s in stocks && s.active && s.ticker == ticker && (markets == [] || s.market in markets)
  {
    if stocks != [] {
      var n := |stocks| - 1;
      InMarketsExact(stocks[..n], markets, ticker);
      assert stocks == stocks[..n] + [stocks[n]];
    }
  }

  lemma ListingExact(stocks: seq<Stock>, markets: seq<string>, quotes: Quotes, universe: Universe, ticker: string)
    ensures ticker in Listing(stocks, markets, quotes, universe)
       <==> exists s :: s in stocks && s.active && s.ticker == ticker && (markets == [] || s.market in markets)
  {
    InMarketsExact(stocks, markets, ticker);
    var listed, all := InMarkets(stocks, markets), Listing(stocks, markets, quotes, universe);
    assert ticker in listed <==> ticker in multiset(listed);
    assert ticker in all <==> ticker in multiset(all);
  }

  /** Which page an event gets: of the size it asks for up to 300, and without a positive size of 100 for tier A and of
      300 for the others; from the offset it asks for, and without a non-negative one from the start. */
  lemma PageIsExact(selector: Selector, stocks: seq<Stock>, quotes: Quotes)
    ensures var list := Listing(stocks, selector.markets, quotes, selector.universe);
            var size := if selector.limit.None? || selector.limit.value <= 0 then
                          (if selector.universe == TierA then 100 else 300)
                        else if selector.limit.value >= 300 then 300 else selector.limit.value;
            var start := if selector.offset.None? || selector.offset.value < 0 then 0 else selector.offset.value;
            IsPage(PageOf(selector, stocks, quotes), list, start, size)
  {
    PageIsPage(Listing(stocks, selector.markets, quotes, selector.universe), OffsetOf(selector.offset),
               LimitOf(selector.limit, selector.universe));
  }

  /** The elements from a start on, as many as the size or as there are. */
  ghost predicate IsPage(page: seq<string>, list: seq<string>, start: nat, size: nat) {
    && |page| == (if start >= |list| then 0 else if |list| - start < size then |list| - start else size)
    && forall i :: 0 <= i < |page| ==> page[i] == list[start + i]
  }

  lemma PageIsPage(list: seq<string>, start: nat, size: nat)
    ensures IsPage(Page(list, start, size), list, start, size)
  {}

  function CapOf(quotes: Quotes, ticker: string): Option<real> {
    if ticker in quotes then quotes[ticker].marketCap else None
  }

  function TradingOf(quotes: Quotes, ticker: string): Option<real> {
    if ticker in quotes then quotes[ticker].tradingValue else None
  }

  /** Any listing of one universe, on the quotes themselves: by ticker for all stocks; for a tier by capitalisation,
      then trading value, largest first and unknown ones last, and then by ticker. */
  lemma ListingOrderIsExact(
      stocks: seq<Stock>, markets: seq<string>, quotes: Quotes, universe: Universe, i: nat, j: nat)
    requires i < j < |Listing(stocks, markets, quotes, universe)|
    ensures var list := Listing(stocks, markets, quotes, universe);
            var capA, capB := CapOf(quotes, list[i]), CapOf(quotes, list[j]);
            var valueA, valueB := TradingOf(quotes, list[i]), TradingOf(quotes, list[j]);
            && (universe == All ==> TextAtMost(list[i], list[j]))
            && (universe != All && capA != capB ==> capA.Some? && (capB.Some? ==> capA.value > capB.value))
            && (universe != All && capA == capB && valueA != valueB ==>
                  valueA.Some? && (valueB.Some? ==> valueA.value > valueB.value))
            && (universe != All && capA == capB && valueA == valueB ==> TextAtMost(list[i], list[j]))
  {
    OrderIsTotal(quotes, universe);
    SortSorted(Order(quotes, universe), InMarkets(stocks, markets));
    var list := Listing(stocks, markets, quotes, universe);
    assert Order(quotes, universe)(list[i], list[j]);
  }

  // ---- When paging visits every stock exactly once ----

  lemma {:induction false} PagesTile(list: seq<string>, offset: nat, limit: nat)
    requires limit > 0 && offset <= |list|
    ensures Concat(Pages(list, offset, limit, limit)) == list[offset..]
    decreases |list| - offset
  {
    if offset < |list| {
      var pages := Pages(list, offset, limit, limit);
      assert pages[1..] == Pages(list, offset + limit, limit, limit);
      if offset + limit <= |list| {
        PagesTile(list, offset + limit, limit);
        assert list[offset..] == list[offset..offset + limit] + list[offset + limit..];
      }
    }
  }

  lemma {:induction false} PagesFrom(list: seq<string>, offset: nat, step: nat, limit: nat, x: string)
    requires step > 0 && x in Concat(Pages(list, offset, step, limit))
    ensures exists i :: offset <= i < |list| && list[i] == x
    decreases |list| - offset
  {
    if offset < |list| {
      var pages := Pages(list, offset, step, limit);
      assert pages[1..] == Pages(list, offset + step, step, limit);
      if x !in Page(list, offset, limit) { PagesFrom(list, offset + step, step, limit, x); }
    }
  }

  lemma FirstPages(list: seq<string>, step: nat, limit: nat)
    requires step > 0 && |list| > 0
    ensures Concat(Pages(list, 0, step, limit))
         == Page(list, 0, limit) + Concat(Pages(list, step, step, limit))
  {
    assert Pages(list, 0, step, limit)[1..] == Pages(list, step, step, limit);
  }

  /** Advancing the offset by a step visits every listed stock exactly once if and only if the step is the page size, or
      the whole list fits within both. */
  lemma PagingIsExact(list: seq<string>, step: nat, limit: nat)
    requires step > 0 && limit > 0 && Distinct(list)
    ensures multiset(Concat(Pages(list, 0, step, limit))) == multiset(list)
       <==> step == limit || |list| <= (if step < limit then step else limit)
  {
    var n, all := |list|, Concat(Pages(list, 0, step, limit));
    if step == limit {
      PagesTile(list, 0, limit);
    } else if n == 0 {
    } else if n <= step && n <= limit {
      FirstPages(list, step, limit);
      assert all == list;
    } else if step < limit {
      FirstPages(list, step, limit);
      StepTooShort(list, step, limit);
    } else {
      FirstPages(list, step, limit);
      StepTooLong(list, step, limit);
    }
  }

  lemma StepTooShort(list: seq<string>, step: nat, limit: nat)
    requires 0 < step < limit && step < |list| && Distinct(list)
    ensures multiset(Page(list, 0, limit) + Concat(Pages(list, step, step, limit))) != multiset(list)
  {
    var first, rest := Page(list, 0, limit), Concat(Pages(list, step, step, limit));
    var x := list[step];
    assert first[step] == x;
    assert Page(list, step, limit)[0] == x;
    assert x in rest;
    DistinctCounts(list);
    assert multiset(first + rest)[x] == multiset(first)[x] + multiset(rest)[x];
    assert multiset(list)[x] <= 1;
  }

  lemma StepTooLong(list: seq<string>, step: nat, limit: nat)
    requires 0 < limit < step && limit < |list| && Distinct(list)
    ensures multiset(Page(list, 0, limit) + Concat(Pages(list, step, step, limit))) != multiset(list)
  {
    var first, rest := Page(list, 0, limit), Concat(Pages(list, step, step, limit));
    var x := list[limit];
    assert x !in first;
    if x in rest {
      PagesFrom(list, step, step, limit, x);
      assert false;
    }
    assert x in multiset(list) && x !in multiset(first + rest);
  }

  /** A caller who asks for pages of some size and advances by it misses stocks exactly when it asks for more than 300
      of a longer list: the page is silently cut to 300. */
  lemma RequestedSizeIsExact(list: seq<string>, requested: nat, universe: Universe)
    requires requested > 0 && Distinct(list)
    ensures multiset(Concat(Pages(list, 0, requested, LimitOf(Some(requested), universe)))) == multiset(list)
       <==> requested <= 300 || |list| <= 300
  {
    PagingIsExact(list, requested, LimitOf(Some(requested), universe));
  }

  // ---- Stamping provider statuses ----

  type Statuses = map<string, string>

  const STALE: Statuses := map["refresh_operation" := "stale"]

  function Stamped(row: ScoreRow, statuses: Statuses): ScoreRow {
    row.(providers := row.providers + statuses)
  }

  function StampAll<K(==)>(rows: map<K, ScoreRow>, chosen: set<K>, statuses: Statuses): map<K, ScoreRow> {
    map key | key in rows :: if key in chosen then Stamped(rows[key], statuses) else rows[key]
  }

  predicate IsStamped(key: Key, asOf: int, tickers: seq<string>) {
    key.asOf == asOf && key.ticker in tickers
  }

  function Stampable(scores: map<Key, ScoreRow>, asOf: int, tickers: seq<string>): set<Key> {
    set key | key in scores && IsStamped(key, asOf, tickers)
  }

  function PastStampable(past: map<PastKey, ScoreRow>, asOf: int, tickers: seq<string>): set<PastKey> {
    set row | row in past && IsStamped(row.key, asOf, tickers)
  }

  /** Stamps the day's scores of the tickers: those of the current version, or those of every version. */
  function Annotate(t: Tables, asOf: int, tickers: seq<string>, statuses: Statuses, everyVersion: bool): Tables {
    t.(scores := StampAll(t.scores, Stampable(t.scores, asOf, tickers), statuses),
       past := if everyVersion then StampAll(t.past, PastStampable(t.past, asOf, tickers), statuses) else t.past)
  }

  /** A stamp puts the given statuses over the row's own and changes nothing else. */
  lemma StampSays(row: ScoreRow, statuses: Statuses)
    ensures var stamped := Stamped(row, statuses);
            && stamped.providers.Keys == row.providers.Keys + statuses.Keys
            && (forall p :: p in statuses ==> stamped.providers[p] == statuses[p])
            && (forall p :: p in row.providers && p !in statuses ==> stamped.providers[p] == row.providers[p])
            && stamped.(providers := row.providers) == row
  {}

  function StampedView(v: View, statuses: Statuses): View {
    if v.score.None? then v else v.(score := Some(Stamped(v.score.value, statuses)))
  }

  lemma AnnotateView(t: Tables, asOf: int, tickers: seq<string>, statuses: Statuses, everyVersion: bool, key: Key)
    ensures ViewOf(Annotate(t, asOf, tickers, statuses, everyVersion), key)
         == if Touched(key, asOf, tickers) then StampedView(ViewOf(t, key), statuses) else ViewOf(t, key)
  {}

  /** One page's refresh: materialise its stocks, by ticker, and stamp them. */
  function RefreshPage(
      t: Tables, stocks: seq<Stock>, asOf: int, page: seq<string>, statuses: Statuses, facts: Snapshot): Tables
  {
    Annotate(MaterializeAll(t, asOf, Selected(stocks, Some(page)), facts), asOf, page, statuses, false)
  }

  /** What one page's refresh makes of a view. */
  function Refreshed(v: View, key: Key, statuses: Statuses, facts: Facts): View {
    StampedView(Renew(v, key, facts), statuses)
  }

  ghost predicate Listed(page: seq<string>, stocks: seq<Stock>) {
    forall x :: x in page ==> exists s :: s in stocks && s.active && s.ticker == x
  }

  lemma RefreshPageView(
      t: Tables, stocks: seq<Stock>, asOf: int, page: seq<string>, statuses: Statuses, facts: Snapshot, key: Key)
    requires Listed(page, stocks)
    ensures ViewOf(RefreshPage(t, stocks, asOf, page, statuses, facts), key)
         == if Touched(key, asOf, page) then Refreshed(ViewOf(t, key), key, statuses, facts(key.ticker))
            else ViewOf(t, key)
  {
    var chosen := Selected(stocks, Some(page));
    SelectedExact(stocks, Some(page), key.ticker);
    BatchView(t, asOf, chosen, facts, key);
    AnnotateView(MaterializeAll(t, asOf, chosen, facts), asOf, page, statuses, false, key);
  }

  /** Renewing reads only the risks, so a stamp does not survive it and a second refresh changes nothing. */
  lemma RefreshedTwice(v: View, key: Key, statuses: Statuses, facts: Facts)
    ensures Refreshed(Refreshed(v, key, statuses, facts), key, statuses, facts) == Refreshed(v, key, statuses, facts)
  {
    RenewTwice(v, key, facts);
    assert Renew(Refreshed(v, key, statuses, facts), key, facts) == Renew(Renew(v, key, facts), key, facts);
  }

  function RefreshPages(
      t: Tables, stocks: seq<Stock>, asOf: int, pages: seq<seq<string>>, statuses: Statuses, facts: Snapshot): Tables
    decreases |pages|
  {
    if pages == [] then t
    else RefreshPages(RefreshPage(t, stocks, asOf, pages[0], statuses, facts),
                      stocks, asOf, pages[1..], statuses, facts)
  }

  lemma RefreshedOnce(
      v: View, middle: View, key: Key, statuses: Statuses, facts: Facts, before: bool, now: bool)
    requires middle == if before then Refreshed(v, key, statuses, facts) else v
    ensures (if now then Refreshed(middle, key, statuses, facts) else middle)
         == if before || now then Refreshed(v, key, statuses, facts) else v
  {
    RefreshedTwice(v, key, statuses, facts);
  }

  lemma {:induction false} RefreshPagesView(
      t: Tables, stocks: seq<Stock>, asOf: int, pages: seq<seq<string>>, statuses: Statuses, facts: Snapshot, key: Key)
    requires forall p :: p in pages ==> Listed(p, stocks)
    ensures ViewOf(RefreshPages(t, stocks, asOf, pages, statuses, facts), key)
         == if Touched(key, asOf, Concat(pages)) then Refreshed(ViewOf(t, key), key, statuses, facts(key.ticker))
            else ViewOf(t, key)
    decreases |pages|
  {
    if pages != [] {
      var next := RefreshPage(t, stocks, asOf, pages[0], statuses, facts);
      RefreshPageView(t, stocks, asOf, pages[0], statuses, facts, key);
      RefreshPagesView(next, stocks, asOf, pages[1..], statuses, facts, key);
      RefreshedOnce(ViewOf(t, key), ViewOf(next, key), key, statuses, facts(key.ticker),
                    Touched(key, asOf, pages[0]), Touched(key, asOf, Concat(pages[1..])));
    }
  }

  lemma {:induction false} PagesListed(list: seq<string>, offset: nat, step: nat, limit: nat, stocks: seq<Stock>)
    requires step > 0 && Listed(list, stocks)
    ensures forall p :: p in Pages(list, offset, step, limit) ==> Listed(p, stocks)
    decreases |list| - offset
  {
    if offset < |list| {
      PagesListed(list, offset + step, step, limit, stocks);
      var page := Page(list, offset, limit);
      forall x | x in page ensures x in list {}
      assert Pages(list, offset, step, limit) == [page] + Pages(list, offset + step, step, limit);
    }
  }

  lemma {:induction false} PagesKeepPast(
      t: Tables, stocks: seq<Stock>, asOf: int, pages: seq<seq<string>>, statuses: Statuses, facts: Snapshot)
    ensures RefreshPages(t, stocks, asOf, pages, statuses, facts).past == t.past
    decreases |pages|
  {
    if pages != [] {
      PastKept(t, asOf, Selected(stocks, Some(pages[0])), facts);
      PagesKeepPast(RefreshPage(t, stocks, asOf, pages[0], statuses, facts), stocks, asOf, pages[1..], statuses, facts);
    }
  }

  /** Refreshing pages that make up a list leaves the rows of refreshing the list in one go. */
  lemma PagesAreWhole(
      t: Tables, stocks: seq<Stock>, asOf: int, pages: seq<seq<string>>, list: seq<string>, statuses: Statuses,
      facts: Snapshot)
    requires Concat(pages) == list && Listed(list, stocks) && forall p :: p in pages ==> Listed(p, stocks)
    ensures SameRows(RefreshPages(t, stocks, asOf, pages, statuses, facts),
                     RefreshPage(t, stocks, asOf, list, statuses, facts))
  {
    var paged, whole := RefreshPages(t, stocks, asOf, pages, statuses, facts),
                        RefreshPage(t, stocks, asOf, list, statuses, facts);
    forall key ensures ViewOf(paged, key) == ViewOf(whole, key) {
      RefreshPagesView(t, stocks, asOf, pages, statuses, facts, key);
      RefreshPageView(t, stocks, asOf, list, statuses, facts, key);
    }
    PagesKeepPast(t, stocks, asOf, pages, statuses, facts);
    PastKept(t, asOf, Selected(stocks, Some(list)), facts);
    SameViewsSameRows(paged, whole);
  }

  lemma ListingListed(stocks: seq<Stock>, markets: seq<string>, quotes: Quotes, universe: Universe)
    ensures Listed(Listing(stocks, markets, quotes, universe), stocks)
  {
    forall x | x in Listing(stocks, markets, quotes, universe)
      ensures exists s :: s in stocks && s.active && s.ticker == x {
      ListingExact(stocks, markets, quotes, universe, x);
    }
  }

  /** Pages of a size up to 300, or of a list no longer than that, make up the list. */
  lemma PagesMakeList(list: seq<string>, requested: nat, universe: Universe)
    requires requested > 0 && (requested <= 300 || |list| <= 300)
    ensures Concat(Pages(list, 0, requested, LimitOf(Some(requested), universe))) == list
  {
    var limit := LimitOf(Some(requested), universe);
    if requested <= 300 {
      PagesTile(list, 0, limit);
    } else if list != [] {
      FirstPages(list, requested, limit);
    }
  }

  /** Over all markets the whole refresh is the full materialisation with every score of the day's active stocks
      stamped. */
  lemma WholeRefreshIsFullMaterialisation(
      t: Tables, stocks: seq<Stock>, quotes: Quotes, universe: Universe, asOf: int, statuses: Statuses, facts: Snapshot)
    ensures var list := Listing(stocks, [], quotes, universe);
            SameRows(RefreshPage(t, stocks, asOf, list, statuses, facts),
                     Annotate(MaterializeAll(t, asOf, Selected(stocks, None), facts), asOf, list, statuses, false))
  {
    var list := Listing(stocks, [], quotes, universe);
    var some, every := Selected(stocks, Some(list)), Selected(stocks, None);
    var whole, full := RefreshPage(t, stocks, asOf, list, statuses, facts),
                       Annotate(MaterializeAll(t, asOf, every, facts), asOf, list, statuses, false);
    forall x ensures x in some <==> x in every {
      SelectedExact(stocks, Some(list), x);
      SelectedExact(stocks, None, x);
      ListingExact(stocks, [], quotes, universe, x);
    }
    forall key ensures ViewOf(whole, key) == ViewOf(full, key) {
      BatchView(t, asOf, some, facts, key);
      BatchView(t, asOf, every, facts, key);
      AnnotateView(MaterializeAll(t, asOf, some, facts), asOf, list, statuses, false, key);
      AnnotateView(MaterializeAll(t, asOf, every, facts), asOf, list, statuses, false, key);
    }
    PastKept(t, asOf, some, facts);
    PastKept(t, asOf, every, facts);
    SameViewsSameRows(whole, full);
  }

  // ---- One refresh event ----

  datatype ItemStatus = Succeeded | Replayed | Failed | PartialFailed | InProgress

  datatype Item = Item(ticker: string, status: ItemStatus)

  /** What a provider batch reported, and the tickers that were asked of it. */
  datatype Ingestion = Ingestion(provider: string, ok: bool, results: seq<Item>, requested: seq<string>)

  datatype Selector = Selector(universe: Universe, markets: seq<string>, limit: Option<int>, offset: Option<int>)

  datatype Event = Event(asOf: int, ingestion: Option<Ingestion>, tickers: seq<string>, selector: Option<Selector>)

  method UniqueTickers(tickers: seq<string>) returns (unique: seq<string>)
    ensures unique == Unique(tickers)
  {
    var seen: set<string> := {};
    unique := [];
    for i := 0 to |tickers|
      invariant unique == Unique(tickers[..i])
      invariant forall x :: x in seen <==> x in tickers[..i]
    {
      TakeOneMore(tickers, i);
      assert (tickers[..i] + [tickers[i]])[..i] == tickers[..i];
      if tickers[i] in seen { continue; }
      seen := seen + {tickers[i]};
      unique := unique + [tickers[i]];
    }
    TakeAll(tickers);
  }

  predicate IsSuccess(status: ItemStatus) { status.Succeeded? || status.Replayed? }

  predicate IsFailure(status: ItemStatus) { status.Failed? || status.PartialFailed? }

  function TickersWith(items: seq<Item>, keep: ItemStatus -> bool): seq<string> {
    if items == [] then []
    else
      var last := items[|items| - 1];
      TickersWith(items[..|items| - 1], keep)
      + if keep(last.status) && last.ticker != "" then [last.ticker] else []
  }

  /** The status a provider batch earns. */
  function ProviderStatus(ingestion: Ingestion): string {
    var failed, successful := TickersWith(ingestion.results, IsFailure), TickersWith(ingestion.results, IsSuccess);
    if failed != [] && successful != [] then "partial_failed"
    else if failed != [] || !ingestion.ok then "failed"
    else "success"
  }

  function StatusesOf(event: Event): Statuses {
    if event.ingestion.Some? then
      var ingestion := event.ingestion.value;
      map[ingestion.provider := ProviderStatus(ingestion)]
    else map["refresh_operation" := "stale"]
  }

  /** The worst status of all providers. */
  function Aggregate(statuses: Statuses): string {
    if "failed" in statuses.Values then "failed"
    else if "partial_failed" in statuses.Values then "partial_failed"
    else if "stale" in statuses.Values then "stale"
    else "success"
  }

  function PageOf(selector: Selector, stocks: seq<Stock>, quotes: Quotes): seq<string> {
    Page(Listing(stocks, selector.markets, quotes, selector.universe), OffsetOf(selector.offset),
         LimitOf(selector.limit, selector.universe))
  }

  /** The selector is looked at only when the event has neither a provider nor tickers. */
  predicate IsBatch(event: Event) {
    event.ingestion.None? && event.tickers == [] && event.selector.Some?
  }

  function RefreshTickers(event: Event, stocks: seq<Stock>, quotes: Quotes): seq<string> {
    if event.ingestion.Some? then TickersWith(event.ingestion.value.results, IsSuccess)
    else if IsBatch(event) then PageOf(event.selector.value, stocks, quotes)
    else Unique(event.tickers)
  }

  /** The tickers asked of the materialiser; None asks for every active stock. */
  function Wanted(event: Event, stocks: seq<Stock>, quotes: Quotes): Option<seq<string>> {
    var tickers := RefreshTickers(event, stocks, quotes);
    if IsBatch(event) || tickers != [] then Some(tickers) else None
  }

  /** A provider batch without a success scores nothing. */
  predicate Skips(event: Event) {
    event.ingestion.Some? && TickersWith(event.ingestion.value.results, IsSuccess) == []
  }

  function StampTickers(event: Event, stocks: seq<Stock>, quotes: Quotes): seq<string> {
    var tickers := RefreshTickers(event, stocks, quotes);
    if tickers == [] && event.ingestion.Some? then Unique(event.ingestion.value.requested) else tickers
  }

  datatype Report = Report(ok: bool, processed: nat, annotated: nat, providerStatus: string)

  lemma StampOne<K>(rows: map<K, ScoreRow>, chosen: set<K>, todo: set<K>, key: K, statuses: Statuses)
    requires key in todo && todo <= chosen <= rows.Keys
    ensures var before := StampAll(rows, chosen - todo, statuses);
            before[key := Stamped(before[key], statuses)] == StampAll(rows, chosen - (todo - {key}), statuses)
  {}

  /** No tickers or no statuses: nothing is stamped. */
  lemma StampNone(t: Tables, asOf: int, tickers: seq<string>, statuses: Statuses, everyVersion: bool)
    requires tickers == [] || statuses == map[]
    ensures Annotate(t, asOf, tickers, statuses, everyVersion) == t
  {
    EmptyStamp(t.scores, Stampable(t.scores, asOf, tickers), statuses);
    EmptyStamp(t.past, PastStampable(t.past, asOf, tickers), statuses);
  }

  lemma EmptyStamp<K>(rows: map<K, ScoreRow>, chosen: set<K>, statuses: Statuses)
    requires chosen == {} || statuses == map[]
    ensures StampAll(rows, chosen, statuses) == rows
  {
    forall key | key in rows ensures Stamped(rows[key], map[]) == rows[key] {
      assert rows[key].providers + map[] == rows[key].providers;
    }
  }

  /** How many rows are stamped. */
  function StampCount(t: Tables, asOf: int, tickers: seq<string>, statuses: Statuses, everyVersion: bool): nat {
    if statuses == map[] then 0
    else |Stampable(t.scores, asOf, tickers)| + if everyVersion then |PastStampable(t.past, asOf, tickers)| else 0
  }

  lemma CountKept(t: Tables, asOf: int, tickers: seq<string>, statuses: Statuses, everyVersion: bool)
    ensures StampCount(Annotate(t, asOf, tickers, statuses, everyVersion), asOf, tickers, statuses, everyVersion)
         == StampCount(t, asOf, tickers, statuses, everyVersion)
  {
    var after := Annotate(t, asOf, tickers, statuses, everyVersion);
    assert Stampable(after.scores, asOf, tickers) == Stampable(t.scores, asOf, tickers);
    assert PastStampable(after.past, asOf, tickers) == PastStampable(t.past, asOf, tickers);
  }

  /** What an event makes of the tables. A skipped materialisation names no score version, so every version is
      stamped. */
  function AfterEvent(t: Tables, event: Event, stocks: seq<Stock>, quotes: Quotes, facts: Snapshot): Tables {
    var scored := if Skips(event) then t
                  else MaterializeAll(t, event.asOf, Selected(stocks, Wanted(event, stocks, quotes)), facts);
    Annotate(scored, event.asOf, StampTickers(event, stocks, quotes), StatusesOf(event), Skips(event))
  }

  lemma StatusesNotEmpty(event: Event)
    ensures StatusesOf(event) != map[]
  {
    assert (if event.ingestion.Some? then event.ingestion.value.provider else "refresh_operation") in StatusesOf(event);
  }

  class ScoreRefreshService {
    const session: RecommendationSession

    constructor (session: RecommendationSession)
      ensures this.session == session
    {
      this.session := session;
    }

    method StampRows<K(==)>(rows: map<K, ScoreRow>, chosen: set<K>, statuses: Statuses)
      returns (stamped: map<K, ScoreRow>)
      requires chosen <= rows.Keys
      ensures stamped == StampAll(rows, chosen, statuses)
    {
      stamped := rows;
      EmptyStamp(rows, {}, statuses);
      var todo := chosen;
      assert chosen - todo == {};
      while todo != {}
        invariant todo <= chosen
        invariant stamped == StampAll(rows, chosen - todo, statuses)
      {
        var key :| key in todo;
        StampOne(rows, chosen, todo, key, statuses);
        stamped := stamped[key := Stamped(stamped[key], statuses)];
        todo := todo - {key};
      }
      assert chosen - todo == chosen;
    }

    /** Without a score version to filter by, the rows of every version are stamped. */
    method AnnotateScoreProviderFreshness(asOf: int, tickers: seq<string>, statuses: Statuses, everyVersion: bool)
      returns (count: nat)
      modifies session`scores, session`past
      ensures session.Contents() == Annotate(old(session.Contents()), asOf, tickers, statuses, everyVersion)
      ensures count == StampCount(old(session.Contents()), asOf, tickers, statuses, everyVersion)
    {
      ghost var was := session.Contents();
      if tickers == [] || statuses == map[] {
        StampNone(was, asOf, tickers, statuses, everyVersion);
        assert tickers == [] ==>
          Stampable(was.scores, asOf, tickers) == {} && PastStampable(was.past, asOf, tickers) == {};
        return 0;
      }
      var unique := UniqueTickers(tickers);
      var chosen := Stampable(session.scores, asOf, unique);
      assert chosen == Stampable(was.scores, asOf, tickers);
      session.scores := StampRows(session.scores, chosen, statuses);
      count := |chosen|;
      if everyVersion {
        var others := PastStampable(session.past, asOf, unique);
        assert others == PastStampable(was.past, asOf, tickers);
        session.past := StampRows(session.past, others, statuses);
        count := count + |others|;
      }
    }

    /** One event. None when an inadmissible input raised, which leaves the tables as they were. */
    method RefreshScoreSnapshots(event: Event, stocks: seq<Stock>, quotes: Quotes, facts: Snapshot)
      returns (report: Option<Report>)
      requires Distinct(ActiveTickers(stocks, Wanted(event, stocks, quotes)))
      modifies session
      ensures report.None? ==> session.Contents() == old(session.Contents())
      ensures report.Some?
         <==> Skips(event)
              || AllAdmissible(old(session.Contents()), event.asOf,
                               Selected(stocks, Wanted(event, stocks, quotes)), facts)
      ensures report.Some? ==>
                && session.Contents() == AfterEvent(old(session.Contents()), event, stocks, quotes, facts)
                && report.value.providerStatus == Aggregate(StatusesOf(event))
                && report.value.processed
                     == (if Skips(event) then 0 else |Selected(stocks, Wanted(event, stocks, quotes))|)
                && report.value.annotated
                     == StampCount(session.Contents(), event.asOf, StampTickers(event, stocks, quotes),
                                 StatusesOf(event),
                                   Skips(event))
                && report.value.ok ==
                   (report.value.providerStatus in {"success", "stale"} && report.value.processed > 0)
    {
      var statuses := StatusesOf(event);
      StatusesNotEmpty(event);
      var done, processed, annotated :=
        ScoreAndStamp(event.asOf, Skips(event), stocks, Wanted(event, stocks, quotes),
                      StampTickers(event, stocks, quotes), statuses, facts);
      if !done { return None; }
      var status := Aggregate(statuses);
      return Some(Report(status in {"success", "stale"} && processed > 0, processed, annotated, status));
    }

    /** Materialises unless told to skip, then stamps. */
    method ScoreAndStamp(
        asOf: int, skip: bool, stocks: seq<Stock>, wanted: Option<seq<string>>, stamp: seq<string>, statuses: Statuses,
        facts: Snapshot)
      returns (done: bool, processed: nat, annotated: nat)
      requires Distinct(ActiveTickers(stocks, wanted)) && statuses != map[]
      modifies session
      ensures done == (skip || AllAdmissible(old(session.Contents()), asOf, Selected(stocks, wanted), facts))
      ensures !done ==> session.Contents() == old(session.Contents())
      ensures done ==>
                var scored := if skip then old(session.Contents())
                              else MaterializeAll(old(session.Contents()), asOf, Selected(stocks, wanted), facts);
                && session.Contents() == Annotate(scored, asOf, stamp, statuses, skip)
                && processed == (if skip then 0 else |Selected(stocks, wanted)|)
                && annotated == StampCount(session.Contents(), asOf, stamp, statuses, skip)
    {
      done, processed, annotated := true, 0, 0;
      if !skip {
        var summary := session.MaterializeRecommendationScores(asOf, stocks, wanted, facts);
        if summary.None? { return false, 0, 0; }
        processed := summary.value.processed;
      }
      CountKept(session.Contents(), asOf, stamp, statuses, skip);
      annotated := AnnotateScoreProviderFreshness(asOf, stamp, statuses, skip);
    }
  }

  lemma {:induction false} TickersWithExact(items: seq<Item>, keep: ItemStatus -> bool, x: string)
    ensures x in TickersWith(items, keep) <==> x != "" && exists i :: i in items && keep(i.status) && i.ticker == x
  {
    if items != [] {
      var n := |items| - 1;
      TickersWithExact(items[..n], keep, x);
      assert items == items[..n] + [items[n]];
    }
  }

  /** A provider event counts as successful exactly when the batch did not fail as a whole and no named ticker failed;
      without a provider the status is never worse than stale. */
  lemma StatusIsExact(event: Event)
    ensures Aggregate(StatusesOf(event)) in {"success", "stale"}
       <==> (event.ingestion.Some? ==>
               event.ingestion.value.ok
               && forall i :: i in event.ingestion.value.results && IsFailure(i.status) ==> i.ticker == "")
  {
    if event.ingestion.Some? {
      var ingestion := event.ingestion.value;
      var failed := TickersWith(ingestion.results, IsFailure);
      var statuses := StatusesOf(event);
      assert statuses[ingestion.provider] in statuses.Values;
      assert statuses.Values == {ProviderStatus(ingestion)};
      forall i | i in ingestion.results && IsFailure(i.status) ensures i.ticker == "" || i.ticker in failed {
        TickersWithExact(ingestion.results, IsFailure, i.ticker);
      }
      if failed != [] { TickersWithExact(ingestion.results, IsFailure, failed[0]); }
    } else {
      assert StatusesOf(event)["refresh_operation"] in StatusesOf(event).Values;
      assert StatusesOf(event).Values == {"stale"};
    }
  }

  /** The item says that its ticker was ingested, now or before. */
  ghost predicate Ingested(event: Event, ticker: string) {
    event.ingestion.Some? && ticker != ""
    && exists i :: i in event.ingestion.value.results && i.ticker == ticker && i.status in {Succeeded, Replayed}
  }

  ghost predicate ActiveIn(stocks: seq<Stock>, ticker: string) {
    exists s :: s in stocks && s.active && s.ticker == ticker
  }

  /** Scored anew if the stock is active. */
  ghost function Rescored(before: View, stocks: seq<Stock>, key: Key, facts: Snapshot): View {
    if ActiveIn(stocks, key.ticker) then Renew(before, key, facts(key.ticker)) else before
  }

  /** What a provider event makes of every row: an ingested ticker - replayed ones too - is scored anew if its stock is
      active, and stamped; when nothing was ingested nothing is scored, and the tickers asked for are stamped; every
      other ticker and date is left alone. */
  lemma ProviderEventIsExact(
      t: Tables, event: Event, stocks: seq<Stock>, quotes: Quotes, facts: Snapshot, key: Key)
    requires event.ingestion.Some?
    ensures var before, after := ViewOf(t, key), ViewOf(AfterEvent(t, event, stocks, quotes, facts), key);
            after == if key.asOf != event.asOf then before
                     else if Ingested(event, key.ticker) then
                       StampedView(Rescored(before, stocks, key, facts), StatusesOf(event))
                     else if (forall x :: !Ingested(event, x)) && key.ticker in event.ingestion.value.requested then
                       StampedView(before, StatusesOf(event))
                     else before
  {
    IngestedParts(event, stocks, quotes);
    SelectedExact(stocks, Wanted(event, stocks, quotes), key.ticker);
    EventView(t, event, stocks, quotes, facts, key, Selected(stocks, Wanted(event, stocks, quotes)),
              StampTickers(event, stocks, quotes), StatusesOf(event));
  }

  /** The tickers of a provider event: those ingested are wanted and stamped; without any none is scored, and those
      asked for are stamped. */
  lemma IngestedParts(event: Event, stocks: seq<Stock>, quotes: Quotes)
    requires event.ingestion.Some?
    ensures Skips(event) <==> forall x :: !Ingested(event, x)
    ensures !Skips(event) ==>
              && Wanted(event, stocks, quotes).Some?
              && StampTickers(event, stocks, quotes) == Wanted(event, stocks, quotes).value
              && forall x :: x in StampTickers(event, stocks, quotes) <==> Ingested(event, x)
    ensures Skips(event) ==>
              forall x :: x in StampTickers(event, stocks, quotes) <==> x in event.ingestion.value.requested
  {
    var tickers := RefreshTickers(event, stocks, quotes);
    forall x ensures x in tickers <==> Ingested(event, x) {
      TickersWithExact(event.ingestion.value.results, IsSuccess, x);
    }
    if tickers != [] { assert Ingested(event, tickers[0]); }
  }

  /** What scoring and stamping make of a view. */
  lemma EventView(
      t: Tables, event: Event, stocks: seq<Stock>, quotes: Quotes, facts: Snapshot, key: Key, chosen: seq<string>,
      stamp: seq<string>, statuses: Statuses)
    requires chosen == Selected(stocks, Wanted(event, stocks, quotes))
    requires stamp == StampTickers(event, stocks, quotes) && statuses == StatusesOf(event)
    ensures var before := ViewOf(t, key);
            var scored := if !Skips(event) && Touched(key, event.asOf, chosen) then
                            Renew(before, key, facts(key.ticker))
                          else before;
            ViewOf(AfterEvent(t, event, stocks, quotes, facts), key)
            == if Touched(key, event.asOf, stamp) then StampedView(scored, statuses) else scored
  {
    BatchView(t, event.asOf, chosen, facts, key);
    var scored := if Skips(event) then t else MaterializeAll(t, event.asOf, chosen, facts);
    AnnotateView(scored, event.asOf, stamp, statuses, Skips(event), key);
  }

  /** And of every row, an event that names tickers: these are scored anew if active, and stamped as stale. */
  lemma NamedEventIsExact(t: Tables, event: Event, stocks: seq<Stock>, quotes: Quotes, facts: Snapshot, key: Key)
    requires event.ingestion.None? && event.tickers != []
    ensures var before, after := ViewOf(t, key), ViewOf(AfterEvent(t, event, stocks, quotes, facts), key);
            after == if key.asOf != event.asOf || key.ticker !in event.tickers then before
                     else StampedView(Rescored(before, stocks, key, facts), map["refresh_operation" := "stale"])
  {
    var unique := Unique(event.tickers);
    NamedParts(event, stocks, quotes);
    SelectedExact(stocks, Some(unique), key.ticker);
    EventView(t, event, stocks, quotes, facts, key, Selected(stocks, Some(unique)), unique, STALE);
  }

  lemma NamedParts(event: Event, stocks: seq<Stock>, quotes: Quotes)
    requires event.ingestion.None? && event.tickers != []
    ensures !Skips(event) && Wanted(event, stocks, quotes) == Some(Unique(event.tickers))
    ensures StampTickers(event, stocks, quotes) == Unique(event.tickers) && StatusesOf(event) == STALE
  {
    assert event.tickers[0] in Unique(event.tickers);
  }

  /** Rows of other score versions are stamped only when nothing was ingested, and then those of the tickers asked for,
      on the event's day; and how many rows of all versions an event stamps. */
  lemma PastIsExact(t: Tables, event: Event, stocks: seq<Stock>, quotes: Quotes, facts: Snapshot)
    ensures var after, nothing := AfterEvent(t, event, stocks, quotes, facts).past, NothingIngested(event);
            && after.Keys == t.past.Keys
            && forall row :: row in t.past ==>
                 after[row] == if nothing && row.key.asOf == event.asOf
                              && row.key.ticker in event.ingestion.value.requested
                               then Stamped(t.past[row], StatusesOf(event)) else t.past[row]
  {
    if event.ingestion.Some? { IngestedParts(event, stocks, quotes); }
    PastKept(t, event.asOf, Selected(stocks, Wanted(event, stocks, quotes)), facts);
  }

  ghost predicate NothingIngested(event: Event) {
    event.ingestion.Some? && forall x :: !Ingested(event, x)
  }

  /** The count of stamped rows: those of the day and the tickers, of this version and, if asked, of the others. */
  lemma StampCountIsExact(t: Tables, asOf: int, tickers: seq<string>, statuses: Statuses, everyVersion: bool)
    ensures var mine := set key | key in t.scores && key.asOf == asOf && key.ticker in tickers;
            var others := set row | row in t.past && row.key.asOf == asOf && row.key.ticker in tickers && everyVersion;
            statuses != map[] ==> StampCount(t, asOf, tickers, statuses, everyVersion) == |mine| + |others|
    ensures StampCount(t, asOf, tickers, map[], everyVersion) == 0
  {
    var mine := set key | key in t.scores && key.asOf == asOf && key.ticker in tickers;
    var others := set row | row in t.past && row.key.asOf == asOf && row.key.ticker in tickers && everyVersion;
    assert mine == Stampable(t.scores, asOf, tickers);
    assert others == if everyVersion then PastStampable(t.past, asOf, tickers) else {};
  }

  /** Without a provider an event reports stale. */
  lemma BareStatus(event: Event)
    requires event.ingestion.None?
    ensures Aggregate(StatusesOf(event)) == "stale"
  {
    assert StatusesOf(event)["refresh_operation"] in StatusesOf(event).Values;
    assert StatusesOf(event).Values == {"stale"};
  }

  /** Which status a provider event reports: partial_failed when named tickers failed and others did not, failed when
      they failed and none was ingested, or when the batch failed as a whole without naming any; and otherwise
      success. */
  lemma ReportedStatusIsExact(event: Event)
    requires event.ingestion.Some?
    ensures var ingestion := event.ingestion.value;
            var someFailed :=
              exists i :: i in ingestion.results && i.ticker != "" && i.status in {Failed, PartialFailed};
            var someIngested := exists x :: Ingested(event, x);
            Aggregate(StatusesOf(event))
              == if someFailed && someIngested then "partial_failed"
                 else if someFailed || !ingestion.ok then "failed" else "success"
  {
    var ingestion := event.ingestion.value;
    var failed, successful := TickersWith(ingestion.results, IsFailure), TickersWith(ingestion.results, IsSuccess);
    forall x ensures x in failed
      <==> x != "" && exists i :: i in ingestion.results && IsFailure(i.status) && i.ticker == x {
      TickersWithExact(ingestion.results, IsFailure, x);
    }
    forall x ensures x in successful <==> Ingested(event, x) { TickersWithExact(ingestion.results, IsSuccess, x); }
    if failed != [] { assert failed[0] in failed; }
    if successful != [] { assert successful[0] in successful; }
    forall i | i in ingestion.results && i.ticker != "" && i.status in {Failed, PartialFailed}
      ensures i.ticker in failed {
      assert IsFailure(i.status);
    }
    var statuses := StatusesOf(event);
    assert statuses[ingestion.provider] in statuses.Values;
    assert statuses.Values == {ProviderStatus(ingestion)};
  }

  // ---- Paging by events ----

  /** The event for one page. */
  function PageEventAt(asOf: int, universe: Universe, markets: seq<string>, requested: nat, offset: nat): Event {
    Event(asOf, None, [], Some(Selector(universe, markets, Some(requested), Some(offset))))
  }

  /** What a caller does who starts at an offset and advances it by the size it asks for until the universe ends. */
  function Paging<S>(s: S, step: (S, nat) -> S, size: nat, requested: nat, offset: nat): S
    requires requested > 0
    decreases size - offset
  {
    if offset >= size then s else Paging(step(s, offset), step, size, requested, offset + requested)
  }

  function Fold<S, P>(s: S, pages: seq<P>, apply: (S, P) -> S): S
    decreases |pages|
  {
    if pages == [] then s else Fold(apply(s, pages[0]), pages[1..], apply)
  }

  lemma {:induction false} PagingFolds<S(!new)>(
      s: S, step: (S, nat) -> S, apply: (S, seq<string>) -> S, list: seq<string>,
      requested: nat, limit: nat, offset: nat)
    requires requested > 0 && forall x, k :: step(x, k) == apply(x, Page(list, k, limit))
    ensures Paging(s, step, |list|, requested, offset) == Fold(s, Pages(list, offset, requested, limit), apply)
    decreases |list| - offset
  {
    if offset < |list| {
      PagingFolds(step(s, offset), step, apply, list, requested, limit, offset + requested);
      var pages := Pages(list, offset, requested, limit);
      assert pages[0] == Page(list, offset, limit) && pages[1..] == Pages(list, offset + requested, requested, limit);
    }
  }

  /** The events of such a caller. */
  function AfterPaging(
      t: Tables, stocks: seq<Stock>, quotes: Quotes, facts: Snapshot, asOf: int, universe: Universe,
      markets: seq<string>,
      requested: nat): Tables
    requires requested > 0
  {
    Paging(t, (s: Tables, offset: nat) =>
                AfterEvent(s, PageEventAt(asOf, universe, markets, requested, offset), stocks, quotes, facts),
           |Listing(stocks, markets, quotes, universe)|, requested, 0)
  }

  lemma PageEvent(
      t: Tables, stocks: seq<Stock>, quotes: Quotes, facts: Snapshot, asOf: int, universe: Universe,
      markets: seq<string>,
      requested: nat, offset: nat)
    requires requested > 0
    ensures AfterEvent(t, PageEventAt(asOf, universe, markets, requested, offset), stocks, quotes, facts)
         == RefreshPage(t, stocks, asOf,
                        Page(Listing(stocks, markets, quotes, universe), offset, LimitOf(Some(requested), universe)),
                        STALE, facts)
  {}

  lemma {:induction false} RefreshPagesFolds(
      t: Tables, stocks: seq<Stock>, asOf: int, pages: seq<seq<string>>, statuses: Statuses, facts: Snapshot,
      apply: (Tables, seq<string>) -> Tables)
    requires forall s, page :: apply(s, page) == RefreshPage(s, stocks, asOf, page, statuses, facts)
    ensures Fold(t, pages, apply) == RefreshPages(t, stocks, asOf, pages, statuses, facts)
    decreases |pages|
  {
    if pages != [] { RefreshPagesFolds(apply(t, pages[0]), stocks, asOf, pages[1..], statuses, facts, apply); }
  }

  lemma EventsRefreshPages(
      t: Tables, stocks: seq<Stock>, quotes: Quotes, facts: Snapshot, asOf: int, universe: Universe,
      markets: seq<string>,
      requested: nat)
    requires requested > 0
    ensures AfterPaging(t, stocks, quotes, facts, asOf, universe, markets, requested)
         == RefreshPages(t, stocks, asOf,
                         Pages(Listing(stocks, markets, quotes, universe), 0, requested,
                               LimitOf(Some(requested), universe)), STALE, facts)
  {
    var list, limit := Listing(stocks, markets, quotes, universe), LimitOf(Some(requested), universe);
    var step := (s: Tables, offset: nat) =>
      AfterEvent(s, PageEventAt(asOf, universe, markets, requested, offset), stocks, quotes, facts);
    forall s, k ensures step(s, k) == RefreshPage(s, stocks, asOf, Page(list, k, limit), STALE, facts) {
      PageEvent(s, stocks, quotes, facts, asOf, universe, markets, requested, k);
    }
    var apply := (s: Tables, page: seq<string>) => RefreshPage(s, stocks, asOf, page, STALE, facts);
    PagingFolds(t, step, apply, list, requested, limit, 0);
    RefreshPagesFolds(t, stocks, asOf, Pages(list, 0, requested, limit), STALE, facts, apply);
  }

  /** Refresh events over consecutive pages of any size up to 300 leave the same score, reason and risk rows as one
      refresh of the whole universe, for every ordering and market filter - and so does any size if the universe is no
      longer. */
  lemma PagedRefreshIsWhole(
      t: Tables, stocks: seq<Stock>, quotes: Quotes, facts: Snapshot, asOf: int, universe: Universe,
      markets: seq<string>,
      requested: nat)
    requires requested > 0
    requires requested <= 300 || |Listing(stocks, markets, quotes, universe)| <= 300
    ensures SameRows(AfterPaging(t, stocks, quotes, facts, asOf, universe, markets, requested),
                     RefreshPage(t, stocks, asOf, Listing(stocks, markets, quotes, universe), STALE, facts))
  {
    var list, limit := Listing(stocks, markets, quotes, universe), LimitOf(Some(requested), universe);
    EventsRefreshPages(t, stocks, quotes, facts, asOf, universe, markets, requested);
    PagesMakeList(list, requested, universe);
    ListingListed(stocks, markets, quotes, universe);
    PagesListed(list, 0, requested, limit, stocks);
    PagesAreWhole(t, stocks, asOf, Pages(list, 0, requested, limit), list, STALE, facts);
  }

  /** Over all markets they leave the rows of one full materialisation, stamped. */
  lemma PagedRefreshIsFullMaterialisation(
      t: Tables, stocks: seq<Stock>, quotes: Quotes, facts: Snapshot, asOf: int, universe: Universe, requested: nat)
    requires requested > 0
    requires requested <= 300 || |Listing(stocks, [], quotes, universe)| <= 300
    ensures SameRows(AfterPaging(t, stocks, quotes, facts, asOf, universe, [], requested),
                     Annotate(MaterializeAll(t, asOf, Selected(stocks, None), facts), asOf,
                              Listing(stocks, [], quotes, universe), STALE, false))
  {
    var list := Listing(stocks, [], quotes, universe);
    PagedRefreshIsWhole(t, stocks, quotes, facts, asOf, universe, [], requested);
    WholeRefreshIsFullMaterialisation(t, stocks, quotes, universe, asOf, STALE, facts);
    SameRowsCompose(AfterPaging(t, stocks, quotes, facts, asOf, universe, [], requested),
                    RefreshPage(t, stocks, asOf, list, STALE, facts),
                    Annotate(MaterializeAll(t, asOf, Selected(stocks, None), facts), asOf, list, STALE, false));
  }

  lemma SameRowsCompose(a: Tables, b: Tables, c: Tables)
    requires SameRows(a, b) && SameRows(b, c)
    ensures SameRows(a, c)
  {
    forall key ensures ReasonsAt(a, key) == ReasonsAt(c, key) {
      assert ReasonsAt(a, key) == ReasonsAt(b, key);
      assert ReasonsAt(b, key) == ReasonsAt(c, key);
    }
  }

  /** An event naming nothing scores every active stock but stamps none, so the rows it renews lose their stamps. */
  lemma BareEvent(t: Tables, event: Event, stocks: seq<Stock>, quotes: Quotes, facts: Snapshot, key: Key)
    requires event.ingestion.None? && event.tickers == [] && event.selector.None?
    requires Touched(key, event.asOf, Selected(stocks, None))
    ensures var v := ViewOf(AfterEvent(t, event, stocks, quotes, facts), key);
            v == Renew(ViewOf(t, key), key, facts(key.ticker)) && v.score.value.providers == map[]
  {
    var all := Selected(stocks, None);
    BatchView(t, event.asOf, all, facts, key);
    AnnotateView(MaterializeAll(t, event.asOf, all, facts), event.asOf, [], StatusesOf(event), false, key);
  }
}
