/** Importing a watchlist while other sessions insert rows. */
module Watchlist {
  import opened Prelude
  import opened Sorting

  datatype Key = Key(user: string, ticker: string)

  datatype Row = Row(name: string, market: string, sector: Option<string>, memo: Option<string>)

  /** The unique (user, ticker) constraint makes the table a map. */
  type Table = map<Key, Row>

  datatype Item = Item(ticker: string, row: Row)

  datatype Error = InvalidTicker | StockNotFound

  /** A session in the middle of an import: what others have committed, its own pending rows, and the loop's
      variables. */
  datatype State = State(
    committed: Table, mine: Table, seen: set<string>, existing: set<string>, imported: nat, skipped: nat,
    error: Option<Error>)

  /** The known stocks, and what counts as a digit: in the program every Unicode decimal digit does. */
  datatype Catalogue = Catalogue(stocks: set<string>, isDigit: char -> bool)

  predicate IsTicker(ticker: string, catalogue: Catalogue) {
    |ticker| == 6 && forall i :: 0 <= i < 6 ==> catalogue.isDigit(ticker[i])
  }

  /** The error a ticker that is not on the list yet runs into. */
  function Refusal(ticker: string, catalogue: Catalogue): Option<Error> {
    if !IsTicker(ticker, catalogue) then Some(InvalidTicker)
    else if ticker !in catalogue.stocks then Some(StockNotFound)
    else None
  }

  /** Rows other sessions commit meanwhile. They cannot take a key that is committed or, until this session ends,
      pending. */
  function Arrive(s: State, arrivals: Table): State {
    s.(committed := (map key | key in arrivals && key !in s.mine :: arrivals[key]) + s.committed)
  }

  function TickersOf(table: Table, user: string): set<string> {
    set key | key in table && key.user == user :: key.ticker
  }

  function Begin(table: Table, user: string): State {
    State(table, map[], {}, TickersOf(table, user), 0, 0, None)
  }

  /** One item of the loop. An insert that meets a row committed meanwhile is rolled back to its savepoint and
      skipped. */
  function Take(s: State, user: string, item: Item, catalogue: Catalogue): State {
    var key := Key(user, item.ticker);
    if item.ticker in s.seen then s
    else if item.ticker in s.existing then s.(seen := s.seen + {item.ticker}, skipped := s.skipped + 1)
    else if Refusal(item.ticker, catalogue).Some? then s.(error := Refusal(item.ticker, catalogue))
    else if key in s.committed then
      s.(seen := s.seen + {item.ticker}, existing := s.existing + {item.ticker}, skipped := s.skipped + 1)
    else
      s.(seen := s.seen + {item.ticker}, existing := s.existing + {item.ticker}, imported := s.imported + 1,
         mine := s.mine[key := item.row])
  }

  /** The rows others commit before each item. */
  type Schedule = nat -> Table

  function Run(table: Table, user: string, items: seq<Item>, catalogue: Catalogue, schedule: Schedule): State {
    if items == [] then Begin(table, user)
    else
      var n := |items| - 1;
      var s := Run(table, user, items[..n], catalogue, schedule);
      if s.error.Some? then s else Take(Arrive(s, schedule(n)), user, items[n], catalogue)
  }

  /** What the table holds at the end: the pending rows are committed, or on an error dropped. */
  function Outcome(s: State): Table {
    if s.error.Some? then s.committed else s.committed + s.mine
  }

  class ImportSession {
    var committed: Table

    constructor (committed: Table)
      ensures this.committed == committed
    {
      this.committed := committed;
    }

    method ImportWatchlist(user: string, items: seq<Item>, catalogue: Catalogue, schedule: Schedule)
      returns (r: Result<(nat, nat), Error>)
      modifies this
      ensures var s := Run(old(committed), user, items, catalogue, schedule);
              && committed == Outcome(s)
              && r == if s.error.Some? then Err(s.error.value) else Ok((s.imported, s.skipped))
    {
      ghost var before := committed;
      var existing := TickersOf(committed, user);
      var seen: set<string>, mine: Table, imported, skipped := {}, map[], 0, 0;
      for i := 0 to |items|
        invariant State(committed, mine, seen, existing, imported, skipped, None)
               == Run(before, user, items[..i], catalogue, schedule)
      {
        TakeOneMore(items, i);
        assert items[..i + 1][..i] == items[..i];
        if Run(before, user, items[..i + 1], catalogue, schedule).error.Some? {
          RunStops(before, user, items, catalogue, schedule, i + 1);
        }
        committed := (map key | key in schedule(i) && key !in mine :: schedule(i)[key]) + committed;
        var ticker := items[i].ticker;
        var key := Key(user, ticker);
        if ticker in seen { continue; }
        if ticker !in existing {
          if !IsTicker(ticker, catalogue) { return Err(InvalidTicker); }
          if ticker !in catalogue.stocks { return Err(StockNotFound); }
        }
        seen := seen + {ticker};
        if ticker in existing {
          skipped := skipped + 1;
          continue;
        }
        existing := existing + {ticker};
        if key in committed {
          skipped := skipped + 1;
        } else {
          mine, imported := mine[key := items[i].row], imported + 1;
        }
      }
      TakeAll(items);
      committed := committed + mine;
      r := Ok((imported, skipped));
    }
  }

  /** An error ends the run. */
  lemma {:induction false} RunStops(
      table: Table, user: string, items: seq<Item>, catalogue: Catalogue, schedule: Schedule, i: nat)
    requires i <= |items| && Run(table, user, items[..i], catalogue, schedule).error.Some?
    ensures Run(table, user, items, catalogue, schedule) == Run(table, user, items[..i], catalogue, schedule)
    decreases |items| - i
  {
    if i < |items| {
      TakeOneMore(items, i);
      assert items[..i + 1][..i] == items[..i];
      RunStops(table, user, items, catalogue, schedule, i + 1);
    } else {
      TakeAll(items);
    }
  }

  // ---- What an import guarantees ----

  /** The row of a ticker's first occurrence. */
  function FirstRow(items: seq<Item>, ticker: string): Option<Row> {
    if items == [] then None
    else
      var n := |items| - 1;
      if FirstRow(items[..n], ticker).Some? then FirstRow(items[..n], ticker)
      else if items[n].ticker == ticker then Some(items[n].row)
      else None
  }

  function InputTickers(items: seq<Item>): set<string> {
    set item | item in items :: item.ticker
  }

  /** A ticker stops the import when it was not on the list at the start and is malformed or unknown. */
  ghost predicate Refused(table: Table, user: string, ticker: string, catalogue: Catalogue) {
    Key(user, ticker) !in table && Refusal(ticker, catalogue).Some?
  }

  /** What holds between items: the counts add up to the tickers seen, each of which now has a row; the pending rows are
      the user's, from first occurrences, and clash with none committed; nothing that was there has changed. */
  ghost predicate Going(s: State, table: Table, user: string, items: seq<Item>) {
    && s.seen == InputTickers(items)
    && s.imported + s.skipped == |s.seen|
    && s.imported == |s.mine|
    && Kept(table, s.committed)
    && Pending(s.mine, s.committed, user, s.seen, items)
    && Covered(s.seen, user, s.committed, s.mine)
    && Listed(s.existing, table, user, s.seen)
  }

  ghost predicate Kept(before: Table, after: Table) {
    forall key :: key in before ==> key in after && after[key] == before[key]
  }

  ghost predicate Covered(seen: set<string>, user: string, committed: Table, mine: Table) {
    forall ticker :: ticker in seen ==> Key(user, ticker) in committed || Key(user, ticker) in mine
  }

  ghost predicate Listed(existing: set<string>, table: Table, user: string, seen: set<string>) {
    forall ticker :: ticker in existing <==> Key(user, ticker) in table || ticker in seen
  }

  ghost predicate Pending(mine: Table, committed: Table, user: string, seen: set<string>, items: seq<Item>) {
    forall key :: key in mine ==>
      && key.user == user && key.ticker in seen && key !in committed
      && FirstRow(items, key.ticker) == Some(mine[key])
  }

  lemma {:induction false} FirstRowExact(items: seq<Item>, ticker: string)
    ensures FirstRow(items, ticker).Some? <==> ticker in InputTickers(items)
  {
    if items != [] {
      var n := |items| - 1;
      FirstRowExact(items[..n], ticker);
      assert items == items[..n] + [items[n]];
    }
  }

  lemma ArriveKeepsGoing(s: State, table: Table, user: string, items: seq<Item>, arrivals: Table)
    requires Going(s, table, user, items)
    ensures Going(Arrive(s, arrivals), table, user, items)
  {}

  lemma OneMoreItem(items: seq<Item>, item: Item)
    ensures InputTickers(items + [item]) == InputTickers(items) + {item.ticker}
    ensures forall ticker :: ticker in InputTickers(items) ==>
              FirstRow(items + [item], ticker) == FirstRow(items, ticker)
    ensures item.ticker !in InputTickers(items) ==> FirstRow(items + [item], item.ticker) == Some(item.row)
  {
    assert (items + [item])[..|items|] == items;
    forall ticker | ticker in InputTickers(items) ensures FirstRow(items + [item], ticker) == FirstRow(items, ticker) {
      FirstRowExact(items, ticker);
    }
    FirstRowExact(items, item.ticker);
  }

  lemma TickersOfExact(table: Table, user: string, ticker: string)
    ensures ticker in TickersOf(table, user) <==> Key(user, ticker) in table
  {
    if Key(user, ticker) in table { assert Key(user, ticker).user == user; }
  }

  lemma TakeRepeats(s: State, table: Table, user: string, items: seq<Item>, item: Item)
    requires Going(s, table, user, items) && item.ticker in s.seen
    ensures Going(s, table, user, items + [item])
  {
    OneMoreItem(items, item);
    assert s.seen + {item.ticker} == s.seen;
  }

  lemma TakeSkips(s: State, table: Table, user: string, items: seq<Item>, item: Item, existing: set<string>)
    requires Going(s, table, user, items) && item.ticker !in s.seen && Key(user, item.ticker) in s.committed
    requires forall ticker :: ticker in existing <==> ticker in s.existing || ticker == item.ticker
    ensures Going(s.(seen := s.seen + {item.ticker}, existing := existing, skipped := s.skipped + 1),
                  table, user, items + [item])
  {
    OneMoreItem(items, item);
    PendingKept(s.mine, s.committed, user, s.seen, items, items + [item], item.ticker);
    ListedMore(s.existing, table, user, s.seen, item.ticker);
    assert existing == s.existing + {item.ticker};
  }

  lemma PendingKept(
      mine: Table, committed: Table, user: string, seen: set<string>, items: seq<Item>, more: seq<Item>, ticker: string)
    requires Pending(mine, committed, user, seen, items)
    requires forall x :: x in seen ==> FirstRow(more, x) == FirstRow(items, x)
    ensures Pending(mine, committed, user, seen + {ticker}, more)
  {}

  lemma TakeImports(s: State, table: Table, user: string, items: seq<Item>, item: Item)
    requires Going(s, table, user, items) && item.ticker !in s.seen && Key(user, item.ticker) !in s.committed
    ensures Going(s.(seen := s.seen + {item.ticker}, existing := s.existing + {item.ticker}, imported := s.imported + 1,
                     mine := s.mine[Key(user, item.ticker) := item.row]),
                  table, user, items + [item])
  {
    OneMoreItem(items, item);
    PendingRows(s.mine, s.committed, user, s.seen, items, items + [item], Key(user, item.ticker), item.row);
    OneMoreRow(s.mine, Key(user, item.ticker), item.row);
    AddRow(s, table, user, items, items + [item], Key(user, item.ticker), item.row);
  }

  lemma AddRow(s: State, table: Table, user: string, items: seq<Item>, more: seq<Item>, key: Key, row: Row)
    requires Going(s, table, user, items) && key.user == user && key.ticker !in s.seen && key !in s.committed
    requires InputTickers(more) == s.seen + {key.ticker} && |s.mine[key := row]| == |s.mine| + 1
    requires Pending(s.mine[key := row], s.committed, user, s.seen + {key.ticker}, more)
    ensures Going(s.(seen := s.seen + {key.ticker}, existing := s.existing + {key.ticker}, imported := s.imported + 1,
                     mine := s.mine[key := row]),
                  table, user, more)
  {
    CoveredMore(s.seen, user, s.committed, s.mine, key, row);
    ListedMore(s.existing, table, user, s.seen, key.ticker);
    assert |s.seen + {key.ticker}| == |s.seen| + 1;
  }

  lemma CoveredMore(seen: set<string>, user: string, committed: Table, mine: Table, key: Key, row: Row)
    requires Covered(seen, user, committed, mine) && key.user == user
    ensures Covered(seen + {key.ticker}, user, committed, mine[key := row])
  {}

  lemma ListedMore(existing: set<string>, table: Table, user: string, seen: set<string>, ticker: string)
    requires Listed(existing, table, user, seen)
    ensures Listed(existing + {ticker}, table, user, seen + {ticker})
  {}

  lemma PendingRows(
      mine: Table, committed: Table, user: string, seen: set<string>, items: seq<Item>,
      more: seq<Item>, key: Key, row: Row)
    requires Pending(mine, committed, user, seen, items) && key.user == user && key !in committed
    requires FirstRow(more, key.ticker) == Some(row)
    requires forall ticker :: ticker in seen ==> FirstRow(more, ticker) == FirstRow(items, ticker)
    ensures Pending(mine[key := row], committed, user, seen + {key.ticker}, more)
  {}

  lemma OneMoreRow(table: Table, key: Key, row: Row)
    requires key !in table
    ensures |table[key := row]| == |table| + 1
  {}

  lemma TakeKeepsGoing(s: State, table: Table, user: string, items: seq<Item>, item: Item, catalogue: Catalogue)
    requires Going(s, table, user, items) && s.error.None?
    ensures var next := Take(s, user, item, catalogue);
            && (next.error.Some? <==> item.ticker !in s.seen && Refused(table, user, item.ticker, catalogue))
            && (next.error.None? ==> Going(next, table, user, items + [item]))
  {
    if item.ticker in s.seen {
      TakeRepeats(s, table, user, items, item);
    } else if item.ticker in s.existing {
      TakeSkips(s, table, user, items, item, s.existing);
    } else if Key(user, item.ticker) in s.committed {
      TakeSkips(s, table, user, items, item, s.existing + {item.ticker});
    } else {
      TakeImports(s, table, user, items, item);
    }
  }

  ghost predicate SomeRefused(table: Table, user: string, items: seq<Item>, catalogue: Catalogue) {
    exists item :: item in items && Refused(table, user, item.ticker, catalogue)
  }

  lemma SomeRefusedMore(table: Table, user: string, items: seq<Item>, item: Item, catalogue: Catalogue)
    ensures SomeRefused(table, user, items + [item], catalogue)
       <==> SomeRefused(table, user, items, catalogue) || Refused(table, user, item.ticker, catalogue)
    ensures item.ticker in InputTickers(items) && Refused(table, user, item.ticker, catalogue) ==>
              SomeRefused(table, user, items, catalogue)
  {
    if Refused(table, user, item.ticker, catalogue) { assert item in items + [item]; }
    forall x | x in items && Refused(table, user, x.ticker, catalogue)
      ensures SomeRefused(table, user, items + [item], catalogue)
    {
      assert x in items + [item];
    }
  }

  lemma BeginGoes(table: Table, user: string)
    ensures Going(Begin(table, user), table, user, [])
  {
    forall ticker ensures ticker in TickersOf(table, user) <==> Key(user, ticker) in table {
      TickersOfExact(table, user, ticker);
    }
  }

  /** The outcome so far: stopped exactly by a refused ticker, and otherwise going. */
  ghost predicate SoFar(s: State, table: Table, user: string, items: seq<Item>, catalogue: Catalogue) {
    && (s.error.Some? <==> SomeRefused(table, user, items, catalogue))
    && (s.error.None? ==> Going(s, table, user, items))
    && Kept(table, s.committed)
  }

  lemma RunStep(
      s: State, table: Table, user: string, items: seq<Item>, item: Item, catalogue: Catalogue, arrivals: Table)
    requires SoFar(s, table, user, items, catalogue)
    ensures SoFar(if s.error.Some? then s else Take(Arrive(s, arrivals), user, item, catalogue),
                  table, user, items + [item], catalogue)
  {
    SomeRefusedMore(table, user, items, item, catalogue);
    if s.error.None? {
      ArriveKeepsGoing(s, table, user, items, arrivals);
      TakeKeepsGoing(Arrive(s, arrivals), table, user, items, item, catalogue);
    }
  }

  lemma {:induction false} RunGoes(
      table: Table, user: string, items: seq<Item>, catalogue: Catalogue, schedule: Schedule)
    ensures SoFar(Run(table, user, items, catalogue, schedule), table, user, items, catalogue)
  {
    if items == [] {
      BeginGoes(table, user);
    } else {
      var n := |items| - 1;
      RunGoes(table, user, items[..n], catalogue, schedule);
      RunStep(Run(table, user, items[..n], catalogue, schedule), table, user, items[..n], items[n],
              catalogue, schedule(n));
      TakeOneMore(items, n);
      TakeAll(items);
    }
  }

  /** Whatever other sessions insert meanwhile: the import fails exactly when a ticker not listed at the start is
      malformed or unknown; the rows there before stay as they were; and on success imported plus skipped is the number
      of different tickers, each of which has a row. */
  lemma ImportExact(table: Table, user: string, items: seq<Item>, catalogue: Catalogue, schedule: Schedule)
    ensures var s := Run(table, user, items, catalogue, schedule);
            && (s.error.Some? <==> exists item :: item in items && Refused(table, user, item.ticker, catalogue))
            && Kept(table, Outcome(s))
            && (s.error.None? ==>
                  && s.imported + s.skipped == |InputTickers(items)|
                  && forall ticker :: ticker in InputTickers(items) ==> Key(user, ticker) in Outcome(s))
  {
    RunGoes(table, user, items, catalogue, schedule);
  }

  /** Every row the import adds is the user's, from the first item with its ticker, for a key nobody else holds; the
      number of such rows is the imported count; on an error there are none. */
  lemma ImportAddsFirstRows(table: Table, user: string, items: seq<Item>, catalogue: Catalogue, schedule: Schedule)
    ensures var s := Run(table, user, items, catalogue, schedule);
            var added := set key | key in Outcome(s) && key !in s.committed;
            && (s.error.Some? ==> added == {})
            && (s.error.None? ==> |added| == s.imported)
            && (forall key :: key in added ==> key.user == user && FirstRow(items, key.ticker) == Some(Outcome(s)[key]))
            && Kept(s.committed, Outcome(s))
  {
    RunGoes(table, user, items, catalogue, schedule);
    var s := Run(table, user, items, catalogue, schedule);
    if s.error.None? { AddedAreMine(s, user, items); }
  }

  lemma AddedAreMine(s: State, user: string, items: seq<Item>)
    requires s.error.None? && Pending(s.mine, s.committed, user, s.seen, items)
    ensures (set key | key in Outcome(s) && key !in s.committed) == s.mine.Keys && |s.mine.Keys| == |s.mine|
    ensures Kept(s.committed, Outcome(s))
    ensures forall key :: key in s.mine ==>
              key.user == user && key in Outcome(s) && FirstRow(items, key.ticker) == Some(Outcome(s)[key])
  {}

  // ---- What stops an import, on the catalogue itself ----

  /** The ticker is not on the list at the start, and is not a six-digit code of a known stock. */
  ghost predicate Offends(table: Table, user: string, ticker: string, catalogue: Catalogue) {
    Key(user, ticker) !in table && !(SixDigits(ticker, catalogue.isDigit) && ticker in catalogue.stocks)
  }

  ghost predicate SixDigits(ticker: string, isDigit: char -> bool) {
    |ticker| == 6 && forall c :: c in ticker ==> isDigit(c)
  }

  ghost predicate FirstOffence(table: Table, user: string, items: seq<Item>, catalogue: Catalogue, k: int) {
    && 0 <= k < |items|
    && Offends(table, user, items[k].ticker, catalogue)
    && forall j :: 0 <= j < k ==> !Offends(table, user, items[j].ticker, catalogue)
  }

  lemma OffendsIsRefused(table: Table, user: string, ticker: string, catalogue: Catalogue)
    ensures Offends(table, user, ticker, catalogue) <==> Refused(table, user, ticker, catalogue)
    ensures Refusal(ticker, catalogue)
         == if SixDigits(ticker, catalogue.isDigit) && ticker in catalogue.stocks then None
            else Some(ErrorOf(ticker, catalogue.isDigit))
  {
    if |ticker| == 6 {
      forall i | 0 <= i < 6 ensures ticker[i] in ticker {}
    }
  }

  /** What the offence of a ticker answers. */
  ghost function ErrorOf(ticker: string, isDigit: char -> bool): Error {
    if SixDigits(ticker, isDigit) then StockNotFound else InvalidTicker
  }

  ghost predicate StoppedRight(
      error: Option<Error>, table: Table, user: string, items: seq<Item>, catalogue: Catalogue)
  {
    match error
    case None => NoOffence(table, user, items, catalogue)
    case Some(e) =>
      exists k :: FirstOffence(table, user, items, catalogue, k) && e == ErrorOf(items[k].ticker, catalogue.isDigit)
  }

  ghost predicate NoOffence(table: Table, user: string, items: seq<Item>, catalogue: Catalogue) {
    forall j :: 0 <= j < |items| ==> !Offends(table, user, items[j].ticker, catalogue)
  }

  lemma StoppedMore(
      error: Option<Error>, table: Table, user: string, items: seq<Item>, item: Item, catalogue: Catalogue)
    requires StoppedRight(error, table, user, items, catalogue)
    ensures error.Some? ==> StoppedRight(error, table, user, items + [item], catalogue)
    ensures error.None? && !Offends(table, user, item.ticker, catalogue) ==>
              StoppedRight(None, table, user, items + [item], catalogue)
    ensures error.None? && Offends(table, user, item.ticker, catalogue) ==>
              StoppedRight(Some(ErrorOf(item.ticker, catalogue.isDigit)), table, user, items + [item], catalogue)
  {
    var more := items + [item];
    if error.Some? {
      var k :| FirstOffence(table, user, items, catalogue, k)
               && error.value == ErrorOf(items[k].ticker, catalogue.isDigit);
      assert FirstOffence(table, user, more, catalogue, k);
    } else if Offends(table, user, item.ticker, catalogue) {
      assert FirstOffence(table, user, more, catalogue, |items|);
    }
  }

  lemma TakeErrs(s: State, table: Table, user: string, items: seq<Item>, item: Item, catalogue: Catalogue)
    requires Going(s, table, user, items) && s.error.None? && NoOffence(table, user, items, catalogue)
    ensures Take(s, user, item, catalogue).error
         == if Offends(table, user, item.ticker, catalogue) then Some(ErrorOf(item.ticker, catalogue.isDigit)) else None
  {
    OffendsIsRefused(table, user, item.ticker, catalogue);
    NotSeenYet(table, user, items, item.ticker, catalogue);
  }

  lemma StopStep(
      s: State, table: Table, user: string, items: seq<Item>, item: Item, catalogue: Catalogue, arrivals: Table)
    requires SoFar(s, table, user, items, catalogue) && StoppedRight(s.error, table, user, items, catalogue)
    ensures StoppedRight((if s.error.Some? then s else Take(Arrive(s, arrivals), user, item, catalogue)).error,
                         table, user, items + [item], catalogue)
  {
    StoppedMore(s.error, table, user, items, item, catalogue);
    if s.error.None? {
      ArriveKeepsGoing(s, table, user, items, arrivals);
      TakeErrs(Arrive(s, arrivals), table, user, items, item, catalogue);
    }
  }

  lemma {:induction false} StopsAtFirstOffence(
      table: Table, user: string, items: seq<Item>, catalogue: Catalogue, schedule: Schedule)
    ensures StoppedRight(Run(table, user, items, catalogue, schedule).error, table, user, items, catalogue)
  {
    if items != [] {
      var n := |items| - 1;
      StopsAtFirstOffence(table, user, items[..n], catalogue, schedule);
      RunGoes(table, user, items[..n], catalogue, schedule);
      StopStep(Run(table, user, items[..n], catalogue, schedule), table, user, items[..n], items[n],
               catalogue, schedule(n));
      TakeOneMore(items, n);
      TakeAll(items);
    }
  }

  lemma NotSeenYet(table: Table, user: string, items: seq<Item>, ticker: string, catalogue: Catalogue)
    requires NoOffence(table, user, items, catalogue)
    ensures Offends(table, user, ticker, catalogue) ==> ticker !in InputTickers(items)
  {
    forall item | item in items ensures !Offends(table, user, item.ticker, catalogue) {
      var j :| 0 <= j < |items| && items[j] == item;
    }
  }

  /** An import fails exactly on its first item that is not on the list at the start and is no six-digit code of a known
      stock, and the error says which of the two it is not: the stock is looked up only for a well-formed code. So on
      success every row it adds is of a known stock. */
  lemma RefusesExactly(table: Table, user: string, items: seq<Item>, catalogue: Catalogue, schedule: Schedule)
    ensures var s := Run(table, user, items, catalogue, schedule);
            && (s.error == Some(StockNotFound) <==>
                  exists k :: FirstOffence(table, user, items, catalogue, k)
                              && SixDigits(items[k].ticker, catalogue.isDigit)
                              && items[k].ticker !in catalogue.stocks)
            && (s.error == Some(InvalidTicker) <==>
                  exists k :: FirstOffence(table, user, items, catalogue, k)
                              && !SixDigits(items[k].ticker, catalogue.isDigit))
            && (s.error.None? ==>
                  forall key :: key in Outcome(s) && key !in s.committed ==>
                    SixDigits(key.ticker, catalogue.isDigit) && key.ticker in catalogue.stocks)
  {
    var s := Run(table, user, items, catalogue, schedule);
    StopsAtFirstOffence(table, user, items, catalogue, schedule);
    forall j, k | FirstOffence(table, user, items, catalogue, j) && FirstOffence(table, user, items, catalogue, k)
      ensures j == k
    {}
    RunGoes(table, user, items, catalogue, schedule);
    if s.error.None? { AddedAreKnown(s, table, user, items, catalogue); }
  }

  lemma AddedAreKnown(s: State, table: Table, user: string, items: seq<Item>, catalogue: Catalogue)
    requires s.error.None? && Going(s, table, user, items)
    requires NoOffence(table, user, items, catalogue)
    ensures forall key :: key in Outcome(s) && key !in s.committed ==>
              SixDigits(key.ticker, catalogue.isDigit) && key.ticker in catalogue.stocks
  {
    forall key | key in Outcome(s) && key !in s.committed
      ensures SixDigits(key.ticker, catalogue.isDigit) && key.ticker in catalogue.stocks
    {
      assert key in s.mine && key.user == user && key.ticker in InputTickers(items);
      assert key !in table && key == Key(user, key.ticker);
      NotSeenYet(table, user, items, key.ticker, catalogue);
    }
  }
}
