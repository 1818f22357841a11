/** One ticker of a provider batch: claim, fetch, archive, stage the provider rows, and mark the run. Everything outside
    the service (provider, archive, other sessions) is the `World` of a call. */
module Orchestrator {
  import opened Prelude
  import opened Runs
  import opened Ledger
  import D = Documents

  datatype Fetched = Fetched(fallback: bool, missingData: bool)

  /** What the persist loops leave in the session, and the exception that stopped them, if any. */
  datatype Persisted = Persisted(store: D.Store, counts: D.Counts, raised: Option<string>)

  /** `persist` is the provider's persist loop. The tables are the ledger as other sessions left it when the claim's
      commit is re-read, at the mark, when the mark is re-read, when a failure selects its row and when it commits, and
      when that is re-read; `refreshRaises` is an exception from re-reading the mark. */
  datatype World = World(
    others: Interference,
    atClaimRefresh: Table,
    fetch: Result<Fetched, string>,
    archive: Option<string>,
    persist: D.Store -> Persisted,
    atMark: Table,
    atRefresh: Table,
    refreshRaises: Option<string>,
    atFailure: Table,
    atFailureCommit: Table,
    atFailureRefresh: Table)
  {
    /** Others keep the constraints and delete no row. */
    ghost predicate Lawful(id: RunId) {
      && others.Lawful()
      && (forall t :: t in {atClaimRefresh, atMark, atRefresh, atFailure, atFailureCommit, atFailureRefresh} ==>
            Consistent(t) && id in t)
      && atFailure.Keys <= atFailureCommit.Keys
    }
  }

  datatype TickerResult =
    | Replayed
    | ClaimFailed(error: ClaimError)
    | Reported(status: Status)

  const KRX := "KRX"

  /** The four ways a run that raised nothing ends. */
  function Verdict(provider: string, fetched: Fetched, counts: D.Counts): Status {
    if fetched.fallback then PartialFailed
    else if provider == D.OPENDART && fetched.missingData then PartialFailed
    else if provider == KRX && counts.inserted + counts.updated == 0 then PartialFailed
    else Succeeded
  }

  /** A fallback result stages nothing and counts one skip. */
  function Staged(w: World, fetched: Fetched, store: D.Store): Persisted {
    if fetched.fallback then Persisted(store, D.Counts(0, 0, 1), None) else w.persist(store)
  }

  /** Fetch, archive and persist all return. */
  predicate Quiet(w: World, store: D.Store) {
    w.fetch.Ok? && w.archive.None? && Staged(w, w.fetch.value, store).raised.None?
  }

  /** The mark's commit keeps the hash index. */
  predicate Markable(w: World, req: Request, fetched: Fetched, counts: D.Counts)
    requires req.runId in w.atMark
  {
    Admissible(w.atMark, req.runId, w.atMark[req.runId].(status := Verdict(req.scope.provider, fetched, counts)))
  }

  function CountsMap(c: D.Counts): map<string, int> {
    map["inserted" := c.inserted, "updated" := c.updated, "skipped" := c.skipped]
  }

  /** The row that the mark writes over the one it holds. */
  function MarkOf(held: Row, provider: string, fetched: Fetched, c: D.Counts, now: Time): Row {
    var verdict := Verdict(provider, fetched, c);
    MarkedRow(held, verdict, now, CountsMap(c), if verdict.Succeeded? then None else Some("provider_partial"))
  }

  /** A whole result: no fallback, for OpenDART nothing missing, for KRX at least one row written. */
  predicate Whole(provider: string, fallback: bool, missingData: bool, written: int) {
    && !fallback
    && (provider == "OpenDART" ==> !missingData)
    && (provider == "KRX" ==> written != 0)
  }

  /** A marked row keeps what the claim wrote, holds the counts of what was staged, and has succeeded exactly when the
      result was whole; otherwise it has failed in part and says why. */
  lemma MarkIsExact(held: Row, provider: string, fetched: Fetched, c: D.Counts, now: Time)
    ensures var row := MarkOf(held, provider, fetched, c, now);
            && row.scope == held.scope && row.hash == held.hash && row.startedAt == held.startedAt
            && row.completedAt == Some(now)
            && row.counts.Keys == {"inserted", "updated", "skipped"}
            && row.counts["inserted"] == c.inserted && row.counts["updated"] == c.updated
            && row.counts["skipped"] == c.skipped
            && (row.status == Succeeded <==> row.error == None)
            && row.status == if Whole(provider, fetched.fallback, fetched.missingData, c.inserted + c.updated)
                             then Succeeded else PartialFailed
  {}

  /** A request that was claimed and marked, with nobody else at the ledger, is replayed when it comes again exactly if
      its result was whole; otherwise it starts afresh. */
  lemma RepeatReplaysExactly(
      t: Table, req: Request, fetched: Fetched, c: D.Counts, now: Time, marked: Time, again: Time)
    requires Consistent(t) && SequentialClaim(t, req) == Ok(req.runId)
    requires req.runId in t ==> t[req.runId].Restartable()
    ensures var held := AfterClaim(t, req, now);
            var next := held[req.runId := MarkOf(held[req.runId], req.scope.provider, fetched, c, marked)];
            && Consistent(next) && SequentialClaim(next, req) == Ok(req.runId)
            && AfterClaim(next, req, again)
               == (if Whole(req.scope.provider, fetched.fallback, fetched.missingData, c.inserted + c.updated) then next
                   else next[req.runId := StartedRow(req, again)])
  {
    var held := AfterClaim(t, req, now);
    ClaimedIsConsistent(t, req, now);
    var row := MarkOf(held[req.runId], req.scope.provider, fetched, c, marked);
    MarkIsExact(held[req.runId], req.scope.provider, fetched, c, marked);
    AdmissibleIsExact(held, req.runId, row);
    assert Admissible(held, req.runId, held[req.runId]) ==>
      Admissible(held[req.runId := row], req.runId, StartedRow(req, 0));
  }

  lemma ClaimedIsConsistent(t: Table, req: Request, now: Time)
    requires Consistent(t) && SequentialClaim(t, req) == Ok(req.runId)
    requires req.runId in t ==> t[req.runId].Restartable()
    ensures AfterClaim(t, req, now) == t[req.runId := StartedRow(req, now)] && Consistent(AfterClaim(t, req, now))
    ensures Admissible(t, req.runId, StartedRow(req, now))
  {
    if req.runId !in t {
      forall other | other in t ensures !(t[other].Active() && t[other].hash == req.hash) {
        assert !IsDuplicate(t, req.hash, other);
      }
    }
    AdmissibleIsExact(t, req.runId, StartedRow(req, now));
  }

  /** The ledger as last re-read: after the mark, or after the failure that came instead of it or after it. */
  function LastRead(w: World, marked: Option<Row>): Table {
    if marked.Some? && w.refreshRaises.None? then w.atRefresh else w.atFailureRefresh
  }

  /** What a claimed run leaves and reports: the mark commits exactly when nothing raised and the hash index allows it;
      then the staged rows are stored, and otherwise none; the report is the row as last re-read, so without a raising
      refresh it is the mark if and only if the row still carries it. */
  ghost predicate Ran(
      req: Request, now: Time, w: World, before: D.Store, after: D.Store, r: TickerResult, marked: Option<Row>)
    requires w.Lawful(req.runId)
  {
    && (marked.Some? <==>
          Quiet(w, before) && Markable(w, req, w.fetch.value, Staged(w, w.fetch.value, before).counts))
    && (marked.Some? ==>
          marked.value == MarkOf(w.atMark[req.runId], req.scope.provider, w.fetch.value,
                                 Staged(w, w.fetch.value, before).counts, now))
    && after == (if marked.Some? then Staged(w, w.fetch.value, before).store else before)
    && r == Reported(LastRead(w, marked)[req.runId].status)
    && (marked.Some? && w.refreshRaises.None? ==>
          (r == Reported(marked.value.status) <==> w.atRefresh[req.runId].status == marked.value.status))
  }

  /** The same on what the world did: the row is marked exactly if the fetch, the archive and - but for a fallback - the
      persist loop raised nothing, and no other started or succeeded row has the hash of a result that is whole; and the
      report is the row re-read after the mark, or after the failure when there was no mark or its re-read raised. */
  lemma RanExactly(
      req: Request, now: Time, w: World, before: D.Store, after: D.Store, r: TickerResult, marked: Option<Row>)
    requires w.Lawful(req.runId) && Ran(req, now, w, before, after, r, marked)
    ensures marked.Some? ==> w.fetch.Ok? && w.archive.None?
    ensures w.fetch.Ok? && w.fetch.value.fallback ==> (marked.Some? <==> w.archive.None?) && after == before
    ensures w.fetch.Ok? && !w.fetch.value.fallback ==>
              var persisted, held := w.persist(before), w.atMark[req.runId];
              var whole := Whole(req.scope.provider, false, w.fetch.value.missingData,
                                 persisted.counts.inserted + persisted.counts.updated);
              && (marked.Some? <==>
                    && w.archive.None? && persisted.raised.None?
                    && (whole ==> forall id :: id in w.atMark && id != req.runId && w.atMark[id].hash == held.hash ==>
                                    w.atMark[id].status in {Failed, PartialFailed}))
              && after == (if marked.Some? then persisted.store else before)
              && (marked.Some? ==> (marked.value.status == Succeeded <==> whole))
    ensures marked.Some? && w.refreshRaises.None? ==> r == Reported(w.atRefresh[req.runId].status)
    ensures marked.None? || w.refreshRaises.Some? ==> r == Reported(w.atFailureRefresh[req.runId].status)
  {}

  /** A fallback result stores nothing, counts as one skip and never succeeds. */
  lemma FallbackStoresNothing(
      req: Request, now: Time, w: World, before: D.Store, after: D.Store, r: TickerResult, marked: Option<Row>)
    requires w.Lawful(req.runId) && Ran(req, now, w, before, after, r, marked)
    requires marked.Some? && w.fetch.value.fallback
    ensures after == before && marked.value.status == PartialFailed
    ensures marked.value.counts == map["inserted" := 0, "updated" := 0, "skipped" := 1]
  {}

  /** How a claim that nobody interrupts goes on: replayed when the row it holds, as re-read after the claim's commit,
      has succeeded. */
  ghost predicate Continues(t: Table, req: Request, now: Time, reread: Table, r: TickerResult)
    requires Consistent(t) && req.runId in reread
  {
    match SequentialClaim(t, req)
    case Err(e) => r == ClaimFailed(e)
    case Ok(id) =>
      var after := AfterClaim(t, req, now);
      && id in after && !r.ClaimFailed?
      && (r == Replayed <==> (if after[id].status.Started? then reread[req.runId] else after[id]).status.Succeeded?)
  }

  class ProviderIngestionService {
    const ledger: IngestionIdempotencyService
    var stored: D.Store
    var session: D.Store
    var fetches: nat

    ghost predicate Valid()
      reads this, ledger
    {
      ledger.Valid() && session == stored
    }

    constructor (ledger: IngestionIdempotencyService, stored: D.Store)
      requires ledger.Valid()
      ensures Valid() && this.ledger == ledger && this.stored == stored && fetches == 0
    {
      this.ledger := ledger;
      this.stored, session, fetches := stored, stored, 0;
    }

    /** The exception path: roll the session back, mark the run failed under its run id, and report the row re-read. */
    method Fail(id: RunId, message: string, now: Time, w: World) returns (r: TickerResult)
      requires w.Lawful(id)
      modifies this`session, ledger
      ensures Valid() && ledger.table == w.atFailureRefresh && r == Reported(w.atFailureRefresh[id].status)
    {
      session := stored;
      ledger.table := w.atFailure;
      var marked := ledger.MarkFailedByRunId(id, message, now, w.atFailureCommit);
      ledger.table := w.atFailureRefresh;
      r := Reported(ledger.table[id].status);
    }

    /** Provider rows become permanent exactly when the terminal mark commits, in that commit, whatever happens before
        or after it; a replay or a failed claim fetches nothing. The report is the row re-read after the last commit, so
        it is the mark exactly when the row still carries it. */
    method RunTicker(req: Request, now: Time, w: World) returns (r: TickerResult, ghost marked: Option<Row>)
      requires Valid() && w.Lawful(req.runId)
      modifies this, ledger
      ensures Valid()
      ensures r.Reported? ==> Ran(req, now, w, old(stored), stored, r, marked) && ledger.table == LastRead(w, marked)
      ensures !r.Reported? ==> marked.None? && stored == old(stored)
      ensures fetches == old(fetches) + if r.Reported? then 1 else 0
      ensures w.others.None(old(ledger.table)) ==> Continues(old(ledger.table), req, now, w.atClaimRefresh, r)
    {
      var claim, before := ledger.StartOrRestartRun(req, now, w.others);
      if claim.Err? { return ClaimFailed(claim.error), None; }
      if claim.value == req.runId && ledger.table[claim.value].status.Started? { ledger.table := w.atClaimRefresh; }
      if ledger.table[claim.value].status.Succeeded? { return Replayed, None; }
      r, marked := RunClaimed(req, now, w);
    }

    /** Everything after the claim. */
    method RunClaimed(req: Request, now: Time, w: World) returns (r: TickerResult, ghost marked: Option<Row>)
      requires Valid() && w.Lawful(req.runId)
      modifies this, ledger
      ensures Valid()
      ensures Ran(req, now, w, old(stored), stored, r, marked) && ledger.table == LastRead(w, marked)
      ensures fetches == old(fetches) + 1
    {
      marked := None;
      fetches := fetches + 1;
      if w.fetch.Err? { r := Fail(req.runId, w.fetch.error, now, w); return; }
      if w.archive.Some? { r := Fail(req.runId, w.archive.value, now, w); return; }
      var staged := Staged(w, w.fetch.value, session);
      session := staged.store;
      if staged.raised.Some? { r := Fail(req.runId, staged.raised.value, now, w); return; }
      var committed := Mark(req, now, w, staged.counts);
      if !committed { r := Fail(req.runId, "IntegrityError", now, w); return; }
      marked := Some(MarkOf(w.atMark[req.runId], req.scope.provider, w.fetch.value, staged.counts, now));
      if w.refreshRaises.Some? { r := Fail(req.runId, w.refreshRaises.value, now, w); return; }
      ledger.table := w.atRefresh;
      r := Reported(ledger.table[req.runId].status);
    }

    /** The terminal mark; its commit takes the staged rows with it. */
    method Mark(req: Request, now: Time, w: World, c: D.Counts) returns (committed: bool)
      requires ledger.Valid() && w.Lawful(req.runId) && w.fetch.Ok?
      modifies this`stored, ledger
      ensures ledger.Valid()
      ensures committed == Markable(w, req, w.fetch.value, c)
      ensures stored == if committed then session else old(stored)
    {
      var verdict := Verdict(req.scope.provider, w.fetch.value, c);
      var counts := CountsMap(c);
      var error := if verdict.Succeeded? then None else Some("provider_partial");
      ledger.table := w.atMark;
      AdmissibleIsExact(w.atMark, req.runId, MarkedRow(w.atMark[req.runId], verdict, now, counts, error));
      committed := ledger.MarkTerminal(req.runId, verdict, counts, error, now);
      if committed { stored := session; }
    }
  }

  /** Nobody else touches the ledger while the request runs, and then runs again. */
  ghost predicate Undisturbed(
      t: Table, req: Request, now: Time, w: World, stored: D.Store, again: Time, v: World)
    requires Consistent(t) && w.Lawful(req.runId) && v.Lawful(req.runId)
  {
    && w.others.None(t) && w.refreshRaises.None?
    && w.atClaimRefresh == AfterClaim(t, req, now) == w.atMark
    && (Quiet(w, stored) ==>
          w.atRefresh == w.atMark[req.runId := MarkOf(w.atMark[req.runId], req.scope.provider, w.fetch.value,
                                                      Staged(w, w.fetch.value, stored).counts, now)])
    && v.others.None(w.atRefresh) && v.atClaimRefresh == AfterClaim(w.atRefresh, req, again)
  }

  /** The same request twice. Once the first run has marked its row, the second is replayed without fetching exactly if
      the first one's result was whole; otherwise the row has failed in part and the second run fetches again. */
  method RunTwice(service: ProviderIngestionService, req: Request, now: Time, w: World, again: Time, v: World)
    returns (first: TickerResult, second: TickerResult, ghost marked: Option<Row>)
    requires service.Valid() && w.Lawful(req.runId) && v.Lawful(req.runId)
    requires Undisturbed(service.ledger.table, req, now, w, service.stored, again, v)
    modifies service, service.ledger
    ensures marked.Some? ==> w.fetch.Ok?
    ensures marked.Some? ==>
              var counts := Staged(w, w.fetch.value, old(service.stored)).counts;
              var whole := Whole(req.scope.provider, w.fetch.value.fallback, w.fetch.value.missingData,
                                 counts.inserted + counts.updated);
              && first == Reported(if whole then Succeeded else PartialFailed)
              && (second == Replayed <==> whole)
              && service.fetches == old(service.fetches) + if whole then 1 else 2
  {
    ghost var t, stored := service.ledger.table, service.stored;
    first, marked := service.RunTicker(req, now, w);
    ghost var other;
    second, other := service.RunTicker(req, again, v);
    if marked.Some? {
      var counts := Staged(w, w.fetch.value, stored).counts;
      MarkIsExact(w.atMark[req.runId], req.scope.provider, w.fetch.value, counts, now);
      RepeatReplaysExactly(t, req, w.fetch.value, counts, now, now, again);
    }
  }
}
