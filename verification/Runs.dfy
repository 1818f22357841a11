/** The ingestion-run ledger: its rows, its two unique constraints, and the claim and mark operations of
    IngestionIdempotencyService. */
module Runs {
  import opened Prelude

  type RunId = string
  type Time = int

  /** What a provider ingestion request is hashed from. */
  datatype RunParams = RunParams(
    provider: string,
    ticker: string,
    sourceDate: string,
    pageCount: int,
    newsDisplay: int,
    runId: Option<string>)

  /** SHA-256 of the canonical JSON of the parameters, modelled as injective: the digest is what it was taken of. */
  datatype Hash = Sha256(params: RunParams)

  datatype Status = Started | Succeeded | PartialFailed | Failed

  datatype Scope = Scope(jobType: string, provider: string, ticker: string, sourceDate: string)

  datatype Request = Request(runId: RunId, scope: Scope, hash: Hash)

  /** The lower-casing of a provider's name with its underscores turned into hyphens. */
  type Slug = string -> string

  /** The run id: the request's own one with the ticker appended, or one built of provider, date and ticker. The payload
      version that is hashed too is a function of the provider. */
  function RunIdOf(params: RunParams, slug: Slug): RunId {
    if params.runId.Some? && params.runId.value != "" then params.runId.value + "-" + params.ticker
    else slug(params.provider) + "-" + params.sourceDate + "-" + params.ticker
  }

  function JobType(provider: string): string {
    if provider == "OpenDART" then "disclosure" else if provider == "KRX" then "price" else "news"
  }

  /** The claim that a run of one ticker makes. */
  function RequestFor(params: RunParams, slug: Slug): Request {
    Request(RunIdOf(params, slug), Scope(JobType(params.provider), params.provider, params.ticker, params.sourceDate),
            Sha256(params))
  }

  /** A claim's scope and hash are those of its parameters. Two claims that differ in the ticker alone never share a run
      id; an own run id, unless empty, makes it independent of provider and date, and an empty one counts as none. */
  lemma RequestIsExact(p: RunParams, q: RunParams, slug: Slug)
    ensures var r := RequestFor(p, slug);
            && r.hash == Sha256(p) && r.runId == RunIdOf(p, slug)
            && r.scope.provider == p.provider && r.scope.ticker == p.ticker && r.scope.sourceDate == p.sourceDate
            && (p.provider == "OpenDART" ==> r.scope.jobType == "disclosure")
            && (p.provider == "KRX" ==> r.scope.jobType == "price")
            && (p.provider != "OpenDART" && p.provider != "KRX" ==> r.scope.jobType == "news")
    ensures q == p.(ticker := q.ticker) && RunIdOf(p, slug) == RunIdOf(q, slug) ==> p.ticker == q.ticker
    ensures p.runId.Some? && p.runId.value != "" && q.runId == p.runId && q.ticker == p.ticker ==>
              RunIdOf(p, slug) == RunIdOf(q, slug) == p.runId.value + "-" + p.ticker
    ensures p.runId == None || p.runId == Some("") ==>
              RunIdOf(p, slug) == slug(p.provider) + "-" + p.sourceDate + "-" + p.ticker
  {
    if q == p.(ticker := q.ticker) && RunIdOf(p, slug) == RunIdOf(q, slug) {
      var prefix :=
        if p.runId.Some? && p.runId.value != "" then p.runId.value + "-"
        else slug(p.provider) + "-" + p.sourceDate + "-";
      assert RunIdOf(p, slug) == prefix + p.ticker && RunIdOf(q, slug) == prefix + q.ticker;
      assert (prefix + p.ticker)[|prefix|..] == p.ticker && (prefix + q.ticker)[|prefix|..] == q.ticker;
    }
  }

  datatype Row = Row(
    scope: Scope,
    status: Status,
    hash: Hash,
    startedAt: Time,
    completedAt: Option<Time>,
    counts: map<string, int>,
    error: Option<string>)
  {
    /** The rows covered by the partial unique index on the input hash. */
    predicate Active() {
      status.Started? || status.Succeeded?
    }

    predicate Restartable() {
      status.Failed? || status.PartialFailed?
    }
  }

  /** The run id is the key, so its unique constraint is built in; rows are never deleted. */
  type Table = map<RunId, Row>

  /** The partial unique index: no two started or succeeded rows share an input hash.
      A commit that would break it aborts. */
  ghost predicate Consistent(t: Table) {
    forall a, b :: a in t && b in t && t[a].Active() && t[b].Active() && t[a].hash == t[b].hash ==> a == b
  }

  /** The row written by start_run and, field by field, by a restart. */
  function StartedRow(req: Request, now: Time): Row {
    Row(req.scope, Started, req.hash, now, None, map[], None)
  }

  datatype Decision = Replay | Refuse | Restart

  /** What a claim does with the row it holds under its run id. */
  function Decide(row: Row, req: Request): Decision {
    if row.status.Succeeded? && row.hash == req.hash then Replay
    else if !row.Restartable() then Refuse
    else Restart
  }

  predicate IsDuplicate(t: Table, hash: Hash, id: RunId) {
    id in t && t[id].Active() && t[id].hash == hash
  }

  /** _find_duplicate_by_input_hash: the index leaves at most one answer. */
  function FindDuplicate(t: Table, hash: Hash): (r: Option<RunId>)
    requires Consistent(t)
    ensures r.Some? ==> IsDuplicate(t, hash, r.value)
    ensures r.None? ==> forall id :: !IsDuplicate(t, hash, id)
  {
    if exists id :: id in t && IsDuplicate(t, hash, id) then
      var id :| id in t && IsDuplicate(t, hash, id);
      Some(id)
    else
      None
  }

  /** Whether writing this row under this id keeps the partial unique index. */
  predicate Admissible(t: Table, id: RunId, row: Row) {
    row.Active() ==> forall other :: other in t && other != id ==> !(t[other].Active() && t[other].hash == row.hash)
  }

  function MarkedRow(row: Row, status: Status, now: Time, counts: map<string, int>, error: Option<string>): Row {
    row.(status := status, completedAt := Some(now), counts := counts, error := error)
  }

  function FailedRow(row: Row, now: Time, error: string): Row {
    row.(status := Failed, completedAt := Some(now), error := Some(error))
  }

  /** What mark_failed writes over a row when its select had read this status. The session leaves a column out of the
      update that it did not change, so the status of a row read as failed stays what others made of it. */
  function FailedOver(row: Row, seen: Status, now: Time, error: string): Row {
    FailedRow(row, now, error).(status := if seen.Failed? then row.status else Failed)
  }

  lemma AdmissibleIsExact(t: Table, id: RunId, row: Row)
    requires Consistent(t)
    ensures Consistent(t[id := row]) <==> Admissible(t, id, row)
  {
    if !Admissible(t, id, row) {
      var other :| other in t && other != id && t[other].Active() && t[other].hash == row.hash;
      assert t[id := row][other] == t[other];
      assert !Consistent(t[id := row]) by {
        assert id in t[id := row] && other in t[id := row];
      }
    }
  }

  // ---- Reconciliation ----

  predicate Stale(t: Table, id: RunId, cutoff: Time) {
    id in t && t[id].status.Started? && t[id].startedAt <= cutoff
  }

  function FailRows(t: Table, ids: set<RunId>, now: Time, message: string): Table {
    map id | id in t :: if id in ids then FailedRow(t[id], now, message) else t[id]
  }

  /** Failing rows writes the status, the time and the reason of these rows and nothing else. */
  lemma FailRowsExact(t: Table, ids: set<RunId>, now: Time, message: string)
    ensures FailRows(t, ids, now, message).Keys == t.Keys
    ensures forall id :: id in t && id !in ids ==> FailRows(t, ids, now, message)[id] == t[id]
    ensures forall id :: id in t && id in ids ==>
              var row := FailRows(t, ids, now, message)[id];
              && row.status == Failed && row.completedAt == Some(now) && row.error == Some(message)
              && row.scope == t[id].scope && row.hash == t[id].hash && row.startedAt == t[id].startedAt
              && row.counts == t[id].counts
  {}

  /** Which rows the stale-run query takes: started ones, from the cutoff or before, of the tickers and providers named,
      if any are named; no more than the limit, and the oldest of these. */
  lemma AnswerIsExact(t: Table, filter: Filter, cutoff: Time, limit: nat, answer: seq<RunId>)
    requires IsStaleAnswer(t, filter, cutoff, limit, answer)
    ensures |answer| <= limit
    ensures forall i, j :: 0 <= i < j < |answer| ==> answer[i] != answer[j]
    ensures forall id :: id in answer ==>
              && id in t && t[id].status == Started && t[id].startedAt <= cutoff
              && (filter.tickers != {} ==> t[id].scope.ticker in filter.tickers)
              && (filter.providers != {} ==> t[id].scope.provider in filter.providers)
    ensures forall other :: other in t && other !in answer && t[other].status == Started
                            && t[other].startedAt <= cutoff
                            && (filter.tickers == {} || t[other].scope.ticker in filter.tickers)
                            && (filter.providers == {} || t[other].scope.provider in filter.providers) ==>
              |answer| == limit && forall id :: id in answer ==> t[id].startedAt <= t[other].startedAt
    ensures forall i, j :: 0 <= i < j < |answer| ==> t[answer[i]].startedAt <= t[answer[j]].startedAt
  {
    forall id, other | id in answer && other !in answer && Stale(t, other, cutoff) && filter.Matches(t[other])
      ensures t[id].startedAt <= t[other].startedAt
    {
      var i :| 0 <= i < |answer| && answer[i] == id;
    }
    forall other | other in t && other !in answer && t[other].status == Started && t[other].startedAt <= cutoff
                   && (filter.tickers == {} || t[other].scope.ticker in filter.tickers)
                   && (filter.providers == {} || t[other].scope.provider in filter.providers)
      ensures |answer| == limit && forall id :: id in answer ==> t[id].startedAt <= t[other].startedAt
    {
      assert Stale(t, other, cutoff) && filter.Matches(t[other]);
    }
  }

  datatype Filter = Filter(tickers: set<string>, providers: set<string>)
  {
    predicate Matches(row: Row) {
      && (tickers == {} || row.scope.ticker in tickers)
      && (providers == {} || row.scope.provider in providers)
    }
  }

  /** An answer of the stale-run query: the oldest `limit` matching started rows at or before the cutoff. */
  ghost predicate IsStaleAnswer(t: Table, filter: Filter, cutoff: Time, limit: nat, answer: seq<RunId>) {
    && |answer| <= limit
    && (forall i, j :: 0 <= i < j < |answer| ==> answer[i] != answer[j])
    && (forall i :: 0 <= i < |answer| ==> Stale(t, answer[i], cutoff) && filter.Matches(t[answer[i]]))
    && (forall i, j :: 0 <= i < j < |answer| ==> t[answer[i]].startedAt <= t[answer[j]].startedAt)
    && (forall id :: Stale(t, id, cutoff) && filter.Matches(t[id]) && id !in answer ==>
          |answer| == limit && forall i :: 0 <= i < |answer| ==> t[answer[i]].startedAt <= t[id].startedAt)
  }

  // ---- Claims ----

  datatype ClaimError = AlreadyActive(runId: RunId) | IntegrityError

  /** The outcome of a claim that nobody interrupts. */
  ghost function SequentialClaim(t: Table, req: Request): Result<RunId, ClaimError>
    requires Consistent(t)
  {
    if req.runId in t then
      match Decide(t[req.runId], req)
      case Replay => Ok(req.runId)
      case Refuse => Err(AlreadyActive(req.runId))
      case Restart =>
        if Admissible(t, req.runId, StartedRow(req, 0)) then Ok(req.runId) else Err(IntegrityError)
    else
      match FindDuplicate(t, req.hash)
      case None => Ok(req.runId)
      case Some(id) => if t[id].status.Succeeded? then Ok(id) else Err(AlreadyActive(id))
  }

  ghost function AfterClaim(t: Table, req: Request, now: Time): Table
    requires Consistent(t)
  {
    var r := SequentialClaim(t, req);
    if r == Ok(req.runId) && (req.runId in t ==> t[req.runId].Restartable()) then t[req.runId := StartedRow(req, now)]
    else t
  }

  /** The ledger as other sessions left it after each read of a claim that found no row, and after its conflict. */
  datatype Interference = Interference(afterId: Table, afterHash: Table, afterConflict: Table, afterSecondId: Table)
  {
    ghost predicate Lawful() {
      Consistent(afterId) && Consistent(afterHash) && Consistent(afterConflict) && Consistent(afterSecondId)
    }

    ghost predicate None(t: Table) {
      afterId == t && afterHash == t && afterConflict == t && afterSecondId == t
    }
  }

  /** What a claim answers on a row that it holds locked. */
  function OnRow(t: Table, req: Request): Result<RunId, ClaimError>
    requires req.runId in t
  {
    match Decide(t[req.runId], req)
    case Replay => Ok(req.runId)
    case Refuse => Err(AlreadyActive(req.runId))
    case Restart => if Admissible(t, req.runId, StartedRow(req, 0)) then Ok(req.runId) else Err(IntegrityError)
  }

  /** What a claim answers on an active row found by its hash. */
  function OnDuplicate(t: Table, id: RunId): Result<RunId, ClaimError>
    requires id in t
  {
    if t[id].status.Succeeded? then Ok(id) else Err(AlreadyActive(id))
  }

  /** The outcome of a claim that others interrupt, and the table at its last database call. */
  ghost function InterruptedClaim(t: Table, req: Request, others: Interference): (Result<RunId, ClaimError>, Table)
    requires others.Lawful()
  {
    if req.runId in t then (OnRow(t, req), t) else
    match FindDuplicate(others.afterId, req.hash)
    case Some(id) => (OnDuplicate(others.afterId, id), others.afterId)
    case None =>
      if req.runId !in others.afterHash && Admissible(others.afterHash, req.runId, StartedRow(req, 0)) then
        (Ok(req.runId), others.afterHash)
      else if req.runId in others.afterConflict then (OnRow(others.afterConflict, req), others.afterConflict)
      else
        match FindDuplicate(others.afterSecondId, req.hash)
        case None => (Err(IntegrityError), others.afterSecondId)
        case Some(id) => (OnDuplicate(others.afterSecondId, id), others.afterSecondId)
  }

  /** Any table a claim may leave when `before` is the table at its last step: either untouched, or with the requested
      row created or rewritten as started, which only a missing or restartable row allows. */
  ghost predicate ClaimFrame(before: Table, after: Table, req: Request, now: Time, r: Result<RunId, ClaimError>) {
    && Consistent(after)
    && (after == before
        || (r == Ok(req.runId) && after == before[req.runId := StartedRow(req, now)]
            && (req.runId in before ==> before[req.runId].Restartable())))
    && match r
       case Ok(id) =>
         && id in after
         && after[id].hash == req.hash
         && ((id == req.runId && after[id].status.Started? && after != before) || after[id].status.Succeeded?)
       case Err(AlreadyActive(id)) =>
         after == before && id in after && after[id].Active() && (id == req.runId || after[id].hash == req.hash)
       case Err(IntegrityError) =>
         && after == before
         && ((forall id :: !IsDuplicate(before, req.hash, id))
             || (req.runId in before && before[req.runId].Restartable()
                 && !Admissible(before, req.runId, StartedRow(req, now))))
  }

  /** What a claim leaves: the requested row started, if the claim succeeded otherwise than on a succeeded run. */
  function AfterAnswer(before: Table, req: Request, now: Time, r: Result<RunId, ClaimError>): Table {
    if r == Ok(req.runId) && (req.runId in before ==> before[req.runId].Restartable()) then
      before[req.runId := StartedRow(req, now)]
    else before
  }

  /** So it writes at most its own row, which was missing or had failed, keeps the index, and alters no started or
      succeeded row, whatever others did between its reads. */
  lemma InterruptedFrame(t: Table, req: Request, others: Interference, now: Time)
    requires Consistent(t) && others.Lawful()
    ensures var (r, before) := InterruptedClaim(t, req, others);
            Consistent(before) && Framed(before, req, now, r)
  {
    var (r, before) := InterruptedClaim(t, req, others);
    if req.runId in before && r == OnRow(before, req) {
      RowFrame(before, req, now);
    } else {
      OtherFrame(before, req, now, r);
    }
  }

  /** The row was inserted, or the hash was looked up. */
  ghost predicate Otherwise(before: Table, req: Request, r: Result<RunId, ClaimError>) {
    || (r == Ok(req.runId) && req.runId !in before && Admissible(before, req.runId, StartedRow(req, 0)))
    || (r == Err(IntegrityError) && forall id :: !IsDuplicate(before, req.hash, id))
    || exists id :: IsDuplicate(before, req.hash, id) && r == OnDuplicate(before, id)
  }

  lemma OtherFrame(before: Table, req: Request, now: Time, r: Result<RunId, ClaimError>)
    requires Consistent(before) && Otherwise(before, req, r)
    ensures Framed(before, req, now, r)
  {
    AdmissibleIsExact(before, req.runId, StartedRow(req, now));
  }

  ghost predicate Framed(before: Table, req: Request, now: Time, r: Result<RunId, ClaimError>) {
    var after := AfterAnswer(before, req, now, r);
    && ClaimFrame(before, after, req, now, r)
    && forall id :: id in before && before[id].Active() ==> id in after && after[id] == before[id]
  }

  lemma RowFrame(before: Table, req: Request, now: Time)
    requires Consistent(before) && req.runId in before
    ensures Framed(before, req, now, OnRow(before, req))
  {
    AdmissibleIsExact(before, req.runId, StartedRow(req, now));
  }

  /** With nobody else it is the sequential claim. */
  lemma InterruptedIsSequential(t: Table, req: Request, others: Interference, now: Time)
    requires Consistent(t) && others.None(t)
    ensures others.Lawful()
    ensures var (r, before) := InterruptedClaim(t, req, others);
            before == t && r == SequentialClaim(t, req) && AfterAnswer(t, req, now, r) == AfterClaim(t, req, now)
  {
    if req.runId !in t && FindDuplicate(t, req.hash).None? {
      assert forall id :: !IsDuplicate(t, req.hash, id);
      assert Admissible(t, req.runId, StartedRow(req, 0)) by {
        forall other | other in t ensures !(t[other].Active() && t[other].hash == req.hash) {
          assert !IsDuplicate(t, req.hash, other);
        }
      }
    }
  }
}
