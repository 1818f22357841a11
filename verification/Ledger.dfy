/** IngestionIdempotencyService and the stale-run reconciler over the ledger they update in place. Between two database
    calls of a claim other sessions may commit anything the constraints allow: their tables are parameters. */
module Ledger {
  import opened Prelude
  import opened Runs

  lemma FailOneMore(t: Table, answer: seq<RunId>, k: nat, now: Time, message: string)
    requires k < |answer| && answer[k] in t && forall i :: 0 <= i < k ==> answer[i] != answer[k]
    ensures var before := FailRows(t, (set i | 0 <= i < k :: answer[i]), now, message);
            before[answer[k] := FailedRow(before[answer[k]], now, message)]
            == FailRows(t, (set i | 0 <= i < k + 1 :: answer[i]), now, message)
  {}

  class IngestionIdempotencyService {
    var table: Table

    ghost predicate Valid()
      reads this
    {
      Consistent(table)
    }

    /** Inserts a started row; false is the integrity error, after its rollback. */
    method StartRun(req: Request, now: Time) returns (ok: bool)
      requires Valid()
      modifies this`table
      ensures Valid()
      ensures ok <==> req.runId !in old(table) && Consistent(old(table)[req.runId := StartedRow(req, now)])
      ensures table == if ok then old(table)[req.runId := StartedRow(req, now)] else old(table)
    {
      var row := StartedRow(req, now);
      AdmissibleIsExact(table, req.runId, row);
      ok := req.runId !in table && Admissible(table, req.runId, row);
      if ok { table := table[req.runId := row]; }
    }

    /** The claim. `before` is the table at its last database call, so the frame holds whatever others did earlier: no
        started or succeeded row, its own or anyone's, is altered. */
    method StartOrRestartRun(req: Request, now: Time, others: Interference)
      returns (r: Result<RunId, ClaimError>, ghost before: Table)
      requires Valid() && others.Lawful()
      modifies this`table
      ensures (r, before) == InterruptedClaim(old(table), req, others) && table == AfterAnswer(before, req, now, r)
      ensures ClaimFrame(before, table, req, now, r)
      ensures forall id :: id in before && before[id].Active() ==> id in table && table[id] == before[id]
      ensures others.None(old(table)) ==>
                r == SequentialClaim(old(table), req) && table == AfterClaim(old(table), req, now)
    {
      InterruptedFrame(table, req, others, now);
      if others.None(table) { InterruptedIsSequential(table, req, others, now); }
      r, before := Claim(req, now, others);
    }

    /** The lookups by run id and by hash, the insert, and the lookups after its conflict. */
    method Claim(req: Request, now: Time, others: Interference)
      returns (r: Result<RunId, ClaimError>, ghost before: Table)
      requires Valid() && others.Lawful()
      modifies this`table
      ensures (r, before) == InterruptedClaim(old(table), req, others) && table == AfterAnswer(before, req, now, r)
    {
      before := table;
      if req.runId in table { r := ClaimRow(req, now); return; }
      table := others.afterId;
      before := table;
      var duplicate := FindDuplicate(table, req.hash);
      if duplicate.Some? { return Answer(duplicate.value), before; }
      table := others.afterHash;
      before := table;
      AdmissibleIsExact(table, req.runId, StartedRow(req, now));
      var ok := StartRun(req, now);
      if ok { return Ok(req.runId), before; }
      table := others.afterConflict;
      before := table;
      if req.runId in table { r := ClaimRow(req, now); return; }
      table := others.afterSecondId;
      before := table;
      duplicate := FindDuplicate(table, req.hash);
      if duplicate.None? { return Err(IntegrityError), before; }
      if duplicate.value == req.runId { r := ClaimRow(req, now); return; }
      return Answer(duplicate.value), before;
    }

    /** A duplicate by hash: its run if it has succeeded, and otherwise the error that it is active. */
    function Answer(id: RunId): Result<RunId, ClaimError>
      requires id in table
      reads this
    {
      if table[id].status.Succeeded? then Ok(id) else Err(AlreadyActive(id))
    }

    /** The decision on the row under the run id, which is held locked. */
    method ClaimRow(req: Request, now: Time) returns (r: Result<RunId, ClaimError>)
      requires Valid() && req.runId in table
      modifies this`table
      ensures r == OnRow(old(table), req) && table == AfterAnswer(old(table), req, now, r)
    {
      var existing := table[req.runId];
      if existing.status.Succeeded? && existing.hash == req.hash { return Ok(req.runId); }
      if !existing.Restartable() { return Err(AlreadyActive(req.runId)); }
      var row := StartedRow(req, now);
      AdmissibleIsExact(table, req.runId, row);
      if !Admissible(table, req.runId, row) { return Err(IntegrityError); }
      table := table[req.runId := row];
      return Ok(req.runId);
    }

    /** mark_succeeded and mark_partial_failed: they write the caller's row whatever its present status, and abort only
        on the hash index. */
    method MarkTerminal(id: RunId, status: Status, counts: map<string, int>, error: Option<string>, now: Time)
      returns (ok: bool)
      requires Valid() && id in table && (status.Succeeded? || status.PartialFailed?)
      modifies this`table
      ensures Valid()
      ensures ok <==> Consistent(old(table)[id := MarkedRow(old(table)[id], status, now, counts, error)])
      ensures table == if ok then old(table)[id := MarkedRow(old(table)[id], status, now, counts, error)]
                       else old(table)
    {
      var row := MarkedRow(table[id], status, now, counts, error);
      AdmissibleIsExact(table, id, row);
      ok := Admissible(table, id, row);
      if ok { table := table[id := row]; }
    }

    /** The select locks nothing: `atCommit` is the ledger as others left it by the commit. */
    method MarkFailedByRunId(id: RunId, error: string, now: Time, atCommit: Table) returns (r: Result<Row, string>)
      requires Valid() && Consistent(atCommit) && table.Keys <= atCommit.Keys
      modifies this`table
      ensures Valid()
      ensures r.Ok? <==> id in old(table)
      ensures r.Ok? ==> r.value == FailedOver(atCommit[id], old(table)[id].status, now, error)
      ensures r.Ok? ==>
                && r.value.completedAt == Some(now) && r.value.error == Some(error)
                && r.value.status == (if old(table)[id].status == Failed then atCommit[id].status else Failed)
                && r.value.scope == atCommit[id].scope && r.value.hash == atCommit[id].hash
                && r.value.startedAt == atCommit[id].startedAt && r.value.counts == atCommit[id].counts
      ensures r.Ok? ==> table == atCommit[id := r.value]
      ensures r.Err? ==> table == old(table)
    {
      if id !in table { return Err("ingestion_run_not_found:" + id); }
      var seen := table[id].status;
      table := atCommit;
      AdmissibleIsExact(table, id, FailedOver(table[id], seen, now, error));
      table := table[id := FailedOver(table[id], seen, now, error)];
      r := Ok(table[id]);
    }

    /** reconcile_stale_started_runs: `answer` is what its select returned, and `atCommit` the ledger as others left it
        since. The select locks nothing, so the answered rows are failed as they are by then. When nobody came between
        and the limit did not cut the answer, no matching started row at or before the cutoff is left. */
    method ReconcileStaleStartedRuns(
        answer: seq<RunId>, filter: Filter, observed: Time, maxAge: int, limit: nat, dryRun: bool, atCommit: Table)
      returns (updated: nat)
      requires Valid() && IsStaleAnswer(table, filter, observed - maxAge, limit, answer)
      requires Consistent(atCommit) && table.Keys <= atCommit.Keys
      modifies this`table
      ensures Valid()
      ensures updated == if dryRun then 0 else |answer|
      ensures dryRun ==> table == old(table)
      ensures !dryRun ==>
                table == FailRows(atCommit, (set id | id in answer), observed, "stale_started_run_reconciled")
      ensures !dryRun && atCommit == old(table) && |answer| < limit ==>
                forall id :: !(Stale(table, id, observed - maxAge) && filter.Matches(table[id]))
    {
      updated := 0;
      if !dryRun {
        ghost var selected := table;
        table := atCommit;
        while updated < |answer|
          invariant 0 <= updated <= |answer|
          invariant table == FailRows(atCommit, (set i | 0 <= i < updated :: answer[i]), observed,
                                      "stale_started_run_reconciled")
          invariant Valid()
        {
          var id := answer[updated];
          assert id in selected;
          AdmissibleIsExact(table, id, FailedRow(table[id], observed, "stale_started_run_reconciled"));
          FailOneMore(atCommit, answer, updated, observed, "stale_started_run_reconciled");
          table := table[id := FailedRow(table[id], observed, "stale_started_run_reconciled")];
          updated := updated + 1;
        }
        assert (set i | 0 <= i < |answer| :: answer[i]) == set id | id in answer;
      }
    }
  }
}
