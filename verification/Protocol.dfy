/** Every interleaving of workers that claim, fetch, stage, mark, fail and crash, and of reconcilers that survey
    and sweep stale runs. A read that finds no row locks nothing, so it is a step of its own; a read FOR UPDATE
    that finds a row is one step with the decision and the commit that follow it. The reconciler's select takes no
    lock, so survey and sweep are two steps. */
module Protocol {
  import opened Prelude
  import opened Runs

  type WorkerId = nat

  /** A provider row that a worker adds to its session before its mark. */
  type Write = string

  datatype Outcome = Replayed | Refused | ClaimAborted | Reported(status: Status)

  datatype Pc =
    | Arrived          // about to look its run id up
    | NoRow            // saw no row under its run id
    | NoDuplicate      // saw no active row under its hash either
    | Conflicted       // its insert aborted and was rolled back
    | StillNoRow       // after the conflict, again no row under its run id
    | Fetching         // owns a started row; nothing staged
    | Staging          // owns a started row; provider rows staged
    | Failing(seen: Option<Status>)      // an exception was caught and rolled back; mark_failed is next: its select,
                                         // which locks nothing, and then its commit over the status it saw
    | Marked(status: Status)  // its terminal mark is committed; the refresh is next
    | LateFailing(seen: Option<Status>)  // the refresh raised after the mark was committed; the same is next
    | FailedMarked     // mark_failed is committed; its refresh is next
    | Finished(outcome: Outcome)
    | Dead

  /** `session` holds the worker's uncommitted provider rows. */
  datatype Worker = Worker(req: Request, pc: Pc, session: set<Write>)
  {
    predicate Live() {
      pc.Fetching? || pc.Staging? || pc.Failing?
    }

    /** After a failed refresh: about to fail the row of its run id, whoever holds it by then. A row it saw failed keeps
        its status. */
    predicate Overwriting() {
      pc.LateFailing? && pc.seen != Some(Failed)
    }

    predicate Claiming() {
      pc.Arrived? || pc.NoRow? || pc.NoDuplicate? || pc.Conflicted? || pc.StillNoRow?
    }
  }

  datatype State = State(
    now: Time,
    table: Table,
    workers: map<WorkerId, Worker>,
    sweeps: map<nat, set<RunId>>,
    provider: set<(WorkerId, Write)>)

  /** One step of a worker. */
  datatype Act =
    | LookupId(stamp: Time)
    | LookupHash
    | Insert(stamp: Time)
    | CacheCommit
    | Persist(write: Write)
    | Mark(status: Status, stamp: Time, counts: map<string, int>, error: Option<string>)
    | Raise
    | SelectRow
    | MarkFailed(stamp: Time, message: string)
    | Refresh
    | RefreshFails
    | Crash

  datatype Label =
    | Tick(elapsed: nat)
    | Spawn(id: WorkerId, req: Request)
    | Work(w: WorkerId, act: Act)
    | Survey(k: nat, rows: set<RunId>, observed: Time, maxAge: int)
    | Sweep(k: nat, stamp: Time)

  ghost predicate CanAct(s: State, me: Worker, act: Act) {
    match act
    case LookupId(stamp) => (me.pc.Arrived? || me.pc.Conflicted?) && stamp <= s.now
    case LookupHash => (me.pc.NoRow? || me.pc.StillNoRow?) && Consistent(s.table)
    case Insert(stamp) => me.pc.NoDuplicate? && stamp <= s.now
    case CacheCommit => me.pc.Fetching?
    case Persist(_) => me.pc.Fetching? || me.pc.Staging?
    case Mark(status, _, _, _) =>
      && (me.pc.Fetching? || me.pc.Staging?)
      && (status.Succeeded? || status.PartialFailed?)
      && me.req.runId in s.table
      && Admissible(s.table, me.req.runId, s.table[me.req.runId].(status := status))
    case Raise => me.pc.Fetching? || me.pc.Staging?
    case SelectRow => (me.pc.Failing? || me.pc.LateFailing?) && me.pc.seen.None? && me.req.runId in s.table
    case MarkFailed(_, _) => (me.pc.Failing? || me.pc.LateFailing?) && me.pc.seen.Some? && me.req.runId in s.table
    case Refresh => (me.pc.Marked? || me.pc.FailedMarked?) && me.req.runId in s.table
    case RefreshFails => me.pc.Marked?
    case Crash => !me.pc.Finished? && !me.pc.Dead?
  }

  /** When a step can happen. */
  ghost predicate Enabled(s: State, l: Label) {
    match l
    case Tick(_) => true
    case Spawn(w, _) => w !in s.workers
    case Work(w, act) => w in s.workers && CanAct(s, s.workers[w], act)
    case Survey(k, rows, observed, maxAge) =>
      k !in s.sweeps && observed <= s.now && forall id :: id in rows ==> Stale(s.table, id, observed - maxAge)
    case Sweep(k, stamp) => k in s.sweeps
  }

  function Become(s: State, w: WorkerId, me: Worker): State {
    s.(workers := s.workers[w := me])
  }

  /** Every commit flushes whatever the worker has pending, whatever the commit is for. */
  function Flush(s: State, w: WorkerId, pending: set<Write>): set<(WorkerId, Write)> {
    s.provider + set x | x in pending :: (w, x)
  }

  /** The claim's decision on a row it holds locked, with the restart commit when there is one. */
  function Claim(s: State, w: WorkerId, me: Worker, stamp: Time): State
    requires me.req.runId in s.table
  {
    var id := me.req.runId;
    match Decide(s.table[id], me.req)
    case Replay => Become(s, w, me.(pc := Finished(Replayed)))
    case Refuse => Become(s, w, me.(pc := Finished(Refused)))
    case Restart =>
      var row := StartedRow(me.req, stamp);
      if Admissible(s.table, id, row) then Become(s, w, me.(pc := Fetching)).(table := s.table[id := row])
      else Become(s, w, me.(pc := Finished(ClaimAborted)))
  }

  /** The duplicate found by hash, before the insert or after its conflict. */
  ghost function ByHash(s: State, w: WorkerId, me: Worker): State
    requires Consistent(s.table)
  {
    match FindDuplicate(s.table, me.req.hash)
    case None => Become(s, w, me.(pc := if me.pc.NoRow? then NoDuplicate else Finished(ClaimAborted)))
    case Some(id) => Become(s, w, me.(pc := Finished(if s.table[id].status.Succeeded? then Replayed else Refused)))
  }

  function TryInsert(s: State, w: WorkerId, me: Worker, stamp: Time): State {
    var id, row := me.req.runId, StartedRow(me.req, stamp);
    if id !in s.table && Admissible(s.table, id, row) then
      Become(s, w, me.(pc := Fetching)).(table := s.table[id := row])
    else
      Become(s, w, me.(pc := Conflicted))
  }

  /** A commit that rewrites the worker's row and flushes its session. */
  function CommitRow(s: State, w: WorkerId, me: Worker, next: Pc, row: Row): State {
    Become(s, w, me.(pc := next, session := {})).(
      table := s.table[me.req.runId := row],
      provider := Flush(s, w, me.session))
  }

  ghost function Do(s: State, w: WorkerId, me: Worker, act: Act): State
    requires CanAct(s, me, act)
  {
    var id := me.req.runId;
    match act
    case LookupId(stamp) =>
      if id in s.table then Claim(s, w, me, stamp)
      else Become(s, w, me.(pc := if me.pc.Arrived? then NoRow else StillNoRow))
    case LookupHash => ByHash(s, w, me)
    case Insert(stamp) => TryInsert(s, w, me, stamp)
    case CacheCommit => Become(s, w, me.(session := {})).(provider := Flush(s, w, me.session))
    case Persist(x) => Become(s, w, me.(pc := Staging, session := me.session + {x}))
    case Mark(status, stamp, counts, error) =>
      CommitRow(s, w, me, Marked(status), MarkedRow(s.table[id], status, stamp, counts, error))
    case Raise => Become(s, w, me.(pc := Failing(None), session := {}))
    case SelectRow =>
      var seen := Some(s.table[id].status);
      Become(s, w, me.(pc := if me.pc.Failing? then Failing(seen) else LateFailing(seen)))
    case MarkFailed(stamp, message) =>
      CommitRow(s, w, me, FailedMarked, FailedOver(s.table[id], me.pc.seen.value, stamp, message))
    case Refresh => Become(s, w, me.(pc := Finished(Reported(s.table[id].status))))
    case RefreshFails => Become(s, w, me.(pc := LateFailing(None), session := {}))
    case Crash => Become(s, w, me.(pc := Dead, session := {}))
  }

  /** What a step does. */
  ghost function Apply(s: State, l: Label): State
    requires Enabled(s, l)
  {
    match l
    case Tick(d) => s.(now := s.now + d)
    case Spawn(w, req) => Become(s, w, Worker(req, Arrived, {}))
    case Work(w, act) => Do(s, w, s.workers[w], act)
    case Survey(k, rows, _, _) => s.(sweeps := s.sweeps[k := rows])
    case Sweep(k, stamp) =>
      s.(table := FailRows(s.table, s.sweeps[k], stamp, "stale_started_run_reconciled"), sweeps := s.sweeps - {k})
  }

  /** A ledger as any earlier history may have left it, with nobody at work. */
  ghost predicate Init(s: State) {
    Consistent(s.table) && s.workers == map[] && s.sweeps == map[] && s.provider == {}
  }

  /** The states after the first k steps of a run, for k up to its length. */
  ghost predicate IsRun(states: seq<State>, labels: seq<Label>) {
    && |states| == |labels| + 1
    && Init(states[0])
    && forall k {:trigger labels[k]} :: 0 <= k < |labels| ==>
         Enabled(states[k], labels[k]) && states[k + 1] == Apply(states[k], labels[k])
  }

  /** Every live owner is younger than `bound` minutes. */
  ghost predicate Punctual(s: State, bound: int) {
    forall w :: w in s.workers && s.workers[w].Live() && s.workers[w].req.runId in s.table ==>
      s.now < s.table[s.workers[w].req.runId].startedAt + bound
  }

  /** The operating discipline the ledger relies on: reconcilers use an age of at least `bound`, one at a time, and
      the refresh after a terminal mark does not raise. */
  ghost predicate Careful(s: State, l: Label, bound: int) {
    && !(l.Work? && l.act.RefreshFails?)
    && (l.Survey? ==> l.maxAge >= bound && s.sweeps == map[])
  }

  ghost predicate CarefulRun(states: seq<State>, labels: seq<Label>, bound: int) {
    && IsRun(states, labels)
    && (forall k {:trigger labels[k]} :: 0 <= k < |labels| ==> Careful(states[k], labels[k], bound))
    && (forall k {:trigger states[k]} :: 0 <= k < |states| ==> Punctual(states[k], bound))
  }

  // ---- Ownership ----

  ghost predicate Owning(s: State, w: WorkerId) {
    w in s.workers && s.workers[w].Live()
  }

  ghost predicate Owns(s: State, w: WorkerId, id: RunId) {
    Owning(s, w) && s.workers[w].req.runId == id
  }

  ghost predicate OwnsStarted(s: State, w: WorkerId)
    requires w in s.workers
  {
    var me := s.workers[w];
    me.req.runId in s.table && s.table[me.req.runId].status.Started? && s.table[me.req.runId].hash == me.req.hash
  }

  /** A live owner's row is started under the owner's hash, and a row has at most one live owner. */
  ghost predicate Exclusive(s: State) {
    && Consistent(s.table)
    && (forall w :: Owning(s, w) ==> OwnsStarted(s, w))
    && (forall v, w :: Owning(s, v) && Owning(s, w) && s.workers[v].req.runId == s.workers[w].req.runId ==> v == w)
  }

  ghost predicate Unowned(s: State, id: RunId) {
    forall w :: Owning(s, w) ==> s.workers[w].req.runId != id
  }

  /** What a pending sweep relies on: its rows are still the abandoned started rows it surveyed. */
  ghost predicate SweepsFresh(s: State) {
    && (forall j, k :: j in s.sweeps && k in s.sweeps ==> j == k)
    && (forall k, id :: k in s.sweeps && id in s.sweeps[k] ==>
          id in s.table && s.table[id].status.Started? && Unowned(s, id))
  }

  ghost predicate Inv(s: State) {
    && Exclusive(s)
    && SweepsFresh(s)
    && (forall w :: w in s.workers ==> !s.workers[w].pc.LateFailing?)
  }

  /** A worker that rewrites only its own row, which nobody else owns, keeps ownership exclusive. */
  lemma OwnRow(s: State, s': State, w: WorkerId)
    requires Exclusive(s) && w in s.workers && w in s'.workers && Consistent(s'.table)
    requires s'.workers == s.workers[w := s'.workers[w]] && s'.workers[w].req == s.workers[w].req
    requires forall id :: id in s.table && id != s.workers[w].req.runId ==>
               id in s'.table && s'.table[id] == s.table[id]
    requires s'.workers[w].Live() ==> OwnsStarted(s', w)
    requires s'.table != s.table || s'.workers[w].Live() ==>
               forall v :: v != w && Owning(s, v) ==> s.workers[v].req.runId != s.workers[w].req.runId
    ensures Exclusive(s')
  {
    forall v | Owning(s', v) ensures OwnsStarted(s', v) {
      if v != w { assert Owning(s, v) && OwnsStarted(s, v); }
    }
    forall u, v | Owning(s', u) && Owning(s', v) && s'.workers[u].req.runId == s'.workers[v].req.runId ensures u == v {
      if u != w { assert Owning(s, u); }
      if v != w { assert Owning(s, v); }
    }
  }

  /** A step of a worker changes that worker, its own row and the provider tables, and nothing else. */
  lemma DoShape(s: State, w: WorkerId, act: Act)
    requires Enabled(s, Work(w, act))
    ensures var s' := Do(s, w, s.workers[w], act);
            && s'.sweeps == s.sweeps && w in s'.workers
            && s'.workers == s.workers[w := s'.workers[w]]
            && s'.workers[w].req == s.workers[w].req
            && s.table.Keys <= s'.table.Keys
            && (forall id :: id in s.table && id != s.workers[w].req.runId ==> s'.table[id] == s.table[id])
  {}

  /** A worker writes its row, or becomes its owner, only from owning it already, or when it is missing or not started;
      and then the row is admissible. */
  lemma OwnerWrites(s: State, w: WorkerId, act: Act)
    requires Exclusive(s) && Enabled(s, Work(w, act))
    requires act.MarkFailed? ==> s.workers[w].pc.Failing?
    ensures var me, s' := s.workers[w], Do(s, w, s.workers[w], act);
            var id := me.req.runId;
            && (s'.workers[w].Live() ==> OwnsStarted(s', w))
            && (s'.table != s.table ==> id in s'.table && Admissible(s.table, id, s'.table[id])
                                        && s'.table == s.table[id := s'.table[id]])
            && (s'.table != s.table || s'.workers[w].Live() ==>
                  me.Live() || !(id in s.table && s.table[id].status.Started?))
  {
    if s.workers[w].Live() { assert Owning(s, w) && OwnsStarted(s, w); }
  }

  lemma ExclusiveAct(s: State, w: WorkerId, act: Act)
    requires Exclusive(s) && Enabled(s, Work(w, act))
    requires act.MarkFailed? ==> s.workers[w].pc.Failing?
    ensures Exclusive(Do(s, w, s.workers[w], act))
  {
    var me, s' := s.workers[w], Do(s, w, s.workers[w], act);
    DoShape(s, w, act);
    OwnerWrites(s, w, act);
    if me.Live() { assert Owning(s, w); }
    forall v | v != w && Owning(s, v)
      ensures me.Live() || s'.table != s.table || s'.workers[w].Live() ==> s.workers[v].req.runId != me.req.runId
    {
      assert OwnsStarted(s, v);
    }
    if s'.table != s.table { AdmissibleIsExact(s.table, me.req.runId, s'.table[me.req.runId]); }
    OwnRow(s, s', w);
  }

  lemma ConsistentStep(s: State, l: Label)
    requires Consistent(s.table) && Enabled(s, l)
    ensures Consistent(Apply(s, l).table)
  {
    if l.Work? && Apply(s, l).table != s.table {
      var id := s.workers[l.w].req.runId;
      var t := Apply(s, l).table;
      AdmissibleIsExact(s.table, id, t[id]);
      assert t == s.table[id := t[id]];
    }
  }

  /** A worker that owns nothing and has nothing left to report cannot touch a started row, nor come to own it. */
  lemma StrangerBlocked(s: State, w: WorkerId, act: Act)
    requires Enabled(s, Work(w, act)) && !s.workers[w].Live() && !s.workers[w].pc.LateFailing?
    requires s.workers[w].req.runId in s.table && s.table[s.workers[w].req.runId].status.Started?
    ensures var s' := Do(s, w, s.workers[w], act); s'.table == s.table && !s'.workers[w].Live()
  {}

  lemma SweepsFreshAct(s: State, w: WorkerId, act: Act)
    requires Inv(s) && Enabled(s, Work(w, act))
    ensures SweepsFresh(Do(s, w, s.workers[w], act))
  {
    DoShape(s, w, act);
    var id := s.workers[w].req.runId;
    if !s.workers[w].Live() && id in s.table && s.table[id].status.Started? { StrangerBlocked(s, w, act); }
    SweepsFreshKept(s, Do(s, w, s.workers[w], act), w);
  }

  lemma SweepsFreshKept(s: State, s': State, w: WorkerId)
    requires SweepsFresh(s) && w in s.workers && w in s'.workers
    requires s'.sweeps == s.sweeps && s'.workers == s.workers[w := s'.workers[w]]
    requires s'.workers[w].req == s.workers[w].req && s.table.Keys <= s'.table.Keys
    requires forall id :: id in s.table && id != s.workers[w].req.runId ==> s'.table[id] == s.table[id]
    requires var id := s.workers[w].req.runId;
             !s.workers[w].Live() && id in s.table && s.table[id].status.Started? ==>
               s'.table == s.table && !s'.workers[w].Live()
    ensures SweepsFresh(s')
  {
    forall k, id | k in s'.sweeps && id in s'.sweeps[k]
      ensures id in s'.table && s'.table[id].status.Started? && Unowned(s', id)
    {
      assert Unowned(s, id);
      if id == s.workers[w].req.runId { assert !Owning(s, w); }
      forall v | Owning(s', v) ensures s'.workers[v].req.runId != id {
        if v != w { assert Owning(s, v); }
      }
    }
  }

  lemma InvStep(s: State, l: Label, bound: int)
    requires Inv(s) && Enabled(s, l) && Careful(s, l, bound) && Punctual(s, bound)
    ensures Inv(Apply(s, l))
  {
    match l
    case Work(w, act) =>
      ExclusiveAct(s, w, act);
      SweepsFreshAct(s, w, act);
    case Sweep(k, stamp) => SweepKeepsInv(s, k, stamp);
    case Survey(_, _, _, _) => SurveyKeepsInv(s, l, bound);
    case _ => OtherStepsKeepInv(s, l);
  }

  lemma SweepKeepsInv(s: State, k: nat, stamp: Time)
    requires Inv(s) && k in s.sweeps
    ensures Inv(Apply(s, Sweep(k, stamp)))
  {
    ConsistentStep(s, Sweep(k, stamp));
    SweepIsExact(s, k, stamp);
  }

  lemma SurveyKeepsInv(s: State, l: Label, bound: int)
    requires Inv(s) && Enabled(s, l) && Careful(s, l, bound) && Punctual(s, bound) && l.Survey?
    ensures Inv(Apply(s, l))
  {
    assert forall w :: Owning(Apply(s, l), w) <==> Owning(s, w);
  }

  lemma OtherStepsKeepInv(s: State, l: Label)
    requires Inv(s) && Enabled(s, l) && (l.Tick? || l.Spawn?)
    ensures Inv(Apply(s, l))
  {
    assert forall w :: Owning(Apply(s, l), w) ==> Owning(s, w);
  }

  /** A sweep keeps ownership exclusive exactly when no live owner holds one of its rows. Liveness is not in the ledger;
      RowChecksSuffice below gives a check on the rows that is. */
  lemma SweepIsExact(s: State, k: nat, stamp: Time)
    requires Exclusive(s) && k in s.sweeps
    ensures Exclusive(Apply(s, Sweep(k, stamp))) <==> forall id :: id in s.sweeps[k] && id in s.table ==> Unowned(s, id)
  {
    var s' := Apply(s, Sweep(k, stamp));
    ConsistentStep(s, Sweep(k, stamp));
    assert forall w :: Owning(s', w) <==> Owning(s, w);
    forall id | id in s.sweeps[k] && id in s.table && !Unowned(s, id) ensures !Exclusive(s') {
      var w :| Owning(s, w) && s.workers[w].req.runId == id;
      assert Owning(s', w) && !OwnsStarted(s', w);
    }
    if forall id :: id in s.sweeps[k] && id in s.table ==> Unowned(s, id) {
      forall w | Owning(s', w) ensures OwnsStarted(s', w) {
        assert OwnsStarted(s, w);
      }
    }
  }

  /** The mark_failed that follows a failed refresh keeps ownership exclusive exactly when nobody else owns the row, or
      when its select saw the row failed already and so its commit leaves the status alone. */
  lemma LateFailureIsExact(s: State, w: WorkerId, stamp: Time, message: string)
    requires Exclusive(s) && Enabled(s, Work(w, MarkFailed(stamp, message))) && s.workers[w].pc.LateFailing?
    ensures Exclusive(Apply(s, Work(w, MarkFailed(stamp, message))))
       <==> (s.workers[w].Overwriting() ==> Unowned(s, s.workers[w].req.runId))
  {
    var l := Work(w, MarkFailed(stamp, message));
    var s' := Apply(s, l);
    var id := s.workers[w].req.runId;
    ConsistentStep(s, l);
    if Unowned(s, id) {
      OwnRow(s, s', w);
    } else if !s.workers[w].Overwriting() {
      StatusKept(s, s', w);
    } else {
      var v :| Owning(s, v) && s.workers[v].req.runId == id;
      assert Owning(s', v) && !OwnsStarted(s', v);
    }
  }

  lemma StatusKept(s: State, s': State, w: WorkerId)
    requires Exclusive(s) && w in s.workers && w in s'.workers && Consistent(s'.table)
    requires s'.workers == s.workers[w := s'.workers[w]] && !s'.workers[w].Live()
    requires forall id :: id in s.table ==>
               id in s'.table && s'.table[id].status == s.table[id].status && s'.table[id].hash == s.table[id].hash
    ensures Exclusive(s')
  {
    assert forall v :: Owning(s', v) ==> v != w && Owning(s, v);
    forall v | Owning(s', v) ensures OwnsStarted(s', v) {
      assert OwnsStarted(s, v);
    }
  }

  // ---- Theorems over whole runs ----

  /** The ledger's constraints hold in every state of every run, careful or not. */
  lemma {:induction false} LedgerConsistent(states: seq<State>, labels: seq<Label>, k: nat)
    requires IsRun(states, labels) && k < |states|
    ensures Consistent(states[k].table)
  {
    if k > 0 {
      LedgerConsistent(states, labels, k - 1);
      ConsistentStep(states[k - 1], labels[k - 1]);
    }
  }

  lemma {:induction false} InvHolds(states: seq<State>, labels: seq<Label>, bound: int, k: nat)
    requires CarefulRun(states, labels, bound) && k < |states|
    ensures Inv(states[k])
  {
    if k > 0 {
      InvHolds(states, labels, bound, k - 1);
      InvStep(states[k - 1], labels[k - 1], bound);
    }
  }

  /** Mutual exclusion: two live owners share neither run id nor input hash, and each owner's row is started under
      its own hash. */
  lemma MutualExclusion(states: seq<State>, labels: seq<Label>, bound: int, k: nat)
    requires CarefulRun(states, labels, bound) && k < |states|
    ensures forall w :: Owning(states[k], w) ==> OwnsStarted(states[k], w)
    ensures forall v, w :: Owning(states[k], v) && Owning(states[k], w) && v != w ==>
              && states[k].workers[v].req.runId != states[k].workers[w].req.runId
              && states[k].workers[v].req.hash != states[k].workers[w].req.hash
  {
    InvHolds(states, labels, bound, k);
    forall v, w | Owning(states[k], v) && Owning(states[k], w) && v != w
      ensures states[k].workers[v].req.hash != states[k].workers[w].req.hash
    {
      assert OwnsStarted(states[k], v) && OwnsStarted(states[k], w);
    }
  }

  /** What each blind write would have to check: nobody alive owns a row it is about to fail. */
  ghost predicate Guarded(s: State, l: Label) {
    match l
    case Sweep(k, _) => k in s.sweeps && forall id :: id in s.sweeps[k] && id in s.table ==> Unowned(s, id)
    case Work(w, MarkFailed(_, _)) =>
      w in s.workers && (s.workers[w].Overwriting() ==> Unowned(s, s.workers[w].req.runId))
    case _ => true
  }

  lemma GuardIsExact(s: State, l: Label)
    requires Exclusive(s) && Enabled(s, l)
    ensures Exclusive(Apply(s, l)) <==> Guarded(s, l)
  {
    match l
    case Sweep(k, stamp) => SweepIsExact(s, k, stamp);
    case Work(w, act) =>
      if act.MarkFailed? && s.workers[w].pc.LateFailing? {
        LateFailureIsExact(s, w, act.stamp, act.message);
      } else {
        ExclusiveAct(s, w, act);
      }
    case _ =>
      assert forall w :: Owning(Apply(s, l), w) ==> Owning(s, w);
  }

  /** Over any run, careful or not: ownership stays exclusive exactly when every sweep and every late failure commits
      while no live owner holds its rows. */
  lemma {:induction false} ExclusiveIffGuarded(states: seq<State>, labels: seq<Label>, n: nat)
    requires IsRun(states, labels) && n < |states|
    ensures (forall k {:trigger states[k]} :: 0 <= k <= n ==> Exclusive(states[k]))
            <==> (forall k {:trigger labels[k]} :: 0 <= k < n ==> Guarded(states[k], labels[k]))
  {
    if n > 0 {
      var s, l := states[n - 1], labels[n - 1];
      ExclusiveIffGuarded(states, labels, n - 1);
      if forall k {:trigger states[k]} :: 0 <= k <= n - 1 ==> Exclusive(states[k]) {
        GuardIsExact(s, l);
        assert states[n] == Apply(s, l);
      } else {
        var k :| 0 <= k <= n - 1 && !Exclusive(states[k]);
        var j :| 0 <= j < n - 1 && !Guarded(states[j], labels[j]);
      }
    }
  }

  // ---- A check on the ledger row alone ----

  /** What a reconciler and mark_failed_by_run_id could read in their own commit: the row they are about to fail is no
      longer started, or - for a reconciler - was started `bound` minutes ago or earlier. */
  ghost predicate RowChecked(s: State, l: Label, bound: int) {
    match l
    case Sweep(k, _) =>
      k in s.sweeps && forall id :: id in s.sweeps[k] && id in s.table ==>
        !s.table[id].status.Started? || s.table[id].startedAt + bound <= s.now
    case Work(w, MarkFailed(_, _)) =>
      w in s.workers && (s.workers[w].Overwriting() && s.workers[w].req.runId in s.table ==>
                           !s.table[s.workers[w].req.runId].status.Started?)
    case _ => true
  }

  lemma RowCheckGuards(s: State, l: Label, bound: int)
    requires Exclusive(s) && Punctual(s, bound) && RowChecked(s, l, bound)
    ensures Guarded(s, l)
  {
    forall w | Owning(s, w)
      ensures s.workers[w].req.runId in s.table && s.table[s.workers[w].req.runId].status.Started?
      ensures s.now < s.table[s.workers[w].req.runId].startedAt + bound
    {
      assert OwnsStarted(s, w);
    }
  }

  /** With punctual owners that check is enough, however many reconcilers overlap and refreshes fail. */
  lemma {:induction false} RowChecksSuffice(states: seq<State>, labels: seq<Label>, bound: int, n: nat)
    requires IsRun(states, labels) && n < |states|
    requires forall k {:trigger states[k]} :: 0 <= k < n ==> Punctual(states[k], bound)
    requires forall k {:trigger labels[k]} :: 0 <= k < n ==> RowChecked(states[k], labels[k], bound)
    ensures Exclusive(states[n])
  {
    if n > 0 {
      RowChecksSuffice(states, labels, bound, n - 1);
      RowCheckGuards(states[n - 1], labels[n - 1], bound);
      GuardIsExact(states[n - 1], labels[n - 1]);
    }
  }

  /** The rows of a pending sweep are past the bound. */
  ghost predicate SweepsOld(s: State, bound: int) {
    forall k, id :: k in s.sweeps && id in s.sweeps[k] ==> id in s.table && s.table[id].startedAt + bound <= s.now
  }

  lemma SweepsOldAct(s: State, w: WorkerId, act: Act, bound: int)
    requires Inv(s) && SweepsOld(s, bound) && Enabled(s, Work(w, act))
    ensures SweepsOld(Do(s, w, s.workers[w], act), bound)
  {
    DoShape(s, w, act);
    var id, s' := s.workers[w].req.runId, Do(s, w, s.workers[w], act);
    if !s.workers[w].Live() && id in s.table && s.table[id].status.Started? { StrangerBlocked(s, w, act); }
    forall k, other | k in s'.sweeps && other in s'.sweeps[k]
      ensures other in s'.table && s'.table[other].startedAt + bound <= s'.now
    {
      assert Unowned(s, other);
      if other == id { assert !Owning(s, w); }
    }
  }

  lemma SweepsOldStep(s: State, l: Label, bound: int)
    requires Inv(s) && SweepsOld(s, bound) && Enabled(s, l) && Careful(s, l, bound)
    ensures SweepsOld(Apply(s, l), bound)
  {
    match l
    case Work(w, act) => SweepsOldAct(s, w, act, bound);
    case Sweep(k, _) => assert forall j :: j in Apply(s, l).sweeps ==> j in s.sweeps && j != k;
    case _ =>
  }

  lemma {:induction false} SweepsStayOld(states: seq<State>, labels: seq<Label>, bound: int, k: nat)
    requires CarefulRun(states, labels, bound) && k < |states|
    ensures SweepsOld(states[k], bound)
  {
    if k > 0 {
      SweepsStayOld(states, labels, bound, k - 1);
      InvHolds(states, labels, bound, k - 1);
      SweepsOldStep(states[k - 1], labels[k - 1], bound);
    }
  }

  /** Careful runs pass the check, so it asks for no more than they do. */
  lemma CarefulIsChecked(states: seq<State>, labels: seq<Label>, bound: int, k: nat)
    requires CarefulRun(states, labels, bound) && k < |labels|
    ensures RowChecked(states[k], labels[k], bound)
  {
    InvHolds(states, labels, bound, k);
    SweepsStayOld(states, labels, bound, k);
    assert Enabled(states[k], labels[k]);
  }

  // ---- Succeeded is absorbing ----

  lemma SucceededStep(s: State, l: Label, id: RunId)
    requires Inv(s) && Enabled(s, l) && id in s.table && s.table[id].status.Succeeded?
    ensures id in Apply(s, l).table && Apply(s, l).table[id] == s.table[id]
  {
    if l.Work? && s.workers[l.w].Live() { assert Owning(s, l.w) && OwnsStarted(s, l.w); }
  }

  /** With exclusive owners, a succeeded run loses its status exactly when a sweep took it, or when a worker of its run
      id - the one that marked it or one that marked it partial_failed before - whose refresh raised marks it failed,
      and had not seen it failed already. */
  lemma SucceededLostExactly(s: State, l: Label, id: RunId)
    requires Exclusive(s) && Enabled(s, l) && id in s.table && s.table[id].status.Succeeded?
    ensures id in Apply(s, l).table
    ensures !Apply(s, l).table[id].status.Succeeded? <==>
              || (l.Sweep? && id in s.sweeps[l.k])
              || (l.Work? && l.act.MarkFailed? && s.workers[l.w].Overwriting() && s.workers[l.w].req.runId == id)
  {
    if l.Work? && s.workers[l.w].Live() { assert Owning(s, l.w) && OwnsStarted(s, l.w); }
  }

  /** A succeeded row never changes again. */
  lemma {:induction false} SucceededAbsorbing(
    states: seq<State>, labels: seq<Label>, bound: int, i: nat, j: nat, id: RunId)
    requires CarefulRun(states, labels, bound) && i <= j < |states|
    requires id in states[i].table && states[i].table[id].status.Succeeded?
    ensures id in states[j].table && states[j].table[id] == states[i].table[id]
    decreases j
  {
    if i < j {
      SucceededAbsorbing(states, labels, bound, i, j - 1, id);
      InvHolds(states, labels, bound, j - 1);
      SucceededStep(states[j - 1], labels[j - 1], id);
    }
  }

  /** A request for a run that has succeeded: still deciding, replayed, or crashed, and never an owner. */
  ghost predicate ReplaysOnly(s: State, w: WorkerId, id: RunId, hash: Hash) {
    w in s.workers && s.workers[w].req.runId == id && s.workers[w].req.hash == hash ==>
      s.workers[w].Claiming() || s.workers[w].pc == Finished(Replayed) || s.workers[w].pc.Dead?
  }

  /** A worker changes by its own steps alone, but for arriving. */
  lemma WorkerKept(s: State, l: Label, w: WorkerId)
    requires Enabled(s, l) && !(l.Work? && l.w == w)
    ensures w in s.workers ==> w in Apply(s, l).workers && Apply(s, l).workers[w] == s.workers[w]
    ensures w !in s.workers && w in Apply(s, l).workers ==> Apply(s, l).workers[w].pc.Arrived?
  {}

  /** A claim for a succeeded run, whichever step it is at, stays a claim, is replayed or crashes, and writes
      nothing. */
  lemma ClaimReplays(s: State, w: WorkerId, act: Act)
    requires Enabled(s, Work(w, act)) && Consistent(s.table)
    requires s.workers[w].Claiming() || s.workers[w].pc == Finished(Replayed) || s.workers[w].pc.Dead?
    requires var me := s.workers[w];
             me.req.runId in s.table && s.table[me.req.runId].status.Succeeded?
             && s.table[me.req.runId].hash == me.req.hash
    ensures var s' := Do(s, w, s.workers[w], act);
            && s'.table == s.table && s'.provider == s.provider && w in s'.workers
            && s'.workers[w].req == s.workers[w].req
            && (s'.workers[w].Claiming() || s'.workers[w].pc == Finished(Replayed) || s'.workers[w].pc.Dead?)
  {
    var me := s.workers[w];
    if act.LookupHash? { assert IsDuplicate(s.table, me.req.hash, me.req.runId); }
  }

  lemma ReplaysOnlyStep(s: State, l: Label, w: WorkerId, id: RunId, hash: Hash)
    requires Inv(s) && Enabled(s, l) && ReplaysOnly(s, w, id, hash)
    requires id in s.table && s.table[id].status.Succeeded? && s.table[id].hash == hash
    ensures ReplaysOnly(Apply(s, l), w, id, hash)
    ensures l.Work? && l.w == w && s.workers[w].req.runId == id && s.workers[w].req.hash == hash ==>
              Apply(s, l).table == s.table && Apply(s, l).provider == s.provider
  {
    if l.Work? && l.w == w {
      var req := s.workers[w].req;
      if req.runId == id && req.hash == hash { ClaimReplays(s, w, l.act); } else { DoShape(s, w, l.act); }
    } else {
      WorkerKept(s, l, w);
    }
  }

  /** Once a request has succeeded, every identical request still undecided or yet to come is replayed: it never
      fetches, and none of its steps changes the ledger or the provider tables. */
  lemma {:induction false} ReplayedForever(
    states: seq<State>, labels: seq<Label>, bound: int, i: nat, j: nat, id: RunId, w: WorkerId)
    requires CarefulRun(states, labels, bound) && i <= j < |states|
    requires id in states[i].table && states[i].table[id].status.Succeeded?
    requires w in states[i].workers ==> states[i].workers[w].Claiming()
    ensures ReplaysOnly(states[j], w, id, states[i].table[id].hash)
    ensures j < |labels| && labels[j].Work? && labels[j].w == w && states[j].workers[w].req.runId == id
            && states[j].workers[w].req.hash == states[i].table[id].hash ==>
              states[j + 1].table == states[j].table && states[j + 1].provider == states[j].provider
    decreases j
  {
    var hash := states[i].table[id].hash;
    if i < j {
      ReplayedForever(states, labels, bound, i, j - 1, id, w);
      InvHolds(states, labels, bound, j - 1);
      SucceededAbsorbing(states, labels, bound, i, j - 1, id);
      ReplaysOnlyStep(states[j - 1], labels[j - 1], w, id, hash);
    }
    if j < |labels| {
      InvHolds(states, labels, bound, j);
      SucceededAbsorbing(states, labels, bound, i, j, id);
      ReplaysOnlyStep(states[j], labels[j], w, id, hash);
    }
  }

  // ---- What a run reports ----

  /** The report is the row as re-read after the mark, so it is the mark exactly while the row still carries it. */
  lemma ReportIsExact(s: State, w: WorkerId)
    requires Enabled(s, Work(w, Refresh)) && s.workers[w].pc.Marked?
    ensures Apply(s, Work(w, Refresh)).workers[w].pc == Finished(Reported(s.workers[w].pc.status))
       <==> s.table[s.workers[w].req.runId].status == s.workers[w].pc.status
  {}

  /** In a careful run a succeeded mark is still there when it is reported. */
  lemma SucceededIsReported(states: seq<State>, labels: seq<Label>, bound: int, k: nat, w: WorkerId)
    requires CarefulRun(states, labels, bound) && k < |states|
    requires w in states[k].workers && states[k].workers[w].pc == Marked(Succeeded)
    ensures var id := states[k].workers[w].req.runId; id in states[k].table && states[k].table[id].status.Succeeded?
    ensures k < |labels| && labels[k] == Work(w, Refresh) ==>
              states[k + 1].workers[w].pc == Finished(Reported(Succeeded))
  {
    MarkStands(states, labels, bound, k, w);
    if k < |labels| && labels[k] == Work(w, Refresh) {
      assert Enabled(states[k], labels[k]);
      ReportIsExact(states[k], w);
    }
  }

  lemma {:induction false} MarkStands(states: seq<State>, labels: seq<Label>, bound: int, k: nat, w: WorkerId)
    requires CarefulRun(states, labels, bound) && k < |states|
    requires w in states[k].workers && states[k].workers[w].pc == Marked(Succeeded)
    ensures var id := states[k].workers[w].req.runId; id in states[k].table && states[k].table[id].status.Succeeded?
  {
    if k > 0 {
      var s, l := states[k - 1], labels[k - 1];
      InvHolds(states, labels, bound, k - 1);
      MarkedBefore(s, l, w);
      if w in s.workers && s.workers[w].pc == Marked(Succeeded) {
        MarkStands(states, labels, bound, k - 1, w);
        SucceededStep(s, l, s.workers[w].req.runId);
      }
    }
  }

  /** A worker is at a succeeded mark because it was, or because this step made it. */
  lemma MarkedBefore(s: State, l: Label, w: WorkerId)
    requires Enabled(s, l) && w in Apply(s, l).workers && Apply(s, l).workers[w].pc == Marked(Succeeded)
    ensures w in s.workers && Apply(s, l).workers[w].req == s.workers[w].req
    ensures s.workers[w].pc == Marked(Succeeded)
            || (s.workers[w].req.runId in Apply(s, l).table
                && Apply(s, l).table[s.workers[w].req.runId].status.Succeeded?)
  {
    if l.Work? && l.w == w { MarkedJustNow(s, w, l.act); } else { WritesOther(s, l, w); }
  }

  lemma MarkedJustNow(s: State, w: WorkerId, act: Act)
    requires Enabled(s, Work(w, act))
    ensures var s' := Do(s, w, s.workers[w], act);
            && w in s'.workers && s'.workers[w].req == s.workers[w].req
            && (s'.workers[w].pc == Marked(Succeeded) ==>
                  s.workers[w].req.runId in s'.table && s'.table[s.workers[w].req.runId].status.Succeeded?)
  {}

  // ---- Staged writes ----

  ghost function RowsOf(s: State, w: WorkerId): set<Write> {
    set p | p in s.provider && p.0 == w :: p.1
  }

  predicate IsMark(l: Label, w: WorkerId) {
    l.Work? && l.w == w && l.act.Mark?
  }

  /** No terminal mark yet: nothing of this worker is committed, and only a staging worker has rows pending. */
  ghost predicate NothingWritten(s: State, w: WorkerId) {
    && RowsOf(s, w) == {}
    && (w in s.workers ==>
          && !s.workers[w].pc.Marked? && !s.workers[w].pc.LateFailing?
          && (s.workers[w].session != {} ==> s.workers[w].pc.Staging?))
  }

  ghost predicate AllWritten(s: State, w: WorkerId, rows: set<Write>) {
    && RowsOf(s, w) == rows
    && w in s.workers
    && s.workers[w].session == {}
    && (s.workers[w].pc.Marked? || s.workers[w].pc.LateFailing? || s.workers[w].pc.FailedMarked?
        || s.workers[w].pc.Finished? || s.workers[w].pc.Dead?)
  }

  lemma RowsOfOthers(s: State, v: WorkerId, w: WorkerId, pending: set<Write>)
    ensures var t := s.(provider := Flush(s, v, pending));
            RowsOf(t, w) == if v == w then RowsOf(s, w) + pending else RowsOf(s, w)
  {
    var t := s.(provider := Flush(s, v, pending));
    forall x ensures x in RowsOf(t, w) <==> x in RowsOf(s, w) || (v == w && x in pending) {
      assert x in RowsOf(t, w) <==> (w, x) in t.provider;
      assert x in RowsOf(s, w) <==> (w, x) in s.provider;
    }
  }

  lemma WritesSelf(s: State, w: WorkerId, act: Act)
    requires Enabled(s, Work(w, act))
    ensures var s' := Do(s, w, s.workers[w], act);
            && (NothingWritten(s, w) && !act.Mark? ==> NothingWritten(s', w))
            && (NothingWritten(s, w) && act.Mark? ==>
                  AllWritten(s', w, s.workers[w].session) && s'.table[s.workers[w].req.runId].status == act.status)
            && (forall rows :: AllWritten(s, w, rows) ==> AllWritten(s', w, rows) && !act.Mark?)
  {
    var s', t := Do(s, w, s.workers[w], act), s.(provider := Flush(s, w, s.workers[w].session));
    RowsOfOthers(s, w, w, s.workers[w].session);
    assert RowsOf(s', w) == if s'.provider == s.provider then RowsOf(s, w) else RowsOf(t, w);
  }

  lemma WritesOther(s: State, l: Label, w: WorkerId)
    requires Enabled(s, l) && !(l.Work? && l.w == w)
    ensures RowsOf(Apply(s, l), w) == RowsOf(s, w)
    ensures w in s.workers ==> w in Apply(s, l).workers && Apply(s, l).workers[w] == s.workers[w]
    ensures w !in s.workers ==> l.Spawn? || w !in Apply(s, l).workers
    ensures w !in s.workers && w in Apply(s, l).workers ==>
              Apply(s, l).workers[w].session == {} && Apply(s, l).workers[w].pc.Arrived?
  {
    var s' := Apply(s, l);
    if l.Work? {
      var t := s.(provider := Flush(s, l.w, s.workers[l.w].session));
      RowsOfOthers(s, l.w, w, s.workers[l.w].session);
      assert s'.provider == s.provider || s'.provider == t.provider;
      assert RowsOf(s', w) == if s'.provider == s.provider then RowsOf(s, w) else RowsOf(t, w);
    }
  }

  lemma WritesStep(s: State, l: Label, w: WorkerId)
    requires Enabled(s, l)
    ensures NothingWritten(s, w) && !IsMark(l, w) ==> NothingWritten(Apply(s, l), w)
    ensures NothingWritten(s, w) && IsMark(l, w) ==>
              AllWritten(Apply(s, l), w, s.workers[w].session)
              && Apply(s, l).table[s.workers[w].req.runId].status == l.act.status
    ensures forall rows :: AllWritten(s, w, rows) ==> AllWritten(Apply(s, l), w, rows) && !IsMark(l, w)
  {
    if l.Work? && l.w == w { WritesSelf(s, w, l.act); } else { WritesOther(s, l, w); }
  }

  /** The worker's mark was step m, it committed exactly what was staged then, and set the status in that step. */
  ghost predicate WroteAt(states: seq<State>, labels: seq<Label>, k: nat, w: WorkerId, m: nat)
    requires IsRun(states, labels) && k < |states|
  {
    && m < k
    && IsMark(labels[m], w)
    && Enabled(states[m], labels[m])
    && AllWritten(states[k], w, states[m].workers[w].session)
    && states[m].workers[w].req.runId in states[m + 1].table
    && states[m + 1].table[states[m].workers[w].req.runId].status == labels[m].act.status
  }

  ghost predicate NeverMarked(labels: seq<Label>, k: nat, w: WorkerId) {
    forall m {:trigger labels[m]} :: 0 <= m < k && m < |labels| ==> !IsMark(labels[m], w)
  }

  /** All or nothing: before its terminal mark a worker has committed no provider row, whether it crashed, raised or
      lost a constraint; from its one mark on, it has committed exactly what was staged at the mark, in the step that
      made its run succeeded or partial_failed. */
  lemma {:induction false} StagedAtomically(states: seq<State>, labels: seq<Label>, k: nat, w: WorkerId)
    requires IsRun(states, labels) && k < |states|
    ensures NeverMarked(labels, k, w) ==> NothingWritten(states[k], w)
    ensures !NeverMarked(labels, k, w) ==> exists m: nat :: WroteAt(states, labels, k, w, m)
  {
    if k > 0 {
      var s, l := states[k - 1], labels[k - 1];
      StagedAtomically(states, labels, k - 1, w);
      WritesStep(s, l, w);
      if !NeverMarked(labels, k - 1, w) {
        var m: nat :| WroteAt(states, labels, k - 1, w, m);
        assert AllWritten(Apply(s, l), w, states[m].workers[w].session);
        assert WroteAt(states, labels, k, w, m);
      } else if IsMark(l, w) {
        assert WroteAt(states, labels, k, w, k - 1);
      }
    }
  }

  predicate Persists(l: Label, w: WorkerId) {
    l.Work? && l.w == w && l.act.Persist?
  }

  /** The rows that a worker has persisted in the first k steps. */
  ghost function Persisted(labels: seq<Label>, k: nat, w: WorkerId): set<Write>
    requires k <= |labels|
  {
    set n | 0 <= n < k && Persists(labels[n], w) :: labels[n].act.write
  }

  /** Until its mark a worker that has raised nothing has staged what it has persisted. */
  ghost predicate Tracks(s: State, w: WorkerId, rows: set<Write>) {
    if w !in s.workers then rows == {}
    else
      && (s.workers[w].pc.Staging? ==> s.workers[w].session == rows)
      && (s.workers[w].Claiming() || s.workers[w].pc.Fetching? ==> rows == {} && s.workers[w].session == {})
  }

  lemma TracksAct(s: State, w: WorkerId, act: Act, rows: set<Write>)
    requires Enabled(s, Work(w, act)) && Tracks(s, w, rows)
    ensures Tracks(Do(s, w, s.workers[w], act), w, rows + if act.Persist? then {act.write} else {})
  {}

  lemma TracksStep(s: State, l: Label, w: WorkerId, rows: set<Write>)
    requires Enabled(s, l) && Tracks(s, w, rows)
    ensures Tracks(Apply(s, l), w, rows + if Persists(l, w) then {l.act.write} else {})
  {
    if l.Work? && l.w == w { TracksAct(s, w, l.act, rows); } else { WritesOther(s, l, w); }
  }

  lemma PersistedGrows(labels: seq<Label>, k: nat, w: WorkerId)
    requires k < |labels|
    ensures var l := labels[k];
            Persisted(labels, k + 1, w)
            == Persisted(labels, k, w) + if Persists(l, w) then {l.act.write} else {}
  {}

  lemma {:induction false} StagedIsPersisted(states: seq<State>, labels: seq<Label>, k: nat, w: WorkerId)
    requires IsRun(states, labels) && k < |states|
    ensures Tracks(states[k], w, Persisted(labels, k, w))
  {
    if k > 0 {
      StagedIsPersisted(states, labels, k - 1, w);
      PersistedGrows(labels, k - 1, w);
      TracksStep(states[k - 1], labels[k - 1], w, Persisted(labels, k - 1, w));
    }
  }

  /** So what a marked worker has committed is everything it had persisted by its mark, and nothing else. */
  lemma CommittedIsPersisted(states: seq<State>, labels: seq<Label>, k: nat, w: WorkerId)
    requires IsRun(states, labels) && k < |states| && !NeverMarked(labels, k, w)
    ensures exists m: nat :: m < k && IsMark(labels[m], w) && RowsOf(states[k], w) == Persisted(labels, m, w)
  {
    StagedAtomically(states, labels, k, w);
    var m: nat :| WroteAt(states, labels, k, w, m);
    StagedIsPersisted(states, labels, m, w);
    assert Enabled(states[m], labels[m]);
    assert RowsOf(states[k], w) == Persisted(labels, m, w);
  }

  // ---- What can happen ----

  /** A worker past its claim and not yet at its end has a row under its run id, and a mark is succeeded or
      partial_failed. */
  ghost predicate HasRow(s: State, w: WorkerId) {
    w in s.workers ==>
      && (s.workers[w].Claiming() || s.workers[w].pc.Finished? || s.workers[w].pc.Dead?
          || s.workers[w].req.runId in s.table)
      && (s.workers[w].pc.Marked? ==> s.workers[w].pc.status in {Succeeded, PartialFailed})
  }

  lemma HasRowStep(s: State, l: Label, w: WorkerId)
    requires Enabled(s, l) && HasRow(s, w)
    ensures HasRow(Apply(s, l), w)
  {
    if l.Work? && l.w == w {
      HasRowAct(s, w, l.act);
    } else {
      WorkerKept(s, l, w);
      RowsStay(s, l);
    }
  }

  lemma HasRowAct(s: State, w: WorkerId, act: Act)
    requires Enabled(s, Work(w, act)) && HasRow(s, w)
    ensures HasRow(Do(s, w, s.workers[w], act), w)
  {
    DoShape(s, w, act);
  }

  lemma RowsStay(s: State, l: Label)
    requires Enabled(s, l)
    ensures s.table.Keys <= Apply(s, l).table.Keys
  {
    if l.Work? { DoShape(s, l.w, l.act); }
  }

  lemma {:induction false} RowsExist(states: seq<State>, labels: seq<Label>, k: nat, w: WorkerId)
    requires IsRun(states, labels) && k < |states|
    ensures HasRow(states[k], w)
  {
    if k > 0 {
      RowsExist(states, labels, k - 1, w);
      HasRowStep(states[k - 1], labels[k - 1], w);
    }
  }

  /** Nobody is ever stuck: whatever happened before, a worker that is neither finished nor dead has a step to take
      other than to crash, and can crash. */
  lemma NobodyIsStuck(states: seq<State>, labels: seq<Label>, k: nat, w: WorkerId)
    requires IsRun(states, labels) && k < |states| && w in states[k].workers
    requires !states[k].workers[w].pc.Finished? && !states[k].workers[w].pc.Dead?
    ensures Enabled(states[k], Work(w, Crash))
    ensures exists act :: act != Crash && Enabled(states[k], Work(w, act))
  {
    LedgerConsistent(states, labels, k);
    RowsExist(states, labels, k, w);
    var act := NextAct(states[k], states[k].workers[w]);
    assert Enabled(states[k], Work(w, act));
  }

  function NextAct(s: State, me: Worker): Act {
    match me.pc
    case Arrived => LookupId(s.now)
    case NoRow => LookupHash
    case NoDuplicate => Insert(s.now)
    case Conflicted => LookupId(s.now)
    case StillNoRow => LookupHash
    case Failing(seen) => if seen.None? then SelectRow else MarkFailed(s.now, "")
    case LateFailing(seen) => if seen.None? then SelectRow else MarkFailed(s.now, "")
    case Marked(_) => Refresh
    case FailedMarked => Refresh
    case _ => Raise
  }

  /** What an owner can do at any time: persist any row and raise, whatever it has staged; commit its cache before it
      has staged anything; and mark its run succeeded or partial_failed exactly when the hash index allows it. A refresh
      can raise only after a mark, and a crash can come at any time before the end. */
  lemma OwnersCan(s: State, w: WorkerId, x: Write, status: Status, stamp: Time, counts: map<string, int>)
    requires w in s.workers
    ensures var pc, id := s.workers[w].pc, s.workers[w].req.runId;
            var atWork := pc == Fetching || pc == Staging;
            && (Enabled(s, Work(w, Persist(x))) <==> atWork)
            && (Enabled(s, Work(w, Raise)) <==> atWork)
            && (Enabled(s, Work(w, CacheCommit)) <==> pc == Fetching)
            && (Enabled(s, Work(w, RefreshFails)) <==> pc.Marked?)
            && (Enabled(s, Work(w, Crash)) <==> !pc.Finished? && pc != Dead)
            && (Enabled(s, Work(w, Mark(status, stamp, counts, None))) <==>
                  atWork && status in {Succeeded, PartialFailed} && id in s.table
                  && Admissible(s.table, id, s.table[id].(status := status)))
  {}

  // ---- When the request hash determines the run id ----

  ghost predicate Keyed(s: State, idOf: Hash -> RunId) {
    && (forall id :: id in s.table ==> id == idOf(s.table[id].hash))
    && (forall w :: w in s.workers ==> KeyedWorker(s.table, s.workers[w], idOf))
  }

  ghost predicate KeyedWorker(t: Table, me: Worker, idOf: Hash -> RunId) {
    && me.req.runId == idOf(me.req.hash)
    && me.pc != Finished(ClaimAborted)
    && !me.pc.StillNoRow?
    && (me.pc.Conflicted? ==> me.req.runId in t)
  }

  lemma KeyedStep(s: State, l: Label, idOf: Hash -> RunId)
    requires Keyed(s, idOf) && Enabled(s, l)
    requires l.Spawn? ==> l.req.runId == idOf(l.req.hash)
    ensures Keyed(Apply(s, l), idOf)
  {
    match l
    case Work(w, act) =>
      var me := s.workers[w];
      assert s.workers[w].req.runId == idOf(me.req.hash);
      KeyedAct(s, w, act, idOf);
    case _ =>
  }

  lemma KeyedAct(s: State, w: WorkerId, act: Act, idOf: Hash -> RunId)
    requires Keyed(s, idOf) && Enabled(s, Work(w, act))
    ensures Keyed(Do(s, w, s.workers[w], act), idOf)
  {
    var s' := Do(s, w, s.workers[w], act);
    KeyedSelf(s, w, act, idOf);
    assert s'.workers == s.workers[w := s'.workers[w]];
    forall v | v in s'.workers && v != w ensures KeyedWorker(s'.table, s'.workers[v], idOf) {
      assert KeyedWorker(s.table, s.workers[v], idOf);
    }
  }

  lemma KeyedSelf(s: State, w: WorkerId, act: Act, idOf: Hash -> RunId)
    requires Keyed(s, idOf) && Enabled(s, Work(w, act))
    ensures var s' := Do(s, w, s.workers[w], act);
            && w in s'.workers && s'.workers == s.workers[w := s'.workers[w]]
            && KeyedWorker(s'.table, s'.workers[w], idOf)
            && (forall id :: id in s'.table ==> id == idOf(s'.table[id].hash))
            && s.table.Keys <= s'.table.Keys
  {
    var me := s.workers[w];
    assert KeyedWorker(s.table, me, idOf);
    DoShape(s, w, act);
    if act.LookupId? || act.Insert? { KeyedAdmissible(s.table, me.req, StartedRow(me.req, act.stamp), idOf); }
  }

  /** With keyed rows no other row has this hash. */
  lemma KeyedAdmissible(t: Table, req: Request, row: Row, idOf: Hash -> RunId)
    requires (forall id :: id in t ==> id == idOf(t[id].hash)) && req.runId == idOf(req.hash) && row.hash == req.hash
    ensures Admissible(t, req.runId, row)
  {}

  lemma {:induction false} KeyedRun(states: seq<State>, labels: seq<Label>, idOf: Hash -> RunId, k: nat)
    requires IsRun(states, labels) && k < |states| && Keyed(states[0], idOf)
    requires forall m {:trigger labels[m]} :: 0 <= m < |labels| && labels[m].Spawn? ==>
               labels[m].req.runId == idOf(labels[m].req.hash)
    ensures Keyed(states[k], idOf)
  {
    if k > 0 {
      KeyedRun(states, labels, idOf, k - 1);
      KeyedStep(states[k - 1], labels[k - 1], idOf);
    }
  }

  /** The service's own requests, over a ledger it filled, never end in an integrity error: the hash covers everything
      the run id is built of, so every aborted insert finds the row that beat it and no restart is blocked by the hash
      index. */
  lemma ClaimsNeverAbort(states: seq<State>, labels: seq<Label>, slug: Slug, k: nat, w: WorkerId)
    requires IsRun(states, labels) && k < |states| && w in states[k].workers
    requires forall id :: id in states[0].table ==>
               exists p :: id == RunIdOf(p, slug) && states[0].table[id].hash == Sha256(p)
    requires forall m {:trigger labels[m]} :: 0 <= m < |labels| && labels[m].Spawn? ==>
               exists p :: labels[m].req == RequestFor(p, slug)
    ensures states[k].workers[w].pc != Finished(ClaimAborted)
  {
    var idOf := (h: Hash) => RunIdOf(h.params, slug);
    assert Keyed(states[0], idOf);
    KeyedRun(states, labels, idOf, k);
    assert KeyedWorker(states[k].table, states[k].workers[w], idOf);
  }

  // ---- An undisturbed claim ----

  /** A worker's claim with no other step in between. */
  ghost function Undisturbed(s: State, w: WorkerId, req: Request, stamp: Time): State
    requires w !in s.workers && Consistent(s.table) && stamp <= s.now
  {
    var s1 := Apply(Apply(s, Spawn(w, req)), Work(w, LookupId(stamp)));
    if !s1.workers[w].pc.NoRow? then s1 else
    var s2 := Apply(s1, Work(w, LookupHash));
    if !s2.workers[w].pc.NoDuplicate? then s2 else Apply(s2, Work(w, Insert(stamp)))
  }

  /** The outcome of a claim that a worker's state stands for. */
  ghost predicate Outcomes(s: State, req: Request, pc: Pc)
    requires Consistent(s.table)
  {
    match SequentialClaim(s.table, req)
    case Ok(id) =>
      if id in s.table && s.table[id].status.Succeeded? then pc == Finished(Replayed)
      else id == req.runId && pc == Fetching
    case Err(AlreadyActive(_)) => pc == Finished(Refused)
    case Err(IntegrityError) => pc == Finished(ClaimAborted)
  }

  /** The protocol's steps, run without interference, are the sequential claim. */
  lemma UndisturbedIsSequential(s: State, w: WorkerId, req: Request, stamp: Time)
    requires w !in s.workers && Consistent(s.table) && stamp <= s.now
    ensures var r := Undisturbed(s, w, req, stamp);
            r.table == AfterClaim(s.table, req, stamp) && w in r.workers && Outcomes(s, req, r.workers[w].pc)
  {
    if req.runId in s.table { UndisturbedHolding(s, w, req, stamp); } else { UndisturbedMissing(s, w, req, stamp); }
  }

  lemma UndisturbedHolding(s: State, w: WorkerId, req: Request, stamp: Time)
    requires w !in s.workers && Consistent(s.table) && stamp <= s.now && req.runId in s.table
    ensures var r := Undisturbed(s, w, req, stamp);
            r.table == AfterClaim(s.table, req, stamp) && w in r.workers && Outcomes(s, req, r.workers[w].pc)
  {}

  lemma UndisturbedMissing(s: State, w: WorkerId, req: Request, stamp: Time)
    requires w !in s.workers && Consistent(s.table) && stamp <= s.now && req.runId !in s.table
    ensures var r := Undisturbed(s, w, req, stamp);
            r.table == AfterClaim(s.table, req, stamp) && w in r.workers && Outcomes(s, req, r.workers[w].pc)
  {
    if FindDuplicate(s.table, req.hash).None? {
      forall other | other in s.table ensures !(s.table[other].Active() && s.table[other].hash == req.hash) {
        assert !IsDuplicate(s.table, req.hash, other);
      }
    }
  }

  // ---- An interrupted claim ----

  /** A worker's claim while others leave these tables between its reads. */
  ghost function Interrupted(s: State, w: WorkerId, req: Request, stamp: Time, others: Interference): State
    requires w !in s.workers && Consistent(s.table) && others.Lawful() && stamp <= s.now
  {
    var s1 := Apply(Apply(s, Spawn(w, req)), Work(w, LookupId(stamp)));
    if !s1.workers[w].pc.NoRow? then s1 else HashLooked(s1, w, stamp, others)
  }

  ghost function HashLooked(s: State, w: WorkerId, stamp: Time, others: Interference): State
    requires w in s.workers && s.workers[w].pc.NoRow? && others.Lawful() && stamp <= s.now
  {
    var s2 := Apply(s.(table := others.afterId), Work(w, LookupHash));
    if !s2.workers[w].pc.NoDuplicate? then s2 else Inserted(s2, w, stamp, others)
  }

  ghost function Inserted(s: State, w: WorkerId, stamp: Time, others: Interference): State
    requires w in s.workers && s.workers[w].pc.NoDuplicate? && others.Lawful() && stamp <= s.now
  {
    var s3 := Apply(s.(table := others.afterHash), Work(w, Insert(stamp)));
    if !s3.workers[w].pc.Conflicted? then s3 else Recovered(s3, w, stamp, others)
  }

  ghost function Recovered(s: State, w: WorkerId, stamp: Time, others: Interference): State
    requires w in s.workers && s.workers[w].pc.Conflicted? && others.Lawful() && stamp <= s.now
  {
    var s4 := Apply(s.(table := others.afterConflict), Work(w, LookupId(stamp)));
    if !s4.workers[w].pc.StillNoRow? then s4 else Apply(s4.(table := others.afterSecondId), Work(w, LookupHash))
  }

  /** The worker's state that an answer stands for. */
  ghost predicate Stands(answer: Result<RunId, ClaimError>, before: Table, pc: Pc) {
    match answer
    case Ok(id) => pc == if id in before && before[id].status.Succeeded? then Finished(Replayed) else Fetching
    case Err(AlreadyActive(_)) => pc == Finished(Refused)
    case Err(IntegrityError) => pc == Finished(ClaimAborted)
  }

  ghost predicate Answers(
      s: State, w: WorkerId, req: Request, stamp: Time, answer: Result<RunId, ClaimError>, before: Table)
  {
    w in s.workers && s.workers[w].req == req && Stands(answer, before, s.workers[w].pc)
    && s.table == AfterAnswer(before, req, stamp, answer)
  }

  lemma RowAnswers(s: State, w: WorkerId, stamp: Time)
    requires w in s.workers && (s.workers[w].pc.Arrived? || s.workers[w].pc.Conflicted?) && stamp <= s.now
    requires Consistent(s.table) && s.workers[w].req.runId in s.table
    ensures var me := s.workers[w];
            Answers(Apply(s, Work(w, LookupId(stamp))), w, me.req, stamp, OnRow(s.table, me.req), s.table)
  {}

  lemma HashAnswers(s: State, w: WorkerId, stamp: Time, id: RunId)
    requires w in s.workers && (s.workers[w].pc.NoRow? || s.workers[w].pc.StillNoRow?) && Consistent(s.table)
    requires FindDuplicate(s.table, s.workers[w].req.hash) == Some(id)
    ensures Answers(Apply(s, Work(w, LookupHash)), w, s.workers[w].req, stamp, OnDuplicate(s.table, id), s.table)
  {}

  lemma RecoveredAnswers(s: State, w: WorkerId, stamp: Time, others: Interference)
    requires w in s.workers && s.workers[w].pc.Conflicted? && others.Lawful() && stamp <= s.now
    ensures var req := s.workers[w].req;
            var found := FindDuplicate(others.afterSecondId, req.hash);
            var before := if req.runId in others.afterConflict then others.afterConflict else others.afterSecondId;
            var answer := if req.runId in others.afterConflict then OnRow(others.afterConflict, req)
                          else if found.None? then Err(IntegrityError)
                          else OnDuplicate(others.afterSecondId, found.value);
            Answers(Recovered(s, w, stamp, others), w, req, stamp, answer, before)
  {
    var req, t := s.workers[w].req, s.(table := others.afterConflict);
    if req.runId in others.afterConflict {
      RowAnswers(t, w, stamp);
    } else {
      var u := Apply(t, Work(w, LookupId(stamp))).(table := others.afterSecondId);
      if found :| FindDuplicate(others.afterSecondId, req.hash) == Some(found) { HashAnswers(u, w, stamp, found); }
    }
  }

  /** However others interrupt it, the protocol's steps give the answer of the service's claim and leave the table that
      the service leaves. */
  lemma InterruptedIsService(s: State, w: WorkerId, req: Request, stamp: Time, others: Interference)
    requires w !in s.workers && Consistent(s.table) && others.Lawful() && stamp <= s.now
    ensures var (answer, before) := InterruptedClaim(s.table, req, others);
            Answers(Interrupted(s, w, req, stamp, others), w, req, stamp, answer, before)
  {
    var arrived := Apply(s, Spawn(w, req));
    if req.runId in s.table {
      RowAnswers(arrived, w, stamp);
    } else {
      LookedAnswers(Apply(arrived, Work(w, LookupId(stamp))), w, stamp, others, s.table);
    }
  }

  lemma LookedAnswers(s: State, w: WorkerId, stamp: Time, others: Interference, t: Table)
    requires w in s.workers && s.workers[w].pc.NoRow? && others.Lawful() && stamp <= s.now
    requires s.workers[w].req.runId !in t
    ensures var req := s.workers[w].req;
            var (answer, before) := InterruptedClaim(t, req, others);
            Answers(HashLooked(s, w, stamp, others), w, req, stamp, answer, before)
  {
    var req, u := s.workers[w].req, s.(table := others.afterId);
    var duplicate := FindDuplicate(others.afterId, req.hash);
    if duplicate.Some? {
      HashAnswers(u, w, stamp, duplicate.value);
    } else {
      InsertedAnswers(Apply(u, Work(w, LookupHash)), w, stamp, others, t);
    }
  }

  lemma InsertedAnswers(s: State, w: WorkerId, stamp: Time, others: Interference, t: Table)
    requires w in s.workers && s.workers[w].pc.NoDuplicate? && others.Lawful() && stamp <= s.now
    requires s.workers[w].req.runId !in t && FindDuplicate(others.afterId, s.workers[w].req.hash).None?
    ensures var req := s.workers[w].req;
            var (answer, before) := InterruptedClaim(t, req, others);
            Answers(Inserted(s, w, stamp, others), w, req, stamp, answer, before)
  {
    var req, u := s.workers[w].req, s.(table := others.afterHash);
    var v := Apply(u, Work(w, Insert(stamp)));
    if v.workers[w].pc.Conflicted? { RecoveredAnswers(v, w, stamp, others); }
  }

  // ---- The discipline is needed ----

  const aScope := Scope("news", "NAVER_NEWS", "005930", "20260618")
  const aHash := Sha256(RunParams("NAVER_NEWS", "005930", "20260618", 1, 10, None))
  const aRequest := Request("run", aScope, aHash)

  ghost predicate WithinBounds(states: seq<State>, labels: seq<Label>, bound: int) {
    && (forall k {:trigger states[k]} :: 0 <= k < |states| ==> Punctual(states[k], bound))
    && (forall k {:trigger labels[k]} :: 0 <= k < |labels| && labels[k].Survey? ==> labels[k].maxAge >= bound)
  }

  /** A run under construction: each step with the state it reaches. */
  datatype Trace = Start(state: State) | Then(before: Trace, step: Label, state: State)
  {
    ghost predicate Steps(bound: int) {
      && Punctual(state, bound)
      && match this
         case Start(s) => Init(s)
         case Then(before, l, s) =>
           before.Steps(bound) && Enabled(before.state, l) && s == Apply(before.state, l)
           && (l.Survey? ==> l.maxAge >= bound)
    }

    ghost predicate Surveys() {
      Then? && (step.Survey? || before.Surveys())
    }

    ghost predicate Raises() {
      Then? && ((step.Work? && step.act.RefreshFails?) || before.Raises())
    }
  }

  lemma {:induction false} TraceIsRun(t: Trace, bound: int) returns (states: seq<State>, labels: seq<Label>)
    requires t.Steps(bound)
    ensures IsRun(states, labels) && WithinBounds(states, labels, bound) && states[|labels|] == t.state
    ensures forall k {:trigger labels[k]} :: 0 <= k < |labels| ==>
              && (!t.Surveys() ==> !labels[k].Survey?)
              && (!t.Raises() ==> !(labels[k].Work? && labels[k].act.RefreshFails?))
  {
    match t
    case Start(s) => states, labels := [s], [];
    case Then(before, l, s) =>
      states, labels := TraceIsRun(before, bound);
      labels, states := labels + [l], states + [s];
  }

  lemma Extend(t: Trace, l: Label, s: State, bound: int) returns (r: Trace)
    requires t.Steps(bound) && Enabled(t.state, l) && s == Apply(t.state, l)
    requires Punctual(s, bound) && (l.Survey? ==> l.maxAge >= bound)
    ensures r.Steps(bound) && r.state == s
    ensures r.Surveys() == (t.Surveys() || l.Survey?)
    ensures r.Raises() == (t.Raises() || (l.Work? && l.act.RefreshFails?))
  {
    r := Then(t, l, s);
  }

  lemma Arrive(t: Trace, w: WorkerId, bound: int) returns (r: Trace)
    requires t.Steps(bound) && w !in t.state.workers
    ensures r.Steps(bound) && r.Surveys() == t.Surveys() && r.Raises() == t.Raises()
    ensures r.state == t.state.(workers := t.state.workers[w := Worker(aRequest, Arrived, {})])
  {
    var s := Apply(t.state, Spawn(w, aRequest));
    assert forall v :: Owning(s, v) ==> Owning(t.state, v);
    r := Extend(t, Spawn(w, aRequest), s, bound);
  }

  /** A worker arrives for `aRequest` and restarts the failed row. */
  lemma ArriveAndRestart(t: Trace, w: WorkerId, bound: int) returns (r: Trace)
    requires t.Steps(bound) && bound > 0 && w !in t.state.workers
    requires t.state.table.Keys == {"run"} && t.state.table["run"].Restartable()
    ensures r.Steps(bound) && r.Surveys() == t.Surveys() && r.Raises() == t.Raises()
    ensures r.state.now == t.state.now && r.state.sweeps == t.state.sweeps
    ensures r.state.table == map["run" := StartedRow(aRequest, t.state.now)]
    ensures r.state.workers == t.state.workers[w := Worker(aRequest, Fetching, {})]
  {
    r := Arrive(t, w, bound);
    r := Restart(r, w, bound);
    assert r.state.workers == t.state.workers[w := Worker(aRequest, Fetching, {})];
  }

  lemma Restart(t: Trace, w: WorkerId, bound: int) returns (r: Trace)
    requires t.Steps(bound) && bound > 0 && w in t.state.workers && t.state.workers[w] == Worker(aRequest, Arrived, {})
    requires t.state.table.Keys == {"run"} && t.state.table["run"].Restartable()
    ensures r.Steps(bound) && r.Surveys() == t.Surveys() && r.Raises() == t.Raises()
    ensures r.state == t.state.(table := map["run" := StartedRow(aRequest, t.state.now)],
                                workers := t.state.workers[w := Worker(aRequest, Fetching, {})])
  {
    RestartsRow(t.state, w);
    var s := Apply(t.state, Work(w, LookupId(t.state.now)));
    r := Extend(t, Work(w, LookupId(t.state.now)), s, bound);
  }

  lemma RestartsRow(s: State, w: WorkerId)
    requires w in s.workers && s.workers[w] == Worker(aRequest, Arrived, {})
    requires s.table.Keys == {"run"} && s.table["run"].Restartable()
    ensures Enabled(s, Work(w, LookupId(s.now)))
    ensures Apply(s, Work(w, LookupId(s.now)))
         == s.(table := map["run" := StartedRow(aRequest, s.now)],
               workers := s.workers[w := Worker(aRequest, Fetching, {})])
  {
    var row := StartedRow(aRequest, s.now);
    assert s.table["run" := row] == map["run" := row];
  }

  lemma SweepAll(t: Trace, k: nat, bound: int) returns (r: Trace)
    requires t.Steps(bound) && bound > 0 && k in t.state.sweeps && t.state.sweeps[k] == {"run"}
    requires t.state.table.Keys == {"run"}
    ensures r.Steps(bound) && r.Surveys() == t.Surveys() && r.Raises() == t.Raises()
    ensures r.state.now == t.state.now && r.state.workers == t.state.workers
    ensures r.state.sweeps == t.state.sweeps - {k}
    ensures r.state.table.Keys == {"run"} && r.state.table["run"].status.Failed?
  {
    var s := Apply(t.state, Sweep(k, t.state.now));
    assert s.table.Keys == {"run"};
    r := Extend(t, Sweep(k, t.state.now), s, bound);
  }

  lemma SurveyAll(t: Trace, k: nat, bound: int) returns (r: Trace)
    requires t.Steps(bound) && k !in t.state.sweeps && Stale(t.state.table, "run", t.state.now - bound)
    ensures r.Steps(bound) && r.Raises() == t.Raises()
    ensures r.state == t.state.(sweeps := t.state.sweeps[k := {"run"}])
  {
    var s := t.state.(sweeps := t.state.sweeps[k := {"run"}]);
    assert forall v :: Owning(s, v) ==> Owning(t.state, v);
    r := Extend(t, Survey(k, {"run"}, t.state.now, bound), s, bound);
  }

  /** Two reconcilers that overlap: the second sweep fails a row that was restarted after the first, and a second
      worker restarts it under the same run id while the first is at work. */
  lemma OverlappingSweepsBreakExclusion(bound: int) returns (states: seq<State>, labels: seq<Label>)
    requires bound > 0
    ensures IsRun(states, labels) && WithinBounds(states, labels, bound)
    ensures forall k {:trigger labels[k]} :: 0 <= k < |labels| ==> !(labels[k].Work? && labels[k].act.RefreshFails?)
    ensures Owns(states[|labels|], 0, "run") && Owns(states[|labels|], 1, "run")
  {
    var row := Row(aScope, Started, aHash, 0, None, map[], None);
    var t := Start(State(0, map["run" := row], map[], map[], {}));
    t := Extend(t, Tick(bound), t.state.(now := bound), bound);
    t := SurveyAll(t, 0, bound);
    t := SurveyAll(t, 1, bound);
    t := SweepAll(t, 0, bound);
    t := ArriveAndRestart(t, 0, bound);
    t := SweepAll(t, 1, bound);
    t := ArriveAndRestart(t, 1, bound);
    states, labels := TraceIsRun(t, bound);
  }

  /** The owner's mark commits and the refresh after it raises. */
  lemma MarkThenRefreshFails(t: Trace, w: WorkerId, bound: int) returns (r: Trace)
    requires t.Steps(bound) && bound > 0 && w in t.state.workers && t.state.workers[w] == Worker(aRequest, Fetching, {})
    requires t.state.table.Keys == {"run"}
    ensures r.Steps(bound) && r.Surveys() == t.Surveys()
    ensures r.state.now == t.state.now
    ensures r.state.workers == t.state.workers[w := Worker(aRequest, LateFailing(None), {})]
    ensures r.state.table.Keys == {"run"} && r.state.table["run"].status.PartialFailed?
  {
    r := MarkPartial(t, w, bound);
    var s := Apply(r.state, Work(w, RefreshFails));
    assert s.workers == t.state.workers[w := Worker(aRequest, LateFailing(None), {})];
    assert forall v :: Owning(s, v) ==> Owning(r.state, v);
    r := Extend(r, Work(w, RefreshFails), s, bound);
  }

  lemma FailLate(t: Trace, w: WorkerId, bound: int) returns (r: Trace)
    requires t.Steps(bound) && bound > 0 && w in t.state.workers
    requires t.state.workers[w] == Worker(aRequest, LateFailing(None), {})
    requires t.state.table.Keys == {"run"} && t.state.table["run"].status.Started?
    ensures r.Steps(bound) && r.Surveys() == t.Surveys()
    ensures r.state.workers == t.state.workers[w := Worker(aRequest, FailedMarked, {})]
    ensures r.state.table.Keys == {"run"} && r.state.table["run"].status.Failed?
  {
    r := SelectLate(t, w, bound);
    var s := Apply(r.state, Work(w, MarkFailed(r.state.now, "refresh failed")));
    assert s.workers == t.state.workers[w := Worker(aRequest, FailedMarked, {})];
    assert forall v :: Owning(s, v) ==> Owning(r.state, v);
    r := Extend(r, Work(w, MarkFailed(r.state.now, "refresh failed")), s, bound);
  }

  lemma SelectLate(t: Trace, w: WorkerId, bound: int) returns (r: Trace)
    requires t.Steps(bound) && w in t.state.workers && t.state.workers[w] == Worker(aRequest, LateFailing(None), {})
    requires "run" in t.state.table && t.state.table["run"].status.Started?
    ensures r.Steps(bound) && r.Surveys() == t.Surveys()
    ensures r.state == t.state.(workers := t.state.workers[w := Worker(aRequest, LateFailing(Some(Started)), {})])
  {
    var s := Apply(t.state, Work(w, SelectRow));
    assert forall v :: Owning(s, v) ==> Owning(t.state, v);
    r := Extend(t, Work(w, SelectRow), s, bound);
  }

  /** One refresh that raises after a committed partial_failed: the exception path fails the row of the worker that
      restarted it meanwhile, and a third worker restarts it again. */
  lemma LateFailureBreaksExclusion(bound: int) returns (states: seq<State>, labels: seq<Label>)
    requires bound > 0
    ensures IsRun(states, labels) && WithinBounds(states, labels, bound)
    ensures forall k {:trigger labels[k]} :: 0 <= k < |labels| ==> !labels[k].Survey?
    ensures Owns(states[|labels|], 1, "run") && Owns(states[|labels|], 2, "run")
  {
    var row := Row(aScope, Failed, aHash, 0, Some(0), map[], Some("provider_timeout"));
    var t := Start(State(0, map["run" := row], map[], map[], {}));
    t := ArriveAndRestart(t, 0, bound);
    t := MarkThenRefreshFails(t, 0, bound);
    t := ArriveAndRestart(t, 1, bound);
    t := FailLate(t, 0, bound);
    t := ArriveAndRestart(t, 2, bound);
    states, labels := TraceIsRun(t, bound);
  }

  lemma MarkPartial(t: Trace, w: WorkerId, bound: int) returns (r: Trace)
    requires t.Steps(bound) && bound > 0 && w in t.state.workers && t.state.workers[w] == Worker(aRequest, Fetching, {})
    requires t.state.table.Keys == {"run"}
    ensures r.Steps(bound) && r.Surveys() == t.Surveys() && r.Raises() == t.Raises()
    ensures r.state.now == t.state.now && r.state.sweeps == t.state.sweeps
    ensures r.state.workers == t.state.workers[w := Worker(aRequest, Marked(PartialFailed), {})]
    ensures r.state.table.Keys == {"run"} && r.state.table["run"].status.PartialFailed?
  {
    var mark := Mark(PartialFailed, t.state.now, map[], Some("provider_fallback"));
    var s := Apply(t.state, Work(w, mark));
    assert forall v :: Owning(s, v) ==> Owning(t.state, v);
    r := Extend(t, Work(w, mark), s, bound);
  }

  /** Even in a careful run a partial_failed mark can be reported as started: another worker restarts the row before the
      first one re-reads it. */
  lemma ReportCanDiffer(bound: int) returns (states: seq<State>, labels: seq<Label>)
    requires bound > 0
    ensures CarefulRun(states, labels, bound)
    ensures 0 in states[|labels|].workers && states[|labels|].workers[0].pc == Finished(Reported(Started))
  {
    var row := Row(aScope, Failed, aHash, 0, Some(0), map[], Some("provider_timeout"));
    var t := Start(State(0, map["run" := row], map[], map[], {}));
    t := ArriveAndRestart(t, 0, bound);
    t := MarkPartial(t, 0, bound);
    t := ArriveAndRestart(t, 1, bound);
    t := RefreshLate(t, 0, bound);
    states, labels := TraceIsRun(t, bound);
  }

  lemma RefreshLate(t: Trace, w: WorkerId, bound: int) returns (r: Trace)
    requires t.Steps(bound) && w in t.state.workers && t.state.workers[w] == Worker(aRequest, Marked(PartialFailed), {})
    requires "run" in t.state.table && t.state.table["run"].status.Started?
    ensures r.Steps(bound) && r.Surveys() == t.Surveys() && r.Raises() == t.Raises()
    ensures r.state.workers == t.state.workers[w := Worker(aRequest, Finished(Reported(Started)), {})]
  {
    var s := Apply(t.state, Work(w, Refresh));
    assert forall v :: Owning(s, v) ==> Owning(t.state, v);
    r := Extend(t, Work(w, Refresh), s, bound);
  }
}
