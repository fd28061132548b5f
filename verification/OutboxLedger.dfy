/**
 What every run of the outbox keeps, however workers interleave, crash, lose leases or get
 their statements rejected: a row's books are right, terminal rows stay put, no row is
 stranded, retries are paced, and the counters of the calls add up to the processed rows.
 */
module OutboxLedger {
  import opened Prelude
  import opened RetryPolicy
  import opened Outbox

  // ---------------------------------------------------------------- one row

  /** Milliseconds a row must have spent waiting once it failed `failures` times. */
  function Paced(o: Options, failures: nat): nat {
    TotalDelaySeconds(o.retry, failures) * 1000
  }

  predicate RowConsistent(r: Row, now: nat, o: Options) {
    && (r.status.Processing? <==> r.lockedBy.Some?) && (r.status.Processing? <==> r.lockedAt.Some?)
    && r.attempts <= o.maxAttempts
    && (r.status.Failed? <==> r.attempts == o.maxAttempts)
    && (r.attempts == 0 <==> r.firstFailedAt.None?)
    && (r.status.Processing? ==> r.availableAt <= now)
    && (r.status.Pending? || r.status.Processing? ==>
          r.attempts > 0 ==> r.firstFailedAt.value + Paced(o, r.attempts) <= r.availableAt)
    && (r.status.Failed? ==> r.firstFailedAt.value + Paced(o, o.maxAttempts - 1) <= r.updatedAt)
    && (r.status.Processed? ==> r.evidence.Some?)
    && (r.status.Processed? ==>
          !r.evidence.value.timedOut && r.evidence.value.handled == Supporting(o.handlers, r.eventName))
  }

  lemma FailKeepsRow(r: Row, now: nat, o: Options)
    requires RowConsistent(r, now, o) && r.status.Processing?
    ensures RowConsistent(MarkRowFailed(r, r.attempts, now, o), now, o)
  {
    var a := r.attempts;
    assert TotalDelaySeconds(o.retry, a + 1) == TotalDelaySeconds(o.retry, a) + RetryDelaySeconds(o.retry, a + 1);
  }

  // ---------------------------------------------------------------- the table and its workers

  /** A worker id on a row is one that was drawn, and stands for the attempts that worker read. */
  predicate Fenced(s: State) {
    && (forall i | 0 <= i < |s.rows| && s.rows[i].lockedBy.Some? :: s.rows[i].lockedBy.value < |s.workers|)
    && (forall k, p | 0 <= k < |s.workers| && 0 <= p < |s.workers[k].batch| ::
          var c := s.workers[k].batch[p];
          c.row < |s.rows| && (s.rows[c.row].lockedBy == Some(k) ==> c.attempts == s.rows[c.row].attempts))
  }

  predicate WorkerConsistent(w: Worker, rows: seq<Row>, o: Options) {
    && w.processed + w.failed + w.lost == w.next <= |w.batch|
    && (w.pc.Finished? <==> w.next == |w.batch|)
    && (w.pc.Marking? && w.batch[w.next].row < |rows| ==>
          !w.timedOut && w.handled == Supporting(o.handlers, rows[w.batch[w.next].row].eventName))
    && (w.pc.Routing? && w.batch[w.next].row < |rows| ==>
          var supporting := Supporting(o.handlers, rows[w.batch[w.next].row].eventName);
          w.handled <= supporting && (w.handled == [] || |w.handled| < |supporting|))
  }

  ghost predicate Inv(s: State, o: Options) {
    && (forall i | 0 <= i < |s.rows| :: RowConsistent(s.rows[i], s.now, o))
    && (forall k | 0 <= k < |s.workers| :: WorkerConsistent(s.workers[k], s.rows, o))
    && Fenced(s)
  }

  lemma InvClaim(s: State, ids: seq<nat>, skipped: set<nat>, o: Options)
    requires Inv(s, o) && Enabled(s, Claim(ids, skipped), o)
    ensures Inv(Apply(s, Claim(ids, skipped), o), o)
  {
    var s' := Apply(s, Claim(ids, skipped), o);
    forall i | 0 <= i < |s'.rows|
      ensures RowConsistent(s'.rows[i], s'.now, o) && s'.rows[i].eventName == s.rows[i].eventName
    {
      if i in ids {
        var p :| 0 <= p < |ids| && ids[p] == i;
        assert Claimable(s.rows[ids[p]], s.now, o);
      }
    }
    forall k, p | 0 <= k < |s'.workers| && 0 <= p < |s'.workers[k].batch|
      ensures var c := s'.workers[k].batch[p];
        c.row < |s'.rows| && (s'.rows[c.row].lockedBy == Some(k) ==> c.attempts == s'.rows[c.row].attempts)
    {
      if k == |s.workers| {
        assert s'.workers[k].batch[p] == Claimed(ids[p], s.rows[ids[p]].attempts);
      } else {
        assert s'.workers[k] == s.workers[k];
      }
    }
    forall k | 0 <= k < |s'.workers|
      ensures WorkerConsistent(s'.workers[k], s'.rows, o)
    {
      if k < |s.workers| {
        assert WorkerConsistent(s.workers[k], s.rows, o);
      }
    }
  }

  /** Replacing one row by a consistent one with the same event keeps the workers' views. */
  lemma InvReplace(s: State, k: nat, w: Worker, r: nat, row: Row, o: Options)
    requires Inv(s, o) && k < |s.workers| && r < |s.rows|
    requires RowConsistent(row, s.now, o) && row.eventName == s.rows[r].eventName
    requires row.lockedBy.Some? ==> row.lockedBy == s.rows[r].lockedBy && row.attempts == s.rows[r].attempts
    requires WorkerConsistent(w, s.rows, o) && w.batch == s.workers[k].batch
    ensures Inv(With(s, k, w).(rows := s.rows[r := row]), o)
  {
    var s' := With(s, k, w).(rows := s.rows[r := row]);
    forall j | 0 <= j < |s'.workers|
      ensures WorkerConsistent(s'.workers[j], s'.rows, o)
    {
      assert WorkerConsistent(if j == k then w else s.workers[j], s.rows, o);
    }
    forall j, p | 0 <= j < |s'.workers| && 0 <= p < |s'.workers[j].batch|
      ensures var c := s'.workers[j].batch[p];
        c.row < |s'.rows| && (s'.rows[c.row].lockedBy == Some(j) ==> c.attempts == s'.rows[c.row].attempts)
    {
      var c := s.workers[j].batch[p];
      assert s'.workers[j].batch[p] == c && c.row < |s.rows|;
    }
  }

  lemma InvMove(s: State, k: nat, w: Worker, o: Options)
    requires Inv(s, o) && k < |s.workers|
    requires WorkerConsistent(w, s.rows, o) && w.batch == s.workers[k].batch
    ensures Inv(With(s, k, w), o)
  {
    var s' := With(s, k, w);
    forall j, p | 0 <= j < |s'.workers| && 0 <= p < |s'.workers[j].batch|
      ensures var c := s'.workers[j].batch[p];
        c.row < |s'.rows| && (s'.rows[c.row].lockedBy == Some(j) ==> c.attempts == s'.rows[c.row].attempts)
    {
      assert s'.workers[j].batch[p] == s.workers[j].batch[p];
    }
  }

  lemma InvSettle(s: State, k: nat, ok: bool, o: Options)
    requires Inv(s, o) && Enabled(s, Settle(k, ok), o)
    ensures Inv(AfterHandler(s, k, ok, o), o)
  {
    var w := s.workers[k];
    assert WorkerConsistent(w, s.rows, o);
    InvMove(s, k, AfterHandler(s, k, ok, o).workers[k], o);
    assert With(s, k, AfterHandler(s, k, ok, o).workers[k]) == AfterHandler(s, k, ok, o);
  }

  lemma InvLand(s: State, k: nat, applied: bool, answered: bool, o: Options)
    requires Inv(s, o) && Enabled(s, Land(k, applied, answered), o)
    ensures Inv(AfterLand(s, k, applied, answered), o)
  {
    var w, r, s' := s.workers[k], CurrentRow(s, k), AfterLand(s, k, applied, answered);
    assert WorkerConsistent(w, s.rows, o) && RowConsistent(s.rows[r], s.now, o);
    if applied && OwnedBy(s.rows[r], k) {
      InvReplace(s, k, s'.workers[k], r, s'.rows[r], o);
    } else {
      InvMove(s, k, s'.workers[k], o);
    }
  }

  /** A mark that hits an owned row leaves a consistent, unlocked row. */
  lemma MarkedRowConsistent(s: State, k: nat, o: Options)
    requires Inv(s, o) && Enabled(s, Mark(k), o) && OwnedBy(s.rows[CurrentRow(s, k)], k)
    ensures var row := MarkedRow(s, k, o);
      RowConsistent(row, s.now, o) && row.lockedBy.None? && row.eventName == s.rows[CurrentRow(s, k)].eventName
    ensures s.workers[k].batch[s.workers[k].next].attempts == s.rows[CurrentRow(s, k)].attempts
  {
    var w, r := s.workers[k], s.rows[CurrentRow(s, k)];
    assert WorkerConsistent(w, s.rows, o) && RowConsistent(r, s.now, o);
    assert w.batch[w.next].attempts == r.attempts;
    if w.pc.Failing? {
      FailKeepsRow(r, s.now, o);
    }
  }

  lemma InvMark(s: State, k: nat, o: Options)
    requires Inv(s, o) && Enabled(s, Mark(k), o)
    ensures Inv(AfterMark(s, k, o), o)
  {
    var w, r, s' := s.workers[k], CurrentRow(s, k), AfterMark(s, k, o);
    assert WorkerConsistent(w, s.rows, o);
    if OwnedBy(s.rows[r], k) {
      MarkedRowConsistent(s, k, o);
      InvReplace(s, k, s'.workers[k], r, s'.rows[r], o);
    } else {
      InvMove(s, k, s'.workers[k], o);
    }
  }

  lemma InvMarkReject(s: State, k: nat, applied: bool, o: Options)
    requires Inv(s, o) && Enabled(s, MarkReject(k, applied), o)
    ensures Inv(AfterMarkReject(s, k, applied, o), o)
  {
    var w, r, s' := s.workers[k], CurrentRow(s, k), AfterMarkReject(s, k, applied, o);
    assert WorkerConsistent(w, s.rows, o);
    if applied && OwnedBy(s.rows[r], k) {
      MarkedRowConsistent(s, k, o);
      InvReplace(s, k, s'.workers[k], r, s'.rows[r], o);
    } else {
      InvMove(s, k, s'.workers[k], o);
      assert s' == With(s, k, s'.workers[k]);
    }
  }

  lemma InvStep(s: State, a: Action, o: Options)
    requires Inv(s, o) && Enabled(s, a, o)
    ensures Inv(Apply(s, a, o), o)
  {
    match a
    case Tick(_) => assert forall i | 0 <= i < |s.rows| :: RowConsistent(s.rows[i], s.now, o);
    case Append(_) =>
      forall k | 0 <= k < |s.workers|
        ensures WorkerConsistent(s.workers[k], Apply(s, a, o).rows, o)
      {
        assert WorkerConsistent(s.workers[k], s.rows, o);
        if s.workers[k].next < |s.workers[k].batch| {
          assert s.workers[k].batch[s.workers[k].next].row < |s.rows|;
        }
      }
    case Claim(ids, skipped) => InvClaim(s, ids, skipped, o);
    case Settle(k, ok) => InvSettle(s, k, ok, o);
    case Timeout(k) =>
      assert WorkerConsistent(s.workers[k], s.rows, o);
      InvMove(s, k, s.workers[k].(timedOut := true), o);
    case Fire(k) => assert WorkerConsistent(s.workers[k], s.rows, o); InvMove(s, k, AfterFire(s, k, o).workers[k], o);
    case Land(k, applied, answered) => InvLand(s, k, applied, answered, o);
    case Mark(k) => InvMark(s, k, o);
    case MarkReject(k, applied) => InvMarkReject(s, k, applied, o);
    case Crash(k) => assert WorkerConsistent(s.workers[k], s.rows, o); InvMove(s, k, s.workers[k].(pc := Crashed), o);
  }

  lemma {:induction false} InvRun(s: State, acts: seq<Action>, o: Options)
    requires Inv(s, o) && Legal(s, acts, o)
    ensures Inv(Exec(s, acts, o), o)
    decreases |acts|
  {
    if acts == [] {
    } else {
      InvStep(s, acts[0], o);
      InvRun(Apply(s, acts[0], o), acts[1..], o);
    }
  }

  lemma {:induction false} InvFromStart(acts: seq<Action>, o: Options)
    requires Legal(INIT, acts, o)
    ensures Inv(Exec(INIT, acts, o), o)
  {
    InvRun(INIT, acts, o);
  }

  // ---------------------------------------------------------------- attempts are recorded failures

  /** The step records a failure on row `i`: a `markFailed` that took effect on it. */
  predicate RecordsFailure(s: State, a: Action, i: nat) {
    (a.Mark? || (a.MarkReject? && a.applied)) && Current(s, a.worker) && s.workers[a.worker].pc.Failing? &&
    CurrentRow(s, a.worker) == i && OwnedBy(s.rows[i], a.worker)
  }

  function RecordedFailures(s: State, acts: seq<Action>, i: nat, o: Options): nat
    requires Legal(s, acts, o)
    decreases |acts|
  {
    if acts == [] then 0
    else (if RecordsFailure(s, acts[0], i) then 1 else 0) + RecordedFailures(Apply(s, acts[0], o), acts[1..], i, o)
  }

  function Attempts(s: State, i: nat): nat {
    if i < |s.rows| then s.rows[i].attempts else 0
  }

  lemma AttemptsStep(s: State, a: Action, i: nat, o: Options)
    requires Inv(s, o) && Enabled(s, a, o)
    ensures Attempts(Apply(s, a, o), i) == Attempts(s, i) + if RecordsFailure(s, a, i) then 1 else 0
  {
    if (a.Mark? || a.MarkReject?) && OwnedBy(s.rows[CurrentRow(s, a.worker)], a.worker) {
      MarkedRowConsistent(s, a.worker, o);
    }
  }

  lemma {:induction false} AttemptsRun(s: State, acts: seq<Action>, i: nat, o: Options)
    requires Inv(s, o) && Legal(s, acts, o)
    ensures Attempts(Exec(s, acts, o), i) == Attempts(s, i) + RecordedFailures(s, acts, i, o)
    decreases |acts|
  {
    if acts == [] {
    } else {
      InvStep(s, acts[0], o);
      AttemptsStep(s, acts[0], i, o);
      AttemptsRun(Apply(s, acts[0], o), acts[1..], i, o);
    }
  }

  /**
   Although `markFailed` writes an absolute count computed from the snapshot of the claim,
   `attempts` is at all times the number of failures recorded on the row: a matching
   `lockedBy` means that no other claim came between.
   */
  lemma AttemptsAreRecordedFailures(acts: seq<Action>, i: nat, o: Options)
    requires Legal(INIT, acts, o) && i < |Exec(INIT, acts, o).rows|
    ensures Exec(INIT, acts, o).rows[i].attempts == RecordedFailures(INIT, acts, i, o)
  {
    AttemptsRun(INIT, acts, i, o);
  }

  // ---------------------------------------------------------------- no row is stranded

  predicate Terminal(r: Row) {
    r.status.Processed? || r.status.Failed?
  }

  lemma TerminalStep(s: State, a: Action, i: nat, o: Options)
    requires Inv(s, o) && Enabled(s, a, o) && i < |s.rows| && Terminal(s.rows[i])
    ensures i < |Apply(s, a, o).rows| && Apply(s, a, o).rows[i] == s.rows[i]
  {
    if a.Claim? {
      forall p | 0 <= p < |a.ids|
        ensures a.ids[p] != i
      {
        assert Claimable(s.rows[a.ids[p]], s.now, o);
      }
    }
  }

  /** `processed` and `failed` are absorbing: nothing about such a row ever changes again. */
  lemma {:induction false} TerminalRowsStay(s: State, acts: seq<Action>, i: nat, o: Options)
    requires Inv(s, o) && Legal(s, acts, o) && i < |s.rows| && Terminal(s.rows[i])
    ensures i < |Exec(s, acts, o).rows| && Exec(s, acts, o).rows[i] == s.rows[i]
    decreases |acts|
  {
    if acts == [] {
    } else {
      InvStep(s, acts[0], o);
      TerminalStep(s, acts[0], i, o);
      TerminalRowsStay(Apply(s, acts[0], o), acts[1..], i, o);
    }
  }

  /** When an unfinished row can next be claimed, if nobody touches it until then. */
  function ClaimableFrom(r: Row, o: Options): nat {
    if r.lockedAt.Some? then Max(r.availableAt, r.lockedAt.value + o.lockTtlMs + 1) else r.availableAt
  }

  /**
   No event is stranded: a row is locked exactly while processing, has failed exactly when
   its attempts are used up, and otherwise becomes claimable at a definite time.
   */
  lemma NoRowIsStranded(acts: seq<Action>, i: nat, t: nat, o: Options)
    requires Legal(INIT, acts, o) && i < |Exec(INIT, acts, o).rows|
    ensures var r := Exec(INIT, acts, o).rows[i];
      && (r.lockedBy.Some? <==> r.status.Processing?) && (r.lockedAt.Some? <==> r.status.Processing?)
      && (r.status.Failed? <==> r.attempts == o.maxAttempts)
      && (!Terminal(r) ==> (Claimable(r, t, o) <==> ClaimableFrom(r, o) <= t))
      && (Terminal(r) ==> !Claimable(r, t, o))
  {
    InvFromStart(acts, o);
    assert RowConsistent(Exec(INIT, acts, o).rows[i], Exec(INIT, acts, o).now, o);
  }

  // ---------------------------------------------------------------- pacing and routing

  /** A row that failed for good waited out every retry delay since its first recorded failure. */
  lemma FailedRowWaited(acts: seq<Action>, i: nat, o: Options)
    requires Legal(INIT, acts, o) && i < |Exec(INIT, acts, o).rows|
    ensures var r := Exec(INIT, acts, o).rows[i];
      r.status.Failed? ==>
        r.firstFailedAt.Some? &&
        r.firstFailedAt.value + TotalDelaySeconds(o.retry, o.maxAttempts - 1) * 1000 <= r.updatedAt
  {
    InvFromStart(acts, o);
    assert RowConsistent(Exec(INIT, acts, o).rows[i], Exec(INIT, acts, o).now, o);
  }

  /** While the cap is not reached, a row that failed for good waited base * (2^maxAttempts - 2) seconds. */
  lemma FailedRowWaitedUncapped(acts: seq<Action>, i: nat, o: Options)
    requires Legal(INIT, acts, o) && i < |Exec(INIT, acts, o).rows|
    requires Pow2(o.maxAttempts - 1) * o.retry.baseSeconds <= o.retry.maxSeconds
    ensures var r := Exec(INIT, acts, o).rows[i];
      r.status.Failed? ==>
        r.firstFailedAt.Some? &&
        r.firstFailedAt.value + o.retry.baseSeconds * (Pow2(o.maxAttempts) - 2) * 1000 <= r.updatedAt
  {
    FailedRowWaited(acts, i, o);
    UncappedTotal(o.retry, o.maxAttempts);
  }

  /** The selection is exactly the handlers that support the event. */
  lemma {:induction false} SupportingExactly(handlers: seq<set<string>>, eventName: string, h: nat)
    ensures h in Supporting(handlers, eventName) <==> h < |handlers| && eventName in handlers[h]
    decreases |handlers|
  {
    if handlers == [] {
    } else {
      SupportingExactly(handlers[..|handlers| - 1], eventName, h);
    }
  }

  /** Each is selected once, in the order of the list. */
  lemma {:induction false} SupportingInOrder(handlers: seq<set<string>>, eventName: string, p: nat, q: nat)
    requires p < q < |Supporting(handlers, eventName)|
    ensures Supporting(handlers, eventName)[p] < Supporting(handlers, eventName)[q]
    decreases |handlers|
  {
    var front := handlers[..|handlers| - 1];
    var rest := Supporting(front, eventName);
    if q < |rest| {
      SupportingInOrder(front, eventName, p, q);
    } else {
      SupportingExactly(front, eventName, rest[p]);
    }
  }

  /**
   A processed row had, in one routing that did not time out, exactly the handlers that support
   its event complete, one after the other in the order of the list.
   */
  lemma ProcessedRowWasRouted(acts: seq<Action>, i: nat, o: Options)
    requires Legal(INIT, acts, o) && i < |Exec(INIT, acts, o).rows|
    ensures var r := Exec(INIT, acts, o).rows[i];
      r.status.Processed? ==>
        r.evidence.Some? && !r.evidence.value.timedOut &&
        (forall h: nat :: h in r.evidence.value.handled <==> h < |o.handlers| && r.eventName in o.handlers[h]) &&
        (forall p, q | 0 <= p < q < |r.evidence.value.handled| ::
           r.evidence.value.handled[p] < r.evidence.value.handled[q])
  {
    var s := Exec(INIT, acts, o);
    InvFromStart(acts, o);
    assert RowConsistent(s.rows[i], s.now, o);
    var supporting := Supporting(o.handlers, s.rows[i].eventName);
    forall h: nat
      ensures h in supporting <==> h < |o.handlers| && s.rows[i].eventName in o.handlers[h]
    {
      SupportingExactly(o.handlers, s.rows[i].eventName, h);
    }
    forall p, q | 0 <= p < q < |supporting|
      ensures supporting[p] < supporting[q]
    {
      SupportingInOrder(o.handlers, s.rows[i].eventName, p, q);
    }
  }

  // ---------------------------------------------------------------- the counters of all calls

  function ProcessedRows(rows: seq<Row>): nat {
    if rows == [] then 0
    else ProcessedRows(rows[..|rows| - 1]) + if rows[|rows| - 1].status.Processed? then 1 else 0
  }

  /** What the calls report as processed, and what they processed without learning it. */
  function Reported(workers: seq<Worker>): nat {
    if workers == [] then 0 else Reported(workers[..|workers| - 1]) + workers[|workers| - 1].processed
  }

  function Unacknowledged(workers: seq<Worker>): nat {
    if workers == [] then 0 else Unacknowledged(workers[..|workers| - 1]) + workers[|workers| - 1].unacked
  }

  lemma {:induction false} ReplaceWorker(workers: seq<Worker>, k: nat, w: Worker)
    requires k < |workers|
    ensures Reported(workers[k := w]) == Reported(workers) - workers[k].processed + w.processed
    ensures Unacknowledged(workers[k := w]) == Unacknowledged(workers) - workers[k].unacked + w.unacked
    decreases |workers|
  {
    var n := |workers| - 1;
    if k < n {
      assert workers[k := w][..n] == workers[..n][k := w];
      ReplaceWorker(workers[..n], k, w);
    } else {
      assert workers[k := w][..n] == workers[..n];
    }
  }

  lemma {:induction false} ReplaceRow(rows: seq<Row>, r: nat, row: Row)
    requires r < |rows|
    ensures ProcessedRows(rows[r := row]) == ProcessedRows(rows) +
      (if row.status.Processed? then 1 else 0) - (if rows[r].status.Processed? then 1 else 0)
    decreases |rows|
  {
    var n := |rows| - 1;
    if r < n {
      assert rows[r := row][..n] == rows[..n][r := row];
      ReplaceRow(rows[..n], r, row);
    } else {
      assert rows[r := row][..n] == rows[..n];
    }
  }

  lemma {:induction false} SameProcessed(rows: seq<Row>, rows': seq<Row>)
    requires |rows| == |rows'| && forall i | 0 <= i < |rows| :: rows[i].status.Processed? == rows'[i].status.Processed?
    ensures ProcessedRows(rows) == ProcessedRows(rows')
    decreases |rows|
  {
    if rows == [] {
    } else {
      SameProcessed(rows[..|rows| - 1], rows'[..|rows| - 1]);
    }
  }

  ghost predicate Balanced(s: State) {
    Reported(s.workers) + Unacknowledged(s.workers) == ProcessedRows(s.rows)
  }

  lemma BalancedClaim(s: State, ids: seq<nat>, skipped: set<nat>, o: Options)
    requires Inv(s, o) && Balanced(s) && Enabled(s, Claim(ids, skipped), o)
    ensures Balanced(Apply(s, Claim(ids, skipped), o))
  {
    var s' := Apply(s, Claim(ids, skipped), o);
    forall i | 0 <= i < |s.rows|
      ensures s.rows[i].status.Processed? == s'.rows[i].status.Processed?
    {
      if i in ids {
        var p :| 0 <= p < |ids| && ids[p] == i;
        assert Claimable(s.rows[ids[p]], s.now, o);
      }
    }
    SameProcessed(s.rows, s'.rows);
    assert s'.workers[..|s.workers|] == s.workers;
  }

  /** A mark moves its worker and at most one row. */
  lemma BalancedUpdate(s: State, s': State, k: nat, r: nat)
    requires Balanced(s) && k < |s.workers| == |s'.workers| && r < |s.rows| == |s'.rows|
    requires s'.workers == s.workers[k := s'.workers[k]] && s'.rows == s.rows[r := s'.rows[r]]
    requires s'.workers[k].processed + s'.workers[k].unacked - (if s'.rows[r].status.Processed? then 1 else 0) ==
      s.workers[k].processed + s.workers[k].unacked - if s.rows[r].status.Processed? then 1 else 0
    ensures Balanced(s')
  {
    ReplaceWorker(s.workers, k, s'.workers[k]);
    ReplaceRow(s.rows, r, s'.rows[r]);
  }

  lemma BalancedMark(s: State, k: nat, o: Options)
    requires Balanced(s) && Enabled(s, Mark(k), o)
    ensures Balanced(AfterMark(s, k, o))
  {
    BalancedUpdate(s, AfterMark(s, k, o), k, CurrentRow(s, k));
  }

  lemma BalancedMarkReject(s: State, k: nat, applied: bool, o: Options)
    requires Balanced(s) && Enabled(s, MarkReject(k, applied), o)
    ensures Balanced(AfterMarkReject(s, k, applied, o))
  {
    BalancedUpdate(s, AfterMarkReject(s, k, applied, o), k, CurrentRow(s, k));
  }

  /** Steps that mark nothing move a worker without touching what is counted. */
  lemma BalancedMove(s: State, k: nat, w: Worker, rows: seq<Row>)
    requires Balanced(s) && k < |s.workers| && w.processed == s.workers[k].processed &&
      w.unacked == s.workers[k].unacked
    requires |rows| == |s.rows| && forall i | 0 <= i < |rows| :: rows[i].status == s.rows[i].status
    ensures Balanced(With(s, k, w).(rows := rows))
  {
    ReplaceWorker(s.workers, k, w);
    SameProcessed(s.rows, rows);
  }

  lemma BalancedStep(s: State, a: Action, o: Options)
    requires Inv(s, o) && Balanced(s) && Enabled(s, a, o)
    ensures Balanced(Apply(s, a, o))
  {
    var s' := Apply(s, a, o);
    match a
    case Tick(_) =>
    case Append(_) => assert s'.rows[..|s.rows|] == s.rows;
    case Claim(ids, skipped) => BalancedClaim(s, ids, skipped, o);
    case Mark(k) => BalancedMark(s, k, o);
    case MarkReject(k, applied) => BalancedMarkReject(s, k, applied, o);
    case Land(k, _, _) => BalancedOther(s, a, k, o);
    case Settle(k, _) => BalancedOther(s, a, k, o);
    case Timeout(k) => BalancedOther(s, a, k, o);
    case Fire(k) => BalancedOther(s, a, k, o);
    case Crash(k) => BalancedOther(s, a, k, o);
  }

  lemma BalancedOther(s: State, a: Action, k: nat, o: Options)
    requires Balanced(s) && Enabled(s, a, o)
    requires (a.Land? || a.Settle? || a.Timeout? || a.Fire? || a.Crash?) && a.worker == k
    ensures Balanced(Apply(s, a, o))
  {
    var s' := Apply(s, a, o);
    BalancedMove(s, k, s'.workers[k], s'.rows);
    assert s' == With(s, k, s'.workers[k]).(rows := s'.rows);
  }

  lemma {:induction false} BalancedRun(s: State, acts: seq<Action>, o: Options)
    requires Inv(s, o) && Balanced(s) && Legal(s, acts, o)
    ensures Balanced(Exec(s, acts, o))
    decreases |acts|
  {
    if acts == [] {
    } else {
      InvStep(s, acts[0], o);
      BalancedStep(s, acts[0], o);
      BalancedRun(Apply(s, acts[0], o), acts[1..], o);
    }
  }

  /**
   Over all calls together, the processed counters and the marks whose answer was lost add
   up to the processed rows; and a call that ends accounts for every row it selected.
   */
  lemma CountersAddUp(acts: seq<Action>, k: nat, o: Options)
    requires Legal(INIT, acts, o)
    ensures var s := Exec(INIT, acts, o);
      && Reported(s.workers) + Unacknowledged(s.workers) == ProcessedRows(s.rows)
      && (k < |s.workers| && s.workers[k].pc.Finished? ==>
            s.workers[k].processed + s.workers[k].failed + s.workers[k].lost == |s.workers[k].batch|)
  {
    BalancedRun(INIT, acts, o);
    InvFromStart(acts, o);
    var s := Exec(INIT, acts, o);
    if k < |s.workers| {
      assert WorkerConsistent(s.workers[k], s.rows, o);
    }
  }

  predicate Acknowledged(a: Action) {
    !(a.MarkReject? && a.applied)
  }

  lemma NoneUnacknowledgedStep(s: State, a: Action, o: Options)
    requires Enabled(s, a, o) && Acknowledged(a)
    ensures Unacknowledged(Apply(s, a, o).workers) == Unacknowledged(s.workers)
  {
    var s' := Apply(s, a, o);
    if a.Claim? {
      assert s'.workers[..|s.workers|] == s.workers;
    } else if !a.Tick? && !a.Append? {
      ReplaceWorker(s.workers, a.worker, s'.workers[a.worker]);
      assert s'.workers == s.workers[a.worker := s'.workers[a.worker]];
    }
  }

  lemma {:induction false} NothingUnacknowledged(s: State, acts: seq<Action>, o: Options)
    requires Legal(s, acts, o) && Unacknowledged(s.workers) == 0
    requires forall i | 0 <= i < |acts| :: Acknowledged(acts[i])
    ensures Unacknowledged(Exec(s, acts, o).workers) == 0
    decreases |acts|
  {
    if acts == [] {
    } else {
      var s' := Apply(s, acts[0], o);
      NoneUnacknowledgedStep(s, acts[0], o);
      NothingUnacknowledged(s', acts[1..], o);
    }
  }

  /** When no mark loses its answer, the processed counters alone are the processed rows. */
  lemma CountersAreProcessedRows(acts: seq<Action>, o: Options)
    requires Legal(INIT, acts, o) && forall i | 0 <= i < |acts| :: Acknowledged(acts[i])
    ensures Reported(Exec(INIT, acts, o).workers) == ProcessedRows(Exec(INIT, acts, o).rows)
  {
    BalancedRun(INIT, acts, o);
    NothingUnacknowledged(INIT, acts, o);
  }
}
