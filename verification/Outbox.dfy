/**
 The transactional outbox of drizzle-outbox-processor.ts as a state machine: any number of
 `processPending` calls interleave over one table. A step is one SQL statement (the claim
 transaction included), one handler settling, one timer, or the passing of time. A row is
 named by its place in the table and a worker id by the number of the call that drew it.
 */
module Outbox {
  import opened Prelude
  import opened RetryPolicy

  type Pos = n: nat | 0 < n witness 1

  /** `handlers` lists, handler by handler, the event names it supports. */
  datatype Options = Options(
    batchSize: Pos,
    maxAttempts: Pos,
    lockTtlMs: nat,
    heartbeatIntervalMs: Pos,
    handlerTimeoutMs: nat,
    retry: Retry,
    handlers: seq<set<string>>)

  datatype Status = Pending | Processing | Processed | Failed

  /** What the worker that marked a row processed had seen of its routing. */
  datatype Evidence = Evidence(worker: nat, handled: seq<nat>, timedOut: bool)

  /** A row of `outbox_events`; the last two fields are history the table does not keep. */
  datatype Row = Row(
    eventName: string,
    status: Status,
    attempts: nat,
    availableAt: nat,
    lockedAt: Option<nat>,
    lockedBy: Option<nat>,
    createdAt: nat,
    updatedAt: nat,
    firstFailedAt: Option<nat>,
    evidence: Option<Evidence>)

  /** A claimed row, with the attempt count read when it was claimed. */
  datatype Claimed = Claimed(row: nat, attempts: nat)

  datatype Pc = Routing | Marking | Failing | Finished | Crashed

  /**
   One `processPending` call. `handled` lists the handlers that have completed the current event;
   `beat` is the tick of a heartbeat in flight; `unacked` counts rows marked processed by a
   statement whose answer was lost.
   */
  datatype Worker = Worker(
    batch: seq<Claimed>,
    next: nat,
    pc: Pc,
    startedAt: nat,
    handled: seq<nat>,
    timedOut: bool,
    ownershipLost: bool,
    nextTick: nat,
    beat: Option<nat>,
    processed: nat,
    failed: nat,
    lost: nat,
    unacked: nat)

  datatype State = State(now: nat, rows: seq<Row>, workers: seq<Worker>)

  datatype Action =
    | Tick(dt: nat)
    | Append(eventName: string)
    | Claim(ids: seq<nat>, skipped: set<nat>)
    | Settle(worker: nat, ok: bool)
    | Timeout(worker: nat)
    | Fire(worker: nat)
    | Land(worker: nat, applied: bool, answered: bool)
    | Mark(worker: nat)
    | MarkReject(worker: nat, applied: bool)
    | Crash(worker: nat)

  const INIT := State(0, [], [])

  // ---------------------------------------------------------------- rows

  function NewRow(eventName: string, now: nat): Row {
    Row(eventName, Pending, 0, now, None, None, now, now, None, None)
  }

  predicate Stale(r: Row, now: nat, o: Options) {
    r.status.Processing? && (r.lockedAt.None? || r.lockedAt.value + o.lockTtlMs < now)
  }

  /** The `where` clause of the claim. */
  predicate Claimable(r: Row, now: nat, o: Options) {
    r.availableAt <= now && r.attempts <= o.maxAttempts - 1 && (r.status.Pending? || Stale(r, now, o))
  }

  /** What `order by created_at limit batchSize for update skip locked` may return. */
  predicate IsBatch(rows: seq<Row>, now: nat, o: Options, ids: seq<nat>, skipped: set<nat>) {
    && |ids| <= o.batchSize
    && (forall i, j | 0 <= i < j < |ids| :: ids[i] != ids[j])
    && (forall i | 0 <= i < |ids| :: ids[i] < |rows| && ids[i] !in skipped && Claimable(rows[ids[i]], now, o))
    && (forall i, j | 0 <= i < j < |ids| :: rows[ids[i]].createdAt <= rows[ids[j]].createdAt)
    && (forall r | 0 <= r < |rows| && r !in ids && r !in skipped && Claimable(rows[r], now, o) ::
          |ids| == o.batchSize && forall i | 0 <= i < |ids| :: rows[ids[i]].createdAt <= rows[r].createdAt)
  }

  function ClaimRow(r: Row, worker: nat, now: nat): Row {
    r.(status := Processing, lockedAt := Some(now), lockedBy := Some(worker), updatedAt := now)
  }

  function ClaimRows(rows: seq<Row>, ids: seq<nat>, worker: nat, now: nat): seq<Row> {
    seq(|rows|, i requires 0 <= i < |rows| => if i in ids then ClaimRow(rows[i], worker, now) else rows[i])
  }

  predicate OwnedBy(r: Row, worker: nat) {
    r.status.Processing? && r.lockedBy == Some(worker)
  }

  function MarkRowProcessed(r: Row, e: Evidence, now: nat): Row {
    r.(status := Processed, lockedAt := None, lockedBy := None, updatedAt := now, evidence := Some(e))
  }

  /** `snapshot` is the attempt count read when the row was claimed. */
  function MarkRowFailed(r: Row, snapshot: nat, now: nat, o: Options): Row {
    var attempts := snapshot + 1;
    var permanentlyFailed := attempts >= o.maxAttempts;
    r.(status := if permanentlyFailed then Failed else Pending,
       attempts := attempts,
       availableAt := if permanentlyFailed then now else now + RetryDelaySeconds(o.retry, attempts) * 1000,
       lockedAt := None, lockedBy := None, updatedAt := now,
       firstFailedAt := if r.firstFailedAt.None? then Some(now) else r.firstFailedAt)
  }

  // ---------------------------------------------------------------- routing

  /** The handlers that support an event, by their place in the list and in its order. */
  function Supporting(handlers: seq<set<string>>, eventName: string): seq<nat> {
    if handlers == [] then []
    else
      var last := |handlers| - 1;
      Supporting(handlers[..last], eventName) + if eventName in handlers[last] then [last] else []
  }

  /** `route` with some handlers done and the next one settling: done, failed, or going on. */
  datatype Routed = Resolved | Rejected | GoesOn

  function RouteStep(o: Options, eventName: string, handled: nat, ok: bool): Routed {
    var n := |Supporting(o.handlers, eventName)|;
    if o.handlers == [] then Resolved
    else if n == 0 then Rejected
    else if !ok then Rejected
    else if handled + 1 == n then Resolved
    else GoesOn
  }

  /** The supporting handler whose turn it is has completed. */
  function Completed(o: Options, eventName: string, handled: seq<nat>): seq<nat> {
    var supporting := Supporting(o.handlers, eventName);
    if |handled| < |supporting| then handled + [supporting[|handled|]] else handled
  }

  // ---------------------------------------------------------------- workers

  function NewWorker(batch: seq<Claimed>, now: nat, o: Options): Worker {
    Worker(batch, 0, if batch == [] then Finished else Routing, now, [], false, false,
           now + o.heartbeatIntervalMs, None, 0, 0, 0, 0)
  }

  /** On to the next event of the batch, with a heartbeat of its own. */
  function Advance(w: Worker, now: nat, o: Options): Worker {
    w.(next := w.next + 1, pc := if w.next + 1 == |w.batch| then Finished else Routing,
       startedAt := now, handled := [], timedOut := false, ownershipLost := false,
       nextTick := now + o.heartbeatIntervalMs, beat := None)
  }

  predicate Busy(w: Worker) {
    w.pc.Routing? || w.pc.Marking? || w.pc.Failing?
  }

  predicate Placed(w: Worker) {
    w.next < |w.batch|
  }

  // ---------------------------------------------------------------- steps and runs

  predicate Enabled(s: State, a: Action, o: Options) {
    match a
    case Tick(_) => true
    case Append(_) => true
    case Claim(ids, skipped) => IsBatch(s.rows, s.now, o, ids, skipped)
    case Settle(k, _) => k < |s.workers| && s.workers[k].pc.Routing? && Current(s, k)
    case Timeout(k) =>
      k < |s.workers| && s.workers[k].pc.Routing? && 0 < o.handlerTimeoutMs &&
        s.workers[k].startedAt + o.handlerTimeoutMs <= s.now
    case Fire(k) => k < |s.workers| && Busy(s.workers[k]) && s.workers[k].nextTick <= s.now
    case Land(k, _, _) => k < |s.workers| && s.workers[k].beat.Some? && Current(s, k)
    case Mark(k) => k < |s.workers| && (s.workers[k].pc.Marking? || s.workers[k].pc.Failing?) && Current(s, k)
    case MarkReject(k, _) => k < |s.workers| && (s.workers[k].pc.Marking? || s.workers[k].pc.Failing?) && Current(s, k)
    case Crash(k) => k < |s.workers| && Busy(s.workers[k])
  }

  /** The worker stands at a row of its batch, and the row is in the table. */
  predicate Current(s: State, k: nat) {
    k < |s.workers| && Placed(s.workers[k]) && s.workers[k].batch[s.workers[k].next].row < |s.rows|
  }

  function CurrentRow(s: State, k: nat): nat
    requires Current(s, k)
  {
    s.workers[k].batch[s.workers[k].next].row
  }

  function With(s: State, k: nat, w: Worker): State
    requires k < |s.workers|
  {
    s.(workers := s.workers[k := w])
  }

  /** A handler of the current event resolves or rejects. */
  function AfterHandler(s: State, k: nat, ok: bool, o: Options): State
    requires Current(s, k)
  {
    var w, name := s.workers[k], s.rows[CurrentRow(s, k)].eventName;
    match RouteStep(o, name, |w.handled|, ok)
    case GoesOn => With(s, k, w.(handled := Completed(o, name, w.handled)))
    case Rejected => With(s, k, w.(pc := Failing))
    case Resolved =>
      With(s, k, w.(handled := Completed(o, name, w.handled),
                    pc := if w.timedOut || w.ownershipLost then Failing else Marking))
  }

  function AfterFire(s: State, k: nat, o: Options): State
    requires k < |s.workers|
  {
    var w := s.workers[k];
    With(s, k, w.(nextTick := w.nextTick + o.heartbeatIntervalMs,
                  beat := if w.beat.Some? || w.ownershipLost then w.beat else Some(s.now)))
  }

  function AfterLand(s: State, k: nat, applied: bool, answered: bool): State
    requires Current(s, k) && s.workers[k].beat.Some?
  {
    var w, r := s.workers[k], CurrentRow(s, k);
    var hit := applied && OwnedBy(s.rows[r], k);
    var s' := With(s, k, w.(beat := None, ownershipLost := w.ownershipLost || !hit || !answered));
    if hit then s'.(rows := s.rows[r := s.rows[r].(lockedAt := w.beat, updatedAt := s.now)]) else s'
  }

  /** The row update that a mark of worker `k` performs when it still owns the row. */
  function MarkedRow(s: State, k: nat, o: Options): Row
    requires Current(s, k)
  {
    var w := s.workers[k];
    var r := s.rows[CurrentRow(s, k)];
    if w.pc.Marking? then MarkRowProcessed(r, Evidence(k, w.handled, w.timedOut), s.now)
    else MarkRowFailed(r, w.batch[w.next].attempts, s.now, o)
  }

  function AfterMark(s: State, k: nat, o: Options): State
    requires Current(s, k)
  {
    var w, r := s.workers[k], CurrentRow(s, k);
    if OwnedBy(s.rows[r], k) then
      var w' := if w.pc.Marking? then w.(processed := w.processed + 1) else w.(failed := w.failed + 1);
      With(s, k, Advance(w', s.now, o)).(rows := s.rows[r := MarkedRow(s, k, o)])
    else if w.pc.Marking? then With(s, k, w.(pc := Failing))
    else With(s, k, Advance(w.(lost := w.lost + 1), s.now, o))
  }

  /** A mark whose statement was rejected: a failed `markProcessed` is caught, a failed `markFailed` is not. */
  function AfterMarkReject(s: State, k: nat, applied: bool, o: Options): State
    requires Current(s, k)
  {
    var w, r := s.workers[k], CurrentRow(s, k);
    var hit := applied && OwnedBy(s.rows[r], k);
    var w' := if w.pc.Marking? then w.(pc := Failing, unacked := w.unacked + if hit then 1 else 0)
      else w.(pc := Crashed);
    With(s, k, w').(rows := if hit then s.rows[r := MarkedRow(s, k, o)] else s.rows)
  }

  function Apply(s: State, a: Action, o: Options): State
    requires Enabled(s, a, o)
  {
    match a
    case Tick(dt) => s.(now := s.now + dt)
    case Append(name) => s.(rows := s.rows + [NewRow(name, s.now)])
    case Claim(ids, _) =>
      var batch := seq(|ids|, i requires 0 <= i < |ids| => Claimed(ids[i], s.rows[ids[i]].attempts));
      s.(rows := ClaimRows(s.rows, ids, |s.workers|, s.now), workers := s.workers + [NewWorker(batch, s.now, o)])
    case Settle(k, ok) => AfterHandler(s, k, ok, o)
    case Timeout(k) => With(s, k, s.workers[k].(timedOut := true))
    case Fire(k) => AfterFire(s, k, o)
    case Land(k, applied, answered) => AfterLand(s, k, applied, answered)
    case Mark(k) => AfterMark(s, k, o)
    case MarkReject(k, applied) => AfterMarkReject(s, k, applied, o)
    case Crash(k) => With(s, k, s.workers[k].(pc := Crashed))
  }

  predicate Legal(s: State, acts: seq<Action>, o: Options)
    decreases |acts|
  {
    acts == [] || (Enabled(s, acts[0], o) && Legal(Apply(s, acts[0], o), acts[1..], o))
  }

  function Exec(s: State, acts: seq<Action>, o: Options): State
    requires Legal(s, acts, o)
    decreases |acts|
  {
    if acts == [] then s else Exec(Apply(s, acts[0], o), acts[1..], o)
  }

  /** A run can be extended by any enabled step. */
  lemma {:induction false} OneMore(s: State, acts: seq<Action>, a: Action, o: Options)
    requires Legal(s, acts, o) && Enabled(Exec(s, acts, o), a, o)
    ensures Legal(s, acts + [a], o) && Exec(s, acts + [a], o) == Apply(Exec(s, acts, o), a, o)
    decreases |acts|
  {
    if acts == [] {
      var one := [a];
      assert acts + one == one && one[1..] == [];
      assert Legal(Apply(s, a, o), [], o) && Exec(Apply(s, a, o), [], o) == Apply(s, a, o);
    } else {
      OneMore(Apply(s, acts[0], o), acts[1..], a, o);
      assert (acts + [a])[1..] == acts[1..] + [a];
    }
  }
}
