/**
 `processPending` as it is written: claim a batch, then publish and mark its events one by
 one. Other calls, timers and the clock move at every await as the `world` field prescribes;
 `handlerResults` and `rejections` say how handlers and statements fare. Every such run is a
 run of the state machine.
 */
module OutboxProcessor {
  import opened Prelude
  import opened RetryPolicy
  import opened Outbox
  import opened OutboxEffects
  import opened OutboxLedger

  /** A step of the control flow of worker `me`; its timers are not. */
  predicate Own(a: Action, me: nat) {
    match a
    case Settle(k, _) => k == me
    case Mark(k) => k == me
    case MarkReject(k, _) => k == me
    case Crash(k) => k == me
    case _ => false
  }

  /** What others and the timers leave of a worker. */
  predicate Untouched(w: Worker, w': Worker) {
    w' == w.(timedOut := w'.timedOut, ownershipLost := w'.ownershipLost, nextTick := w'.nextTick, beat := w'.beat)
  }

  lemma OthersLeaveWorker(s: State, a: Action, me: nat, o: Options)
    requires Enabled(s, a, o) && me < |s.workers| && !Own(a, me)
    ensures me < |Apply(s, a, o).workers| && Untouched(s.workers[me], Apply(s, a, o).workers[me])
  {
  }

  predicate SameEvents(s: State, s': State) {
    |s.rows| <= |s'.rows| && forall i | 0 <= i < |s.rows| :: s'.rows[i].eventName == s.rows[i].eventName
  }

  lemma EventsStay(s: State, a: Action, o: Options)
    requires Inv(s, o) && Enabled(s, a, o)
    ensures SameEvents(s, Apply(s, a, o))
  {
  }

  /** The eligible rows of one claim, oldest first. */
  method SelectBatch(rows: seq<Row>, now: nat, o: Options, skipped: set<nat>) returns (ids: seq<nat>)
    ensures IsBatch(rows, now, o, ids, skipped)
  {
    ids := [];
    while |ids| < o.batchSize
      invariant |ids| <= o.batchSize
      invariant forall i, j | 0 <= i < j < |ids| :: ids[i] != ids[j]
      invariant forall i | 0 <= i < |ids| :: ids[i] < |rows| && ids[i] !in skipped && Claimable(rows[ids[i]], now, o)
      invariant forall i, j | 0 <= i < j < |ids| :: rows[ids[i]].createdAt <= rows[ids[j]].createdAt
      invariant forall r, i | 0 <= r < |rows| && r !in ids && r !in skipped && Claimable(rows[r], now, o) &&
        0 <= i < |ids| ::
                  rows[ids[i]].createdAt <= rows[r].createdAt
    {
      var oldest := OldestOther(rows, now, o, skipped, ids);
      if oldest.None? {
        break;
      }
      ids := ids + [oldest.value];
    }
  }

  method OldestOther(rows: seq<Row>, now: nat, o: Options, skipped: set<nat>, taken: seq<nat>)
    returns (oldest: Option<nat>)
    ensures oldest.None? ==>
      forall r | 0 <= r < |rows| && r !in taken && r !in skipped :: !Claimable(rows[r], now, o)
    ensures oldest.Some? ==>
      oldest.value < |rows| && oldest.value !in taken && oldest.value !in skipped &&
        Claimable(rows[oldest.value], now, o) &&
      forall r | 0 <= r < |rows| && r !in taken && r !in skipped && Claimable(rows[r], now, o) ::
        rows[oldest.value].createdAt <= rows[r].createdAt
  {
    oldest := None;
    for i := 0 to |rows|
      invariant oldest.None? ==> forall r | 0 <= r < i && r !in taken && r !in skipped :: !Claimable(rows[r], now, o)
      invariant oldest.Some? ==>
        oldest.value < i && oldest.value !in taken && oldest.value !in skipped &&
          Claimable(rows[oldest.value], now, o) &&
        forall r | 0 <= r < i && r !in taken && r !in skipped && Claimable(rows[r], now, o) ::
          rows[oldest.value].createdAt <= rows[r].createdAt
    {
      if i !in taken && i !in skipped && Claimable(rows[i], now, o) {
        if oldest.None? || rows[i].createdAt < rows[oldest.value].createdAt {
          oldest := Some(i);
        }
      }
    }
  }

  /** The name of the event a worker is at. */
  function CurrentEvent(s: State, me: nat): string
    requires Current(s, me)
  {
    s.rows[CurrentRow(s, me)].eventName
  }

  /** How a conditional update went. */
  datatype Marked = Hit | Missed | Refused

  /** What `processPending` resolves with, unless a failing `markFailed` made it throw. */
  datatype Result = Result(selected: nat, processed: nat, failed: nat)

  class DrizzleOutboxProcessor {
    const o: Options
    var st: State
    var world: seq<seq<Action>>
    var handlerResults: seq<bool>
    var rejections: seq<Option<bool>>
    ghost var trace: seq<Action>

    constructor (o: Options, world: seq<seq<Action>>, handlerResults: seq<bool>, rejections: seq<Option<bool>>)
      ensures Valid() && st == INIT && trace == []
    {
      this.o, this.st, this.trace := o, INIT, [];
      this.world, this.handlerResults, this.rejections := world, handlerResults, rejections;
    }

    ghost predicate Valid()
      reads this
    {
      Legal(INIT, trace, o) && st == Exec(INIT, trace, o)
    }

    method Step(a: Action)
      requires Valid() && Enabled(st, a, o)
      modifies this`st, this`trace
      ensures Valid() && st == Apply(old(st), a, o) && trace == old(trace) + [a] && SameEvents(old(st), st)
    {
      InvFromStart(trace, o);
      EventsStay(st, a, o);
      OneMore(INIT, trace, a, o);
      trace := trace + [a];
      st := Apply(st, a, o);
    }

    /** An await of worker `me`. */
    method Await(me: nat)
      requires Valid() && me < |st.workers|
      modifies this`st, this`trace, this`world
      ensures Valid() && old(trace) <= trace && me < |st.workers| && SameEvents(old(st), st)
      ensures Untouched(old(st).workers[me], st.workers[me])
    {
      if world == [] {
        return;
      }
      var steps := world[0];
      world := world[1..];
      for n := 0 to |steps|
        invariant Valid() && old(trace) <= trace && me < |st.workers| && SameEvents(old(st), st)
        invariant Untouched(old(st).workers[me], st.workers[me])
      {
        if Enabled(st, steps[n], o) && !Own(steps[n], me) {
          OthersLeaveWorker(st, steps[n], me, o);
          Step(steps[n]);
        }
      }
    }

    /** The claim transaction; `skipped` are rows that another transaction holds locked. */
    method ClaimPendingBatch(skipped: set<nat>) returns (me: nat, ghost ids: seq<nat>)
      requires Valid()
      modifies this`st, this`trace
      ensures Valid() && old(trace) <= trace
      ensures IsBatch(old(st).rows, old(st).now, o, ids, skipped) && st == Apply(old(st), Claim(ids, skipped), o)
      ensures me == |old(st).workers| < |st.workers|
      ensures st.workers[me].next == 0 && st.workers[me].processed == st.workers[me].failed == 0
      ensures st.workers[me].pc == if st.workers[me].batch == [] then Finished else Routing
      ensures st.workers[me].handled == []
    {
      var selected := SelectBatch(st.rows, st.now, o, skipped);
      me, ids := |st.workers|, selected;
      Step(Claim(selected, skipped));
    }

    /** One turn of `route`: the next handler settles, and after the last one the flags decide. */
    method HandleNext(me: nat) returns (ok: bool)
      requires Valid() && me < |st.workers| && st.workers[me].pc.Routing? && Current(st, me)
      requires |st.workers[me].handled| < |Supporting(o.handlers, CurrentEvent(st, me))|
      modifies this`st, this`trace, this`world, this`handlerResults
      ensures Valid() && old(trace) <= trace && me < |st.workers| && SameEvents(old(st), st)
      ensures SameCounters(old(st).workers[me], st.workers[me])
      ensures if old(handlerResults) == [] then ok && handlerResults == []
              else ok == old(handlerResults)[0] && handlerResults == old(handlerResults)[1..]
      ensures var n, w := |Supporting(o.handlers, CurrentEvent(old(st), me))|, st.workers[me];
        if !ok then w.pc.Failing?
        else
          && |w.handled| == |old(st).workers[me].handled| + 1
          && w.pc == if |w.handled| < n then Routing else if w.timedOut || w.ownershipLost then Failing else Marking
    {
      Await(me);
      ok := true;
      if handlerResults != [] {
        ok, handlerResults := handlerResults[0], handlerResults[1..];
      }
      Step(Settle(me, ok));
    }

    /** The loop of `route`. */
    method HandleAll(me: nat) returns (published: bool)
      requires Valid() && me < |st.workers| && st.workers[me].pc.Routing? && st.workers[me].handled == []
      requires Current(st, me) && Supporting(o.handlers, CurrentEvent(st, me)) != []
      modifies this`st, this`trace, this`world, this`handlerResults
      ensures Valid() && old(trace) <= trace && me < |st.workers|
      ensures SameCounters(old(st).workers[me], st.workers[me])
      ensures st.workers[me].pc == if published then Marking else Failing
      ensures published <==>
        NoneFails(old(handlerResults), |Supporting(o.handlers, CurrentEvent(old(st), me))|) &&
        !st.workers[me].timedOut && !st.workers[me].ownershipLost
    {
      var n := |Supporting(o.handlers, CurrentEvent(st, me))|;
      for i := 0 to n
        invariant Valid() && old(trace) <= trace && me < |st.workers| && SameEvents(old(st), st)
        invariant SameCounters(old(st).workers[me], st.workers[me]) && |st.workers[me].handled| == i
        invariant NoneFails(old(handlerResults), n) <==> NoneFails(handlerResults, n - i)
        invariant st.workers[me].pc ==
          if i < n then Routing
          else if st.workers[me].timedOut || st.workers[me].ownershipLost then Failing else Marking
      {
        var ok := HandleNext(me);
        if !ok {
          return false;
        }
      }
      published := st.workers[me].pc.Marking?;
    }

    /**
     `route` inside `publishEventWithTimeout`: handlers one after the other, then the flags. The
     event is published exactly when routing resolves, in time and with ownership kept.
     */
    method Publish(me: nat) returns (published: bool)
      requires Valid() && me < |st.workers| && st.workers[me].pc.Routing? && st.workers[me].handled == []
      modifies this`st, this`trace, this`world, this`handlerResults
      ensures Valid() && old(trace) <= trace && me < |st.workers|
      ensures SameCounters(old(st).workers[me], st.workers[me])
      ensures st.workers[me].pc == if published then Marking else Failing
      ensures Current(old(st), me)
      ensures published <==>
        Resolves(o, CurrentEvent(old(st), me), old(handlerResults)) &&
        !st.workers[me].timedOut && !st.workers[me].ownershipLost
    {
      InvFromStart(trace, o);
      assert WorkerConsistent(st.workers[me], st.rows, o);
      if Supporting(o.handlers, CurrentEvent(st, me)) == [] {
        Await(me);
        Step(Settle(me, true));
        return st.workers[me].pc.Marking?;
      }
      published := HandleAll(me);
    }

    /** `markProcessed` or `markFailed`, whichever the worker is at. */
    method SendMark(me: nat) returns (marked: Marked)
      requires Valid() && me < |st.workers| && (st.workers[me].pc.Marking? || st.workers[me].pc.Failing?)
      modifies this`st, this`trace, this`world, this`rejections
      ensures Valid() && old(trace) <= trace && me < |st.workers|
      ensures st.workers[me].batch == old(st).workers[me].batch
      ensures MarkOutcome(old(st).workers[me], st.workers[me], marked)
      ensures marked.Hit? ==> RowMarked(old(st).workers[me], st.rows, st.now, o)
    {
      Await(me);
      InvFromStart(trace, o);
      assert WorkerConsistent(st.workers[me], st.rows, o);
      assert st.workers[me].batch[st.workers[me].next].row < |st.rows|;
      var rejection := None;
      if rejections != [] {
        rejection, rejections := rejections[0], rejections[1..];
      }
      if rejection.Some? {
        Step(MarkReject(me, rejection.value));
        return Refused;
      }
      var owned := OwnedBy(st.rows[CurrentRow(st, me)], me);
      Step(Mark(me));
      return if owned then Hit else Missed;
    }

    /** One pass of the `try`/`catch`: how the event ended, or that `markFailed` itself threw. */
    method ProcessEvent(me: nat) returns (threw: bool, processed: bool, failed: bool)
      requires Valid() && me < |st.workers| && st.workers[me].pc.Routing? && st.workers[me].handled == []
      modifies this`st, this`trace, this`world, this`handlerResults, this`rejections
      ensures Valid() && old(trace) <= trace && me < |st.workers| && st.workers[me].batch == old(st).workers[me].batch
      ensures !(processed && failed)
      ensures st.workers[me].processed == old(st).workers[me].processed + if processed then 1 else 0
      ensures st.workers[me].failed == old(st).workers[me].failed + if failed then 1 else 0
      ensures threw ==> st.workers[me].pc.Crashed? && !processed && !failed
      ensures !threw ==> MovedOn(old(st).workers[me], st.workers[me])
    {
      threw, processed, failed := false, false, false;
      var published := Publish(me);
      if published {
        var marked := SendMark(me);
        if marked.Hit? {
          processed := true;
          return;
        }
      }
      var marked := SendMark(me);
      match marked
      case Hit => failed := true;
      case Missed =>
      case Refused => threw := true;
    }

    /**
     A call that resolves reports the outcome of every row it selected: its counters are those
     of its run, and the rows counted neither as processed nor as failed are those it lost.
     */
    method ProcessPending(skipped: set<nat>) returns (result: Option<Result>, ghost me: nat)
      requires Valid()
      modifies this`st, this`trace, this`world, this`handlerResults, this`rejections
      ensures Valid() && old(trace) <= trace && me == |old(st).workers| < |st.workers|
      ensures result.Some? ==>
        var w := st.workers[me];
        w.pc.Finished? && result.value == Result(|w.batch|, w.processed, w.failed) &&
        w.processed + w.failed + w.lost == |w.batch|
      ensures result.None? ==> st.workers[me].pc.Crashed?
      ensures forall r | 0 <= r < |st.rows| :: Due(st.rows[r], o)
    {
      var worker, ids := ClaimPendingBatch(skipped);
      me := worker;
      var selected := |st.workers[worker].batch|;
      var processed, failed := 0, 0;
      for i := 0 to selected
        invariant Valid() && old(trace) <= trace && worker < |st.workers|
        invariant |st.workers[worker].batch| == selected && st.workers[worker].next == i &&
          st.workers[worker].handled == []
        invariant st.workers[worker].pc == if i == selected then Finished else Routing
        invariant st.workers[worker].processed == processed && st.workers[worker].failed == failed
      {
        var threw, wasProcessed, hasFailed := ProcessEvent(worker);
        if threw {
          AllDueRun(INIT, trace, o);
          return None, worker;
        }
        processed := processed + if wasProcessed then 1 else 0;
        failed := failed + if hasFailed then 1 else 0;
      }
      InvFromStart(trace, o);
      AllDueRun(INIT, trace, o);
      assert WorkerConsistent(st.workers[worker], st.rows, o);
      result := Some(Result(selected, processed, failed));
    }
  }

  /** Of the next `n` handlers to settle none rejects. */
  predicate NoneFails(results: seq<bool>, n: nat) {
    n == 0 || results == [] || (results[0] && NoneFails(results[1..], n - 1))
  }

  /** `route` resolves: no handlers at all, or some that support the event and of those none that fails. */
  predicate Resolves(o: Options, eventName: string, results: seq<bool>) {
    var supporting := Supporting(o.handlers, eventName);
    o.handlers == [] || (supporting != [] && NoneFails(results, |supporting|))
  }

  predicate SameCounters(w: Worker, w': Worker) {
    w'.batch == w.batch && w'.next == w.next && w'.processed == w.processed && w'.failed == w.failed
  }

  /** The worker is past its event and at the start of the next one, if there is one. */
  predicate MovedOn(w: Worker, w': Worker) {
    w'.next == w.next + 1 && w'.handled == [] && w'.pc == if w'.next == |w'.batch| then Finished else Routing
  }

  /**
   The row that the mark of worker `w` hit: given back, with its event processed or its attempt
   spent, and then, if another attempt is left, due again after the retry delay.
   */
  predicate RowMarked(w: Worker, rows: seq<Row>, now: nat, o: Options) {
    w.next < |w.batch| && w.batch[w.next].row < |rows| &&
    var n := w.batch[w.next].attempts + 1;
    var r := rows[w.batch[w.next].row];
    r.lockedBy.None? && r.lockedAt.None? &&
    if w.pc.Marking? then r.status.Processed?
    else if n >= o.maxAttempts then r.status.Failed? && r.attempts == n
    else
      && r.status.Pending? && r.attempts == n
      && r.availableAt == now + Min(Pow2(n) * o.retry.baseSeconds, o.retry.maxSeconds) * 1000
  }

  /** What a mark did to its worker. */
  predicate MarkOutcome(w: Worker, w': Worker, marked: Marked) {
    match marked
    case Hit =>
      && MovedOn(w, w')
      && w'.processed == w.processed + (if w.pc.Marking? then 1 else 0)
      && w'.failed == w.failed + (if w.pc.Marking? then 0 else 1)
    case Missed =>
      && w'.processed == w.processed && w'.failed == w.failed
      && (if w.pc.Marking? then w'.pc.Failing? && w'.next == w.next else MovedOn(w, w'))
    case Refused =>
      && w'.processed == w.processed && w'.failed == w.failed && w'.next == w.next
      && w'.pc == (if w.pc.Marking? then Failing else Crashed)
  }
}
