/**
 What single statements and timers of the outbox do, field by field, and what an event that
 ran into trouble can no longer become.
 */
module OutboxEffects {
  import opened Outbox
  import opened Prelude
  import opened RetryPolicy

  // ---------------------------------------------------------------- rows

  /** An appended event waits unlocked, without a failure, and can be claimed at once. */
  lemma AppendedRow(s: State, name: string, o: Options)
    ensures var s' := Apply(s, Append(name), o);
      && |s'.rows| == |s.rows| + 1 && s'.rows[..|s.rows|] == s.rows && s'.workers == s.workers
      && var r := s'.rows[|s.rows|];
         && r.eventName == name && r.status.Pending? && r.attempts == 0 && r.lockedBy.None? && r.lockedAt.None?
         && r.createdAt == s.now && Claimable(r, s.now, o)
  {
  }

  /**
   A claim locks exactly its rows, for a new worker and as of now, and changes nothing else about
   them. Each was due, had an attempt left, and was pending or had outlived its lock.
   */
  lemma ClaimedRows(s: State, ids: seq<nat>, skipped: set<nat>, o: Options, r: nat)
    requires Enabled(s, Claim(ids, skipped), o) && r < |s.rows|
    ensures var s', k := Apply(s, Claim(ids, skipped), o), |s.workers|;
      && |s'.rows| == |s.rows| && |s'.workers| == k + 1 && s'.workers[..k] == s.workers
      && (r !in ids ==> s'.rows[r] == s.rows[r])
      && (r in ids ==>
            && s'.rows[r].status.Processing? && s'.rows[r].lockedBy == Some(k) && s'.rows[r].lockedAt == Some(s.now)
            && s'.rows[r].attempts == s.rows[r].attempts && s'.rows[r].eventName == s.rows[r].eventName
            && s'.rows[r].availableAt == s.rows[r].availableAt && s'.rows[r].createdAt == s.rows[r].createdAt
            && s.rows[r].availableAt <= s.now && s.rows[r].attempts < o.maxAttempts
            && (s.rows[r].status.Pending? ||
                (s.rows[r].status.Processing? &&
                 (s.rows[r].lockedAt.None? || s.rows[r].lockedAt.value + o.lockTtlMs < s.now))))
      && |s'.workers[k].batch| == |ids|
      && forall p | 0 <= p < |ids| :: s'.workers[k].batch[p] == Claimed(ids[p], s.rows[ids[p]].attempts)
  {
    var s' := Apply(s, Claim(ids, skipped), o);
    assert s'.workers[..|s.workers|] == s.workers;
  }

  /** The row belongs to worker `k`: in processing, and locked by it. */
  predicate Owns(s: State, k: nat)
    requires Current(s, k)
  {
    s.rows[CurrentRow(s, k)].status.Processing? && s.rows[CurrentRow(s, k)].lockedBy == Some(k)
  }

  /** The row is given back as processed, with its attempts as they were. */
  predicate GivenBackProcessed(r: Row, r': Row) {
    r'.status.Processed? && r'.lockedBy.None? && r'.lockedAt.None? && r'.attempts == r.attempts &&
    r'.eventName == r.eventName
  }

  /**
   The row is given back with the `n`-th attempt spent at `now`: failed for good if that was
   the last one, and otherwise pending again after min(2^n * base, max) seconds.
   */
  predicate GivenBackFailed(r: Row, r': Row, n: nat, now: nat, o: Options) {
    && r'.attempts == n && r'.lockedBy.None? && r'.lockedAt.None? && r'.eventName == r.eventName
    && if n >= o.maxAttempts then r'.status.Failed?
       else
         && r'.status.Pending?
         && r'.availableAt == now + Min(Pow2(n) * o.retry.baseSeconds, o.retry.maxSeconds) * 1000
  }

  /** A mark changes the row exactly if its worker still owns it; no other row is touched. */
  lemma MarkEffect(s: State, k: nat, o: Options, r: nat)
    requires Enabled(s, Mark(k), o) && r < |s.rows|
    ensures var s', w := Apply(s, Mark(k), o), s.workers[k];
      && |s'.rows| == |s.rows| && |s'.workers| == |s.workers|
      && (r != CurrentRow(s, k) || !Owns(s, k) ==> s'.rows[r] == s.rows[r])
      && (r == CurrentRow(s, k) && Owns(s, k) ==>
            if w.pc.Marking? then GivenBackProcessed(s.rows[r], s'.rows[r])
            else GivenBackFailed(s.rows[r], s'.rows[r], w.batch[w.next].attempts + 1, s.now, o))
  {
  }

  /** And the worker counts it: a hit once, a missed failure as lost; a missed success is marked failed next. */
  lemma MarkCounts(s: State, k: nat, o: Options)
    requires Enabled(s, Mark(k), o)
    ensures var w, w' := s.workers[k], Apply(s, Mark(k), o).workers[k];
      && w'.processed == w.processed + (if w.pc.Marking? && Owns(s, k) then 1 else 0)
      && w'.failed == w.failed + (if w.pc.Failing? && Owns(s, k) then 1 else 0)
      && w'.lost == w.lost + (if w.pc.Failing? && !Owns(s, k) then 1 else 0)
      && (if w.pc.Marking? && !Owns(s, k) then w'.next == w.next && w'.pc.Failing? else w'.next == w.next + 1)
  {
  }

  /** A rejected mark may have had its effect; the worker counts nothing and goes on only after `markProcessed`. */
  lemma MarkRejectEffect(s: State, k: nat, applied: bool, o: Options, r: nat)
    requires Enabled(s, MarkReject(k, applied), o) && r < |s.rows|
    ensures var s', w := Apply(s, MarkReject(k, applied), o), s.workers[k];
      && |s'.rows| == |s.rows| && |s'.workers| == |s.workers|
      && (r != CurrentRow(s, k) || !Owns(s, k) || !applied ==> s'.rows[r] == s.rows[r])
      && (r == CurrentRow(s, k) && Owns(s, k) && applied ==>
            if w.pc.Marking? then GivenBackProcessed(s.rows[r], s'.rows[r])
            else GivenBackFailed(s.rows[r], s'.rows[r], w.batch[w.next].attempts + 1, s.now, o))
      && s'.workers[k].processed == w.processed && s'.workers[k].failed == w.failed && s'.workers[k].lost == w.lost
      && s'.workers[k].next == w.next && s'.workers[k].pc == if w.pc.Marking? then Failing else Crashed
  {
  }

  /** A row that is pending waits for a definite time: since it was appended, or for its retry delay since it failed. */
  predicate Due(r: Row, o: Options) {
    r.status.Pending? ==>
      r.availableAt ==
        if r.attempts == 0 then r.createdAt
        else r.updatedAt + Min(Pow2(r.attempts) * o.retry.baseSeconds, o.retry.maxSeconds) * 1000
  }

  predicate AllDue(s: State, o: Options) {
    forall r | 0 <= r < |s.rows| :: Due(s.rows[r], o)
  }

  lemma AllDueStep(s: State, a: Action, o: Options)
    requires Enabled(s, a, o) && AllDue(s, o)
    ensures AllDue(Apply(s, a, o), o)
  {
  }

  lemma {:induction false} AllDueRun(s: State, acts: seq<Action>, o: Options)
    requires Legal(s, acts, o) && AllDue(s, o)
    ensures AllDue(Exec(s, acts, o), o)
    decreases |acts|
  {
    if acts == [] {
    } else {
      AllDueStep(s, acts[0], o);
      AllDueRun(Apply(s, acts[0], o), acts[1..], o);
    }
  }

  /**
   In every reachable state a pending row that has failed n times becomes available exactly
   min(2^n * base, max) seconds after its last failure, and one that has not, as of its creation.
   */
  lemma RetriesAreDue(acts: seq<Action>, i: nat, o: Options)
    requires Legal(INIT, acts, o) && i < |Exec(INIT, acts, o).rows|
    ensures var r := Exec(INIT, acts, o).rows[i];
      r.status.Pending? ==>
        r.availableAt ==
          if r.attempts == 0 then r.createdAt
          else r.updatedAt + Min(Pow2(r.attempts) * o.retry.baseSeconds, o.retry.maxSeconds) * 1000
  {
    AllDueRun(INIT, acts, o);
  }

  // ---------------------------------------------------------------- heartbeats and time-outs

  /** A heartbeat that takes effect on its worker's row locks it as of its tick; any other leaves all rows alone. */
  lemma HeartbeatEffect(s: State, k: nat, applied: bool, answered: bool, o: Options, r: nat)
    requires Enabled(s, Land(k, applied, answered), o) && r < |s.rows|
    ensures var s' := Apply(s, Land(k, applied, answered), o);
      && |s'.rows| == |s.rows| && |s'.workers| == |s.workers|
      && s'.rows[r] ==
           if r == CurrentRow(s, k) && applied && Owns(s, k)
           then s.rows[r].(lockedAt := s.workers[k].beat, updatedAt := s.now) else s.rows[r]
  {
  }

  /** In this step worker `k` learns that it may have lost the row: a heartbeat missed it, or was not answered. */
  predicate LosesOwnership(s: State, a: Action, k: nat) {
    a.Land? && a.worker == k && Current(s, k) && !(a.applied && a.answered && Owns(s, k))
  }

  /** The two flags of an event are raised by exactly these causes, and lowered only for the next event. */
  lemma FlagsAreCaused(s: State, a: Action, k: nat, o: Options)
    requires Enabled(s, a, o) && k < |s.workers|
    ensures var w, w' := s.workers[k], Apply(s, a, o).workers[k];
      if w'.next == w.next then
        && (w'.timedOut <==> w.timedOut || a == Timeout(k))
        && (w'.ownershipLost <==> w.ownershipLost || LosesOwnership(s, a, k))
      else !w'.timedOut && !w'.ownershipLost && w'.handled == [] && w'.beat.None?
  {
  }

  /** The event a worker is at cannot be marked processed any more. */
  predicate Doomed(s: State, k: nat) {
    k < |s.workers| &&
    var w := s.workers[k];
    w.pc.Failing? || w.pc.Crashed? || (w.pc.Routing? && (w.timedOut || w.ownershipLost))
  }

  /** A time-out, a lost heartbeat and a handler that rejects each doom the event being routed. */
  lemma TroubleDooms(s: State, a: Action, k: nat, o: Options)
    requires Enabled(s, a, o) && k < |s.workers| && s.workers[k].pc.Routing?
    requires a == Timeout(k) || LosesOwnership(s, a, k) || (a == Settle(k, false) && o.handlers != [])
    ensures Doomed(Apply(s, a, o), k)
  {
  }

  /** Either still at the doomed event, or past it with nothing counted as processed. */
  predicate NotProcessed(s: State, k: nat, next: nat, processed: nat) {
    k < |s.workers| &&
    var w := s.workers[k];
    || (w.next == next && Doomed(s, k) && w.processed == processed)
    || (w.next == next + 1 && w.processed == processed)
    || w.next > next + 1
  }

  lemma NotProcessedStep(s: State, a: Action, k: nat, next: nat, processed: nat, o: Options)
    requires Enabled(s, a, o) && NotProcessed(s, k, next, processed)
    ensures NotProcessed(Apply(s, a, o), k, next, processed)
  {
  }

  lemma {:induction false} NotProcessedRun(s: State, acts: seq<Action>, k: nat, next: nat, processed: nat, o: Options)
    requires Legal(s, acts, o) && NotProcessed(s, k, next, processed)
    ensures NotProcessed(Exec(s, acts, o), k, next, processed)
    decreases |acts|
  {
    if acts == [] {
    } else {
      NotProcessedStep(s, acts[0], k, next, processed, o);
      NotProcessedRun(Apply(s, acts[0], o), acts[1..], k, next, processed, o);
    }
  }

  /**
   An event whose routing timed out, lost its lease or had a handler fail is never counted as
   processed by that call: when the worker has moved on to the next event, its counter stands.
   */
  lemma TroubledEventIsNotProcessed(s: State, a: Action, after: seq<Action>, k: nat, o: Options)
    requires Enabled(s, a, o) && k < |s.workers| && s.workers[k].pc.Routing?
    requires a == Timeout(k) || LosesOwnership(s, a, k) || (a == Settle(k, false) && o.handlers != [])
    requires Legal(Apply(s, a, o), after, o)
    ensures var w' := Exec(Apply(s, a, o), after, o).workers;
      k < |w'| && (w'[k].next <= s.workers[k].next + 1 ==> w'[k].processed == s.workers[k].processed)
  {
    TroubleDooms(s, a, k, o);
    NotProcessedRun(Apply(s, a, o), after, k, s.workers[k].next, s.workers[k].processed, o);
  }
}
