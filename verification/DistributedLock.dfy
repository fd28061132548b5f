/**
 redis-distributed-lock.ts: `runWithLock` calls of one key as a state machine. A step is one
 Redis command, an answer, a timer, the settling of a handler, or the passing of time.
 */
module DistributedLock {
  import opened Heartbeat
  import opened Prelude
  import opened RedisKeys
  import opened RetryPolicy

  /**
   `Entering` since the acquiring command ran, until its answer arrives. `ok`: the handler
   resolved. `lost`: the lock was known to be lost when it settled. `Done(returned, lost)`: the
   call resolved with the handler's value, or not. `Refused`: it resolved with null.
   `Failed`: the acquiring command was rejected.
   */
  datatype Pc =
    | Entering(since: nat)
    | Handling
    | Releasing(ok: bool, lost: bool)
    | Done(returned: bool, lost: bool)
    | Refused
    | Failed

  /** One `runWithLock` call with its heartbeat. */
  datatype Call = Call(pc: Pc, lockLost: bool, nextTick: nat, beat: Option<nat>)

  /** The lock key holds the number of the call that drew its token. */
  datatype State = State(now: nat, slot: Slot<nat>, calls: seq<Call>)

  datatype Action =
    | Tick(dt: nat)
    | Enter
    | EnterReject(applied: bool)
    | Answer(call: nat)
    | Fire(call: nat)
    | Land(call: nat, applied: bool, answered: bool)
    | Settle(call: nat, ok: bool)
    | Release(call: nat, applied: bool, answered: bool)

  const INIT := State(0, Absent, [])

  predicate Enabled(s: State, a: Action) {
    match a
    case Tick(_) => true
    case Enter => true
    case EnterReject(_) => true
    case Answer(k) => k < |s.calls| && s.calls[k].pc.Entering?
    case Fire(k) => k < |s.calls| && s.calls[k].pc.Handling? && s.calls[k].nextTick <= s.now
    case Land(k, _, _) => k < |s.calls| && s.calls[k].beat.Some?
    case Settle(k, _) => k < |s.calls| && s.calls[k].pc.Handling?
    case Release(k, applied, answered) => (answered ==> applied) && k < |s.calls| && s.calls[k].pc.Releasing?
  }

  function NewCall(pc: Pc): Call {
    Call(pc, false, 0, None)
  }

  function Apply(s: State, a: Action, ttl: Ttl): State
    requires Enabled(s, a)
  {
    var interval := LockHeartbeatIntervalMs(ttl);
    match a
    case Tick(dt) => s.(now := s.now + dt)
    case Enter =>
      s.(slot := SetNx(s.slot, s.now, |s.calls|, ttl),
         calls := s.calls + [NewCall(if Live(s.slot, s.now) then Refused else Entering(s.now))])
    case EnterReject(applied) =>
      s.(slot := if applied then SetNx(s.slot, s.now, |s.calls|, ttl) else s.slot, calls := s.calls + [NewCall(Failed)])
    case Answer(k) =>
      s.(calls := s.calls[k := s.calls[k].(pc := Handling, nextTick := s.now + interval)])
    case Fire(k) =>
      var c := s.calls[k];
      s.(calls := s.calls[k := c.(nextTick := c.nextTick + interval,
                                  beat := if c.beat.Some? then c.beat else Some(s.now))])
    case Land(k, applied, answered) =>
      var c := s.calls[k];
      var hit := applied && Matches(s.slot, s.now, k);
      s.(slot := if applied then CompareAndExpire(s.slot, s.now, k, ttl) else s.slot,
         calls := s.calls[k := c.(beat := None, lockLost := c.lockLost || !hit || !answered)])
    case Settle(k, ok) => s.(calls := s.calls[k := s.calls[k].(pc := Releasing(ok, s.calls[k].lockLost))])
    case Release(k, applied, answered) =>
      var pc := s.calls[k].pc;
      s.(slot := if applied then CompareAndDelete(s.slot, s.now, k) else s.slot,
         calls := s.calls[k := s.calls[k].(pc := Done(pc.ok && !pc.lost && answered, pc.lost))])
  }

  predicate Legal(s: State, acts: seq<Action>, ttl: Ttl)
    decreases |acts|
  {
    acts == [] || (Enabled(s, acts[0]) && Legal(Apply(s, acts[0], ttl), acts[1..], ttl))
  }

  function Exec(s: State, acts: seq<Action>, ttl: Ttl): State
    requires Legal(s, acts, ttl)
    decreases |acts|
  {
    if acts == [] then s else Exec(Apply(s, acts[0], ttl), acts[1..], ttl)
  }

  /** A run can be extended by any enabled step. */
  lemma {:induction false} OneMore(s: State, acts: seq<Action>, a: Action, ttl: Ttl)
    requires Legal(s, acts, ttl) && Enabled(Exec(s, acts, ttl), a)
    ensures Legal(s, acts + [a], ttl) && Exec(s, acts + [a], ttl) == Apply(Exec(s, acts, ttl), a, ttl)
    decreases |acts|
  {
    if acts == [] {
      var one := [a];
      assert acts + one == one && one[1..] == [];
      assert Legal(Apply(s, a, ttl), [], ttl) && Exec(Apply(s, a, ttl), [], ttl) == Apply(s, a, ttl);
    } else {
      OneMore(Apply(s, acts[0], ttl), acts[1..], a, ttl);
      assert (acts + [a])[1..] == acts[1..] + [a];
    }
  }

  // ---------------------------------------------------------------- mutual exclusion

  /** Heartbeats land within `d` of their tick, and the answer to an acquisition arrives within `e`. */
  predicate Punctual(s: State, d: nat, e: nat) {
    forall k | 0 <= k < |s.calls| ::
      && (s.calls[k].pc.Handling? ==> OnTime(s.now, s.calls[k].nextTick, s.calls[k].beat, d))
      && (s.calls[k].pc.Entering? ==> s.now <= s.calls[k].pc.since + e)
  }

  predicate BeatsAnswered(a: Action) {
    a.Land? ==> a.applied && a.answered
  }

  predicate PunctualRun(s: State, acts: seq<Action>, d: nat, e: nat, ttl: Ttl)
    decreases |acts|
  {
    Punctual(s, d, e) &&
    (acts == [] ||
     (BeatsAnswered(acts[0]) && Enabled(s, acts[0]) && PunctualRun(Apply(s, acts[0], ttl), acts[1..], d, e, ttl)))
  }

  predicate OneHandler(s: State) {
    forall k, j | 0 <= k < |s.calls| && 0 <= j < |s.calls| && s.calls[k].pc.Handling? && s.calls[j].pc.Handling? ::
      k == j
  }

  ghost predicate HandlersExclude(d: nat, e: nat, ttl: Ttl) {
    forall acts: seq<Action> | PunctualRun(INIT, acts, d, e, ttl) && Legal(INIT, acts, ttl) ::
      OneHandler(Exec(INIT, acts, ttl))
  }

  /** The key is held for the call that enters or runs, for as long as its timer promises. */
  predicate AllHeld(s: State, e: nat, ttl: Ttl) {
    forall k | 0 <= k < |s.calls| && (s.calls[k].pc.Entering? || s.calls[k].pc.Handling?) ::
      s.slot.Held? && s.slot.value == k && Promised(s.calls[k], s.slot.deadline, s.now, e, ttl)
  }

  /** When the next renewal of a call is due, against the deadline of its lock. */
  predicate Promised(c: Call, deadline: nat, now: nat, e: nat, ttl: Ttl) {
    var slack := deadline + LockHeartbeatIntervalMs(ttl) + e;
    if c.pc.Entering? then deadline == c.pc.since + ttl && c.beat.None?
    else
      match c.beat
      case None => c.nextTick + ttl <= slack
      case Some(tick) => tick + ttl <= slack && c.nextTick <= now + LockHeartbeatIntervalMs(ttl)
  }

  /** While its renewals are punctual, the lock of a call that enters or runs is live. */
  lemma HeldIsLive(s: State, k: nat, d: nat, e: nat, ttl: Ttl)
    requires AllHeld(s, e, ttl) && Punctual(s, d, e) && LockHeartbeatIntervalMs(ttl) + d + e < ttl
    requires k < |s.calls| && (s.calls[k].pc.Entering? || s.calls[k].pc.Handling?)
    ensures Matches(s.slot, s.now, k)
  {
  }

  lemma HeldStep(s: State, a: Action, d: nat, e: nat, ttl: Ttl)
    requires AllHeld(s, e, ttl) && Punctual(s, d, e) && BeatsAnswered(a) && Enabled(s, a)
    requires LockHeartbeatIntervalMs(ttl) + d + e < ttl
    ensures AllHeld(Apply(s, a, ttl), e, ttl)
  {
    forall k | 0 <= k < |s.calls| && (s.calls[k].pc.Entering? || s.calls[k].pc.Handling?)
      ensures Matches(s.slot, s.now, k)
    {
      HeldIsLive(s, k, d, e, ttl);
    }
  }

  lemma {:induction false} HeldRun(s: State, acts: seq<Action>, d: nat, e: nat, ttl: Ttl)
    requires AllHeld(s, e, ttl) && PunctualRun(s, acts, d, e, ttl)
    requires LockHeartbeatIntervalMs(ttl) + d + e < ttl
    ensures Legal(s, acts, ttl) && AllHeld(Exec(s, acts, ttl), e, ttl)
    decreases |acts|
  {
    if acts == [] {
    } else {
      HeldStep(s, acts[0], d, e, ttl);
      HeldRun(Apply(s, acts[0], ttl), acts[1..], d, e, ttl);
    }
  }

  /** A punctual run of two handlers at once. */
  predicate Overlaps(s: State, acts: seq<Action>, d: nat, e: nat, ttl: Ttl) {
    PunctualRun(s, acts, d, e, ttl) && Legal(s, acts, ttl) && !OneHandler(Exec(s, acts, ttl))
  }

  lemma Before(s: State, a: Action, rest: seq<Action>, d: nat, e: nat, ttl: Ttl)
    requires Punctual(s, d, e) && BeatsAnswered(a) && Enabled(s, a) && Overlaps(Apply(s, a, ttl), rest, d, e, ttl)
    ensures Overlaps(s, [a] + rest, d, e, ttl)
  {
    assert ([a] + rest)[1..] == rest;
  }

  /** The lock of the one running call has expired: another enters and runs. */
  lemma SecondEnters(s: State, d: nat, e: nat, ttl: Ttl) returns (acts: seq<Action>)
    requires |s.calls| == 1 && s.calls[0].pc.Handling? && Punctual(s, d, e) && !Live(s.slot, s.now)
    ensures Overlaps(s, acts, d, e, ttl)
  {
    var s1 := Apply(s, Enter, ttl);
    var s2 := Apply(s1, Answer(1), ttl);
    assert s2.calls[0].pc.Handling? && s2.calls[1].pc.Handling?;
    acts := [Answer(1)] + [];
    Before(s1, Answer(1), [], d, e, ttl);
    Before(s, Enter, acts, d, e, ttl);
    acts := [Enter] + acts;
  }

  /** A renewal in flight lands so late that the lock expires first; the ticks in between are skipped. */
  lemma {:induction false} LockExpiresInFlight(s: State, d: nat, e: nat, ttl: Ttl) returns (acts: seq<Action>)
    requires |s.calls| == 1 && s.calls[0].pc.Handling? && s.calls[0].beat.Some? && Punctual(s, d, e)
    requires s.slot.Held? && s.slot.deadline <= s.calls[0].beat.value + d
    ensures Overlaps(s, acts, d, e, ttl)
    decreases s.calls[0].beat.value + d - s.calls[0].nextTick
  {
    var c, due := s.calls[0], s.calls[0].beat.value + d;
    if due <= c.nextTick {
      acts := SecondEnters(s.(now := due), d, e, ttl);
      Before(s, Tick(due - s.now), acts, d, e, ttl);
      acts := [Tick(due - s.now)] + acts;
    } else {
      var s1 := s.(now := c.nextTick);
      acts := LockExpiresInFlight(Apply(s1, Fire(0), ttl), d, e, ttl);
      Before(s1, Fire(0), acts, d, e, ttl);
      acts := [Fire(0)] + acts;
      Before(s, Tick(c.nextTick - s.now), acts, d, e, ttl);
      acts := [Tick(c.nextTick - s.now)] + acts;
    }
  }

  /** An acquisition answered late, and a first renewal that lands too late for the TTL. */
  lemma LateExtendOverlaps(d: nat, e: nat, ttl: Ttl) returns (acts: seq<Action>)
    requires ttl <= LockHeartbeatIntervalMs(ttl) + d + e
    ensures Overlaps(INIT, acts, d, e, ttl)
  {
    var i := LockHeartbeatIntervalMs(ttl);
    var s1 := Apply(INIT, Enter, ttl);
    var s2 := Apply(s1, Tick(e), ttl);
    var s3 := Apply(s2, Answer(0), ttl);
    var s4 := Apply(s3, Tick(i), ttl);
    acts := LockExpiresInFlight(Apply(s4, Fire(0), ttl), d, e, ttl);
    Before(s4, Fire(0), acts, d, e, ttl);
    acts := [Fire(0)] + acts;
    Before(s3, Tick(i), acts, d, e, ttl);
    acts := [Tick(i)] + acts;
    Before(s2, Answer(0), acts, d, e, ttl);
    acts := [Answer(0)] + acts;
    Before(s1, Tick(e), acts, d, e, ttl);
    acts := [Tick(e)] + acts;
    Before(INIT, Enter, acts, d, e, ttl);
    acts := [Enter] + acts;
  }

  /**
   `runWithLock` handlers exclude each other exactly when the heartbeat interval, the delay of
   a heartbeat and the delay of the acquisition's answer fit strictly inside the TTL. The
   interval is at least a second, so a TTL of a second or less never excludes.
   */
  lemma LockConditionIsExact(d: nat, e: nat, ttl: Ttl)
    ensures HandlersExclude(d, e, ttl) <==> LockHeartbeatIntervalMs(ttl) + d + e < ttl
    ensures HandlersExclude(d, e, ttl) <==> (if ttl < 3000 then 1000 else ttl / 3) + d + e < ttl
    ensures ttl <= 1000 ==> !HandlersExclude(d, e, ttl)
  {
    if LockHeartbeatIntervalMs(ttl) + d + e < ttl {
      forall acts: seq<Action> | PunctualRun(INIT, acts, d, e, ttl) && Legal(INIT, acts, ttl)
        ensures OneHandler(Exec(INIT, acts, ttl))
      {
        HeldRun(INIT, acts, d, e, ttl);
      }
    } else {
      var acts := LateExtendOverlaps(d, e, ttl);
    }
  }

  // ---------------------------------------------------------------- tokens and heartbeats

  /** A heartbeat renews exactly its own live lock, and anything else makes the call know that the lock is lost. */
  lemma HeartbeatNoticesLoss(s: State, k: nat, applied: bool, answered: bool, ttl: Ttl)
    requires Enabled(s, Land(k, applied, answered))
    ensures var s', hit := Apply(s, Land(k, applied, answered), ttl), applied && Matches(s.slot, s.now, k);
      && s'.slot == (if hit then Held(k, s.now + ttl) else s.slot)
      && (s'.calls[k].lockLost <==> s.calls[k].lockLost || !hit || !answered)
      && forall j | 0 <= j < |s.calls| && j != k :: s'.calls[j] == s.calls[j]
  {
  }

  /** Of calls, only the holder renews or releases a live lock. */
  lemma OnlyHolderTouchesLock(s: State, a: Action, holder: nat, ttl: Ttl)
    requires Enabled(s, a) && Matches(s.slot, s.now, holder) && !a.Tick?
    requires (a.Land? || a.Release?) ==> a.call != holder
    ensures Apply(s, a, ttl).slot == s.slot
  {
  }

  /** A heartbeat of call `k` while its handler runs that misses its lock or is not answered. */
  predicate Misses(s: State, a: Action, k: nat) {
    a.Land? && a.call == k && k < |s.calls| && s.calls[k].pc.Handling? &&
    !(a.applied && a.answered && Matches(s.slot, s.now, k))
  }

  predicate Missed(s: State, acts: seq<Action>, k: nat, ttl: Ttl)
    requires Legal(s, acts, ttl)
    decreases |acts|
  {
    acts != [] && (Misses(s, acts[0], k) || Missed(Apply(s, acts[0], ttl), acts[1..], k, ttl))
  }

  /** What a call knows of its lock: whether a heartbeat has missed it so far, or had when its handler settled. */
  predicate Knows(s: State, k: nat, missed: bool) {
    if k >= |s.calls| then !missed
    else
      match s.calls[k].pc
      case Handling => s.calls[k].lockLost == missed
      case Releasing(_, lost) => lost == missed
      case Done(returned, lost) => lost == missed && !(returned && lost)
      case _ => !missed && !s.calls[k].lockLost && s.calls[k].beat.None?
  }

  lemma KnowsStep(s: State, a: Action, k: nat, missed: bool, ttl: Ttl)
    requires Enabled(s, a) && Knows(s, k, missed)
    ensures Knows(Apply(s, a, ttl), k, missed || Misses(s, a, k))
  {
  }

  lemma {:induction false} KnowsRun(s: State, acts: seq<Action>, k: nat, missed: bool, ttl: Ttl)
    requires Legal(s, acts, ttl) && Knows(s, k, missed)
    ensures Knows(Exec(s, acts, ttl), k, missed || Missed(s, acts, k, ttl))
    decreases |acts|
  {
    if acts == [] {
    } else {
      KnowsStep(s, acts[0], k, missed, ttl);
      KnowsRun(Apply(s, acts[0], ttl), acts[1..], k, missed || Misses(s, acts[0], k), ttl);
    }
  }

  /**
   Over every run, a call whose handler has settled counts its lock as lost exactly if some
   heartbeat missed it while the handler ran, and then it does not resolve with a value.
   */
  lemma LossIsReported(acts: seq<Action>, k: nat, ttl: Ttl)
    requires Legal(INIT, acts, ttl) && k < |Exec(INIT, acts, ttl).calls| && Exec(INIT, acts, ttl).calls[k].pc.Done?
    ensures var pc := Exec(INIT, acts, ttl).calls[k].pc;
      (pc.lost <==> Missed(INIT, acts, k, ttl)) && (pc.returned ==> !Missed(INIT, acts, k, ttl))
  {
    KnowsRun(INIT, acts, k, false, ttl);
  }
}
