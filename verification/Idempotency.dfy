/**
 The HTTP idempotency protocol of idempotency.service.ts for one `idem:<scope>:<key>` base
 key, as a state machine. A step is one Redis command or script of one call (answered, or
 rejected with or without having taken effect), the settling of a handler, a heartbeat,
 the loss of the lock key, or the passing of time. Calls interleave freely between steps.
 */
module Idempotency {
  import opened Prelude
  import opened RedisKeys

  const LOCK_TTL_MS: Ttl := 30_000
  const WAIT_TIMEOUT_MS := 15_000
  const WAIT_POLL_MS := 100

  /** A request fingerprint; the empty string would read as "no fence" in the source. */
  type Hash = h: string | h != "" witness "h"
  type Response = string

  datatype Stored = Stored(requestHash: Hash, response: Response)

  /** The three Redis keys of one base key. A lock token is the number of the call that drew it. */
  datatype Keys = Keys(lock: Slot<nat>, fence: Slot<Hash>, result: Slot<Stored>)

  datatype Outcome =
    | Returned(response: Response)
    | KeyReused
    | OutcomeUnknown
    | InProgress
    | HandlerFailed
    | StoreFailed

  /** The await a call is suspended at. */
  datatype Pc =
    | ReadResult
    | CheckFence
    | Acquire
    | Poll(wakeAt: nat, deadline: nat, sawFence: bool)
    | SeeLock(deadline: nat, sawFence: bool)
    | SeeFence(deadline: nat, sawFence: bool)
    | LastRead
    | DoubleCheck
    | Handling
    | Complete(result: Response)
    | Persist(result: Response)
    | Release(outcome: Outcome, handlerSucceeded: bool)
    | DropFence(outcome: Outcome)
    | Done(outcome: Outcome)

  /**
   One `execute` call. The fields after `lockLost` record its history: when it took the lock,
   last renewed it, started its handler; what the handler produced; when its result was
   written; when and from whose run it read the value it returns.
   */
  datatype Call = Call(
    hash: Hash,
    ttl: Ttl,
    pc: Pc,
    lockLost: bool,
    acquiredAt: Option<nat>,
    renewedAt: nat,
    startedAt: Option<nat>,
    produced: Option<Response>,
    storedAt: Option<nat>,
    readAt: nat,
    source: nat)

  /** `author` is the call whose write the result key holds. */
  datatype State = State(now: nat, keys: Keys, author: nat, calls: seq<Call>)

  datatype Action =
    | Tick(dt: nat)
    | EvictLock
    | Arrive(hash: Hash, ttlSeconds: Ttl)
    | Command(call: nat)
    | Reject(call: nat, applied: bool)
    | Settle(call: nat, response: Option<Response>)
    | Beat(call: nat)
    | BeatReject(call: nat, applied: bool)

  const INIT := State(0, Keys(Absent, Absent, Absent), 0, [])

  function NewCall(hash: Hash, ttlSeconds: Ttl): Call {
    Call(hash, ttlSeconds * 1000, ReadResult, false, None, 0, None, None, None, 0, 0)
  }

  // ---------------------------------------------------------------- the scripts

  /** What a command leaves in the keys, whether it answered success, whether it wrote the result. */
  datatype Performed = Performed(keys: Keys, ok: bool, wrote: bool)

  function AcquireLockWithFence(k: Keys, now: nat, token: nat, hash: Hash, ttl: Ttl): Performed {
    if Live(k.lock, now) then Performed(k, false, false)
    else Performed(Keys(SetEx(now, token, LOCK_TTL_MS), SetEx(now, hash, ttl), k.result), true, false)
  }

  function CompleteIdempotency(k: Keys, now: nat, token: nat, stored: Stored, ttl: Ttl): Performed {
    if Matches(k.lock, now, token) then Performed(Keys(Absent, Absent, SetEx(now, stored, ttl)), true, true)
    else Performed(k, false, false)
  }

  function PersistBestEffort(k: Keys, now: nat, stored: Stored, ttl: Ttl): Performed {
    if Live(k.result, now) then Performed(k, true, false)
    else Performed(Keys(k.lock, Absent, SetEx(now, stored, ttl)), true, true)
  }

  /** The command call `i` awaits, run against the keys. */
  function Perform(c: Call, i: nat, k: Keys, now: nat): Performed {
    match c.pc
    case Acquire => AcquireLockWithFence(k, now, i, c.hash, c.ttl)
    case Complete(r) => CompleteIdempotency(k, now, i, Stored(c.hash, r), c.ttl)
    case Persist(r) => PersistBestEffort(k, now, Stored(c.hash, r), c.ttl)
    case Release(_, _) => Performed(k.(lock := CompareAndDelete(k.lock, now, i)), true, false)
    case DropFence(_) => Performed(k.(fence := Absent), true, false)
    case _ => Performed(k, true, false)
  }

  // ---------------------------------------------------------------- control flow

  function Parse(stored: Stored, hash: Hash): Outcome {
    if stored.requestHash == hash then Returned(stored.response) else KeyReused
  }

  /** Leaving the polling loop. */
  function LeaveLoop(sawFence: bool): Pc {
    if sawFence then LastRead else Done(InProgress)
  }

  /** The head of the polling loop: sleep once more while the deadline is ahead. */
  function LoopHead(now: nat, deadline: nat, sawFence: bool): Pc {
    if now < deadline then Poll(now + WAIT_POLL_MS, deadline, sawFence) else LeaveLoop(sawFence)
  }

  /** The call after its command was answered; `k` and `author` are from before it. */
  function Continue(c: Call, i: nat, k: Keys, author: nat, now: nat): Call {
    var p := Perform(c, i, k, now);
    var cached := Get(k.result, now);
    match c.pc
    case ReadResult =>
      if cached.Some? then c.(pc := Done(Parse(cached.value, c.hash)), readAt := now, source := author)
      else c.(pc := CheckFence)
    case CheckFence =>
      var fence := Get(k.fence, now);
      if fence.None? then c.(pc := Acquire)
      else c.(pc := Done(if fence.value == c.hash then OutcomeUnknown else KeyReused))
    case Acquire =>
      if p.ok then c.(pc := DoubleCheck, acquiredAt := Some(now), renewedAt := now)
      else c.(pc := LoopHead(now, now + WAIT_TIMEOUT_MS, false))
    case Poll(_, deadline, saw) =>
      if cached.Some? then c.(pc := Done(Parse(cached.value, c.hash)), readAt := now, source := author)
      else c.(pc := SeeLock(deadline, saw))
    case SeeLock(deadline, saw) =>
      if Live(k.lock, now) then c.(pc := LoopHead(now, deadline, saw))
      else c.(pc := SeeFence(deadline, saw))
    case SeeFence(deadline, saw) =>
      var fence := Get(k.fence, now);
      if fence.None? then c.(pc := LeaveLoop(saw))
      else if fence.value != c.hash then c.(pc := Done(KeyReused))
      else c.(pc := LoopHead(now, deadline, true))
    case LastRead =>
      if cached.Some? then c.(pc := Done(Parse(cached.value, c.hash)), readAt := now, source := author)
      else c.(pc := Done(OutcomeUnknown))
    case DoubleCheck =>
      if cached.Some? then c.(pc := Release(Parse(cached.value, c.hash), false), readAt := now, source := author)
      else c.(pc := Handling, startedAt := Some(now))
    case Complete(r) =>
      if p.ok then c.(pc := Done(Returned(r)), storedAt := Some(now), readAt := now, source := i)
      else c.(pc := Persist(r), lockLost := true)
    case Persist(r) =>
      if p.wrote then c.(pc := Done(Returned(r)), storedAt := Some(now), readAt := now, source := i)
      else if cached.None? then c
      else
        var outcome := Parse(cached.value, c.hash);
        var read := c.(readAt := now, source := author);
        if outcome.Returned? then read.(pc := Done(outcome)) else read.(pc := Release(outcome, true))
    case Release(outcome, succeeded) => c.(pc := if succeeded then Done(outcome) else DropFence(outcome))
    case DropFence(outcome) => c.(pc := Done(outcome))
    case Handling => c
    case Done(_) => c
  }

  /** The call after its command was rejected; `wrote` says that the result was written all the same. */
  function Abandon(c: Call, wrote: bool, now: nat): Call {
    var noted := if wrote then c.(storedAt := Some(now)) else c;
    match c.pc
    case DoubleCheck => noted.(pc := Release(StoreFailed, false))
    case Complete(_) => noted.(pc := Release(StoreFailed, true))
    case Persist(_) => noted.(pc := Release(OutcomeUnknown, true))
    case _ => noted.(pc := Done(StoreFailed))
  }

  // ---------------------------------------------------------------- steps and runs

  predicate AwaitsStore(c: Call, now: nat) {
    !c.pc.Handling? && !c.pc.Done? && (c.pc.Poll? ==> c.pc.wakeAt <= now)
  }

  predicate Enabled(s: State, a: Action) {
    match a
    case Tick(_) => true
    case EvictLock => true
    case Arrive(_, _) => true
    case Command(i) => i < |s.calls| && AwaitsStore(s.calls[i], s.now)
    case Reject(i, _) => i < |s.calls| && AwaitsStore(s.calls[i], s.now)
    case Settle(i, _) => i < |s.calls| && s.calls[i].pc.Handling?
    case Beat(i) => i < |s.calls| && s.calls[i].acquiredAt.Some?
    case BeatReject(i, _) => i < |s.calls| && s.calls[i].acquiredAt.Some?
  }

  function Answer(s: State, i: nat): State
    requires Enabled(s, Command(i))
  {
    var c := s.calls[i];
    var p := Perform(c, i, s.keys, s.now);
    State(s.now, p.keys, if p.wrote then i else s.author,
          s.calls[i := Continue(c, i, s.keys, s.author, s.now)])
  }

  function Refuse(s: State, i: nat, applied: bool): State
    requires Enabled(s, Reject(i, applied))
  {
    var c := s.calls[i];
    var p := if applied then Perform(c, i, s.keys, s.now) else Performed(s.keys, false, false);
    State(s.now, p.keys, if p.wrote then i else s.author, s.calls[i := Abandon(c, p.wrote, s.now)])
  }

  /** The handler of call `i` resolves with a response or rejects. */
  function Finish(s: State, i: nat, response: Option<Response>): State
    requires Enabled(s, Settle(i, response))
  {
    var c := s.calls[i];
    match response
    case None => s.(calls := s.calls[i := c.(pc := Release(HandlerFailed, false))])
    case Some(r) =>
      s.(calls := s.calls[i := c.(produced := response, pc := if c.lockLost then Persist(r) else Complete(r))])
  }

  /** A heartbeat of call `i` reaches Redis (or not) and is answered (or not). */
  function Renew(s: State, i: nat, applied: bool, answered: bool): State
    requires i < |s.calls|
  {
    var c := s.calls[i];
    var hit := applied && Matches(s.keys.lock, s.now, i);
    s.(keys := s.keys.(lock := if hit then SetEx(s.now, i, LOCK_TTL_MS) else s.keys.lock),
       calls := s.calls[i := c.(lockLost := c.lockLost || !hit || !answered,
                                renewedAt := if hit then s.now else c.renewedAt)])
  }

  function Apply(s: State, a: Action): State
    requires Enabled(s, a)
  {
    match a
    case Tick(dt) => s.(now := s.now + dt)
    case EvictLock => s.(keys := s.keys.(lock := Absent))
    case Arrive(hash, ttl) => s.(calls := s.calls + [NewCall(hash, ttl)])
    case Command(i) => Answer(s, i)
    case Reject(i, applied) => Refuse(s, i, applied)
    case Settle(i, r) => Finish(s, i, r)
    case Beat(i) => Renew(s, i, true, true)
    case BeatReject(i, applied) => Renew(s, i, applied, false)
  }

  predicate Legal(s: State, acts: seq<Action>)
    decreases |acts|
  {
    acts == [] || (Enabled(s, acts[0]) && Legal(Apply(s, acts[0]), acts[1..]))
  }

  function Exec(s: State, acts: seq<Action>): State
    requires Legal(s, acts)
    decreases |acts|
  {
    if acts == [] then s else Exec(Apply(s, acts[0]), acts[1..])
  }

  /** A run can be extended by any enabled step. */
  lemma {:induction false} OneMore(s: State, acts: seq<Action>, a: Action)
    requires Legal(s, acts) && Enabled(Exec(s, acts), a)
    ensures Legal(s, acts + [a]) && Exec(s, acts + [a]) == Apply(Exec(s, acts), a)
    decreases |acts|
  {
    if acts == [] {
      var one := [a];
      assert acts + one == one && one[1..] == [];
      assert Legal(Apply(s, a), []) && Exec(Apply(s, a), []) == Apply(s, a);
    } else {
      OneMore(Apply(s, acts[0]), acts[1..], a);
      assert (acts + [a])[1..] == acts[1..] + [a];
    }
  }
}
