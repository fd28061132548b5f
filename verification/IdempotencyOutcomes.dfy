/**
 Why a call ends as it does. Every ending of `execute` is tied, over every run and in both
 directions, to what the call's own commands met in Redis and to how its handler fared, with
 no reference to the control flow that leads from one to the other.
 */
module IdempotencyOutcomes {
  import opened Idempotency
  import opened IdempotencyProvenance
  import opened Prelude
  import opened RedisKeys

  /**
   What a call can meet: a stored result or a fence of its own request hash or of another one;
   a handler that rejects; a result it stored itself; a rejected command.
   */
  datatype Event =
    | OwnResult
    | ForeignHash
    | OwnFence
    | HandlerRejected
    | StoredResult
    | PersistRejected
    | CommandRejected

  /** The places that read the result key. */
  predicate ReadsResult(pc: Pc) {
    pc.ReadResult? || pc.Poll? || pc.LastRead? || pc.DoubleCheck? || pc.Persist?
  }

  predicate ReadsFence(pc: Pc) {
    pc.CheckFence? || pc.SeeFence?
  }

  /** In this step call `i` meets the event. */
  predicate Meets(s: State, a: Action, i: nat, e: Event)
    requires Enabled(s, a)
  {
    i < |s.calls| &&
    var c, k := s.calls[i], s.keys;
    match e
    case OwnResult =>
      a == Command(i) && ReadsResult(c.pc) && Live(k.result, s.now) && k.result.value.requestHash == c.hash
    case ForeignHash =>
      a == Command(i) &&
      ((ReadsResult(c.pc) && Live(k.result, s.now) && k.result.value.requestHash != c.hash) ||
       (ReadsFence(c.pc) && Live(k.fence, s.now) && k.fence.value != c.hash))
    case OwnFence =>
      a == Command(i) && ReadsFence(c.pc) && Live(k.fence, s.now) && k.fence.value == c.hash
    case HandlerRejected => a == Settle(i, None)
    case StoredResult =>
      a == Command(i) &&
      ((c.pc.Complete? && Matches(k.lock, s.now, i)) || (c.pc.Persist? && !Live(k.result, s.now)))
    case PersistRejected => a.Reject? && a.call == i && c.pc.Persist?
    case CommandRejected => a.Reject? && a.call == i && !c.pc.Persist?
  }

  /** What call `i` meets in a step, and in a run. */
  function Met(s: State, a: Action, i: nat): set<Event>
    requires Enabled(s, a)
  {
    set e | e in {OwnResult, ForeignHash, OwnFence, HandlerRejected, StoredResult, PersistRejected, CommandRejected} &&
      Meets(s, a, i, e)
  }

  function History(s: State, acts: seq<Action>, i: nat): set<Event>
    requires Legal(s, acts)
    decreases |acts|
  {
    if acts == [] then {} else Met(s, acts[0], i) + History(Apply(s, acts[0]), acts[1..], i)
  }

  /** How a call that has met `met` ends, or is about to. */
  predicate Explains(o: Outcome, met: set<Event>) {
    && (o == StoreFailed <==> CommandRejected in met)
    && (CommandRejected !in met ==>
          && (o == KeyReused <==> ForeignHash in met)
          && (o == HandlerFailed <==> HandlerRejected in met)
          && (o.Returned? <==> OwnResult in met || StoredResult in met)
          && (o == OutcomeUnknown <==>
                PersistRejected in met || (OwnFence in met && ForeignHash !in met && OwnResult !in met))
          && (o == InProgress <==> met == {}))
  }

  /** A call without a verdict has met nothing but, while it waits, its own fence; and it remembers that. */
  predicate CallExplained(c: Call, met: set<Event>) {
    match Verdict(c)
    case Some(o) => Explains(o, met)
    case None =>
      && met <= {OwnFence}
      && (OwnFence in met <==> c.pc.LastRead? || ((c.pc.Poll? || c.pc.SeeLock? || c.pc.SeeFence?) && c.pc.sawFence))
  }

  predicate Explained(s: State, i: nat, met: set<Event>) {
    if i < |s.calls| then CallExplained(s.calls[i], met) else met == {}
  }

  lemma ExplainedStep(s: State, a: Action, i: nat, met: set<Event>)
    requires Enabled(s, a) && Explained(s, i, met)
    ensures Explained(Apply(s, a), i, met + Met(s, a, i))
  {
    if i < |s.calls| && a == Command(i) {
      ExplainedAnswer(s, i, met);
    } else if i < |s.calls| && a.Reject? && a.call == i {
      ExplainedRefusal(s, i, a.applied, met);
    } else if i < |s.calls| && a.Settle? && a.call == i {
      ExplainedSettle(s, i, a.response, met);
    } else {
      assert Met(s, a, i) == {};
      assert met + Met(s, a, i) == met;
    }
  }

  lemma ExplainedAnswer(s: State, i: nat, met: set<Event>)
    requires Enabled(s, Command(i)) && Explained(s, i, met)
    ensures Explained(Answer(s, i), i, met + Met(s, Command(i), i))
  {
    var c := s.calls[i];
    if c.pc.ReadResult? || c.pc.DoubleCheck? {
      ExplainedRead(s, i, met);
    } else if c.pc.Poll? || c.pc.LastRead? {
      ExplainedPoll(s, i, met);
    } else if ReadsFence(c.pc) {
      ExplainedFence(s, i, met);
    } else if c.pc.Complete? || c.pc.Persist? {
      ExplainedWrite(s, i, met);
    } else {
      assert Met(s, Command(i), i) == {};
      assert met + Met(s, Command(i), i) == met;
    }
  }

  /** What the read of the result key adds to what a call has met. */
  function MetResult(c: Call, k: Keys, now: nat): set<Event> {
    if !Live(k.result, now) then {}
    else if k.result.value.requestHash == c.hash then {OwnResult} else {ForeignHash}
  }

  lemma ExplainedRead(s: State, i: nat, met: set<Event>)
    requires Enabled(s, Command(i)) && Explained(s, i, met)
    requires s.calls[i].pc.ReadResult? || s.calls[i].pc.DoubleCheck?
    ensures Explained(Answer(s, i), i, met + Met(s, Command(i), i))
  {
    assert met == {};
    assert met + Met(s, Command(i), i) == MetResult(s.calls[i], s.keys, s.now);
  }

  lemma ExplainedPoll(s: State, i: nat, met: set<Event>)
    requires Enabled(s, Command(i)) && Explained(s, i, met) && (s.calls[i].pc.Poll? || s.calls[i].pc.LastRead?)
    ensures Explained(Answer(s, i), i, met + Met(s, Command(i), i))
  {
    assert Met(s, Command(i), i) == MetResult(s.calls[i], s.keys, s.now);
  }

  lemma ExplainedFence(s: State, i: nat, met: set<Event>)
    requires Enabled(s, Command(i)) && Explained(s, i, met) && ReadsFence(s.calls[i].pc)
    ensures Explained(Answer(s, i), i, met + Met(s, Command(i), i))
  {
    var c, k := s.calls[i], s.keys;
    assert Met(s, Command(i), i) ==
      if !Live(k.fence, s.now) then {} else if k.fence.value == c.hash then {OwnFence} else {ForeignHash};
  }

  lemma ExplainedWrite(s: State, i: nat, met: set<Event>)
    requires Enabled(s, Command(i)) && Explained(s, i, met) && (s.calls[i].pc.Complete? || s.calls[i].pc.Persist?)
    ensures Explained(Answer(s, i), i, met + Met(s, Command(i), i))
  {
    var c, k := s.calls[i], s.keys;
    assert met == {};
    if c.pc.Complete? {
      assert met + Met(s, Command(i), i) == if Matches(k.lock, s.now, i) then {StoredResult} else {};
    } else {
      assert met + Met(s, Command(i), i) ==
        if Live(k.result, s.now) then MetResult(c, k, s.now) else {StoredResult};
    }
  }

  lemma ExplainedRefusal(s: State, i: nat, applied: bool, met: set<Event>)
    requires Enabled(s, Reject(i, applied)) && Explained(s, i, met)
    ensures Explained(Refuse(s, i, applied), i, met + Met(s, Reject(i, applied), i))
  {
  }

  lemma ExplainedSettle(s: State, i: nat, r: Option<Response>, met: set<Event>)
    requires Enabled(s, Settle(i, r)) && Explained(s, i, met)
    ensures Explained(Finish(s, i, r), i, met + Met(s, Settle(i, r), i))
  {
  }

  lemma {:induction false} ExplainedRun(s: State, acts: seq<Action>, i: nat, met: set<Event>)
    requires Legal(s, acts) && Explained(s, i, met)
    ensures Explained(Exec(s, acts), i, met + History(s, acts, i))
    decreases |acts|
  {
    if acts == [] {
      assert met + History(s, acts, i) == met;
    } else {
      var s', seen := Apply(s, acts[0]), met + Met(s, acts[0], i);
      ExplainedStep(s, acts[0], i, met);
      ExplainedRun(s', acts[1..], i, seen);
      assert met + History(s, acts, i) == seen + History(s', acts[1..], i);
    }
  }

  /**
   Over every run, a call that has ended has: reused its key exactly if it met another request
   hash; returned exactly if it read or stored a result of its own hash; an unknown outcome
   exactly if it met its own fence and no result, or its last write was rejected; failed
   exactly if its handler rejected; and is in progress elsewhere exactly if it met nothing. A
   rejected command overrides all that.
   */
  lemma OutcomesAreExplained(acts: seq<Action>, i: nat)
    requires Legal(INIT, acts) && i < |Exec(INIT, acts).calls| && Verdict(Exec(INIT, acts).calls[i]).Some?
    ensures Explains(Verdict(Exec(INIT, acts).calls[i]).value, History(INIT, acts, i))
  {
    ExplainedRun(INIT, acts, i, {});
    assert {} + History(INIT, acts, i) == History(INIT, acts, i);
  }

  // ---------------------------------------------------------------- one request, retried

  /** All calls made so far, and the keys, carry one request hash. */
  predicate OneHash(s: State, h: Hash) {
    && (forall i | 0 <= i < |s.calls| :: s.calls[i].hash == h)
    && (s.keys.fence.Held? ==> s.keys.fence.value == h)
    && (s.keys.result.Held? ==> s.keys.result.value.requestHash == h)
  }

  predicate ArrivesWith(acts: seq<Action>, h: Hash) {
    forall n | 0 <= n < |acts| :: acts[n].Arrive? ==> acts[n].hash == h
  }

  lemma PerformKeepsHash(c: Call, i: nat, k: Keys, now: nat)
    requires (k.fence.Held? ==> k.fence.value == c.hash) && (k.result.Held? ==> k.result.value.requestHash == c.hash)
    ensures var k' := Perform(c, i, k, now).keys;
      (k'.fence.Held? ==> k'.fence.value == c.hash) && (k'.result.Held? ==> k'.result.value.requestHash == c.hash)
  {
  }

  lemma OneHashStep(s: State, a: Action, h: Hash)
    requires Enabled(s, a) && OneHash(s, h) && (a.Arrive? ==> a.hash == h)
    ensures OneHash(Apply(s, a), h)
  {
    if a.Command? || a.Reject? {
      PerformKeepsHash(s.calls[a.call], a.call, s.keys, s.now);
    }
  }

  lemma {:induction false} OneHashRun(s: State, acts: seq<Action>, i: nat, h: Hash)
    requires Legal(s, acts) && OneHash(s, h) && ArrivesWith(acts, h)
    ensures ForeignHash !in History(s, acts, i)
    decreases |acts|
  {
    if acts == [] {
    } else {
      OneHashStep(s, acts[0], h);
      OneHashRun(Apply(s, acts[0]), acts[1..], i, h);
    }
  }

  /** However often one request is retried under its key, whatever fails, no call is told that the key was reused. */
  lemma RetriesAreNotReuse(acts: seq<Action>, i: nat, h: Hash)
    requires Legal(INIT, acts) && ArrivesWith(acts, h) && i < |Exec(INIT, acts).calls|
    ensures Verdict(Exec(INIT, acts).calls[i]) != Some(KeyReused)
  {
    OneHashRun(INIT, acts, i, h);
    if Verdict(Exec(INIT, acts).calls[i]).Some? {
      OutcomesAreExplained(acts, i);
    }
  }

  // ---------------------------------------------------------------- tokens and heartbeats

  /** Of calls, only the holder can renew or remove a live lock. */
  lemma OnlyHolderTouchesLock(s: State, a: Action, holder: nat)
    requires Enabled(s, a) && Matches(s.keys.lock, s.now, holder)
    requires !a.Tick? && !a.EvictLock?
    requires (a.Command? || a.Reject? || a.Beat? || a.BeatReject?) ==> a.call != holder
    ensures Apply(s, a).keys.lock == s.keys.lock
  {
  }

  /** A heartbeat renews exactly its own live lock, and anything else makes the call know that the lock is lost. */
  lemma HeartbeatNoticesLoss(s: State, a: Action, i: nat)
    requires Enabled(s, a) && (a == Beat(i) || (a.BeatReject? && a.call == i))
    ensures var s', reached := Apply(s, a), a.Beat? || a.applied;
      && s'.keys.fence == s.keys.fence && s'.keys.result == s.keys.result
      && s'.keys.lock ==
           (if reached && Matches(s.keys.lock, s.now, i) then Held(i, s.now + 30_000) else s.keys.lock)
      && (s'.calls[i].lockLost <==> s.calls[i].lockLost || a.BeatReject? || !Matches(s.keys.lock, s.now, i))
  {
  }

  /** A call arrives with its request hash and TTL, in seconds, and nothing behind it. */
  lemma ArrivesAnew(s: State, hash: Hash, ttlSeconds: Ttl)
    ensures var s' := Apply(s, Arrive(hash, ttlSeconds));
      && s'.keys == s.keys && |s'.calls| == |s.calls| + 1 && s'.calls[..|s.calls|] == s.calls
      && var c := s'.calls[|s.calls|];
         c.hash == hash && c.ttl == ttlSeconds * 1000 && c.pc.ReadResult? && !c.lockLost && c.startedAt.None?
  {
  }
}
