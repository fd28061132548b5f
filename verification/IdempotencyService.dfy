/**
 `execute` as it is written: awaits in sequence, a polling loop, a `try`/`finally`. The service
 runs in a world whose other calls, heartbeats and clock move at every await, as the `world`
 field prescribes; `refusals` and `products` say how its own store commands and handlers fare.
 Every such run is a run of the state machine, so whatever holds of all runs holds of it.
 */
module IdempotencyService {
  import opened Prelude
  import opened RedisKeys
  import opened Idempotency
  import opened IdempotencyOutcomes
  import opened IdempotencyProvenance

  /** A step that belongs to the control flow of call `me`; its heartbeat does not. */
  predicate Own(a: Action, me: nat) {
    match a
    case Command(i) => i == me
    case Reject(i, _) => i == me
    case Settle(i, _) => i == me
    case _ => false
  }

  /** What steps of others leave of a call: all but its heartbeat's two fields. */
  predicate Untouched(c: Call, c': Call) {
    c' == c.(lockLost := c'.lockLost, renewedAt := c'.renewedAt) && (c.lockLost ==> c'.lockLost)
  }

  /** The next store command is rejected. */
  predicate Refuses(refusals: seq<Option<bool>>) {
    refusals != [] && refusals[0].Some?
  }

  function Rest(refusals: seq<Option<bool>>): seq<Option<bool>> {
    if refusals == [] then [] else refusals[1..]
  }

  /** The state in which the last step of a run was taken. */
  ghost predicate LastSaw(trace: seq<Action>, seen: State) {
    trace != [] && Legal(INIT, trace[..|trace| - 1]) && Exec(INIT, trace[..|trace| - 1]) == seen
  }

  /** The lock key does not hold the token of `me`. */
  predicate NotMine(s: State, me: nat) {
    !Matches(s.keys.lock, s.now, me)
  }

  /** Only the call itself takes the lock for itself. */
  lemma OthersLeaveLock(s: State, a: Action, me: nat)
    requires Enabled(s, a) && !Own(a, me) && NotMine(s, me)
    ensures NotMine(Apply(s, a), me)
  {
  }

  /** What settles a waiting call: a live result, judged by its hash, or the live fence of another request. */
  predicate SettledBy(s: State, hash: Hash, o: Outcome) {
    || (Live(s.keys.result, s.now) &&
        o == if s.keys.result.value.requestHash == hash then Returned(s.keys.result.value.response) else KeyReused)
    || (Live(s.keys.fence, s.now) && s.keys.fence.value != hash && o == KeyReused)
  }

  /** How a polling round ends: the loop goes on, is left, or the call is over. */
  datatype Round = Again | Stop | Settled(outcome: Outcome)

  /** What a round ends on: an answer, nobody holding the key, a held lock, or the fence of this request. */
  predicate RoundSeen(s: State, hash: Hash, round: Round, sawFenceBefore: bool, sawFence: bool) {
    match round
    case Settled(o) => o == StoreFailed || SettledBy(s, hash, o)
    case Stop => !Live(s.keys.fence, s.now) && sawFence == sawFenceBefore
    case Again =>
      || (Live(s.keys.lock, s.now) && sawFence == sawFenceBefore)
      || (Live(s.keys.fence, s.now) && s.keys.fence.value == hash && sawFence)
  }

  class RedisIdempotencyService {
    var st: State
    var world: seq<seq<Action>>
    var refusals: seq<Option<bool>>
    var products: seq<Option<Response>>
    ghost var trace: seq<Action>

    constructor (world: seq<seq<Action>>, refusals: seq<Option<bool>>, products: seq<Option<Response>>)
      ensures Valid() && trace == [] && st == INIT
    {
      this.st, this.trace := INIT, [];
      this.world, this.refusals, this.products := world, refusals, products;
    }

    /** The state is what the recorded steps lead to. */
    ghost predicate Valid()
      reads this
    {
      Legal(INIT, trace) && st == Exec(INIT, trace)
    }

    method Step(a: Action)
      requires Valid() && Enabled(st, a)
      modifies this`st, this`trace
      ensures Valid() && st == Apply(old(st), a) && trace == old(trace) + [a]
    {
      OneMore(INIT, trace, a);
      trace := trace + [a];
      st := Apply(st, a);
    }

    /** An await: others take whatever steps the world has in store. */
    method Await(me: nat)
      requires Valid() && me < |st.calls|
      modifies this`st, this`trace, this`world
      ensures Valid() && old(trace) <= trace && me < |st.calls|
      ensures old(st).now <= st.now && Untouched(old(st).calls[me], st.calls[me])
      ensures NotMine(old(st), me) ==> NotMine(st, me)
    {
      if world == [] {
        return;
      }
      var steps := world[0];
      world := world[1..];
      for n := 0 to |steps|
        invariant Valid() && old(trace) <= trace && me < |st.calls|
        invariant old(st).now <= st.now && Untouched(old(st).calls[me], st.calls[me])
        invariant NotMine(old(st), me) ==> NotMine(st, me)
      {
        if Enabled(st, steps[n]) && !Own(steps[n], me) {
          if NotMine(st, me) {
            OthersLeaveLock(st, steps[n], me);
          }
          Step(steps[n]);
        }
      }
    }

    /** Awaits the pending store command of `me`; `seen` is the state it was run against. */
    method Ask(me: nat) returns (refused: bool, seen: State)
      requires Valid() && me < |st.calls| && AwaitsStore(st.calls[me], st.now)
      modifies this`st, this`trace, this`world, this`refusals
      ensures Valid() && old(trace) <= trace
      ensures me < |seen.calls| && AwaitsStore(seen.calls[me], seen.now) && old(st).now <= seen.now
      ensures Untouched(old(st).calls[me], seen.calls[me]) && LastSaw(trace, seen)
      ensures NotMine(old(st), me) ==> NotMine(seen, me)
      ensures refused == Refuses(old(refusals)) && refusals == Rest(old(refusals))
      ensures if refused then st == Refuse(seen, me, false) || st == Refuse(seen, me, true) else st == Answer(seen, me)
    {
      Await(me);
      seen := st;
      ghost var before := trace;
      var refusal := None;
      if refusals != [] {
        refusal, refusals := refusals[0], refusals[1..];
      }
      refused := refusal.Some?;
      if refused {
        Step(Reject(me, refusal.value));
      } else {
        Step(Command(me));
      }
      assert trace[..|trace| - 1] == before;
    }

    /** `execute`: the run it makes ends with this call done, with the outcome returned here. */
    method Execute(hash: Hash, ttlSeconds: Ttl) returns (outcome: Outcome, ghost me: nat)
      requires Valid()
      modifies this`st, this`trace, this`world, this`refusals, this`products
      ensures Valid() && old(trace) <= trace
      ensures me == |old(st).calls| < |st.calls| && st.calls[me].pc == Done(outcome)
      ensures outcome.Returned? ==>
        Source(st.calls, st.calls[me].source, hash, outcome.response, st.calls[me].readAt)
      ensures Explains(outcome, History(INIT, trace, me))
    {
      var call := |st.calls|;
      Step(Arrive(hash, ttlSeconds));
      outcome := Protocol(call, hash);
      me := call;
      if outcome.Returned? {
        ReturnsAreProducts(trace, me);
      }
    }

    /** The body of `execute`; whatever ends it is explained by what the call met. */
    method Protocol(me: nat, hash: Hash) returns (outcome: Outcome)
      requires Valid() && me < |st.calls| && st.calls[me].pc.ReadResult? && st.calls[me].hash == hash
      modifies this`st, this`trace, this`world, this`refusals, this`products
      ensures Valid() && old(trace) <= trace && me < |st.calls|
      ensures st.calls[me].pc == Done(outcome) && st.calls[me].hash == hash
      ensures Explains(outcome, History(INIT, trace, me))
    {
      var settled := CheckEarlier(me, hash);
      if settled.Some? {
        outcome := settled.value;
      } else {
        outcome := AcquireAndRun(me, hash);
      }
      OutcomesAreExplained(trace, me);
    }

    /** Past the fence check: take the lock, or wait for who has it. */
    method AcquireAndRun(me: nat, hash: Hash) returns (outcome: Outcome)
      requires Valid() && me < |st.calls| && st.calls[me].pc.Acquire? && st.calls[me].hash == hash
      modifies this`st, this`trace, this`world, this`refusals, this`products
      ensures Valid() && old(trace) <= trace && me < |st.calls|
      ensures st.calls[me].pc == Done(outcome) && st.calls[me].hash == hash
    {
      var refused, seen := Ask(me);
      if refused {
        return StoreFailed;
      }
      var lockAcquired := !Live(seen.keys.lock, seen.now);
      if !lockAcquired {
        outcome := WaitForResult(me, hash);
        return;
      }

      var outcomeStored, handlerSucceeded;
      outcome, outcomeStored, handlerSucceeded := Attempt(me, hash);
      if !outcomeStored {
        outcome := GiveBack(me, hash, outcome, handlerSucceeded);
      }
    }

    /** The two reads before the lock: only a live result, a live fence or a store error settles the call. */
    method CheckEarlier(me: nat, hash: Hash) returns (settled: Option<Outcome>)
      requires Valid() && me < |st.calls| && st.calls[me].pc.ReadResult? && st.calls[me].hash == hash
      modifies this`st, this`trace, this`world, this`refusals
      ensures Valid() && old(trace) <= trace && me < |st.calls| && st.calls[me].hash == hash
      ensures st.calls[me].pc == if settled.Some? then Done(settled.value) else Acquire
      ensures settled.None? ==> !Live(st.keys.fence, st.now)
      ensures settled.Some? ==>
        || (settled.value == StoreFailed && (Refuses(old(refusals)) || Refuses(Rest(old(refusals)))))
        || (Live(st.keys.result, st.now) && settled.value == Parse(st.keys.result.value, hash))
        || (Live(st.keys.fence, st.now) &&
            settled.value == if st.keys.fence.value == hash then OutcomeUnknown else KeyReused)
    {
      var refused, seen := Ask(me);
      if refused {
        return Some(StoreFailed);
      }
      var cached := Get(seen.keys.result, seen.now);
      if cached.Some? {
        return Some(Parse(cached.value, hash));
      }

      refused, seen := Ask(me);
      if refused {
        return Some(StoreFailed);
      }
      var fence := Get(seen.keys.fence, seen.now);
      if fence.Some? {
        return Some(if fence.value != hash then KeyReused else OutcomeUnknown);
      }
      return None;
    }

    /**
     The `finally` block, when no outcome was stored: afterwards the lock is not this call's, and
     after a failure the fence is gone, unless the store fails, which then is the outcome.
     */
    method GiveBack(me: nat, hash: Hash, thrown: Outcome, handlerSucceeded: bool) returns (outcome: Outcome)
      requires Valid() && me < |st.calls| && st.calls[me].pc == Release(thrown, handlerSucceeded) &&
        st.calls[me].hash == hash
      modifies this`st, this`trace, this`world, this`refusals
      ensures Valid() && old(trace) <= trace && me < |st.calls| && st.calls[me].hash == hash
      ensures st.calls[me].pc == Done(outcome)
      ensures var refused := Refuses(old(refusals)) || (!handlerSucceeded && Refuses(Rest(old(refusals))));
        if refused then outcome == StoreFailed
        else outcome == thrown && NotMine(st, me) && (!handlerSucceeded ==> st.keys.fence == Absent)
    {
      var refused, seen := Ask(me);
      if refused {
        return StoreFailed;
      }
      if !handlerSucceeded {
        refused, seen := Ask(me);
        if refused {
          return StoreFailed;
        }
      }
      return thrown;
    }

    /**
     The `try` block: what it returns or throws, and the two flags `finally` looks at. A response
     is the one that the result key now holds, for this request; the handler ran if there was none.
     */
    method Attempt(me: nat, hash: Hash) returns (outcome: Outcome, outcomeStored: bool, handlerSucceeded: bool)
      requires Valid() && me < |st.calls| && st.calls[me].pc.DoubleCheck? && st.calls[me].hash == hash
      modifies this`st, this`trace, this`world, this`refusals, this`products
      ensures Valid() && old(trace) <= trace && me < |st.calls| && st.calls[me].hash == hash
      ensures st.calls[me].pc == if outcomeStored then Done(outcome) else Release(outcome, handlerSucceeded)
      ensures outcome.Returned? ==>
        Live(st.keys.result, st.now) && st.keys.result.value == Stored(hash, outcome.response)
      ensures outcomeStored <==> outcome.Returned? && handlerSucceeded
      ensures handlerSucceeded <==> st.calls[me].produced.Some?
      ensures st.calls[me].startedAt.Some? <==> handlerSucceeded || outcome == HandlerFailed
    {
      outcomeStored, handlerSucceeded := false, false;
      InvRun(INIT, trace);
      assert CallConsistent(st.calls[me], st.now);
      var refused, seen := Ask(me);
      if refused {
        outcome := StoreFailed;
        return;
      }
      var doubleChecked := Get(seen.keys.result, seen.now);
      if doubleChecked.Some? {
        outcome := Parse(doubleChecked.value, hash);
        return;
      }

      var product := RunHandler(me);
      if product.None? {
        outcome := HandlerFailed;
        return;
      }
      handlerSucceeded := true;
      outcome, outcomeStored := StoreOutcome(me, hash, product.value);
    }

    /** The handler has succeeded: complete under the lock, or else persist without it. */
    method StoreOutcome(me: nat, hash: Hash, product: Response) returns (outcome: Outcome, outcomeStored: bool)
      requires Valid() && me < |st.calls| && st.calls[me].hash == hash
      requires st.calls[me].pc == if st.calls[me].lockLost then Persist(product) else Complete(product)
      modifies this`st, this`trace, this`world, this`refusals
      ensures Valid() && old(trace) <= trace && me < |st.calls| && st.calls[me].hash == hash
      ensures st.calls[me].pc == if outcomeStored then Done(outcome) else Release(outcome, true)
      ensures st.calls[me].produced == old(st).calls[me].produced
      ensures st.calls[me].startedAt == old(st).calls[me].startedAt
      ensures outcomeStored <==> outcome.Returned?
      ensures outcomeStored ==>
        Live(st.keys.result, st.now) && st.keys.result.value == Stored(hash, outcome.response)
      ensures outcomeStored && !st.calls[me].lockLost ==> st.keys.lock == Absent && st.keys.fence == Absent
    {
      if !st.calls[me].lockLost {
        var refused, seen := Ask(me);
        if refused {
          return StoreFailed, false;
        }
        var completed := Matches(seen.keys.lock, seen.now, me);
        if completed {
          return Returned(product), true;
        }
      }
      ghost var found;
      outcome, found := PersistAfterLockLoss(me, hash);
      outcomeStored := outcome.Returned?;
    }

    method RunHandler(me: nat) returns (product: Option<Response>)
      requires Valid() && me < |st.calls| && st.calls[me].pc.Handling?
      modifies this`st, this`trace, this`world, this`products
      ensures Valid() && old(trace) <= trace && me < |st.calls| && st.calls[me].hash == old(st).calls[me].hash
      ensures st.calls[me].startedAt == old(st).calls[me].startedAt
      ensures product.None? ==>
        st.calls[me].pc == Release(HandlerFailed, false) && st.calls[me].produced == old(st).calls[me].produced
      ensures product.Some? ==>
        && st.calls[me].produced == product
        && st.calls[me].pc == if st.calls[me].lockLost then Persist(product.value) else Complete(product.value)
    {
      Await(me);
      product := None;
      if products != [] {
        product, products := products[0], products[1..];
      }
      Step(Settle(me, product));
    }

    /**
     First writer wins: a live result stays, otherwise the own one is stored, and what the key
     then holds is judged by its hash. A store error is an unknown outcome.
     */
    method PersistAfterLockLoss(me: nat, hash: Hash) returns (outcome: Outcome, ghost found: State)
      requires Valid() && me < |st.calls| && st.calls[me].pc.Persist? && st.calls[me].hash == hash
      requires st.calls[me].lockLost
      modifies this`st, this`trace, this`world, this`refusals
      ensures Valid() && old(trace) <= trace && me < |st.calls| && st.calls[me].hash == hash
      ensures st.calls[me].pc == if outcome.Returned? then Done(outcome) else Release(outcome, true)
      ensures st.calls[me].lockLost
      ensures st.calls[me].produced == old(st).calls[me].produced
      ensures st.calls[me].startedAt == old(st).calls[me].startedAt
      ensures LastSaw(trace, found)
      ensures Refuses(old(refusals)) ==> outcome == OutcomeUnknown
      ensures !Refuses(old(refusals)) ==>
        && Live(st.keys.result, st.now) && outcome == Parse(st.keys.result.value, hash)
        && if Live(found.keys.result, found.now) then st.keys.result == found.keys.result
           else
             && st.keys.result == Held(Stored(hash, old(st).calls[me].pc.result), found.now + st.calls[me].ttl)
             && st.keys.fence == Absent
    {
      var own := Stored(hash, st.calls[me].pc.result);
      var refused, seen := Ask(me);
      found := seen;
      if refused {
        return OutcomeUnknown, found;
      }
      var existing := Get(seen.keys.result, seen.now);
      var persisted := if existing.Some? then existing.value else own;
      if persisted == own {
        return Returned(own.response), found;
      }
      return Parse(persisted, hash), found;
    }

    /**
     The polling loop of a call that did not get the lock. It answers from what the keys hold as
     it ends: a live result, judged by its hash, or the fence of another request; it is unknown
     only if no result is there, and in progress only after the whole waiting time or once
     nobody holds the key.
     */
    method WaitForResult(me: nat, hash: Hash) returns (outcome: Outcome)
      requires Valid() && me < |st.calls| && st.calls[me].hash == hash
      requires st.calls[me].pc == LoopHead(st.now, st.now + WAIT_TIMEOUT_MS, false)
      modifies this`st, this`trace, this`world, this`refusals
      ensures Valid() && old(trace) <= trace && me < |st.calls|
      ensures st.calls[me].pc == Done(outcome) && st.calls[me].hash == hash
      ensures outcome.Returned? || outcome.KeyReused? ==> SettledBy(st, hash, outcome)
      ensures outcome.OutcomeUnknown? ==> !Live(st.keys.result, st.now)
      ensures outcome.InProgress? ==> old(st).now + 15_000 <= st.now || !Live(st.keys.fence, st.now)
      ensures !outcome.HandlerFailed?
    {
      var deadline := st.now + WAIT_TIMEOUT_MS;
      var sawFenceWithoutResult := false;
      while st.now < deadline
        invariant Valid() && old(trace) <= trace && me < |st.calls| && st.calls[me].hash == hash
        invariant st.calls[me].pc == LoopHead(st.now, deadline, sawFenceWithoutResult)
        decreases deadline - st.now
      {
        Sleep(me);
        var round, sawFence := PollOnce(me, hash, deadline, sawFenceWithoutResult);
        sawFenceWithoutResult := sawFence;
        if round.Settled? {
          return round.outcome;
        }
        if round.Stop? {
          break;
        }
      }

      outcome := InProgress;
      if sawFenceWithoutResult {
        outcome := ReadOnceMore(me, hash);
      }
    }

    /** After the loop, if a fence without a result was seen. */
    method ReadOnceMore(me: nat, hash: Hash) returns (outcome: Outcome)
      requires Valid() && me < |st.calls| && st.calls[me].hash == hash && st.calls[me].pc.LastRead?
      modifies this`st, this`trace, this`world, this`refusals
      ensures Valid() && old(trace) <= trace && me < |st.calls|
      ensures st.calls[me].pc == Done(outcome) && st.calls[me].hash == hash
      ensures
        if Refuses(old(refusals)) then outcome == StoreFailed
        else if Live(st.keys.result, st.now) then SettledBy(st, hash, outcome)
        else outcome == OutcomeUnknown
    {
      var refused, seen := Ask(me);
      if refused {
        return StoreFailed;
      }
      var cached := Get(seen.keys.result, seen.now);
      return if cached.Some? then Parse(cached.value, hash) else OutcomeUnknown;
    }

    /** One round of the loop: result, then lock, then fence. */
    method PollOnce(me: nat, hash: Hash, deadline: nat, sawFenceBefore: bool) returns (round: Round, sawFence: bool)
      requires Valid() && me < |st.calls| && st.calls[me].hash == hash
      requires st.calls[me].pc.Poll? && st.calls[me].pc == Poll(st.calls[me].pc.wakeAt, deadline, sawFenceBefore)
      requires st.calls[me].pc.wakeAt <= st.now
      modifies this`st, this`trace, this`world, this`refusals
      ensures Valid() && old(trace) <= trace && me < |st.calls| && st.calls[me].hash == hash && old(st).now <= st.now
      ensures round.Settled? ==> st.calls[me].pc == Done(round.outcome)
      ensures round.Stop? ==> st.calls[me].pc == LeaveLoop(sawFence)
      ensures round.Again? ==> st.calls[me].pc == LoopHead(st.now, deadline, sawFence)
      ensures RoundSeen(st, hash, round, sawFenceBefore, sawFence)
    {
      sawFence := sawFenceBefore;
      var refused, seen := Ask(me);
      if refused {
        round := Settled(StoreFailed);
        return;
      }
      var cached := Get(seen.keys.result, seen.now);
      if cached.Some? {
        round := Settled(Parse(cached.value, hash));
        return;
      }
      round, sawFence := PollLock(me, hash, deadline, sawFence);
    }

    method PollLock(me: nat, hash: Hash, deadline: nat, sawFenceBefore: bool) returns (round: Round, sawFence: bool)
      requires Valid() && me < |st.calls| && st.calls[me].hash == hash
      requires st.calls[me].pc == SeeLock(deadline, sawFenceBefore)
      modifies this`st, this`trace, this`world, this`refusals
      ensures Valid() && old(trace) <= trace && me < |st.calls| && st.calls[me].hash == hash && old(st).now <= st.now
      ensures round.Settled? ==> st.calls[me].pc == Done(round.outcome)
      ensures round.Stop? ==> st.calls[me].pc == LeaveLoop(sawFence)
      ensures round.Again? ==> st.calls[me].pc == LoopHead(st.now, deadline, sawFence)
      ensures RoundSeen(st, hash, round, sawFenceBefore, sawFence)
    {
      sawFence := sawFenceBefore;
      var refused, seen := Ask(me);
      if refused {
        round := Settled(StoreFailed);
        return;
      }
      if Live(seen.keys.lock, seen.now) {
        round := Again;
        return;
      }
      round, sawFence := PollFence(me, hash, deadline, sawFence);
    }

    method PollFence(me: nat, hash: Hash, deadline: nat, sawFenceBefore: bool) returns (round: Round, sawFence: bool)
      requires Valid() && me < |st.calls| && st.calls[me].hash == hash
      requires st.calls[me].pc == SeeFence(deadline, sawFenceBefore)
      modifies this`st, this`trace, this`world, this`refusals
      ensures Valid() && old(trace) <= trace && me < |st.calls| && st.calls[me].hash == hash && old(st).now <= st.now
      ensures round.Settled? ==> st.calls[me].pc == Done(round.outcome)
      ensures round.Stop? ==> st.calls[me].pc == LeaveLoop(sawFence)
      ensures round.Again? ==> st.calls[me].pc == LoopHead(st.now, deadline, sawFence)
      ensures RoundSeen(st, hash, round, sawFenceBefore, sawFence)
    {
      sawFence := sawFenceBefore;
      var refused, seen := Ask(me);
      if refused {
        round := Settled(StoreFailed);
        return;
      }
      var fence := Get(seen.keys.fence, seen.now);
      if fence.None? {
        round := Stop;
        return;
      }
      sawFence := true;
      round := if fence.value != hash then Settled(KeyReused) else Again;
    }

    /** Sleeps until the call's wake-up time. */
    method Sleep(me: nat)
      requires Valid() && me < |st.calls| && st.calls[me].pc.Poll?
      modifies this`st, this`trace, this`world
      ensures Valid() && old(trace) <= trace && me < |st.calls|
      ensures Untouched(old(st).calls[me], st.calls[me]) && st.calls[me].pc.wakeAt <= st.now && old(st).now <= st.now
    {
      Await(me);
      if st.now < st.calls[me].pc.wakeAt {
        Step(Tick(st.calls[me].pc.wakeAt - st.now));
      }
    }
  }
}
