/**
 `runWithLock` as it is written. Other calls, the heartbeat and the clock move at every await
 as the `world` field prescribes. Every such run is a run of the state machine.
 */
module DistributedLockService {
  import opened Prelude
  import opened RedisKeys
  import opened DistributedLock

  predicate Own(a: Action, me: nat) {
    match a
    case Answer(k) => k == me
    case Settle(k, _) => k == me
    case Release(k, _, _) => k == me
    case _ => false
  }

  predicate Untouched(c: Call, c': Call) {
    c' == c.(lockLost := c'.lockLost, nextTick := c'.nextTick, beat := c'.beat)
  }

  /** The lock was not free; the handler's value; or an error: the handler's, a lost lock, a rejected command. */
  datatype Outcome = NotAcquired | Returned | Threw

  class RedisDistributedLock {
    const ttl: Ttl
    var st: State
    var world: seq<seq<Action>>
    ghost var trace: seq<Action>

    constructor (ttl: Ttl, world: seq<seq<Action>>)
      ensures Valid() && st == INIT && trace == []
    {
      this.ttl, this.st, this.world, this.trace := ttl, INIT, world, [];
    }

    ghost predicate Valid()
      reads this
    {
      Legal(INIT, trace, ttl) && st == Exec(INIT, trace, ttl)
    }

    method Step(a: Action)
      requires Valid() && Enabled(st, a)
      modifies this`st, this`trace
      ensures Valid() && st == Apply(old(st), a, ttl) && trace == old(trace) + [a]
    {
      OneMore(INIT, trace, a, ttl);
      trace := trace + [a];
      st := Apply(st, a, ttl);
    }

    method Await(me: nat)
      requires Valid() && me < |st.calls|
      modifies this`st, this`trace, this`world
      ensures Valid() && old(trace) <= trace && me < |st.calls| && Untouched(old(st).calls[me], st.calls[me])
      ensures old(st).calls[me].lockLost ==> st.calls[me].lockLost
    {
      if world == [] {
        return;
      }
      var steps := world[0];
      world := world[1..];
      for n := 0 to |steps|
        invariant Valid() && old(trace) <= trace && me < |st.calls| && Untouched(old(st).calls[me], st.calls[me])
        invariant old(st).calls[me].lockLost ==> st.calls[me].lockLost
      {
        if Enabled(st, steps[n]) && !Own(steps[n], me) {
          Step(steps[n]);
        }
      }
    }

    /**
     `handlerOk` says how the handler fares; `refusal` and `rejection`, if the acquisition or the
     release is rejected, whether it took effect.
     */
    method RunWithLock(refusal: Option<bool>, handlerOk: bool, rejection: Option<bool>)
      returns (outcome: Outcome, ghost me: nat)
      requires Valid()
      modifies this`st, this`trace, this`world
      ensures Valid() && old(trace) <= trace && me == |old(st).calls| < |st.calls|
      ensures refusal.Some? ==> outcome.Threw? && st.calls[me].pc.Failed?
      ensures refusal.None? ==> (outcome.NotAcquired? <==> Live(old(st).slot, old(st).now))
      ensures refusal.None? && outcome.NotAcquired? ==> st.calls[me].pc.Refused?
      ensures refusal.None? && !outcome.NotAcquired? ==>
        && st.calls[me].pc.Done? && st.calls[me].pc.returned == outcome.Returned?
        && (outcome.Returned? <==> handlerOk && !st.calls[me].pc.lost && rejection.None?)
        && (st.calls[me].pc.lost <==> Missed(INIT, trace, me, ttl))
        && (rejection.None? || rejection.value ==> !Matches(st.slot, st.now, me))
    {
      var call := |st.calls|;
      me := call;
      if refusal.Some? {
        Step(EnterReject(refusal.value));
        return Threw, me;
      }
      Step(Enter);
      if st.calls[call].pc.Refused? {
        return NotAcquired, me;
      }
      Await(call);
      Step(Answer(call));
      Await(call);
      var lockLost := st.calls[call].lockLost;
      Step(Settle(call, handlerOk));
      Await(call);
      Step(Release(call, rejection.None? || rejection.value, rejection.None?));
      LossIsReported(trace, call, ttl);
      outcome := if handlerOk && !lockLost && rejection.None? then Returned else Threw;
    }
  }
}
