/**
 `process` as it is written, with its `try`/`catch` and flags. Other deliveries, heartbeats
 and the clock move at every await as the `world` field prescribes; `renderings`, `sends` and
 `rejections` say how its own calls fare. Every such run is a run of the state machine.
 */
module EmailProcessing {
  import opened Prelude
  import opened RedisKeys
  import opened EmailOutcomes
  import opened EmailWorker

  predicate Own(a: Action, me: nat) {
    match a
    case Command(i) => i == me
    case Reject(i, _) => i == me
    case Rendered(i, _) => i == me
    case Sent(i, _) => i == me
    case _ => false
  }

  predicate Untouched(c: Call, c': Call) {
    c' == c.(ownershipLost := c'.ownershipLost, renewedAt := c'.renewedAt) && (c.ownershipLost ==> c'.ownershipLost)
  }

  /** The next store command is rejected; the next rendering or send resolves. */
  predicate Rejects(rejections: seq<Option<bool>>) {
    rejections != [] && rejections[0].Some?
  }

  predicate NextOk(results: seq<bool>) {
    results == [] || results[0]
  }

  class EmailProcessor {
    const o: Options
    var st: State
    var world: seq<seq<Action>>
    var renderings: seq<bool>
    var sends: seq<bool>
    var rejections: seq<Option<bool>>
    ghost var trace: seq<Action>

    constructor (o: Options, world: seq<seq<Action>>, renderings: seq<bool>, sends: seq<bool>,
        rejections: seq<Option<bool>>)
      ensures Valid() && st == INIT && trace == []
    {
      this.o, this.st, this.trace := o, INIT, [];
      this.world, this.renderings, this.sends, this.rejections := world, renderings, sends, rejections;
    }

    ghost predicate Valid()
      reads this
    {
      Legal(INIT, trace, o) && st == Exec(INIT, trace, o)
    }

    method Step(a: Action)
      requires Valid() && Enabled(st, a)
      modifies this`st, this`trace
      ensures Valid() && st == Apply(old(st), a, o) && trace == old(trace) + [a]
    {
      OneMore(INIT, trace, a, o);
      trace := trace + [a];
      st := Apply(st, a, o);
    }

    method Await(me: nat)
      requires Valid() && me < |st.calls|
      modifies this`st, this`trace, this`world
      ensures Valid() && old(trace) <= trace && me < |st.calls| && Untouched(old(st).calls[me], st.calls[me])
    {
      if world == [] {
        return;
      }
      var steps := world[0];
      world := world[1..];
      for n := 0 to |steps|
        invariant Valid() && old(trace) <= trace && me < |st.calls| && Untouched(old(st).calls[me], st.calls[me])
      {
        if Enabled(st, steps[n]) && !Own(steps[n], me) {
          Step(steps[n]);
        }
      }
    }

    /** Awaits the pending store command; `seen` is what its key held when it ran. */
    method Ask(me: nat) returns (refused: bool, seen: Slot<JobValue>, at: nat, ghost c: Call)
      requires Valid() && me < |st.calls| && AwaitsStore(st.calls[me])
      modifies this`st, this`trace, this`world, this`rejections
      ensures Valid() && old(trace) <= trace && me < |st.calls|
      ensures Untouched(old(st).calls[me], c)
      ensures refused ==> st.calls[me] == Abandon(c, false, at) || st.calls[me] == Abandon(c, true, at)
      ensures !refused ==> st.calls[me] == Continue(c, me, seen, at)
      ensures refused == Rejects(old(rejections))
      ensures rejections == if old(rejections) == [] then [] else old(rejections)[1..]
      ensures st.now == at && (!refused ==> At(st, c.key.value) == Perform(c, me, seen, at, o))
    {
      Await(me);
      seen, at := At(st, st.calls[me].key.value), st.now;
      c := st.calls[me];
      var rejection := None;
      if rejections != [] {
        rejection, rejections := rejections[0], rejections[1..];
      }
      refused := rejection.Some?;
      if refused {
        Step(Reject(me, rejection.value));
      } else {
        Step(Command(me));
      }
    }

    /**
     `process`: the run it makes ends with this call done, with the result given here, and the
     result is explained by what the call met. A skipped call never had the key.
     */
    method Process(jobKey: Option<string>, templated: bool) returns (result: Result, ghost me: nat)
      requires Valid()
      modifies this`st, this`trace, this`world, this`renderings, this`sends, this`rejections
      ensures Valid() && old(trace) <= trace
      ensures me == |old(st).calls| < |st.calls| && st.calls[me].pc == Done(result) && st.calls[me].key == jobKey
      ensures result.Succeeded? ==> st.calls[me].sentAt.Some?
      ensures result.Unrecoverable? ==> st.calls[me].sentAt.Some? && jobKey.Some?
      ensures result.Skipped? ==> st.calls[me].sentAt.None? && st.calls[me].acquiredAt.None? && jobKey.Some?
      ensures Explains(result, jobKey, History(INIT, trace, me, o))
    {
      var call := |st.calls|;
      me := call;
      Step(Deliver(jobKey, templated));
      var acquired := true;
      if jobKey.Some? {
        acquired, result := Acquire(call);
      }
      if acquired {
        result := SendOnce(call);
      }
      ResultsAreExplained(trace, me, o);
    }

    /** A keyed call that does not get its key is over: skipped if somebody holds it, and not if the store failed. */
    method Acquire(me: nat) returns (acquired: bool, result: Result)
      requires Valid() && me < |st.calls| && st.calls[me].pc.Acquiring? && st.calls[me].key.Some?
      requires st.calls[me].sentAt.None? && st.calls[me].acquiredAt.None?
      modifies this`st, this`trace, this`world, this`rejections
      ensures Valid() && old(trace) <= trace && me < |st.calls|
      ensures st.calls[me].key == old(st).calls[me].key && st.calls[me].sentAt.None?
      ensures st.calls[me].pc == if acquired then Rendering else Done(result)
      ensures acquired ==> At(st, st.calls[me].key.value) == Held(Owner(me), st.now + o.leaseTtl)
      ensures acquired ==> st.calls[me].acquiredAt == Some(st.now)
      ensures !acquired ==> st.calls[me].acquiredAt.None?
      ensures !acquired ==> result == if Rejects(old(rejections)) then Threw else Skipped
    {
      var refused, seen, at, c := Ask(me);
      if refused {
        return false, Threw;
      }
      return !Live(seen, at), Skipped;
    }

    /** The `try` block and its `catch`. */
    method SendOnce(me: nat) returns (result: Result)
      requires Valid() && me < |st.calls| && st.calls[me].pc.Rendering? && st.calls[me].sentAt.None?
      modifies this`st, this`trace, this`world, this`renderings, this`sends, this`rejections
      ensures Valid() && old(trace) <= trace && me < |st.calls|
      ensures st.calls[me].key == old(st).calls[me].key && st.calls[me].pc == Done(result) && !result.Skipped?
      ensures result.Succeeded? || result.Unrecoverable? ==> st.calls[me].sentAt.Some?
      ensures result.Unrecoverable? ==> st.calls[me].key.Some?
    {
      var sideEffectCommitted := SendMail(me);
      if !sideEffectCommitted {
        if st.calls[me].key.Some? {
          GiveUp(me);
        }
        return Threw;
      }
      if st.calls[me].key.None? {
        return Succeeded;
      }
      result := AfterSending(me);
    }

    /** Nothing was sent: the lease is given back, unless the store fails, so that a retry can take it. */
    method GiveUp(me: nat)
      requires Valid() && me < |st.calls| && st.calls[me].pc.Releasing? && st.calls[me].key.Some?
      modifies this`st, this`trace, this`world, this`rejections
      ensures Valid() && old(trace) <= trace && me < |st.calls|
      ensures st.calls[me].key == old(st).calls[me].key && st.calls[me].pc == Done(Threw)
      ensures !Rejects(old(rejections)) ==> !Matches(At(st, st.calls[me].key.value), st.now, Owner(me))
    {
      var refused, seen, at, c := Ask(me);
    }

    /**
     Rendering and sending; false stands for whatever error ended them. The mail goes out only if
     both resolve, and it stays in only if one does not or the lease is known to be lost.
     */
    method SendMail(me: nat) returns (sent: bool)
      requires Valid() && me < |st.calls| && st.calls[me].pc.Rendering? && st.calls[me].sentAt.None?
      modifies this`st, this`trace, this`world, this`renderings, this`sends
      ensures Valid() && old(trace) <= trace && me < |st.calls| && st.calls[me].key == old(st).calls[me].key
      ensures sent <==> st.calls[me].sentAt.Some?
      ensures var resolve := (old(st).calls[me].templated ==> NextOk(old(renderings))) && NextOk(old(sends));
        (sent ==> resolve) && (resolve && !sent ==> st.calls[me].ownershipLost)
      ensures old(st).calls[me].ownershipLost ==> !sent
      ensures st.calls[me].pc ==
              if !sent then (if st.calls[me].key.Some? then Releasing else Done(Threw))
              else if st.calls[me].key.None? then Done(Succeeded)
              else if st.calls[me].ownershipLost then MarkingAmbiguous else Completing
    {
      var rendered := true;
      if st.calls[me].templated {
        Await(me);
        if renderings != [] {
          rendered, renderings := renderings[0], renderings[1..];
        }
      }
      var ownershipLost := st.calls[me].ownershipLost;
      Step(Rendered(me, rendered));
      if !rendered || ownershipLost {
        return false;
      }
      Await(me);
      sent := true;
      if sends != [] {
        sent, sends := sends[0], sends[1..];
      }
      Step(Sent(me, sent));
    }

    /**
     The send is out: a success leaves the key completed, an unrecoverable error leaves it
     sent-ambiguous unless the store fails, and anything else is a rejected completion.
     */
    method AfterSending(me: nat) returns (result: Result)
      requires Valid() && me < |st.calls| && st.calls[me].key.Some? && st.calls[me].sentAt.Some?
      requires st.calls[me].pc == if st.calls[me].ownershipLost then MarkingAmbiguous else Completing
      modifies this`st, this`trace, this`world, this`rejections
      ensures Valid() && old(trace) <= trace && me < |st.calls|
      ensures st.calls[me].key == old(st).calls[me].key && st.calls[me].sentAt == old(st).calls[me].sentAt
      ensures st.calls[me].pc == Done(result) && !result.Skipped?
      ensures result.Succeeded? ==> At(st, st.calls[me].key.value) == Held(Completed, st.now + o.retentionTtl)
      ensures result.Unrecoverable? && (forall i | 0 <= i < |old(rejections)| :: old(rejections)[i].None?) ==>
        At(st, st.calls[me].key.value) == Held(SentAmbiguous, st.now + o.retentionTtl)
      ensures result.Threw? ==> Rejects(old(rejections))
      ensures old(st).calls[me].ownershipLost ==> result.Unrecoverable?
    {
      if !st.calls[me].ownershipLost {
        var refused, seen, at, c := Ask(me);
        if refused {
          return Threw;
        }
        var completed := Matches(seen, at, Owner(me));
        if completed {
          return Succeeded;
        }
      }
      var refused, seen, at, c := Ask(me);
      return Unrecoverable;
    }
  }
}
