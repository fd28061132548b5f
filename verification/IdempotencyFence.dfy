/**
 What the fence adds to the lock. Once a call has taken lock and fence, the lock may vanish
 at any moment and commands may be rejected at will; whether another handler can still start
 depends only on which other calls were already past their own fence check.
 */
module IdempotencyFence {
  import opened Prelude
  import opened RedisKeys
  import opened Idempotency
  import opened IdempotencyProvenance

  /** Call `a` has given the key back without a product: its handler failed or never ran. */
  predicate Ended(c: Call) {
    c.produced.None? && !c.pc.DoubleCheck? && !c.pc.Handling?
  }

  /** When the TTL of what the call left in Redis runs out: its result, or else its fence. */
  function GuardedUntil(c: Call): nat {
    if c.storedAt.Some? then c.storedAt.value + c.ttl
    else if c.acquiredAt.Some? then c.acquiredAt.value + c.ttl
    else 0
  }

  predicate InForce(s: State, a: nat) {
    a < |s.calls| && !Ended(s.calls[a]) && s.now < GuardedUntil(s.calls[a])
  }

  /** A run during which the handler of `a` has not failed and its TTL has not run out. */
  predicate ProtectedRun(s: State, acts: seq<Action>, a: nat)
    decreases |acts|
  {
    InForce(s, a) && (acts == [] || (Enabled(s, acts[0]) && ProtectedRun(Apply(s, acts[0]), acts[1..], a)))
  }

  lemma {:induction false} ProtectedRunIsLegal(s: State, acts: seq<Action>, a: nat)
    requires ProtectedRun(s, acts, a)
    ensures Legal(s, acts)
    decreases |acts|
  {
    if acts == [] {
    } else {
      ProtectedRunIsLegal(Apply(s, acts[0]), acts[1..], a);
    }
  }

  /** Places past the fence check from which a call can start its handler or drop the fence. */
  predicate Dangerous(pc: Pc) {
    pc.Acquire? || pc.DoubleCheck? || pc.Handling? || pc.DropFence? || (pc.Release? && !pc.handlerSucceeded)
  }

  /** A call that cannot undo the protection of `a`: if it may still write a result, then for long enough. */
  predicate Harmless(b: Call, a: Call) {
    !Dangerous(b.pc) && (b.pc.Complete? || b.pc.Persist? ==> a.ttl <= b.ttl)
  }

  predicate OthersHarmless(s: State, a: nat) {
    a < |s.calls| && forall b | 0 <= b < |s.calls| && b != a :: Harmless(s.calls[b], s.calls[a])
  }

  /** No call but `a` has started a handler between two states. */
  predicate NoOtherStarted(s: State, s': State, a: nat) {
    |s.calls| <= |s'.calls| &&
    forall b | 0 <= b < |s'.calls| && b != a ::
      s'.calls[b].startedAt == if b < |s.calls| then s.calls[b].startedAt else None
  }

  /** Either the fence stands and nobody else is past it, or a result stands that outlives the guard. */
  ghost predicate Guarded(s: State, a: nat) {
    && a < |s.calls|
    && (forall b | 0 <= b < |s.calls| && b != a ::
          !s.calls[b].pc.Handling? && (s.calls[b].pc.Complete? || s.calls[b].pc.Persist? ==>
            s.calls[a].ttl <= s.calls[b].ttl))
    && s.calls[a].acquiredAt.Some? && !s.calls[a].pc.Acquire?
    && (|| (s.keys.fence.Held? && s.keys.fence.deadline == GuardedUntil(s.calls[a]) &&
            s.calls[a].storedAt.None? && OthersHarmless(s, a))
        || (s.keys.result.Held? && GuardedUntil(s.calls[a]) <= s.keys.result.deadline))
  }

  /** A call past its fence check got there through a dead fence; a handler starts only over a dead result. */
  lemma ContinueMoves(c: Call, i: nat, k: Keys, author: nat, now: nat)
    requires !c.pc.Handling?
    ensures var pc := Continue(c, i, k, author, now).pc;
      && (Continue(c, i, k, author, now).startedAt != c.startedAt || pc.Handling? ==>
        c.pc.DoubleCheck? && !Live(k.result, now))
      && (pc.Complete? || pc.Persist? ==> c.pc.Complete? || c.pc.Persist?)
      && (!Dangerous(c.pc) && Dangerous(pc) ==> c.pc.CheckFence? && !Live(k.fence, now))
      && (pc.Acquire? ==> c.pc.CheckFence?)
      && (!c.pc.Acquire? ==> Continue(c, i, k, author, now).acquiredAt == c.acquiredAt)
  {
  }

  lemma PerformFence(c: Call, i: nat, k: Keys, now: nat)
    ensures !c.pc.Acquire? && !c.pc.DropFence? && !Perform(c, i, k, now).wrote ==>
      Perform(c, i, k, now).keys.fence == k.fence
  {
  }

  lemma GuardedAnswer(s: State, i: nat, a: nat)
    requires Inv(s) && Guarded(s, a) && InForce(s, a) && Enabled(s, Command(i))
    requires InForce(Answer(s, i), a)
    ensures Guarded(Answer(s, i), a) && NoOtherStarted(s, Answer(s, i), a)
  {
    var c, s' := s.calls[i], Answer(s, i);
    ContinueExtends(c, i, s.keys, s.author, s.now);
    ContinueMoves(c, i, s.keys, s.author, s.now);
    PerformResult(c, i, s.keys, s.now);
    PerformFence(c, i, s.keys, s.now);
    assert CallConsistent(s.calls[a], s.now);
  }

  lemma GuardedRefuse(s: State, i: nat, applied: bool, a: nat)
    requires Inv(s) && Guarded(s, a) && InForce(s, a) && Enabled(s, Reject(i, applied))
    requires InForce(Refuse(s, i, applied), a)
    ensures Guarded(Refuse(s, i, applied), a) && NoOtherStarted(s, Refuse(s, i, applied), a)
  {
    var c, s' := s.calls[i], Refuse(s, i, applied);
    AbandonConsistent(c, i, s.keys, s.now, applied);
    PerformResult(c, i, s.keys, s.now);
    PerformFence(c, i, s.keys, s.now);
    assert CallConsistent(s.calls[a], s.now);
    if applied && Perform(c, i, s.keys, s.now).wrote {
      assert GuardedUntil(s'.calls[a]) <= s'.keys.result.deadline;
    }
  }

  lemma GuardedStep(s: State, act: Action, a: nat)
    requires Inv(s) && Guarded(s, a) && InForce(s, a) && Enabled(s, act) && InForce(Apply(s, act), a)
    ensures Guarded(Apply(s, act), a) && NoOtherStarted(s, Apply(s, act), a)
  {
    match act
    case Tick(_) =>
    case EvictLock =>
    case Arrive(_, _) =>
    case Command(i) => GuardedAnswer(s, i, a);
    case Reject(i, applied) => GuardedRefuse(s, i, applied, a);
    case Settle(i, r) => assert i == a;
    case Beat(i) =>
    case BeatReject(i, applied) =>
  }

  lemma {:induction false} GuardedRun(s: State, acts: seq<Action>, a: nat)
    requires Inv(s) && Guarded(s, a) && ProtectedRun(s, acts, a)
    ensures Legal(s, acts) && NoOtherStarted(s, Exec(s, acts), a)
    decreases |acts|
  {
    if acts == [] {
    } else {
      var s' := Apply(s, acts[0]);
      InvStep(s, acts[0]);
      GuardedStep(s, acts[0], a);
      GuardedRun(s', acts[1..], a);
    }
  }

  /** Call `a` is about to take a free lock, and with it the fence. */
  predicate AboutToAcquire(s: State, a: nat) {
    a < |s.calls| && s.calls[a].pc.Acquire? && !Live(s.keys.lock, s.now)
  }

  /** From the moment `a` has lock and fence, no other handler starts while the guard is in force. */
  ghost predicate FenceHolds(s: State, a: nat)
    requires AboutToAcquire(s, a)
  {
    forall acts: seq<Action> | ProtectedRun(Answer(s, a), acts, a) && Legal(Answer(s, a), acts) ::
      NoOtherStarted(Answer(s, a), Exec(Answer(s, a), acts), a)
  }

  /** The fence holds whenever no other call is past its own fence check with power to do harm. */
  lemma FenceProtects(before: seq<Action>, a: nat)
    requires Legal(INIT, before) && AboutToAcquire(Exec(INIT, before), a)
    requires OthersHarmless(Exec(INIT, before), a)
    ensures FenceHolds(Exec(INIT, before), a)
  {
    var s := Exec(INIT, before);
    InvRun(INIT, before);
    InvStep(s, Command(a));
    assert CallConsistent(s.calls[a], s.now);
    forall acts: seq<Action> | ProtectedRun(Answer(s, a), acts, a) && Legal(Answer(s, a), acts)
      ensures NoOtherStarted(Answer(s, a), Exec(Answer(s, a), acts), a)
    {
      GuardedRun(Answer(s, a), acts, a);
    }
  }

  // ---------------------------------------------------------------- and only then

  predicate Violates(t: State, acts: seq<Action>, a: nat) {
    ProtectedRun(t, acts, a) && Legal(t, acts) && !NoOtherStarted(t, Exec(t, acts), a)
  }

  /** A violation seen after one more step is a violation, if that step started nothing. */
  lemma Later(t: State, act: Action, rest: seq<Action>, a: nat)
    requires InForce(t, a) && Enabled(t, act) && Violates(Apply(t, act), rest, a)
    requires |t.calls| <= |Apply(t, act).calls|
    requires forall b | 0 <= b < |Apply(t, act).calls| ::
      Apply(t, act).calls[b].startedAt == if b < |t.calls| then t.calls[b].startedAt else None
    ensures Violates(t, [act] + rest, a)
  {
    var acts, t' := [act] + rest, Apply(t, act);
    assert acts[1..] == rest;
    CallsOnlyGrow(t', rest);
    assert Exec(t, acts) == Exec(t', rest);
  }

  lemma {:induction false} CallsOnlyGrow(s: State, acts: seq<Action>)
    requires Legal(s, acts)
    ensures |s.calls| <= |Exec(s, acts).calls|
    decreases |acts|
  {
    if acts == [] {
    } else {
      CallsOnlyGrow(Apply(s, acts[0]), acts[1..]);
    }
  }

  /** The last step of a violation: `b` finds no result and starts its handler. */
  lemma StartsNow(t: State, a: nat, b: nat)
    requires InForce(t, a) && b < |t.calls| && b != a && t.calls[b].pc.DoubleCheck? && t.calls[b].startedAt.None?
    requires !Live(t.keys.result, t.now)
    ensures Violates(t, [Command(b)], a)
  {
    var acts := [Command(b)];
    assert acts[1..] == [];
    assert Exec(t, acts) == Answer(t, b);
  }

  /** With the lock gone, a call that is past its fence check takes it and starts. */
  lemma AcquirerStarts(t: State, a: nat, b: nat)
    requires InForce(t, a) && b < |t.calls| && b != a && t.calls[b].pc.Acquire? && t.calls[b].startedAt.None?
    requires !Live(t.keys.result, t.now) && !Live(t.keys.lock, t.now)
    ensures Violates(t, [Command(b), Command(b)], a)
  {
    StartsNow(Answer(t, b), a, b);
    Later(t, Command(b), [Command(b)], a);
    assert [Command(b)] + [Command(b)] == [Command(b), Command(b)];
  }

  /** With lock and fence gone and no result, a newcomer walks through to its handler. */
  lemma NewcomerStarts(t: State, a: nat) returns (acts: seq<Action>)
    requires InForce(t, a) && !Live(t.keys.result, t.now) && !Live(t.keys.fence, t.now)
    ensures Violates(t, acts, a)
  {
    var t1 := Apply(t, EvictLock);
    var n, t2 := |t.calls|, Apply(t1, Arrive("h", 1));
    var t3 := Answer(t2, n);
    var t4 := Answer(t3, n);
    AcquirerStarts(t4, a, n);
    acts := [Command(n), Command(n)];
    Later(t3, Command(n), acts, a);
    acts := [Command(n)] + acts;
    Later(t2, Command(n), acts, a);
    acts := [Command(n)] + acts;
    Later(t1, Arrive("h", 1), acts, a);
    acts := [Arrive("h", 1)] + acts;
    Later(t, EvictLock, acts, a);
    acts := [EvictLock] + acts;
  }

  /** A call on its way to dropping the fence lets a newcomer in. */
  lemma DropperStarts(t: State, a: nat, b: nat) returns (acts: seq<Action>)
    requires InForce(t, a) && b < |t.calls| && b != a && !Live(t.keys.result, t.now)
    requires t.calls[b].pc.DropFence? || (t.calls[b].pc.Release? && !t.calls[b].pc.handlerSucceeded) ||
      t.calls[b].pc.Handling?
    ensures Violates(t, acts, a)
    decreases if t.calls[b].pc.Handling? then 2 else if t.calls[b].pc.Release? then 1 else 0
  {
    if t.calls[b].pc.DropFence? {
      acts := NewcomerStarts(Answer(t, b), a);
      Later(t, Command(b), acts, a);
      acts := [Command(b)] + acts;
    } else if t.calls[b].pc.Handling? {
      acts := DropperStarts(Finish(t, b, None), a, b);
      Later(t, Settle(b, None), acts, a);
      acts := [Settle(b, None)] + acts;
    } else {
      acts := DropperStarts(Answer(t, b), a, b);
      Later(t, Command(b), acts, a);
      acts := [Command(b)] + acts;
    }
  }

  /** A late writer whose result is short-lived removes the fence and leaves nothing in its place. */
  lemma WriterStarts(t: State, a: nat, b: nat) returns (acts: seq<Action>)
    requires InForce(t, a) && b < |t.calls| && b != a && t.calls[b].ttl < t.calls[a].ttl
    requires !Live(t.keys.result, t.now) && !Matches(t.keys.lock, t.now, b)
    requires t.calls[a].storedAt.None? && t.calls[a].acquiredAt == Some(t.now)
    requires t.calls[b].pc.Complete? || t.calls[b].pc.Persist?
    ensures Violates(t, acts, a)
    decreases if t.calls[b].pc.Complete? then 1 else 0
  {
    if t.calls[b].pc.Complete? {
      acts := WriterStarts(Answer(t, b), a, b);
    } else {
      var t1 := Answer(t, b);
      var t2 := Apply(t1, Tick(t.calls[b].ttl));
      acts := NewcomerStarts(t2, a);
      Later(t1, Tick(t.calls[b].ttl), acts, a);
      acts := [Tick(t.calls[b].ttl)] + acts;
    }
    Later(t, Command(b), acts, a);
    acts := [Command(b)] + acts;
  }

  lemma HarmfulStarts(t: State, a: nat, b: nat) returns (acts: seq<Action>)
    requires Inv(t) && InForce(t, a) && b < |t.calls| && b != a && !Harmless(t.calls[b], t.calls[a])
    requires !Live(t.keys.result, t.now) && !Matches(t.keys.lock, t.now, b)
    requires t.calls[a].storedAt.None? && t.calls[a].acquiredAt == Some(t.now)
    ensures Violates(t, acts, a)
  {
    assert CallConsistent(t.calls[b], t.now);
    if t.calls[b].pc.DoubleCheck? {
      StartsNow(t, a, b);
      acts := [Command(b)];
    } else if t.calls[b].pc.Acquire? {
      AcquirerStarts(Apply(t, EvictLock), a, b);
      acts := [Command(b), Command(b)];
      Later(t, EvictLock, acts, a);
      acts := [EvictLock] + acts;
    } else if t.calls[b].pc.Complete? || t.calls[b].pc.Persist? {
      acts := WriterStarts(t, a, b);
    } else {
      acts := DropperStarts(t, a, b);
    }
  }

  /**
   With no result in store, the condition is exact: the fence holds, for every run in which
   `a` has not failed and its TTL has not run out, if and only if every other call is harmless.
   */
  lemma FenceHoldsExactly(before: seq<Action>, a: nat)
    requires Legal(INIT, before) && AboutToAcquire(Exec(INIT, before), a)
    requires !Live(Exec(INIT, before).keys.result, Exec(INIT, before).now)
    ensures FenceHolds(Exec(INIT, before), a) <==> OthersHarmless(Exec(INIT, before), a)
  {
    var s := Exec(INIT, before);
    if OthersHarmless(s, a) {
      FenceProtects(before, a);
    } else {
      InvRun(INIT, before);
      InvStep(s, Command(a));
      assert CallConsistent(s.calls[a], s.now);
      var b :| 0 <= b < |s.calls| && b != a && !Harmless(s.calls[b], s.calls[a]);
      var acts := HarmfulStarts(Answer(s, a), a, b);
    }
  }
}
