/**
 When callers agree although the lock may vanish and commands may be rejected. From the
 moment a call takes lock and fence, and as long as its handler has not failed and its TTL has
 not run out, all calls that come to return give one answer exactly when no other call was past
 its own fence check with a result still to write or the power to let another handler start.
 */
module IdempotencyConsensus {
  import opened Idempotency
  import opened IdempotencyFence
  import opened IdempotencyProvenance
  import opened Prelude
  import opened RedisKeys

  /** A call that can neither write a result nor start a handler, nor drop the fence. */
  predicate Bystander(c: Call) {
    !Dangerous(c.pc) && !c.pc.Complete? && !c.pc.Persist?
  }

  predicate OthersStandBy(s: State, a: nat) {
    a < |s.calls| && forall b | 0 <= b < |s.calls| && b != a :: Bystander(s.calls[b])
  }

  /** Call `j` came to return between two states. */
  predicate Came(s: State, s': State, j: nat) {
    j < |s'.calls| && Returning(s'.calls[j]) && (j < |s.calls| ==> !Returning(s.calls[j]))
  }

  /** All calls that came to return give one answer, and it was for their request. */
  ghost predicate Agree(s: State, s': State) {
    forall i: nat, j: nat | Came(s, s', i) && Came(s, s', j) ::
      s'.calls[i].hash == s'.calls[j].hash && Verdict(s'.calls[i]) == Verdict(s'.calls[j])
  }

  /** From the moment `a` has lock and fence, returning calls agree while the guard is in force. */
  ghost predicate AgreementHolds(s: State, a: nat)
    requires AboutToAcquire(s, a)
  {
    forall acts: seq<Action> | ProtectedRun(Answer(s, a), acts, a) && Legal(Answer(s, a), acts) ::
      Agree(Answer(s, a), Exec(Answer(s, a), acts))
  }

  // ---------------------------------------------------------------- bystanders cannot break agreement

  /** Nobody but `a` has or will have a result to write: the fence keeps others out, or the result of `a` stands. */
  predicate Alone(s: State, a: nat) {
    && a < |s.calls| && s.calls[a].acquiredAt.Some? && !s.calls[a].pc.Acquire?
    && (forall b | 0 <= b < |s.calls| && b != a ::
          !s.calls[b].pc.Handling? && !s.calls[b].pc.Complete? && !s.calls[b].pc.Persist?)
    && (|| (s.keys.fence.Held? && s.keys.fence.deadline == GuardedUntil(s.calls[a]) &&
            s.calls[a].storedAt.None? && !Live(s.keys.result, s.now) && OthersStandBy(s, a))
        || (s.keys.result.Held? && s.author == a))
  }

  /** Who came to return has its answer from `a`. */
  ghost predicate Sourced(t: State, s: State, a: nat) {
    forall j: nat | Came(t, s, j) :: s.calls[j].source == a
  }

  lemma AloneAnswer(s: State, i: nat, a: nat)
    requires Inv(s) && Alone(s, a) && InForce(s, a) && Enabled(s, Command(i)) && InForce(Answer(s, i), a)
    ensures Alone(Answer(s, i), a)
  {
    var c := s.calls[i];
    assert CallConsistent(c, s.now) && CallConsistent(s.calls[a], s.now);
    ContinueExtends(c, i, s.keys, s.author, s.now);
    ContinueMoves(c, i, s.keys, s.author, s.now);
    PerformResult(c, i, s.keys, s.now);
    PerformFence(c, i, s.keys, s.now);
  }

  lemma AloneRefuse(s: State, i: nat, applied: bool, a: nat)
    requires Inv(s) && Alone(s, a) && InForce(s, a) && Enabled(s, Reject(i, applied))
    requires InForce(Refuse(s, i, applied), a)
    ensures Alone(Refuse(s, i, applied), a)
  {
    var c := s.calls[i];
    AbandonConsistent(c, i, s.keys, s.now, applied);
    PerformResult(c, i, s.keys, s.now);
    PerformFence(c, i, s.keys, s.now);
  }

  lemma AloneStep(s: State, act: Action, a: nat)
    requires Inv(s) && Alone(s, a) && InForce(s, a) && Enabled(s, act) && InForce(Apply(s, act), a)
    ensures Alone(Apply(s, act), a)
  {
    match act
    case Tick(_) =>
    case EvictLock =>
    case Arrive(_, _) =>
    case Command(i) => AloneAnswer(s, i, a);
    case Reject(i, applied) => AloneRefuse(s, i, applied, a);
    case Settle(i, r) => assert i == a;
    case Beat(i) =>
    case BeatReject(i, applied) =>
  }

  /** A call that returns after a step returned before it, or has just read or written what `a` stored. */
  lemma SourcedStep(t: State, s: State, act: Action, a: nat)
    requires Inv(s) && Alone(s, a) && InForce(s, a) && Sourced(t, s, a) && Enabled(s, act)
    ensures Sourced(t, Apply(s, act), a)
  {
    var s' := Apply(s, act);
    forall j: nat | Came(t, s', j)
      ensures s'.calls[j].source == a
    {
      if act.Command? && j == act.call {
        assert CallConsistent(s.calls[j], s.now);
        ContinueReturns(s.calls[j], j, s.keys, s.author, s.now);
        PerformResult(s.calls[j], j, s.keys, s.now);
        assert Returning(s.calls[j]) ==> Came(t, s, j);
      } else {
        StillReturning(s, act, j);
        assert Came(t, s, j);
      }
    }
  }

  lemma StillReturning(s: State, act: Action, j: nat)
    requires Enabled(s, act) && j < |Apply(s, act).calls| && Returning(Apply(s, act).calls[j])
    requires !(act.Command? && act.call == j)
    ensures j < |s.calls| && Returning(s.calls[j]) && Apply(s, act).calls[j].source == s.calls[j].source
  {
  }

  lemma {:induction false} AloneRun(t: State, s: State, acts: seq<Action>, a: nat)
    requires Inv(s) && Alone(s, a) && Sourced(t, s, a) && ProtectedRun(s, acts, a)
    ensures Legal(s, acts) && Inv(Exec(s, acts)) && Sourced(t, Exec(s, acts), a)
    decreases |acts|
  {
    if acts == [] {
    } else {
      InvStep(s, acts[0]);
      AloneStep(s, acts[0], a);
      SourcedStep(t, s, acts[0], a);
      AloneRun(t, Apply(s, acts[0]), acts[1..], a);
    }
  }

  /** Whoever comes to return returns the product of `a`, and asked for it. */
  lemma BystandersAgree(before: seq<Action>, a: nat)
    requires Legal(INIT, before) && AboutToAcquire(Exec(INIT, before), a)
    requires OthersStandBy(Exec(INIT, before), a)
    requires !Live(Exec(INIT, before).keys.result, Exec(INIT, before).now)
    ensures AgreementHolds(Exec(INIT, before), a)
  {
    var s := Exec(INIT, before);
    var t := Answer(s, a);
    InvRun(INIT, before);
    InvStep(s, Command(a));
    assert CallConsistent(s.calls[a], s.now);
    forall acts: seq<Action> | ProtectedRun(t, acts, a) && Legal(t, acts)
      ensures Agree(t, Exec(t, acts))
    {
      AloneRun(t, t, acts, a);
      OneSourceOneAnswer(t, Exec(t, acts), a);
    }
  }

  lemma OneSourceOneAnswer(t: State, s: State, a: nat)
    requires Inv(s) && Sourced(t, s, a)
    ensures Agree(t, s)
  {
    forall j: nat | Came(t, s, j)
      ensures Source(s.calls, a, s.calls[j].hash, Verdict(s.calls[j]).value.response, s.calls[j].readAt)
    {
    }
  }

  // ---------------------------------------------------------------- and nobody else

  predicate BeforeLock(pc: Pc) {
    pc.ReadResult? || pc.CheckFence? || pc.Acquire?
  }

  /** A call that has not taken the lock has not lost it. */
  predicate LocksIntact(s: State) {
    forall i | 0 <= i < |s.calls| && BeforeLock(s.calls[i].pc) :: s.calls[i].acquiredAt.None? && !s.calls[i].lockLost
  }

  lemma {:induction false} LocksIntactRun(s: State, acts: seq<Action>)
    requires LocksIntact(s) && Legal(s, acts)
    ensures LocksIntact(Exec(s, acts))
    decreases |acts|
  {
    if acts == [] {
    } else {
      LocksIntactStep(s, acts[0]);
      LocksIntactRun(Apply(s, acts[0]), acts[1..]);
    }
  }

  lemma LocksIntactStep(s: State, act: Action)
    requires LocksIntact(s) && Enabled(s, act)
    ensures LocksIntact(Apply(s, act))
  {
  }

  ghost predicate Disagrees(t: State, acts: seq<Action>, a: nat) {
    ProtectedRun(t, acts, a) && Legal(t, acts) && !Agree(t, Exec(t, acts))
  }

  /** A disagreement seen after one more step is one, if that step took back no answer. */
  lemma Earlier(t: State, act: Action, rest: seq<Action>, a: nat)
    requires InForce(t, a) && Enabled(t, act) && Disagrees(Apply(t, act), rest, a)
    requires |t.calls| <= |Apply(t, act).calls|
    requires forall j | 0 <= j < |t.calls| && Returning(t.calls[j]) :: Returning(Apply(t, act).calls[j])
    ensures Disagrees(t, [act] + rest, a)
  {
    var t' := Apply(t, act);
    assert ([act] + rest)[1..] == rest;
    var end := Exec(t', rest);
    var i: nat, j: nat :| Came(t', end, i) && Came(t', end, j) &&
      !(end.calls[i].hash == end.calls[j].hash && Verdict(end.calls[i]) == Verdict(end.calls[j]));
    assert Came(t, end, i) && Came(t, end, j);
  }

  /** `a` is one of two calls and will not be over before its answer. */
  predicate OneOf(t: State, x: nat, y: nat, a: nat) {
    x < |t.calls| && y < |t.calls| && x != y && (a == x || a == y) && InForce(t, a)
  }

  predicate Writing(c: Call) {
    (c.pc.Complete? || c.pc.Persist?) && c.produced.Some?
  }

  /** The last steps: one call stores its result without the lock, the other overwrites it with the lock. */
  lemma Overwrites(t: State, x: nat, y: nat, a: nat)
    requires OneOf(t, x, y, a) && Writing(t.calls[x]) && Writing(t.calls[y])
    requires t.calls[x].pc.Persist? && t.calls[y].pc.Complete? && t.calls[x].pc.result != t.calls[y].pc.result
    requires Matches(t.keys.lock, t.now, y) && !Live(t.keys.result, t.now)
    ensures Disagrees(t, [Command(x), Command(y)], a)
  {
    var t1 := Answer(t, x);
    var t2 := Answer(t1, y);
    var acts := [Command(x), Command(y)];
    assert acts[1..] == [Command(y)] && acts[1..][1..] == [];
    assert ProtectedRun(t2, [], a) && ProtectedRun(t1, acts[1..], a);
    assert Legal(t2, []) && Legal(t1, acts[1..]);
    assert Exec(t, acts) == Exec(t1, acts[1..]) == t2;
    assert Came(t, t2, x) && Came(t, t2, y);
  }

  /** One call still has to try the completion script, which finds the other's lock. */
  lemma WriterBreaks(t: State, x: nat, y: nat, a: nat) returns (acts: seq<Action>)
    requires OneOf(t, x, y, a) && Writing(t.calls[x]) && Writing(t.calls[y])
    requires t.calls[y].pc.Complete? && t.calls[x].pc.result != t.calls[y].pc.result
    requires Matches(t.keys.lock, t.now, y) && !Live(t.keys.result, t.now)
    ensures Disagrees(t, acts, a)
  {
    if t.calls[x].pc.Persist? {
      Overwrites(t, x, y, a);
      acts := [Command(x), Command(y)];
    } else {
      Overwrites(Answer(t, x), x, y, a);
      acts := [Command(x), Command(y)];
      Earlier(t, Command(x), acts, a);
      acts := [Command(x)] + acts;
    }
  }

  /** The call with the lock is still in its handler. */
  lemma HandlerBreaks(t: State, x: nat, y: nat, a: nat) returns (acts: seq<Action>)
    requires OneOf(t, x, y, a) && Writing(t.calls[x]) && t.calls[y].pc.Handling? && !t.calls[y].lockLost
    requires Matches(t.keys.lock, t.now, y) && !Live(t.keys.result, t.now)
    ensures Disagrees(t, acts, a)
  {
    var other := Some(t.calls[x].pc.result + "'");
    acts := WriterBreaks(Finish(t, y, other), x, y, a);
    Earlier(t, Settle(y, other), acts, a);
    acts := [Settle(y, other)] + acts;
  }

  /** Both calls are in their handlers. */
  lemma HandlersBreak(t: State, x: nat, y: nat, a: nat) returns (acts: seq<Action>)
    requires OneOf(t, x, y, a) && t.calls[x].pc.Handling? && t.calls[y].pc.Handling? && !t.calls[y].lockLost
    requires Matches(t.keys.lock, t.now, y) && !Live(t.keys.result, t.now)
    ensures Disagrees(t, acts, a)
  {
    acts := HandlerBreaks(Finish(t, x, Some("x")), x, y, a);
    Earlier(t, Settle(x, Some("x")), acts, a);
    acts := [Settle(x, Some("x"))] + acts;
  }

  /** `a` has just taken lock and fence and found no result. */
  predicate JustAcquired(t: State, a: nat) {
    && InForce(t, a) && t.calls[a].pc.DoubleCheck? && !t.calls[a].lockLost
    && t.calls[a].storedAt.None? && t.calls[a].acquiredAt == Some(t.now) && !Live(t.keys.result, t.now)
  }

  /** With the lock gone, a call past its fence check takes it; then both run. */
  lemma AcquirerBreaks(t: State, a: nat, b: nat) returns (acts: seq<Action>)
    requires JustAcquired(t, a) && b < |t.calls| && b != a && t.calls[b].pc.Acquire? && !t.calls[b].lockLost
    ensures Disagrees(t, acts, a)
  {
    var t1 := Answer(t, a);
    acts := RivalBreaks(Apply(t1, EvictLock), a, b);
    Earlier(t1, EvictLock, acts, a);
    acts := [EvictLock] + acts;
    Earlier(t, Command(a), acts, a);
    acts := [Command(a)] + acts;
  }

  lemma RivalBreaks(t: State, a: nat, b: nat) returns (acts: seq<Action>)
    requires InForce(t, a) && t.calls[a].pc.Handling? && !Live(t.keys.result, t.now) && !Live(t.keys.lock, t.now)
    requires b < |t.calls| && b != a && t.calls[b].pc.Acquire? && !t.calls[b].lockLost
    ensures Disagrees(t, acts, a)
  {
    var t1 := Answer(t, b);
    acts := HandlersBreak(Answer(t1, b), a, b, a);
    Earlier(t1, Command(b), acts, a);
    acts := [Command(b)] + acts;
    Earlier(t, Command(b), acts, a);
    acts := [Command(b)] + acts;
  }

  /** With the fence gone, a newcomer walks up to the lock. */
  lemma NewcomerBreaks(t: State, a: nat) returns (acts: seq<Action>)
    requires JustAcquired(t, a) && !Live(t.keys.fence, t.now)
    ensures Disagrees(t, acts, a)
  {
    var n, t1 := |t.calls|, Apply(t, Arrive("h", 1));
    var t2 := Answer(t1, n);
    acts := AcquirerBreaks(Answer(t2, n), a, n);
    Earlier(t2, Command(n), acts, a);
    acts := [Command(n)] + acts;
    Earlier(t1, Command(n), acts, a);
    acts := [Command(n)] + acts;
    Earlier(t, Arrive("h", 1), acts, a);
    acts := [Arrive("h", 1)] + acts;
  }

  /** A call on its way to dropping the fence lets a newcomer in. */
  lemma DropperBreaks(t: State, a: nat, b: nat) returns (acts: seq<Action>)
    requires JustAcquired(t, a) && b < |t.calls| && b != a
    requires t.calls[b].pc.DropFence? || (t.calls[b].pc.Release? && !t.calls[b].pc.handlerSucceeded)
    ensures Disagrees(t, acts, a)
    decreases if t.calls[b].pc.Release? then 1 else 0
  {
    if t.calls[b].pc.Release? {
      acts := DropperBreaks(Answer(t, b), a, b);
    } else {
      acts := NewcomerBreaks(Answer(t, b), a);
    }
    Earlier(t, Command(b), acts, a);
    acts := [Command(b)] + acts;
  }

  /** A call that has a result to write, or a handler to run, while `a` runs its own. */
  lemma RunnerBreaks(t: State, a: nat, b: nat) returns (acts: seq<Action>)
    requires OneOf(t, b, a, a) && t.calls[a].pc.Handling? && !t.calls[a].lockLost
    requires Matches(t.keys.lock, t.now, a) && !Live(t.keys.result, t.now)
    requires Writing(t.calls[b]) || t.calls[b].pc.Handling? || t.calls[b].pc.DoubleCheck?
    ensures Disagrees(t, acts, a)
  {
    if Writing(t.calls[b]) {
      acts := HandlerBreaks(t, b, a, a);
    } else if t.calls[b].pc.Handling? {
      acts := HandlersBreak(t, b, a, a);
    } else {
      acts := HandlersBreak(Answer(t, b), b, a, a);
      Earlier(t, Command(b), acts, a);
      acts := [Command(b)] + acts;
    }
  }

  /** Whatever else a call past its fence check is about, it can make callers disagree. */
  lemma OtherBreaks(t: State, a: nat, b: nat) returns (acts: seq<Action>)
    requires Inv(t) && LocksIntact(t) && JustAcquired(t, a) && Matches(t.keys.lock, t.now, a)
    requires b < |t.calls| && b != a && !Bystander(t.calls[b])
    ensures Disagrees(t, acts, a)
  {
    assert CallConsistent(t.calls[b], t.now);
    var pc := t.calls[b].pc;
    if pc.Acquire? {
      acts := AcquirerBreaks(t, a, b);
    } else if pc.DropFence? || pc.Release? {
      acts := DropperBreaks(t, a, b);
    } else {
      acts := RunnerBreaks(Answer(t, a), a, b);
      Earlier(t, Command(a), acts, a);
      acts := [Command(a)] + acts;
    }
  }

  /**
   The condition is exact: with no result in store when `a` takes lock and fence, all calls
   that come to return agree, under any lock loss and any rejections, for as long as `a` has
   not failed and its TTL has not run out, if and only if every other call stands by.
   */
  lemma AgreementHoldsExactly(before: seq<Action>, a: nat)
    requires Legal(INIT, before) && AboutToAcquire(Exec(INIT, before), a)
    requires !Live(Exec(INIT, before).keys.result, Exec(INIT, before).now)
    ensures AgreementHolds(Exec(INIT, before), a) <==> OthersStandBy(Exec(INIT, before), a)
  {
    var s := Exec(INIT, before);
    if OthersStandBy(s, a) {
      BystandersAgree(before, a);
    } else {
      InvRun(INIT, before);
      LocksIntactRun(INIT, before);
      InvStep(s, Command(a));
      LocksIntactStep(s, Command(a));
      assert CallConsistent(s.calls[a], s.now);
      var b :| 0 <= b < |s.calls| && b != a && !Bystander(s.calls[b]);
      var acts := OtherBreaks(Answer(s, a), a, b);
    }
  }
}
