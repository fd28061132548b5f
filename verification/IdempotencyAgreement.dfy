/**
 While locks are renewed in time and only heartbeats may be rejected, the lock is a mutual
 exclusion: handler runs that succeed are a full result lifetime apart, and calls that read
 within one lifetime agree. Without that assumption they need not, as the last lemma shows.
 */
module IdempotencyAgreement {
  import opened Prelude
  import opened RedisKeys
  import opened Idempotency
  import opened IdempotencyProvenance

  /** Between taking the lock and giving it back. */
  predicate InRegion(pc: Pc) {
    pc.DoubleCheck? || pc.Handling? || pc.Complete? || pc.Persist? || pc.Release?
  }

  /** No lock expires under its holder: some heartbeat took effect within the lock TTL. */
  predicate Timely(s: State) {
    forall i | 0 <= i < |s.calls| && InRegion(s.calls[i].pc) :: s.now < s.calls[i].renewedAt + LOCK_TTL_MS
  }

  /** Only heartbeats may be rejected, and the lock key does not vanish. */
  predicate Calm(a: Action) {
    !a.EvictLock? && !a.Reject?
  }

  predicate CalmRun(s: State, acts: seq<Action>)
    decreases |acts|
  {
    Timely(s) && (acts == [] || (Calm(acts[0]) && Enabled(s, acts[0]) && CalmRun(Apply(s, acts[0]), acts[1..])))
  }

  /** A handler run that succeeded, or still may. */
  predicate Running(c: Call) {
    c.startedAt.Some? && (c.produced.Some? || c.pc.Handling?)
  }

  /** The result of `c` had been stored and had expired before the handler of `d` started. */
  predicate Precedes(c: Call, d: Call) {
    c.storedAt.Some? && d.startedAt.Some? && c.storedAt.value + c.ttl <= d.startedAt.value
  }

  ghost predicate Exclusive(s: State) {
    && (forall i | 0 <= i < |s.calls| && InRegion(s.calls[i].pc) ::
          s.keys.lock == Held(i, s.calls[i].renewedAt + LOCK_TTL_MS))
    && (forall i | 0 <= i < |s.calls| ::
          s.calls[i].pc.Handling? || s.calls[i].pc.Complete? || s.calls[i].pc.Persist? ==> !Live(s.keys.result, s.now))
    && (forall i | 0 <= i < |s.calls| && s.calls[i].produced.Some? ::
          s.calls[i].pc.Complete? || s.calls[i].pc.Persist? || s.calls[i].storedAt.Some?)
    && (forall i | 0 <= i < |s.calls| && s.calls[i].storedAt.Some? ::
          (s.keys.result.Held? && i == s.author) || s.calls[i].storedAt.value + s.calls[i].ttl <= s.now)
    && (forall i, j | 0 <= i < |s.calls| && 0 <= j < |s.calls| && i != j && s.calls[i].storedAt.Some? &&
      Running(s.calls[j]) ::
          Precedes(s.calls[i], s.calls[j]) || Precedes(s.calls[j], s.calls[i]))
  }

  lemma OneInRegion(s: State, i: nat, j: nat)
    requires Exclusive(s) && i < |s.calls| && j < |s.calls|
    ensures InRegion(s.calls[i].pc) && InRegion(s.calls[j].pc) ==> i == j
  {
  }

  /** Where a command can take a call, as far as exclusion cares. */
  lemma ContinueRegion(c: Call, i: nat, k: Keys, author: nat, now: nat)
    requires CallConsistent(c, now) && !c.pc.Handling? && !c.pc.Done?
    requires c.pc.Complete? || c.pc.Persist? ==> !Live(k.result, now)
    requires InRegion(c.pc) ==> Matches(k.lock, now, i)
    ensures var c', p := Continue(c, i, k, author, now), Perform(c, i, k, now);
      && (c.pc.Complete? || c.pc.Persist? ==> p.wrote && !InRegion(c'.pc))
      && (c'.pc.Handling? ==> c.pc.DoubleCheck? && !Live(k.result, now) && c'.startedAt == Some(now))
      && !c'.pc.Complete? && !c'.pc.Persist?
      && (!c.pc.DoubleCheck? ==> c'.startedAt == c.startedAt)
      && (InRegion(c'.pc) && !c.pc.Acquire? ==> InRegion(c.pc) && c'.renewedAt == c.renewedAt && p.keys.lock == k.lock)
      && (InRegion(c'.pc) && c.pc.Acquire? ==>
            !Live(k.lock, now) && c'.renewedAt == now && p.keys.lock == Held(i, now + LOCK_TTL_MS))
      && (!InRegion(c.pc) && !InRegion(c'.pc) ==> p.keys.lock == k.lock)
      && (c.pc.DropFence? || c.pc.Acquire? ==> !p.wrote)
  {
  }

  lemma ExclusiveAnswer(s: State, i: nat)
    requires Inv(s) && Exclusive(s) && Timely(s) && Enabled(s, Command(i))
    ensures Exclusive(Answer(s, i))
  {
    var c, s' := s.calls[i], Answer(s, i);
    assert CallConsistent(c, s.now);
    ContinueExtends(c, i, s.keys, s.author, s.now);
    ContinueRegion(c, i, s.keys, s.author, s.now);
    PerformResult(c, i, s.keys, s.now);
    ExclusiveAnswerLock(s, i);
    ExclusiveAnswerRuns(s, i);
  }

  /** The lock part of the invariant. */
  lemma ExclusiveAnswerLock(s: State, i: nat)
    requires Inv(s) && Exclusive(s) && Timely(s) && Enabled(s, Command(i))
    ensures var s' := Answer(s, i);
      forall j | 0 <= j < |s'.calls| && InRegion(s'.calls[j].pc) ::
        s'.keys.lock == Held(j, s'.calls[j].renewedAt + LOCK_TTL_MS)
  {
    var c, s' := s.calls[i], Answer(s, i);
    assert CallConsistent(c, s.now);
    ContinueRegion(c, i, s.keys, s.author, s.now);
    forall j | 0 <= j < |s'.calls| && InRegion(s'.calls[j].pc)
      ensures s'.keys.lock == Held(j, s'.calls[j].renewedAt + LOCK_TTL_MS)
    {
      OneInRegion(s, i, j);
    }
  }

  /** The part about runs and their results. */
  lemma ExclusiveAnswerRuns(s: State, i: nat)
    requires Inv(s) && Exclusive(s) && Timely(s) && Enabled(s, Command(i))
    ensures var s' := Answer(s, i);
      forall j, k | 0 <= j < |s'.calls| && 0 <= k < |s'.calls| && j != k && s'.calls[j].storedAt.Some? &&
        Running(s'.calls[k]) ::
        Precedes(s'.calls[j], s'.calls[k]) || Precedes(s'.calls[k], s'.calls[j])
  {
    var c, s' := s.calls[i], Answer(s, i);
    assert CallConsistent(c, s.now);
    ContinueExtends(c, i, s.keys, s.author, s.now);
    ContinueRegion(c, i, s.keys, s.author, s.now);
    forall j, k | 0 <= j < |s'.calls| && 0 <= k < |s'.calls| && j != k && s'.calls[j].storedAt.Some? &&
      Running(s'.calls[k])
      ensures Precedes(s'.calls[j], s'.calls[k]) || Precedes(s'.calls[k], s'.calls[j])
    {
      OneInRegion(s, i, k);
      assert CallConsistent(s.calls[k], s.now);
      if j == i && s.calls[j].storedAt.None? {
      } else if k == i && !Running(c) {
        assert Precedes(s'.calls[j], s'.calls[k]);
      } else {
        assert Precedes(s.calls[j], s.calls[k]) || Precedes(s.calls[k], s.calls[j]);
      }
    }
  }

  lemma ExclusiveTick(s: State, dt: nat)
    requires Exclusive(s)
    ensures Exclusive(s.(now := s.now + dt))
  {
  }

  lemma ExclusiveArrive(s: State, hash: Hash, ttl: Ttl)
    requires Exclusive(s)
    ensures Exclusive(Apply(s, Arrive(hash, ttl)))
  {
    var s' := Apply(s, Arrive(hash, ttl));
    forall j, k | 0 <= j < |s'.calls| && 0 <= k < |s'.calls| && j != k && s'.calls[j].storedAt.Some? &&
      Running(s'.calls[k])
      ensures Precedes(s'.calls[j], s'.calls[k]) || Precedes(s'.calls[k], s'.calls[j])
    {
      assert j < |s.calls| && k < |s.calls|;
    }
  }

  lemma ExclusiveStep(s: State, a: Action)
    requires Inv(s) && Exclusive(s) && Timely(s) && Calm(a) && Enabled(s, a)
    ensures Exclusive(Apply(s, a))
  {
    match a
    case Tick(dt) => ExclusiveTick(s, dt);
    case Arrive(hash, ttl) => ExclusiveArrive(s, hash, ttl);
    case Command(i) => ExclusiveAnswer(s, i);
    case Settle(i, r) => ExclusiveSettle(s, i, r);
    case Beat(i) => ExclusiveRenew(s, i, true, true);
    case BeatReject(i, applied) => ExclusiveRenew(s, i, applied, false);
  }

  lemma ExclusiveSettle(s: State, i: nat, r: Option<Response>)
    requires Inv(s) && Exclusive(s) && Timely(s) && Enabled(s, Settle(i, r))
    ensures Exclusive(Finish(s, i, r))
  {
    var s' := Finish(s, i, r);
    forall j, k | 0 <= j < |s'.calls| && 0 <= k < |s'.calls| && j != k && s'.calls[j].storedAt.Some? &&
      Running(s'.calls[k])
      ensures Precedes(s'.calls[j], s'.calls[k]) || Precedes(s'.calls[k], s'.calls[j])
    {
      assert Precedes(s.calls[j], s.calls[k]) || Precedes(s.calls[k], s.calls[j]);
    }
  }

  lemma RenewKeepsLock(s: State, i: nat, applied: bool, answered: bool)
    requires Exclusive(s) && Timely(s) && i < |s.calls|
    ensures var s' := Renew(s, i, applied, answered);
      forall j | 0 <= j < |s'.calls| && InRegion(s'.calls[j].pc) ::
        s'.keys.lock == Held(j, s'.calls[j].renewedAt + LOCK_TTL_MS)
  {
  }

  lemma ExclusiveRenew(s: State, i: nat, applied: bool, answered: bool)
    requires Inv(s) && Exclusive(s) && Timely(s) && i < |s.calls|
    ensures Exclusive(Renew(s, i, applied, answered))
  {
    var s' := Renew(s, i, applied, answered);
    RenewKeepsLock(s, i, applied, answered);
    forall j, k | 0 <= j < |s'.calls| && 0 <= k < |s'.calls| && j != k && s'.calls[j].storedAt.Some? &&
      Running(s'.calls[k])
      ensures Precedes(s'.calls[j], s'.calls[k]) || Precedes(s'.calls[k], s'.calls[j])
    {
      assert Precedes(s.calls[j], s.calls[k]) || Precedes(s.calls[k], s.calls[j]);
    }
  }

  lemma {:induction false} ExclusiveRun(s: State, acts: seq<Action>)
    requires Inv(s) && Exclusive(s) && CalmRun(s, acts)
    ensures Legal(s, acts) && Inv(Exec(s, acts)) && Exclusive(Exec(s, acts)) && Timely(Exec(s, acts))
    decreases |acts|
  {
    if acts == [] {
    } else {
      InvStep(s, acts[0]);
      ExclusiveStep(s, acts[0]);
      ExclusiveRun(Apply(s, acts[0]), acts[1..]);
    }
  }

  /** The lock token of a call in its critical region is the one in Redis, and the only one. */
  lemma LockIsHeld(acts: seq<Action>, i: nat)
    requires CalmRun(INIT, acts)
    ensures Legal(INIT, acts)
    ensures i < |Exec(INIT, acts).calls| && InRegion(Exec(INIT, acts).calls[i].pc) ==>
      Matches(Exec(INIT, acts).keys.lock, Exec(INIT, acts).now, i)
  {
    ExclusiveRun(INIT, acts);
  }

  /**
   At most one handler run succeeds per lifetime of a result: of two runs that produced a
   response, one started only after the stored result of the other had expired.
   */
  lemma SuccessesAreALifetimeApart(acts: seq<Action>, i: nat, j: nat)
    requires CalmRun(INIT, acts)
    ensures Legal(INIT, acts)
    ensures var calls := Exec(INIT, acts).calls;
      i < |calls| && j < |calls| && i != j && calls[i].produced.Some? && calls[j].produced.Some? ==>
        Precedes(calls[i], calls[j]) || Precedes(calls[j], calls[i])
  {
    ExclusiveRun(INIT, acts);
    var s := Exec(INIT, acts);
    if i < |s.calls| && j < |s.calls| && i != j && s.calls[i].produced.Some? && s.calls[j].produced.Some? {
      assert CallConsistent(s.calls[i], s.now) && CallConsistent(s.calls[j], s.now);
      OneInRegion(s, i, j);
    }
  }

  /**
   Agreement: two calls that return normally, the second having read within the lifetime of
   the result the first one returned, return the same response of the same run, and carried
   that run's request hash.
   */
  lemma ReadersAgree(acts: seq<Action>, c: nat, d: nat)
    requires CalmRun(INIT, acts) && Legal(INIT, acts)
    requires c < |Exec(INIT, acts).calls| && d < |Exec(INIT, acts).calls|
    requires Returning(Exec(INIT, acts).calls[c]) && Returning(Exec(INIT, acts).calls[d])
    requires var calls := Exec(INIT, acts).calls;
      Source(calls, calls[c].source, calls[c].hash, Verdict(calls[c]).value.response, calls[d].readAt)
    ensures var calls := Exec(INIT, acts).calls;
      calls[c].source == calls[d].source && calls[c].hash == calls[d].hash && Verdict(calls[c]) == Verdict(calls[d])
  {
    var s := Exec(INIT, acts);
    var i, j := s.calls[c].source, s.calls[d].source;
    ReturnsAreProducts(acts, c);
    ReturnsAreProducts(acts, d);
    InvRun(INIT, acts);
    assert CallConsistent(s.calls[i], s.now) && CallConsistent(s.calls[j], s.now);
    if i != j {
      SuccessesAreALifetimeApart(acts, i, j);
    }
  }

  // ---------------------------------------------------------------- the assumption is needed

  /** A call of the run below: fingerprint "h", a minute of TTL. */
  function Pat(pc: Pc): Call {
    NewCall("h", 60).(pc := pc)
  }

  function Pal(pc: Pc, lockLost: bool): Call {
    Pat(pc).(lockLost := lockLost, acquiredAt := Some(0), startedAt := Some(0))
  }

  /** Two calls arrive and pass the fence check. */
  lemma BothPassFence() returns (acts: seq<Action>)
    ensures Legal(INIT, acts)
    ensures Exec(INIT, acts) == State(0, Keys(Absent, Absent, Absent), 0, [Pat(Acquire), Pat(Acquire)])
  {
    acts := Drive([], [Arrive("h", 60), Arrive("h", 60), Command(0)]);
    acts := Drive(acts, [Command(0), Command(1), Command(1)]);
  }

  /** The first takes the key and starts its handler. */
  lemma BothPass() returns (acts: seq<Action>)
    ensures Legal(INIT, acts)
    ensures Exec(INIT, acts) ==
      State(0, Keys(Held(0, 30_000), Held("h", 60_000), Absent), 0, [Pal(Handling, false), Pat(Acquire)])
  {
    acts := BothPassFence();
    acts := Drive(acts, [Command(0), Command(0)]);
  }

  /** The lock vanishes and the second call takes the key and starts too. */
  lemma BothHandle() returns (acts: seq<Action>)
    ensures Legal(INIT, acts)
    ensures Exec(INIT, acts) ==
      State(0, Keys(Held(1, 30_000), Held("h", 60_000), Absent), 0, [Pal(Handling, false), Pal(Handling, false)])
  {
    acts := BothPass();
    acts := Drive(acts, [EvictLock, Command(1), Command(1)]);
  }

  /** The first finishes without the lock. */
  lemma FirstFinishes() returns (acts: seq<Action>)
    ensures Legal(INIT, acts)
    ensures Exec(INIT, acts) ==
      State(0, Keys(Held(1, 30_000), Absent, Held(Stored("h", "first"), 60_000)), 0,
            [Pal(Done(Returned("first")), true).(produced := Some("first"), storedAt := Some(0)), Pal(Handling, false)])
  {
    acts := BothHandle();
    acts := Drive(acts, [Settle(0, Some("first")), Command(0), Command(0)]);
  }

  /** Up to three more steps of a run from the start. */
  lemma Drive(acts: seq<Action>, more: seq<Action>) returns (all: seq<Action>)
    requires Legal(INIT, acts) && |more| <= 3
    requires |more| > 0 ==> Enabled(Exec(INIT, acts), more[0])
    requires |more| > 1 ==> Enabled(Apply(Exec(INIT, acts), more[0]), more[1])
    requires |more| > 2 ==> Enabled(Apply(Apply(Exec(INIT, acts), more[0]), more[1]), more[2])
    ensures Legal(INIT, all)
    ensures |more| == 2 ==> Exec(INIT, all) == Apply(Apply(Exec(INIT, acts), more[0]), more[1])
    ensures |more| == 3 ==> Exec(INIT, all) == Apply(Apply(Apply(Exec(INIT, acts), more[0]), more[1]), more[2])
  {
    all := acts;
    if |more| > 0 {
      OneMore(INIT, all, more[0]);
      all := all + [more[0]];
    }
    if |more| > 1 {
      OneMore(INIT, all, more[1]);
      all := all + [more[1]];
    }
    if |more| > 2 {
      OneMore(INIT, all, more[2]);
      all := all + [more[2]];
    }
  }

  /**
   Losing the lock under its holder can break agreement, because the completion script
   overwrites a result without looking at it: here two calls with one hash return two
   different responses, each read from a live result at the same instant.
   */
  lemma LockLossCanBreakAgreement() returns (acts: seq<Action>)
    ensures Legal(INIT, acts)
    ensures var s := Exec(INIT, acts);
      && s.now == 0 && |s.calls| == 2 && s.calls[0].hash == s.calls[1].hash
      && s.calls[0].pc == Done(Returned("first")) && s.calls[1].pc == Done(Returned("second"))
  {
    acts := FirstFinishes();
    acts := Drive(acts, [Settle(1, Some("second")), Command(1)]);
  }
}
