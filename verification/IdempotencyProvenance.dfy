/**
 What holds of every run, with any lock loss, any rejected command and any interleaving:
 a call that returns a response returns the product of a handler run that had the same
 request hash and whose stored result was still alive when it was read.
 */
module IdempotencyProvenance {
  import opened Prelude
  import opened RedisKeys
  import opened Idempotency

  /** The outcome a call has settled on, even if its `finally` block is still running. */
  function Verdict(c: Call): Option<Outcome> {
    match c.pc
    case Done(o) => Some(o)
    case Release(o, _) => Some(o)
    case DropFence(o) => Some(o)
    case _ => None
  }

  predicate Returning(c: Call) {
    Verdict(c).Some? && Verdict(c).value.Returned?
  }

  /** Call `i` produced `response` for `hash`, and what it stored was alive at `time`. */
  predicate Source(calls: seq<Call>, i: nat, hash: Hash, response: Response, time: nat) {
    i < |calls| && calls[i].hash == hash && calls[i].produced == Some(response) &&
    calls[i].storedAt.Some? && calls[i].storedAt.value <= time < calls[i].storedAt.value + calls[i].ttl
  }

  /** The local history of a call agrees with where it is. */
  predicate CallConsistent(c: Call, now: nat) {
    && (c.startedAt.Some? ==> c.startedAt.value <= now)
    && (c.storedAt.Some? ==> c.produced.Some? && c.startedAt.Some?)
    && (c.storedAt.Some? ==> c.startedAt.value <= c.storedAt.value <= now)
    && c.renewedAt <= now && c.readAt <= now && (c.acquiredAt.Some? ==> c.acquiredAt.value <= now)
    && ((c.pc.Release? && !c.pc.handlerSucceeded) || c.pc.DropFence? ==> c.produced.None?)
    && (c.pc.Complete? || c.pc.Persist? ==> c.produced == Some(c.pc.result) && c.storedAt.None?)
    && (c.pc.Complete? || c.pc.Persist? || c.pc.Handling? || c.produced.Some? ==> c.startedAt.Some?)
    && (c.pc.Handling? ==> c.produced.None?)
    && (Verdict(c).None? && !c.pc.Handling? && !c.pc.Complete? && !c.pc.Persist? ==>
      c.produced.None? && c.startedAt.None?)
    && (c.pc.DoubleCheck? || c.startedAt.Some? ==> c.acquiredAt.Some?)
  }

  ghost predicate Inv(s: State) {
    && (forall i | 0 <= i < |s.calls| :: CallConsistent(s.calls[i], s.now))
    && (forall i | 0 <= i < |s.calls| && Returning(s.calls[i]) ::
          Source(s.calls, s.calls[i].source, s.calls[i].hash, Verdict(s.calls[i]).value.response, s.calls[i].readAt))
    && (s.keys.result.Held? ==>
          && s.author < |s.calls|
          && var w := s.calls[s.author];
             w.storedAt.Some? && w.produced.Some? &&
             s.keys.result == Held(Stored(w.hash, w.produced.value), w.storedAt.value + w.ttl))
  }

  /** A call never rewrites the history it has. */
  predicate Extends(c: Call, c': Call) {
    && c'.hash == c.hash && c'.ttl == c.ttl
    && (c.startedAt.Some? ==> c'.startedAt == c.startedAt)
    && (c.produced.Some? ==> c'.produced == c.produced)
    && (c.storedAt.Some? ==> c'.storedAt == c.storedAt)
  }

  lemma ContinueExtends(c: Call, i: nat, k: Keys, author: nat, now: nat)
    requires CallConsistent(c, now)
    ensures var c' := Continue(c, i, k, author, now); var wrote := Perform(c, i, k, now).wrote;
      Extends(c, c') && c'.produced == c.produced &&
      (wrote ==> c'.storedAt == Some(now) && c.produced == Some(c.pc.result)) &&
      (!wrote ==> c'.storedAt == c.storedAt)
  {
  }

  /** A command of a consistent call leaves it consistent. */
  lemma ContinueConsistent(c: Call, i: nat, k: Keys, author: nat, now: nat)
    requires CallConsistent(c, now)
    ensures CallConsistent(Continue(c, i, k, author, now), now)
  {
    if c.pc.Complete? || c.pc.Persist? {
      WriterConsistent(c, i, k, author, now);
    } else if c.pc.Acquire? || c.pc.DoubleCheck? || c.pc.Release? || c.pc.DropFence? {
      HolderConsistent(c, i, k, author, now);
    } else {
      ReaderConsistent(c, i, k, author, now);
    }
  }

  lemma WriterConsistent(c: Call, i: nat, k: Keys, author: nat, now: nat)
    requires CallConsistent(c, now) && (c.pc.Complete? || c.pc.Persist?)
    ensures CallConsistent(Continue(c, i, k, author, now), now)
  {
  }

  lemma HolderConsistent(c: Call, i: nat, k: Keys, author: nat, now: nat)
    requires CallConsistent(c, now) && (c.pc.Acquire? || c.pc.DoubleCheck? || c.pc.Release? || c.pc.DropFence?)
    ensures CallConsistent(Continue(c, i, k, author, now), now)
  {
  }

  lemma ReaderConsistent(c: Call, i: nat, k: Keys, author: nat, now: nat)
    requires CallConsistent(c, now) && !c.pc.Complete? && !c.pc.Persist?
    requires !c.pc.Acquire? && !c.pc.DoubleCheck? && !c.pc.Release? && !c.pc.DropFence?
    ensures CallConsistent(Continue(c, i, k, author, now), now)
  {
  }

  /** The response a command lets a call return was just read or just written. */
  lemma ContinueReturns(c: Call, i: nat, k: Keys, author: nat, now: nat)
    requires CallConsistent(c, now) && Returning(Continue(c, i, k, author, now))
    ensures var c' := Continue(c, i, k, author, now); var r := Verdict(c').value.response;
      || (Returning(c) && Verdict(c) == Verdict(c') && c'.readAt == c.readAt && c'.source == c.source)
      || (Live(k.result, now) && k.result.value == Stored(c.hash, r) && c'.readAt == now && c'.source == author)
      || (Perform(c, i, k, now).wrote && c'.source == i && c'.readAt == now && c'.produced == Some(r))
  {
  }

  lemma AbandonConsistent(c: Call, i: nat, k: Keys, now: nat, applied: bool)
    requires CallConsistent(c, now)
    ensures var wrote := applied && Perform(c, i, k, now).wrote; var c' := Abandon(c, wrote, now);
      CallConsistent(c', now) && Extends(c, c') && c'.produced == c.produced &&
      (wrote ==> c'.storedAt == Some(now) && c.produced == Some(c.pc.result)) &&
        (!wrote ==> c'.storedAt == c.storedAt) &&
      (Returning(c') ==> Returning(c) && Verdict(c) == Verdict(c') && c'.readAt == c.readAt && c'.source == c.source)
  {
  }

  /** The result key changes exactly when a command writes it, and then holds that call's product. */
  lemma PerformResult(c: Call, i: nat, k: Keys, now: nat)
    ensures var p := Perform(c, i, k, now);
      (!p.wrote ==> p.keys.result == k.result) &&
      (p.wrote ==> (c.pc.Complete? || c.pc.Persist?) && p.keys.result == Held(Stored(c.hash, c.pc.result), now + c.ttl))
  {
  }

  lemma InvAnswer(s: State, i: nat)
    requires Inv(s) && Enabled(s, Command(i))
    ensures Inv(Answer(s, i))
  {
    var c, s' := s.calls[i], Answer(s, i);
    ContinueExtends(c, i, s.keys, s.author, s.now);
    ContinueConsistent(c, i, s.keys, s.author, s.now);
    PerformResult(c, i, s.keys, s.now);
    forall j | 0 <= j < |s'.calls| && Returning(s'.calls[j])
      ensures Source(s'.calls, s'.calls[j].source, s'.calls[j].hash, Verdict(s'.calls[j]).value.response,
        s'.calls[j].readAt)
    {
      if j == i {
        ContinueReturns(c, i, s.keys, s.author, s.now);
      }
    }
  }

  lemma InvRefuse(s: State, i: nat, applied: bool)
    requires Inv(s) && Enabled(s, Reject(i, applied))
    ensures Inv(Refuse(s, i, applied))
  {
    var c, s' := s.calls[i], Refuse(s, i, applied);
    AbandonConsistent(c, i, s.keys, s.now, applied);
    PerformResult(c, i, s.keys, s.now);
    assert forall j | 0 <= j < |s.calls| :: Extends(s.calls[j], s'.calls[j]);
  }

  lemma InvSettle(s: State, i: nat, response: Option<Response>)
    requires Inv(s) && Enabled(s, Settle(i, response))
    ensures Inv(Finish(s, i, response))
  {
    var s' := Finish(s, i, response);
    assert forall j | 0 <= j < |s.calls| :: Extends(s.calls[j], s'.calls[j]);
  }

  lemma InvRenew(s: State, i: nat, applied: bool, answered: bool)
    requires Inv(s) && i < |s.calls|
    ensures Inv(Renew(s, i, applied, answered))
  {
    var s' := Renew(s, i, applied, answered);
    assert forall j | 0 <= j < |s.calls| :: Extends(s.calls[j], s'.calls[j]);
  }

  lemma InvStep(s: State, a: Action)
    requires Inv(s) && Enabled(s, a)
    ensures Inv(Apply(s, a))
  {
    match a
    case Tick(_) =>
    case EvictLock =>
    case Arrive(_, _) =>
    case Command(i) => InvAnswer(s, i);
    case Reject(i, applied) => InvRefuse(s, i, applied);
    case Settle(i, r) => InvSettle(s, i, r);
    case Beat(i) => InvRenew(s, i, true, true);
    case BeatReject(i, applied) => InvRenew(s, i, applied, false);
  }

  lemma {:induction false} InvRun(s: State, acts: seq<Action>)
    requires Inv(s) && Legal(s, acts)
    ensures Inv(Exec(s, acts))
    decreases |acts|
  {
    if acts == [] {
    } else {
      InvStep(s, acts[0]);
      InvRun(Apply(s, acts[0]), acts[1..]);
    }
  }

  /**
   Whatever happens to the lock and the store commands, a call that returns normally returns
   the product of a handler run with its own request hash, read while that result was alive.
   */
  lemma ReturnsAreProducts(acts: seq<Action>, i: nat)
    requires Legal(INIT, acts)
    requires i < |Exec(INIT, acts).calls| && Returning(Exec(INIT, acts).calls[i])
    ensures var s := Exec(INIT, acts);
      Source(s.calls, s.calls[i].source, s.calls[i].hash, Verdict(s.calls[i]).value.response, s.calls[i].readAt)
  {
    InvRun(INIT, acts);
  }
}
