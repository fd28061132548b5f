/**
 What a call that did not get the lock waits for. Over every continuation of its polling loop
 it is told that the work is in progress, or that the outcome is unknown, only once its time is
 up or it has found nobody holding the key any more.
 */
module IdempotencyWaiting {
  import opened Idempotency
  import opened Prelude
  import opened RedisKeys

  /** What a polling call can find: the lock gone, and then the fence gone. */
  datatype Sight = LockGone | FenceGone

  predicate InLoop(pc: Pc) {
    pc.Poll? || pc.SeeLock? || pc.SeeFence?
  }

  function Finds(s: State, a: Action, i: nat): set<Sight>
    requires Enabled(s, a)
  {
    if a != Command(i) then {}
    else if s.calls[i].pc.SeeLock? && !Live(s.keys.lock, s.now) then {LockGone}
    else if s.calls[i].pc.SeeFence? && !Live(s.keys.fence, s.now) then {FenceGone}
    else {}
  }

  function Found(s: State, acts: seq<Action>, i: nat): set<Sight>
    requires Legal(s, acts)
    decreases |acts|
  {
    if acts == [] then {} else Finds(s, acts[0], i) + Found(Apply(s, acts[0]), acts[1..], i)
  }

  /** A failed acquisition is followed by a wait of 15 s, with a first look after 100 ms. */
  lemma WaitBegins(s: State, i: nat)
    requires Enabled(s, Command(i)) && s.calls[i].pc.Acquire? && Live(s.keys.lock, s.now)
    ensures Apply(s, Command(i)).keys == s.keys
    ensures Apply(s, Command(i)).calls[i].pc == Poll(s.now + 100, s.now + 15_000, false)
  {
  }

  /** A call looks again only while its deadline is ahead, and 100 ms later. */
  lemma SleepsBetweenRounds(s: State, a: Action, i: nat)
    requires Enabled(s, a) && i < |s.calls| && InLoop(s.calls[i].pc)
    ensures var pc, pc' := s.calls[i].pc, Apply(s, a).calls[i].pc;
      && (InLoop(pc') ==> pc'.deadline == pc.deadline)
      && (pc'.Poll? && pc' != pc ==> s.now < pc.deadline && pc'.wakeAt == s.now + 100)
  {
  }

  /** The wait is over for its reason: nobody holds the key, or the time is up. */
  predicate Over(now: nat, deadline: nat, found: set<Sight>) {
    deadline <= now || {LockGone, FenceGone} <= found
  }

  /** A call in its loop, or past it, and what it has found: it looks at the fence only where the lock was gone. */
  predicate Waiting(s: State, i: nat, deadline: nat, found: set<Sight>) {
    i < |s.calls| &&
    match s.calls[i].pc
    case Poll(_, d, saw) => d == deadline && (saw ==> LockGone in found)
    case SeeLock(d, saw) => d == deadline && (saw ==> LockGone in found)
    case SeeFence(d, _) => d == deadline && LockGone in found
    case LastRead => LockGone in found && Over(s.now, deadline, found)
    case Done(o) =>
      && (o.InProgress? ==> Over(s.now, deadline, found))
      && (o.OutcomeUnknown? ==> LockGone in found && Over(s.now, deadline, found))
    case _ => false
  }

  lemma WaitingStep(s: State, a: Action, i: nat, deadline: nat, found: set<Sight>)
    requires Enabled(s, a) && Waiting(s, i, deadline, found)
    ensures Waiting(Apply(s, a), i, deadline, found + Finds(s, a, i))
  {
    var more := found + Finds(s, a, i);
    assert found <= more;
    if a == Command(i) && s.calls[i].pc.SeeFence? && !Live(s.keys.fence, s.now) {
      assert {LockGone, FenceGone} <= more;
    }
  }

  lemma {:induction false} WaitingRun(s: State, acts: seq<Action>, i: nat, deadline: nat, found: set<Sight>)
    requires Legal(s, acts) && Waiting(s, i, deadline, found)
    ensures Waiting(Exec(s, acts), i, deadline, found + Found(s, acts, i))
    decreases |acts|
  {
    if acts == [] {
      assert found + Found(s, acts, i) == found;
    } else {
      var s', more := Apply(s, acts[0]), found + Finds(s, acts[0], i);
      WaitingStep(s, acts[0], i, deadline, found);
      WaitingRun(s', acts[1..], i, deadline, more);
      assert found + Found(s, acts, i) == more + Found(s', acts[1..], i);
    }
  }

  /**
   However its wait goes on, a call that is told the work is in progress has waited until its
   deadline, or has found the lock gone and the fence gone; one told that the outcome is
   unknown has found the lock gone in any case, and likewise waited to the end.
   */
  lemma WaitEndsForAReason(s: State, acts: seq<Action>, i: nat)
    requires Legal(s, acts) && i < |s.calls| && s.calls[i].pc.Poll? && !s.calls[i].pc.sawFence
    ensures var s', found, d := Exec(s, acts), Found(s, acts, i), s.calls[i].pc.deadline;
      && i < |s'.calls|
      && (s'.calls[i].pc == Done(InProgress) ==> d <= s'.now || (LockGone in found && FenceGone in found))
      && (s'.calls[i].pc == Done(OutcomeUnknown) ==> LockGone in found && (d <= s'.now || FenceGone in found))
  {
    WaitingRun(s, acts, i, s.calls[i].pc.deadline, {});
    assert {} + Found(s, acts, i) == Found(s, acts, i);
  }
}
