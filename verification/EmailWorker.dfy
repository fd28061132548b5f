/**
 email.processor.ts over redis-job-execution.store.ts as a state machine. A step is one store
 command, a rendering or a send settling, a heartbeat, the loss of a lease, or the passing of
 time. The store keeps, per idempotency key, a lease or one of two terminal values.
 */
module EmailWorker {
  import opened Prelude
  import opened RedisKeys

  datatype Options = Options(leaseTtl: Ttl, retentionTtl: Ttl)

  /** An ownership token is the number of the `process` call that drew it. */
  datatype JobValue = Owner(call: nat) | Completed | SentAmbiguous

  datatype Result = Skipped | Succeeded | Threw | Unrecoverable

  datatype Pc =
    | Acquiring
    | Rendering
    | Sending
    | Completing
    | MarkingAmbiguous
    | Releasing
    | Done(result: Result)

  /** One `process` call. The fields after `ownershipLost` are its history. */
  datatype Call = Call(
    key: Option<string>,
    templated: bool,
    pc: Pc,
    ownershipLost: bool,
    acquiredAt: Option<nat>,
    renewedAt: nat,
    sentAt: Option<nat>,
    markedAt: Option<nat>)

  datatype State = State(now: nat, keys: map<string, Slot<JobValue>>, calls: seq<Call>)

  datatype Action =
    | Tick(dt: nat)
    | LoseLease(key: string)
    | Deliver(jobKey: Option<string>, templated: bool)
    | Command(call: nat)
    | Reject(call: nat, applied: bool)
    | Rendered(call: nat, ok: bool)
    | Sent(call: nat, ok: bool)
    | Beat(call: nat, applied: bool, answered: bool)

  const INIT := State(0, map[], [])

  function At(s: State, key: string): Slot<JobValue> {
    if key in s.keys then s.keys[key] else Absent
  }

  // ---------------------------------------------------------------- the execution store

  /** What the store command a keyed call awaits leaves under its key. */
  function Perform(c: Call, i: nat, slot: Slot<JobValue>, now: nat, o: Options): Slot<JobValue> {
    match c.pc
    case Acquiring => SetNx(slot, now, Owner(i), o.leaseTtl)
    case Completing => if Matches(slot, now, Owner(i)) then SetEx(now, Completed, o.retentionTtl) else slot
    case MarkingAmbiguous => SetEx(now, SentAmbiguous, o.retentionTtl)
    case Releasing => CompareAndDelete(slot, now, Owner(i))
    case _ => slot
  }

  /** The command writes one of the terminal values. */
  predicate WritesMarker(c: Call, i: nat, slot: Slot<JobValue>, now: nat) {
    c.pc.MarkingAmbiguous? || (c.pc.Completing? && Matches(slot, now, Owner(i)))
  }

  // ---------------------------------------------------------------- control flow

  predicate AwaitsStore(c: Call) {
    c.key.Some? && (c.pc.Acquiring? || c.pc.Completing? || c.pc.MarkingAmbiguous? || c.pc.Releasing?)
  }

  function Continue(c: Call, i: nat, slot: Slot<JobValue>, now: nat): Call {
    match c.pc
    case Acquiring =>
      if Live(slot, now) then c.(pc := Done(Skipped))
      else c.(pc := Rendering, acquiredAt := Some(now), renewedAt := now)
    case Completing =>
      if Matches(slot, now, Owner(i)) then c.(pc := Done(Succeeded), markedAt := Some(now))
      else c.(pc := MarkingAmbiguous)
    case MarkingAmbiguous => c.(pc := Done(Unrecoverable), markedAt := Some(now))
    case Releasing => c.(pc := Done(Threw))
    case _ => c
  }

  /** After a rejected command; `wrote` says that the marker was written all the same. */
  function Abandon(c: Call, wrote: bool, now: nat): Call {
    var noted := if wrote then c.(markedAt := Some(now)) else c;
    noted.(pc := Done(if c.pc.MarkingAmbiguous? then Unrecoverable else Threw))
  }

  /** An error before the send is committed: the lease is released, if there is one. */
  function Fail(c: Call): Call {
    c.(pc := if c.key.Some? then Releasing else Done(Threw))
  }

  function AfterSend(c: Call, now: nat): Call {
    c.(sentAt := Some(now),
       pc := if c.key.None? then Done(Succeeded) else if c.ownershipLost then MarkingAmbiguous else Completing)
  }

  // ---------------------------------------------------------------- steps and runs

  predicate Enabled(s: State, a: Action) {
    match a
    case Tick(_) => true
    case LoseLease(key) => At(s, key).Held? && At(s, key).value.Owner?
    case Deliver(_, _) => true
    case Command(i) => i < |s.calls| && AwaitsStore(s.calls[i])
    case Reject(i, _) => i < |s.calls| && AwaitsStore(s.calls[i])
    case Rendered(i, ok) => i < |s.calls| && s.calls[i].pc.Rendering? && (s.calls[i].templated || ok)
    case Sent(i, _) => i < |s.calls| && s.calls[i].pc.Sending?
    case Beat(i, _, _) => i < |s.calls| && s.calls[i].acquiredAt.Some? && s.calls[i].key.Some?
  }

  function Apply(s: State, a: Action, o: Options): State
    requires Enabled(s, a)
  {
    match a
    case Tick(dt) => s.(now := s.now + dt)
    case LoseLease(key) => s.(keys := s.keys[key := Absent])
    case Deliver(key, templated) =>
      var pc := if key.Some? then Acquiring else Rendering;
      s.(calls := s.calls + [Call(key, templated, pc, false, None, 0, None, None)])
    case Command(i) =>
      var c := s.calls[i];
      var slot := At(s, c.key.value);
      s.(keys := s.keys[c.key.value := Perform(c, i, slot, s.now, o)],
         calls := s.calls[i := Continue(c, i, slot, s.now)])
    case Reject(i, applied) =>
      var c := s.calls[i];
      var slot := At(s, c.key.value);
      s.(keys := if applied then s.keys[c.key.value := Perform(c, i, slot, s.now, o)] else s.keys,
         calls := s.calls[i := Abandon(c, applied && WritesMarker(c, i, slot, s.now), s.now)])
    case Rendered(i, ok) =>
      var c := s.calls[i];
      s.(calls := s.calls[i := if !ok || c.ownershipLost then Fail(c) else c.(pc := Sending)])
    case Sent(i, ok) =>
      var c := s.calls[i];
      s.(calls := s.calls[i := if ok then AfterSend(c, s.now) else Fail(c)])
    case Beat(i, applied, answered) =>
      var c := s.calls[i];
      var slot := At(s, c.key.value);
      var hit := applied && Matches(slot, s.now, Owner(i));
      s.(keys := if hit then s.keys[c.key.value := SetEx(s.now, Owner(i), o.leaseTtl)] else s.keys,
         calls := s.calls[i := c.(ownershipLost := c.ownershipLost || !hit || !answered,
                                  renewedAt := if hit then s.now else c.renewedAt)])
  }

  predicate Legal(s: State, acts: seq<Action>, o: Options)
    decreases |acts|
  {
    acts == [] || (Enabled(s, acts[0]) && Legal(Apply(s, acts[0], o), acts[1..], o))
  }

  function Exec(s: State, acts: seq<Action>, o: Options): State
    requires Legal(s, acts, o)
    decreases |acts|
  {
    if acts == [] then s else Exec(Apply(s, acts[0], o), acts[1..], o)
  }

  /** A run can be extended by any enabled step. */
  lemma {:induction false} OneMore(s: State, acts: seq<Action>, a: Action, o: Options)
    requires Legal(s, acts, o) && Enabled(Exec(s, acts, o), a)
    ensures Legal(s, acts + [a], o) && Exec(s, acts + [a], o) == Apply(Exec(s, acts, o), a, o)
    decreases |acts|
  {
    if acts == [] {
      var one := [a];
      assert acts + one == one && one[1..] == [];
      assert Legal(Apply(s, a, o), [], o) && Exec(Apply(s, a, o), [], o) == Apply(s, a, o);
    } else {
      OneMore(Apply(s, acts[0], o), acts[1..], a, o);
      assert (acts + [a])[1..] == acts[1..] + [a];
    }
  }
}
