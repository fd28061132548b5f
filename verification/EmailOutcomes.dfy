/**
 Why a `process` call ends as it does. Every ending is tied, over every run and in both
 directions, to what the call met: who held its key, how rendering and sending went, and what
 became of its lease. From the ending the queue decides whether the job is tried again.
 */
module EmailOutcomes {
  import opened EmailWorker
  import opened Prelude
  import opened RedisKeys

  /**
   What a call can meet: its key held by somebody; an error before the mail was out, of its own
   or because the lease was known to be lost; the send resolving; its completion taken; its
   lease lost by then; a rejected acquisition or completion.
   */
  datatype Event =
    | KeyHeld
    | NotSent
    | MailSent
    | Completion
    | LeaseLost
    | StoreRejected

  /** In this step call `i` meets the event. */
  predicate Meets(s: State, a: Action, i: nat, e: Event)
    requires Enabled(s, a)
  {
    i < |s.calls| &&
    var c := s.calls[i];
    match e
    case KeyHeld => a == Command(i) && c.pc.Acquiring? && Live(At(s, c.key.value), s.now)
    case NotSent => a == Rendered(i, false) || (a == Rendered(i, true) && c.ownershipLost) || a == Sent(i, false)
    case MailSent => a == Sent(i, true)
    case Completion => a == Command(i) && c.pc.Completing? && Matches(At(s, c.key.value), s.now, Owner(i))
    case LeaseLost =>
      (a == Sent(i, true) && c.key.Some? && c.ownershipLost) ||
      (a == Command(i) && c.pc.Completing? && !Matches(At(s, c.key.value), s.now, Owner(i)))
    case StoreRejected => a.Reject? && a.call == i && (c.pc.Acquiring? || c.pc.Completing?)
  }

  function Met(s: State, a: Action, i: nat): set<Event>
    requires Enabled(s, a)
  {
    set e | e in {KeyHeld, NotSent, MailSent, Completion, LeaseLost, StoreRejected} && Meets(s, a, i, e)
  }

  function History(s: State, acts: seq<Action>, i: nat, o: Options): set<Event>
    requires Legal(s, acts, o)
    decreases |acts|
  {
    if acts == [] then {} else Met(s, acts[0], i) + History(Apply(s, acts[0], o), acts[1..], i, o)
  }

  /** How a call that has met `met` ends. */
  predicate Explains(r: Result, key: Option<string>, met: set<Event>) {
    && (r.Skipped? <==> KeyHeld in met)
    && (r.Succeeded? <==> MailSent in met && (key.None? || Completion in met))
    && (r.Unrecoverable? <==> LeaseLost in met)
    && (r.Threw? <==> NotSent in met || StoreRejected in met)
  }

  /** What a call on its way has met, place by place, and what its history fields say about it. */
  predicate CallExplained(c: Call, met: set<Event>) {
    && (c.sentAt.Some? <==> MailSent in met)
    && (c.acquiredAt.Some? ==> KeyHeld !in met && !c.pc.Acquiring?)
    && match c.pc
       case Acquiring => met == {}
       case Rendering => met == {}
       case Sending => met == {}
       case Releasing => met == {NotSent} && c.key.Some?
       case Completing => met == {MailSent} && c.key.Some?
       case MarkingAmbiguous => met == {MailSent, LeaseLost} && c.key.Some?
       case Done(r) => Explains(r, c.key, met)
  }

  predicate Explained(s: State, i: nat, met: set<Event>) {
    if i < |s.calls| then CallExplained(s.calls[i], met) else met == {}
  }

  /** What a step adds, as one of few possibilities. */
  function MetNow(s: State, a: Action, i: nat): set<Event>
    requires Enabled(s, a) && i < |s.calls|
  {
    var c := s.calls[i];
    if a == Command(i) && c.pc.Acquiring? then (if Live(At(s, c.key.value), s.now) then {KeyHeld} else {})
    else if a == Command(i) && c.pc.Completing? then
      (if Matches(At(s, c.key.value), s.now, Owner(i)) then {Completion} else {LeaseLost})
    else if a.Rendered? && a.call == i then (if a.ok && !c.ownershipLost then {} else {NotSent})
    else if a == Sent(i, false) then {NotSent}
    else if a == Sent(i, true) then (if c.key.Some? && c.ownershipLost then {MailSent, LeaseLost} else {MailSent})
    else if a.Reject? && a.call == i && (c.pc.Acquiring? || c.pc.Completing?) then {StoreRejected}
    else {}
  }

  lemma MetIsMetNow(s: State, a: Action, i: nat)
    requires Enabled(s, a) && i < |s.calls|
    ensures Met(s, a, i) == MetNow(s, a, i)
  {
  }

  lemma ExplainedCommand(s: State, i: nat, met: set<Event>, o: Options)
    requires Enabled(s, Command(i)) && Explained(s, i, met)
    ensures Explained(Apply(s, Command(i), o), i, met + MetNow(s, Command(i), i))
  {
    assert MetNow(s, Command(i), i) == {} ==> met + MetNow(s, Command(i), i) == met;
  }

  lemma ExplainedReject(s: State, i: nat, applied: bool, met: set<Event>, o: Options)
    requires Enabled(s, Reject(i, applied)) && Explained(s, i, met)
    ensures Explained(Apply(s, Reject(i, applied), o), i, met + MetNow(s, Reject(i, applied), i))
  {
    var m := MetNow(s, Reject(i, applied), i);
    assert m == {} ==> met + m == met;
  }

  lemma ExplainedStep(s: State, a: Action, i: nat, met: set<Event>, o: Options)
    requires Enabled(s, a) && Explained(s, i, met)
    ensures Explained(Apply(s, a, o), i, met + Met(s, a, i))
  {
    if i < |s.calls| {
      MetIsMetNow(s, a, i);
      assert MetNow(s, a, i) == {} ==> met + Met(s, a, i) == met;
      if a == Command(i) {
        ExplainedCommand(s, i, met, o);
      } else if a.Reject? && a.call == i {
        ExplainedReject(s, i, a.applied, met, o);
      }
    } else {
      assert met + Met(s, a, i) == {};
    }
  }

  lemma {:induction false} ExplainedRun(s: State, acts: seq<Action>, i: nat, met: set<Event>, o: Options)
    requires Legal(s, acts, o) && Explained(s, i, met)
    ensures Explained(Exec(s, acts, o), i, met + History(s, acts, i, o))
    decreases |acts|
  {
    if acts == [] {
      assert met + History(s, acts, i, o) == met;
    } else {
      var s', seen := Apply(s, acts[0], o), met + Met(s, acts[0], i);
      ExplainedStep(s, acts[0], i, met, o);
      ExplainedRun(s', acts[1..], i, seen, o);
      assert met + History(s, acts, i, o) == seen + History(s', acts[1..], i, o);
    }
  }

  /**
   Over every run a finished call was: skipped exactly if somebody held its key when it tried to
   acquire; a success exactly if the mail went out and, if keyed, its completion was taken;
   unrecoverable exactly if the mail went out and the lease was lost by then; and it threw, to
   be tried again, exactly if the mail did not go out or the store rejected what it asked.
   */
  lemma ResultsAreExplained(acts: seq<Action>, i: nat, o: Options)
    requires Legal(INIT, acts, o) && i < |Exec(INIT, acts, o).calls| && Exec(INIT, acts, o).calls[i].pc.Done?
    ensures var c := Exec(INIT, acts, o).calls[i];
      && Explains(c.pc.result, c.key, History(INIT, acts, i, o))
      && (c.sentAt.Some? <==> MailSent in History(INIT, acts, i, o))
      && (c.acquiredAt.Some? ==> !c.pc.result.Skipped?)
  {
    ExplainedRun(INIT, acts, i, {}, o);
    assert {} + History(INIT, acts, i, o) == History(INIT, acts, i, o);
  }

  // ---------------------------------------------------------------- leases and heartbeats

  /** No step sends a mail of a call that knows its lease to be lost: rendering does not lead on to sending. */
  lemma LostLeaseIsNotSent(s: State, a: Action, i: nat, o: Options)
    requires Enabled(s, a) && i < |s.calls| && Apply(s, a, o).calls[i].pc.Sending? && !s.calls[i].pc.Sending?
    ensures a == Rendered(i, true) && !s.calls[i].ownershipLost
  {
  }

  /** A heartbeat renews exactly its own live lease, and anything else makes the call know that the lease is lost. */
  lemma HeartbeatNoticesLoss(s: State, i: nat, applied: bool, answered: bool, o: Options, key: string)
    requires Enabled(s, Beat(i, applied, answered))
    ensures var s', own := Apply(s, Beat(i, applied, answered), o), s.calls[i].key.value;
      var hit := applied && Matches(At(s, own), s.now, Owner(i));
      && At(s', key) == (if hit && key == own then Held(Owner(i), s.now + o.leaseTtl) else At(s, key))
      && (s'.calls[i].ownershipLost <==> s.calls[i].ownershipLost || !hit || !answered)
  {
  }

  /** Of calls, only its owner renews or releases a live lease, unless a mail that is out marks the key. */
  lemma OnlyOwnerTouchesLease(s: State, a: Action, key: string, owner: nat, o: Options)
    requires Enabled(s, a) && Matches(At(s, key), s.now, Owner(owner))
    requires !a.Tick? && a != LoseLease(key)
    requires (a.Command? || a.Reject? || a.Beat?) ==> a.call != owner
    requires (a.Command? || a.Reject?) ==> !s.calls[a.call].pc.MarkingAmbiguous?
    ensures At(Apply(s, a, o), key) == At(s, key)
  {
  }
}
