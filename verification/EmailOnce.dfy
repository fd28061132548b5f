/**
 How often an email is sent. Without any assumption, a written marker stands for its whole
 retention; with leases that do not expire under their owner and a store that does not fail,
 sends of one key are a full retention apart.
 */
module EmailOnce {
  import opened Prelude
  import opened RedisKeys
  import opened EmailWorker

  // ---------------------------------------------------------------- markers stand

  /** The key holds a terminal value that Redis serves at least until `until`. */
  predicate Marked(s: State, key: string, until: nat) {
    At(s, key).Held? && !At(s, key).value.Owner? && until <= At(s, key).deadline
  }

  lemma MarkedStep(s: State, a: Action, key: string, until: nat, o: Options)
    requires Marked(s, key, until) && until <= s.now + o.retentionTtl && Enabled(s, a)
    requires s.now < until
    ensures var s' := Apply(s, a, o);
      Marked(s', key, until) && s.now <= s'.now && |s.calls| <= |s'.calls| &&
      forall i | 0 <= i < |s'.calls| && s'.calls[i].key == Some(key) ::
        s'.calls[i].acquiredAt == if i < |s.calls| then s.calls[i].acquiredAt else None
  {
  }

  lemma {:induction false} MarkedRun(s: State, acts: seq<Action>, key: string, until: nat, o: Options)
    requires Marked(s, key, until) && until <= s.now + o.retentionTtl && Legal(s, acts, o)
    ensures s.now <= Exec(s, acts, o).now
    ensures Exec(s, acts, o).now < until ==>
      Marked(Exec(s, acts, o), key, until) && |s.calls| <= |Exec(s, acts, o).calls| &&
      forall i | 0 <= i < |Exec(s, acts, o).calls| && Exec(s, acts, o).calls[i].key == Some(key) ::
        Exec(s, acts, o).calls[i].acquiredAt == if i < |s.calls| then s.calls[i].acquiredAt else None
    decreases |acts|
  {
    if acts == [] {
    } else {
      var s' := Apply(s, acts[0], o);
      TimeOnlyPasses(s', acts[1..], o);
      if s'.now < until {
        MarkedStep(s, acts[0], key, until, o);
        KeysStay(s, acts[0], o);
        KeysStayRun(s', acts[1..], o);
        MarkedRun(s', acts[1..], key, until, o);
      }
    }
  }

  lemma {:induction false} TimeOnlyPasses(s: State, acts: seq<Action>, o: Options)
    requires Legal(s, acts, o)
    ensures s.now <= Exec(s, acts, o).now
    decreases |acts|
  {
    if acts == [] {
    } else {
      TimeOnlyPasses(Apply(s, acts[0], o), acts[1..], o);
    }
  }

  predicate SameKeys(s: State, s': State) {
    |s.calls| <= |s'.calls| && forall i | 0 <= i < |s.calls| :: s'.calls[i].key == s.calls[i].key
  }

  lemma KeysStay(s: State, a: Action, o: Options)
    requires Enabled(s, a)
    ensures SameKeys(s, Apply(s, a, o))
  {
  }

  lemma {:induction false} KeysStayRun(s: State, acts: seq<Action>, o: Options)
    requires Legal(s, acts, o)
    ensures SameKeys(s, Exec(s, acts, o))
    decreases |acts|
  {
    if acts == [] {
    } else {
      KeysStay(s, acts[0], o);
      KeysStayRun(Apply(s, acts[0], o), acts[1..], o);
    }
  }

  /** The command of call `i` takes effect, answered or not. */
  predicate TakesEffect(a: Action, i: nat) {
    a == Command(i) || a == Reject(i, true)
  }

  /**
   Even if leases are lost at any moment and commands are rejected at will: once the marker of
   a call is written, whether or not the call learns of it, the key stays completed or
   sent-ambiguous for the whole retention time, and no call acquires it during that time.
   */
  lemma MarkerStandsForRetention(s: State, i: nat, a: Action, after: seq<Action>, o: Options)
    requires TakesEffect(a, i) && Enabled(s, a)
    requires WritesMarker(s.calls[i], i, At(s, s.calls[i].key.value), s.now)
    requires Legal(Apply(s, a, o), after, o) && Exec(Apply(s, a, o), after, o).now < s.now + o.retentionTtl
    ensures var key := s.calls[i].key.value; var s' := Exec(Apply(s, a, o), after, o);
      && Live(At(s', key), s'.now) && !At(s', key).value.Owner? && s.now + o.retentionTtl <= At(s', key).deadline
      && |s.calls| <= |s'.calls|
      && forall j | 0 <= j < |s'.calls| && s'.calls[j].key == Some(key) ::
           s'.calls[j].acquiredAt == if j < |s.calls| then s.calls[j].acquiredAt else None
  {
    var key := s.calls[i].key.value;
    var s1 := Apply(s, a, o);
    assert Marked(s1, key, s.now + o.retentionTtl);
    MarkedRun(s1, after, key, s.now + o.retentionTtl, o);
  }

  // ---------------------------------------------------------------- one send per retention

  /** A keyed call that owns its key, from acquiring it to giving it up. */
  predicate InRegion(c: Call) {
    c.key.Some? && (c.pc.Rendering? || c.pc.Sending? || c.pc.Completing? || c.pc.MarkingAmbiguous? || c.pc.Releasing?)
  }

  /** No lease expires under its owner. */
  predicate Timely(s: State, o: Options) {
    forall i | 0 <= i < |s.calls| && InRegion(s.calls[i]) :: s.now < s.calls[i].renewedAt + o.leaseTtl
  }

  /** The store does not fail; heartbeats may. */
  predicate Calm(a: Action) {
    !a.LoseLease? && !a.Reject?
  }

  predicate CalmRun(s: State, acts: seq<Action>, o: Options)
    decreases |acts|
  {
    Timely(s, o) &&
    (acts == [] || (Calm(acts[0]) && Enabled(s, acts[0]) && CalmRun(Apply(s, acts[0], o), acts[1..], o)))
  }

  /** The marker of `c` had expired before `d` acquired the key. */
  predicate Precedes(c: Call, d: Call, o: Options) {
    c.markedAt.Some? && d.acquiredAt.Some? && c.markedAt.value + o.retentionTtl <= d.acquiredAt.value
  }

  /** A call that has sent, or still may. */
  predicate MaySend(c: Call) {
    c.key.Some? && (c.sentAt.Some? || InRegion(c))
  }

  predicate CallConsistent(c: Call, now: nat) {
    && (InRegion(c) || (c.sentAt.Some? && c.key.Some?) ==> c.acquiredAt.Some?)
    && (c.acquiredAt.Some? ==> c.acquiredAt.value <= now)
    && (c.pc.Acquiring? || c.pc.Rendering? || c.pc.Sending? || c.pc.Releasing? ==> c.sentAt.None?)
    && (c.sentAt.Some? && c.key.Some? ==> c.markedAt.Some? || c.pc.Completing? || c.pc.MarkingAmbiguous?)
    && (c.markedAt.Some? ==>
          c.key.Some? && c.acquiredAt.Some? && c.pc.Done? && c.acquiredAt.value <= c.markedAt.value <= now)
  }

  predicate Consistent(s: State) {
    forall i | 0 <= i < |s.calls| :: CallConsistent(s.calls[i], s.now)
  }

  /** A key is leased to the call that is in its region. */
  predicate Leased(s: State, o: Options) {
    forall i | 0 <= i < |s.calls| && InRegion(s.calls[i]) ::
      At(s, s.calls[i].key.value) == Held(Owner(i), s.calls[i].renewedAt + o.leaseTtl)
  }

  predicate MarkersStand(s: State, o: Options) {
    forall i | 0 <= i < |s.calls| && s.calls[i].markedAt.Some? && s.calls[i].key.Some? ::
      Marked(s, s.calls[i].key.value, s.calls[i].markedAt.value + o.retentionTtl) ||
      s.calls[i].markedAt.value + o.retentionTtl <= s.now
  }

  predicate Apart(s: State, o: Options) {
    forall i, j | 0 <= i < |s.calls| && 0 <= j < |s.calls| && i != j &&
        s.calls[i].markedAt.Some? && MaySend(s.calls[j]) && s.calls[i].key == s.calls[j].key ::
      Precedes(s.calls[i], s.calls[j], o) || Precedes(s.calls[j], s.calls[i], o)
  }

  ghost predicate Exclusive(s: State, o: Options) {
    Consistent(s) && Leased(s, o) && MarkersStand(s, o) && Apart(s, o)
  }

  lemma ExclusiveStep(s: State, a: Action, o: Options)
    requires Exclusive(s, o) && Timely(s, o) && Calm(a) && Enabled(s, a)
    ensures Exclusive(Apply(s, a, o), o)
  {
    match a
    case Command(i) =>
      CommandConsistent(s, i, o);
      CommandLeased(s, i, o);
      CommandMarkers(s, i, o);
      CommandApart(s, i, o);
    case _ =>
      QuietConsistent(s, a, o);
      QuietLeased(s, a, o);
      QuietApart(s, a, o);
  }

  lemma QuietConsistent(s: State, a: Action, o: Options)
    requires Consistent(s) && MarkersStand(s, o) && Calm(a) && Enabled(s, a) && !a.Command?
    ensures Consistent(Apply(s, a, o))
    ensures MarkersStand(Apply(s, a, o), o)
  {
  }

  lemma QuietLeased(s: State, a: Action, o: Options)
    requires Consistent(s) && Leased(s, o) && Calm(a) && Enabled(s, a) && !a.Command?
    ensures Leased(Apply(s, a, o), o)
  {
  }

  lemma QuietApart(s: State, a: Action, o: Options)
    requires Consistent(s) && Apart(s, o) && Calm(a) && Enabled(s, a) && !a.Command?
    ensures Apart(Apply(s, a, o), o)
  {
    var s' := Apply(s, a, o);
    forall i, j | 0 <= i < |s'.calls| && 0 <= j < |s'.calls| && i != j &&
        s'.calls[i].markedAt.Some? && MaySend(s'.calls[j]) && s'.calls[i].key == s'.calls[j].key
      ensures Precedes(s'.calls[i], s'.calls[j], o) || Precedes(s'.calls[j], s'.calls[i], o)
    {
      assert i < |s.calls| && j < |s.calls| && MaySend(s.calls[j]);
    }
  }

  lemma CommandConsistent(s: State, k: nat, o: Options)
    requires Consistent(s) && Enabled(s, Command(k))
    ensures Consistent(Apply(s, Command(k), o))
  {
  }

  lemma CommandLeased(s: State, k: nat, o: Options)
    requires Consistent(s) && Leased(s, o) && Timely(s, o) && Enabled(s, Command(k))
    ensures Leased(Apply(s, Command(k), o), o)
  {
    var c, s' := s.calls[k], Apply(s, Command(k), o);
    forall i | 0 <= i < |s'.calls| && InRegion(s'.calls[i])
      ensures At(s', s'.calls[i].key.value) == Held(Owner(i), s'.calls[i].renewedAt + o.leaseTtl)
    {
      if i != k {
        assert InRegion(s.calls[i]);
      } else if !c.pc.Acquiring? {
        assert InRegion(c) && Matches(At(s, c.key.value), s.now, Owner(k));
      }
    }
  }

  lemma CommandMarkers(s: State, k: nat, o: Options)
    requires Consistent(s) && MarkersStand(s, o) && Enabled(s, Command(k))
    ensures MarkersStand(Apply(s, Command(k), o), o)
  {
  }

  lemma CommandApart(s: State, k: nat, o: Options)
    requires Exclusive(s, o) && Timely(s, o) && Enabled(s, Command(k))
    ensures Apart(Apply(s, Command(k), o), o)
  {
    var c, s' := s.calls[k], Apply(s, Command(k), o);
    assert CallConsistent(c, s.now);
    forall i, j | 0 <= i < |s'.calls| && 0 <= j < |s'.calls| && i != j &&
        s'.calls[i].markedAt.Some? && MaySend(s'.calls[j]) && s'.calls[i].key == s'.calls[j].key
      ensures Precedes(s'.calls[i], s'.calls[j], o) || Precedes(s'.calls[j], s'.calls[i], o)
    {
      OneInRegion(s, k, j, o);
      assert CallConsistent(s.calls[j], s.now);
      if i == k {
      } else if j == k && c.pc.Acquiring? {
        assert !Live(At(s, c.key.value), s.now);
      } else {
        assert MaySend(s.calls[j]);
      }
    }
  }

  lemma OneInRegion(s: State, i: nat, j: nat, o: Options)
    requires Exclusive(s, o) && i < |s.calls| && j < |s.calls|
    ensures s.calls[i].key == s.calls[j].key && InRegion(s.calls[i]) && InRegion(s.calls[j]) ==> i == j
  {
  }

  lemma {:induction false} ExclusiveRun(s: State, acts: seq<Action>, o: Options)
    requires Exclusive(s, o) && CalmRun(s, acts, o)
    ensures Legal(s, acts, o) && Exclusive(Exec(s, acts, o), o)
    decreases |acts|
  {
    if acts == [] {
    } else {
      ExclusiveStep(s, acts[0], o);
      ExclusiveRun(Apply(s, acts[0], o), acts[1..], o);
    }
  }

  /**
   However often a job is delivered and redelivered, of two calls of one key that sent, one
   acquired the key only after the marker of the other had outlived its retention.
   */
  lemma SendsAreARetentionApart(acts: seq<Action>, i: nat, j: nat, o: Options)
    requires CalmRun(INIT, acts, o)
    ensures Legal(INIT, acts, o)
    ensures var calls := Exec(INIT, acts, o).calls;
      i < |calls| && j < |calls| && i != j && calls[i].key.Some? && calls[i].key == calls[j].key &&
      calls[i].sentAt.Some? && calls[j].sentAt.Some? ==>
        Precedes(calls[i], calls[j], o) || Precedes(calls[j], calls[i], o)
  {
    ExclusiveRun(INIT, acts, o);
    var s := Exec(INIT, acts, o);
    if i < |s.calls| && j < |s.calls| && i != j && s.calls[i].key.Some? && s.calls[i].key == s.calls[j].key &&
        s.calls[i].sentAt.Some? && s.calls[j].sentAt.Some? {
      assert CallConsistent(s.calls[i], s.now) && CallConsistent(s.calls[j], s.now);
      OneInRegion(s, i, j, o);
    }
  }
}
