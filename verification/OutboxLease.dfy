/**
 The lease of the row being published. Each `processPending` call heartbeats the event it is
 routing; a heartbeat writes the time of its tick, and ticks are skipped while one is in
 flight. With punctual timers and heartbeats that take effect within `d` of their tick, the
 routing of a batch's first row is exclusive exactly when the lock TTL covers the first tick
 after a slow heartbeat and that heartbeat's own delay. Rows still waiting in a batch are not
 heartbeaten, and nothing is claimed about them.
 */
module OutboxLease {
  import opened Heartbeat
  import opened Outbox
  import opened Prelude

  predicate Punctual(s: State, d: nat) {
    forall k | 0 <= k < |s.workers| && s.workers[k].pc.Routing? ::
      OnTime(s.now, s.workers[k].nextTick, s.workers[k].beat, d)
  }

  /** No heartbeat statement is rejected. */
  predicate BeatsAnswered(a: Action) {
    a.Land? ==> a.applied && a.answered
  }

  predicate PunctualRun(s: State, acts: seq<Action>, d: nat, o: Options)
    decreases |acts|
  {
    Punctual(s, d) &&
    (acts == [] ||
     (BeatsAnswered(acts[0]) && Enabled(s, acts[0], o) && PunctualRun(Apply(s, acts[0], o), acts[1..], d, o)))
  }

  /** Worker `k` is inside `route` for the first row of its batch. */
  predicate RoutesHead(s: State, k: nat) {
    k < |s.workers| && s.workers[k].pc.Routing? && s.workers[k].next == 0 && s.workers[k].batch != []
  }

  predicate NoOverlap(s: State) {
    forall k, j | 0 <= k < |s.workers| && 0 <= j < |s.workers| && k != j && RoutesHead(s, k) && RoutesHead(s, j) ::
      s.workers[k].batch[0].row != s.workers[j].batch[0].row
  }

  /** However the calls interleave, two `route` runs for head rows are never of the same row. */
  ghost predicate HeadRoutingIsExclusive(d: nat, o: Options) {
    forall acts: seq<Action> | PunctualRun(INIT, acts, d, o) && Legal(INIT, acts, o) :: NoOverlap(Exec(INIT, acts, o))
  }

  // ---------------------------------------------------------------- ticks

  /** From the tick of a heartbeat that takes `d` to the next tick that is not skipped. */
  function NextBeat(d: nat, o: Options): nat {
    (d / o.heartbeatIntervalMs + 1) * o.heartbeatIntervalMs
  }

  lemma NextBeatBounds(d: nat, o: Options)
    ensures d < NextBeat(d, o) <= d + o.heartbeatIntervalMs
    ensures d < o.heartbeatIntervalMs ==> NextBeat(d, o) == o.heartbeatIntervalMs
  {
    var i := o.heartbeatIntervalMs;
    assert d == d / i * i + d % i;
    assert NextBeat(d, o) == d / i * i + i;
  }

  /** A whole number of intervals. */
  predicate Intervals(x: int, i: Pos)
    decreases if x < 0 then 0 else x
  {
    x == 0 || (i <= x && Intervals(x - i, i))
  }

  lemma Distribute(m: int, i: int)
    ensures (m + 1) * i == m * i + i
  {
  }

  lemma {:induction false} IntervalsCounted(x: int, i: Pos) returns (m: nat)
    requires Intervals(x, i)
    ensures x == m * i
    decreases x
  {
    if x == 0 {
      m := 0;
    } else {
      m := IntervalsCounted(x - i, i);
      Distribute(m, i);
      m := m + 1;
    }
  }

  lemma {:induction false} MultiplesApart(p: int, q: int, i: Pos)
    requires p < q
    ensures p * i + i <= q * i
    decreases q - p
  {
    Distribute(q - 1, i);
    if p + 1 < q {
      MultiplesApart(p, q - 1, i);
    }
  }

  /** Of the multiples of the interval up to `d` + interval, this is the greatest. */
  lemma NextBeatIsGreatest(x: int, d: nat, o: Options)
    requires Intervals(x, o.heartbeatIntervalMs) && x <= d + o.heartbeatIntervalMs
    ensures x <= NextBeat(d, o) && (d < x ==> x == NextBeat(d, o))
  {
    var i := o.heartbeatIntervalMs;
    NextBeatBounds(d, o);
    var m := IntervalsCounted(x, i);
    if d / i + 1 < m {
      MultiplesApart(d / i + 1, m, i);
    } else if m < d / i + 1 {
      MultiplesApart(m, d / i + 1, i);
    }
  }

  // ---------------------------------------------------------------- when the TTL suffices

  /** The head row is leased to its worker, and the lease is as fresh as its timer promises. */
  predicate Leased(s: State, k: nat, d: nat, o: Options)
    requires RoutesHead(s, k)
  {
    var w := s.workers[k];
    w.batch[0].row < |s.rows| &&
    var r := s.rows[w.batch[0].row];
    OwnedBy(r, k) && r.lockedAt.Some? && !w.ownershipLost &&
    match w.beat
    case None => w.nextTick <= r.lockedAt.value + NextBeat(d, o)
    case Some(tick) =>
      && tick <= r.lockedAt.value + NextBeat(d, o)
      && Intervals(w.nextTick - tick, o.heartbeatIntervalMs) && w.nextTick <= s.now + o.heartbeatIntervalMs
  }

  predicate AllLeased(s: State, d: nat, o: Options) {
    forall k | 0 <= k < |s.workers| && RoutesHead(s, k) :: Leased(s, k, d, o)
  }

  /** No claim takes the head row of a routing worker. */
  lemma LeaseIsFresh(s: State, k: nat, d: nat, o: Options)
    requires AllLeased(s, d, o) && Punctual(s, d) && RoutesHead(s, k) && NextBeat(d, o) + d <= o.lockTtlMs
    ensures var r := s.workers[k].batch[0].row;
      r < |s.rows| && forall ids, skipped | IsBatch(s.rows, s.now, o, ids, skipped) :: r !in ids
  {
    assert Leased(s, k, d, o);
    assert !Claimable(s.rows[s.workers[k].batch[0].row], s.now, o);
  }

  lemma LeasedClaim(s: State, a: Action, d: nat, o: Options)
    requires AllLeased(s, d, o) && Punctual(s, d) && a.Claim? && Enabled(s, a, o)
    requires NextBeat(d, o) + d <= o.lockTtlMs
    ensures AllLeased(Apply(s, a, o), d, o)
  {
    var s' := Apply(s, a, o);
    NextBeatBounds(d, o);
    forall k | 0 <= k < |s'.workers| && RoutesHead(s', k)
      ensures Leased(s', k, d, o)
    {
      if k < |s.workers| {
        assert RoutesHead(s, k) && Leased(s, k, d, o);
        LeaseIsFresh(s, k, d, o);
      } else {
        assert s'.workers[k].batch[0].row == a.ids[0];
        NextBeatIsGreatest(o.heartbeatIntervalMs, d, o);
      }
    }
  }

  /** The worker's own timer. */
  lemma LeasedTimer(s: State, a: Action, k: nat, d: nat, o: Options)
    requires AllLeased(s, d, o) && Punctual(s, d) && BeatsAnswered(a) && Enabled(s, a, o)
    requires (a.Fire? || a.Land?) && a.worker == k && RoutesHead(s, k)
    ensures RoutesHead(Apply(s, a, o), k) && Leased(Apply(s, a, o), k, d, o)
  {
    var w := s.workers[k];
    assert Leased(s, k, d, o);
    if a.Land? {
      NextBeatIsGreatest(w.nextTick - w.beat.value, d, o);
    }
  }

  /** Whatever else happens leaves the lease of a routing worker alone. */
  lemma LeaseUntouched(s: State, a: Action, k: nat, d: nat, o: Options)
    requires RoutesHead(s, k) && Leased(s, k, d, o) && Enabled(s, a, o) && !a.Claim?
    requires !((a.Fire? || a.Land?) && a.worker == k) && RoutesHead(Apply(s, a, o), k)
    ensures Leased(Apply(s, a, o), k, d, o)
  {
    var s', r := Apply(s, a, o), s.workers[k].batch[0].row;
    assert s'.rows[r].status == s.rows[r].status && s'.rows[r].lockedBy == s.rows[r].lockedBy &&
      s'.rows[r].lockedAt == s.rows[r].lockedAt;
  }

  lemma LeasedStep(s: State, a: Action, d: nat, o: Options)
    requires AllLeased(s, d, o) && Punctual(s, d) && BeatsAnswered(a) && Enabled(s, a, o)
    requires NextBeat(d, o) + d <= o.lockTtlMs
    ensures AllLeased(Apply(s, a, o), d, o)
  {
    if a.Claim? {
      LeasedClaim(s, a, d, o);
    } else {
      var s' := Apply(s, a, o);
      forall k | 0 <= k < |s'.workers| && RoutesHead(s', k)
        ensures Leased(s', k, d, o)
      {
        assert RoutesHead(s, k) && Leased(s, k, d, o);
        if (a.Fire? || a.Land?) && a.worker == k {
          LeasedTimer(s, a, k, d, o);
        } else {
          LeaseUntouched(s, a, k, d, o);
        }
      }
    }
  }

  lemma {:induction false} LeasedRun(s: State, acts: seq<Action>, d: nat, o: Options)
    requires AllLeased(s, d, o) && PunctualRun(s, acts, d, o) && NextBeat(d, o) + d <= o.lockTtlMs
    ensures Legal(s, acts, o) && AllLeased(Exec(s, acts, o), d, o)
    decreases |acts|
  {
    if acts == [] {
    } else {
      LeasedStep(s, acts[0], d, o);
      LeasedRun(Apply(s, acts[0], o), acts[1..], d, o);
    }
  }

  lemma TimelyBeatsExclude(d: nat, o: Options)
    requires NextBeat(d, o) + d <= o.lockTtlMs
    ensures HeadRoutingIsExclusive(d, o)
  {
    forall acts: seq<Action> | PunctualRun(INIT, acts, d, o) && Legal(INIT, acts, o)
      ensures NoOverlap(Exec(INIT, acts, o))
    {
      LeasedRun(INIT, acts, d, o);
      var s := Exec(INIT, acts, o);
      forall k, j | 0 <= k < |s.workers| && 0 <= j < |s.workers| && k != j && RoutesHead(s, k) && RoutesHead(s, j)
        ensures s.workers[k].batch[0].row != s.workers[j].batch[0].row
      {
        assert Leased(s, k, d, o) && Leased(s, j, d, o);
      }
    }
  }

  // ---------------------------------------------------------------- and only then

  /** A punctual run after which two calls route one row. */
  predicate Overlaps(s: State, acts: seq<Action>, d: nat, o: Options)
    decreases |acts|
  {
    Punctual(s, d) &&
    if acts == [] then !NoOverlap(s)
    else BeatsAnswered(acts[0]) && Enabled(s, acts[0], o) && Overlaps(Apply(s, acts[0], o), acts[1..], d, o)
  }

  lemma {:induction false} OverlapRefutes(s: State, acts: seq<Action>, d: nat, o: Options)
    requires Overlaps(s, acts, d, o)
    ensures PunctualRun(s, acts, d, o) && Legal(s, acts, o) && !NoOverlap(Exec(s, acts, o))
    decreases |acts|
  {
    if acts == [] {
    } else {
      OverlapRefutes(Apply(s, acts[0], o), acts[1..], d, o);
    }
  }

  lemma Before(s: State, a: Action, rest: seq<Action>, d: nat, o: Options)
    requires Punctual(s, d) && BeatsAnswered(a) && Enabled(s, a, o) && Overlaps(Apply(s, a, o), rest, d, o)
    ensures Overlaps(s, [a] + rest, d, o)
  {
    assert ([a] + rest)[1..] == rest;
  }

  /** One row, in routing by the one worker that claimed it. */
  function OneRouting(now: nat, lockedAt: nat, updatedAt: nat, nextTick: nat, beat: Option<nat>, o: Options): State {
    State(now, [ClaimRow(NewRow("e", 0), 0, 0).(lockedAt := Some(lockedAt), updatedAt := updatedAt)],
          [NewWorker([Claimed(0, 0)], 0, o).(nextTick := nextTick, beat := beat)])
  }

  /** Time passes. */
  lemma BeforeTick(
      now: nat, to: nat, lockedAt: nat, updatedAt: nat, nextTick: nat, beat: Option<nat>,
      rest: seq<Action>, d: nat, o: Options) returns (acts: seq<Action>)
    requires now <= to && OnTime(now, nextTick, beat, d)
    requires Overlaps(OneRouting(to, lockedAt, updatedAt, nextTick, beat, o), rest, d, o)
    ensures Overlaps(OneRouting(now, lockedAt, updatedAt, nextTick, beat, o), acts, d, o)
  {
    var s := OneRouting(now, lockedAt, updatedAt, nextTick, beat, o);
    assert Apply(s, Tick(to - now), o) == OneRouting(to, lockedAt, updatedAt, nextTick, beat, o);
    Before(s, Tick(to - now), rest, d, o);
    acts := [Tick(to - now)] + rest;
  }

  /** The timer is due: a heartbeat leaves, unless one is in flight. */
  lemma BeforeFire(now: nat, lockedAt: nat, updatedAt: nat, beat: Option<nat>, rest: seq<Action>, d: nat, o: Options)
    returns (acts: seq<Action>)
    requires OnTime(now, now, beat, d)
    requires var beat' := if beat.Some? then beat else Some(now);
      Overlaps(OneRouting(now, lockedAt, updatedAt, now + o.heartbeatIntervalMs, beat', o), rest, d, o)
    ensures Overlaps(OneRouting(now, lockedAt, updatedAt, now, beat, o), acts, d, o)
  {
    var s, beat' := OneRouting(now, lockedAt, updatedAt, now, beat, o), if beat.Some? then beat else Some(now);
    assert Apply(s, Fire(0), o) ==
      OneRouting(now, lockedAt, updatedAt, now + o.heartbeatIntervalMs, beat', o);
    Before(s, Fire(0), rest, d, o);
    acts := [Fire(0)] + rest;
  }

  /** Time passes to the next tick, at which a heartbeat leaves, unless one is in flight. */
  lemma BeforeNextTick(
      now: nat, lockedAt: nat, updatedAt: nat, nextTick: nat, beat: Option<nat>, rest: seq<Action>, d: nat, o: Options)
    returns (acts: seq<Action>)
    requires OnTime(now, nextTick, beat, d) && OnTime(nextTick, nextTick, beat, d)
    requires var beat' := if beat.Some? then beat else Some(nextTick);
      Overlaps(OneRouting(nextTick, lockedAt, updatedAt, nextTick + o.heartbeatIntervalMs, beat', o), rest, d, o)
    ensures Overlaps(OneRouting(now, lockedAt, updatedAt, nextTick, beat, o), acts, d, o)
  {
    acts := BeforeFire(nextTick, lockedAt, updatedAt, beat, rest, d, o);
    acts := BeforeTick(now, nextTick, lockedAt, updatedAt, nextTick, beat, acts, d, o);
  }

  /** The heartbeat in flight lands: the row is locked as of its tick. */
  lemma BeforeLand(
      now: nat, lockedAt: nat, updatedAt: nat, nextTick: nat, tick: nat, rest: seq<Action>, d: nat, o: Options)
    returns (acts: seq<Action>)
    requires OnTime(now, nextTick, Some(tick), d)
    requires Overlaps(OneRouting(now, tick, now, nextTick, None, o), rest, d, o)
    ensures Overlaps(OneRouting(now, lockedAt, updatedAt, nextTick, Some(tick), o), acts, d, o)
  {
    var s := OneRouting(now, lockedAt, updatedAt, nextTick, Some(tick), o);
    assert Apply(s, Land(0, true, true), o) == OneRouting(now, tick, now, nextTick, None, o);
    Before(s, Land(0, true, true), rest, d, o);
    acts := [Land(0, true, true)] + rest;
  }

  /** Time passes until the heartbeat in flight lands. */
  lemma BeforeLanding(
      now: nat, to: nat, lockedAt: nat, updatedAt: nat, nextTick: nat, tick: nat, rest: seq<Action>, d: nat, o: Options)
    returns (acts: seq<Action>)
    requires now <= to && OnTime(to, nextTick, Some(tick), d)
    requires Overlaps(OneRouting(to, tick, to, nextTick, None, o), rest, d, o)
    ensures Overlaps(OneRouting(now, lockedAt, updatedAt, nextTick, Some(tick), o), acts, d, o)
  {
    acts := BeforeLand(to, lockedAt, updatedAt, nextTick, tick, rest, d, o);
    acts := BeforeTick(now, to, lockedAt, updatedAt, nextTick, Some(tick), acts, d, o);
  }

  /** The lease of the row is stale: a second call claims and routes it. */
  lemma SecondClaims(now: nat, lockedAt: nat, updatedAt: nat, nextTick: nat, beat: Option<nat>, d: nat, o: Options)
    returns (acts: seq<Action>)
    requires OnTime(now, nextTick, beat, d) && lockedAt + o.lockTtlMs < now
    ensures Overlaps(OneRouting(now, lockedAt, updatedAt, nextTick, beat, o), acts, d, o)
  {
    var s := OneRouting(now, lockedAt, updatedAt, nextTick, beat, o);
    assert IsBatch(s.rows, s.now, o, [0], {});
    var s' := Apply(s, Claim([0], {}), o);
    assert s'.workers[1].batch[0].row == 0 && s'.workers[0] == s.workers[0];
    assert RoutesHead(s', 0) && RoutesHead(s', 1);
    Before(s, Claim([0], {}), [], d, o);
    acts := [Claim([0], {})] + [];
  }

  lemma LeaseExpires(
      now: nat, to: nat, lockedAt: nat, updatedAt: nat, nextTick: nat, beat: Option<nat>, d: nat, o: Options)
    returns (acts: seq<Action>)
    requires now <= to && OnTime(to, nextTick, beat, d) && lockedAt + o.lockTtlMs < to
    ensures Overlaps(OneRouting(now, lockedAt, updatedAt, nextTick, beat, o), acts, d, o)
  {
    acts := SecondClaims(to, lockedAt, updatedAt, nextTick, beat, d, o);
    acts := BeforeTick(now, to, lockedAt, updatedAt, nextTick, beat, acts, d, o);
  }

  /** A heartbeat stays in flight until `d` has passed and the lease is stale; the ticks in between are skipped. */
  lemma {:induction false} LeaseExpiresInFlight(
      now: nat, lockedAt: nat, updatedAt: nat, nextTick: nat, tick: nat, d: nat, o: Options)
    returns (acts: seq<Action>)
    requires OnTime(now, nextTick, Some(tick), d) && lockedAt + o.lockTtlMs < tick + d
    ensures Overlaps(OneRouting(now, lockedAt, updatedAt, nextTick, Some(tick), o), acts, d, o)
    decreases tick + d - nextTick
  {
    if tick + d <= nextTick {
      acts := LeaseExpires(now, tick + d, lockedAt, updatedAt, nextTick, Some(tick), d, o);
    } else {
      acts := LeaseExpiresInFlight(nextTick, lockedAt, updatedAt, nextTick + o.heartbeatIntervalMs, tick, d, o);
      acts := BeforeNextTick(now, lockedAt, updatedAt, nextTick, Some(tick), acts, d, o);
    }
  }

  /** With the row locked as of `tick`, the next heartbeat leaves, and the lease expires while it is in flight. */
  lemma NextBeatTooLate(now: nat, nextTick: nat, tick: nat, d: nat, o: Options) returns (acts: seq<Action>)
    requires now <= nextTick && tick + o.lockTtlMs < nextTick + d
    ensures Overlaps(OneRouting(now, tick, now, nextTick, None, o), acts, d, o)
  {
    acts := LeaseExpiresInFlight(nextTick, tick, now, nextTick + o.heartbeatIntervalMs, nextTick, d, o);
    acts := BeforeNextTick(now, tick, now, nextTick, None, acts, d, o);
  }

  /** The heartbeat of `tick` lands `d` later, and the next one is too late for the lease it leaves. */
  lemma SecondBeatOverlaps(now: nat, lockedAt: nat, nextTick: nat, tick: nat, d: nat, o: Options)
    returns (acts: seq<Action>)
    requires OnTime(now, nextTick, Some(tick), d) && tick + d < nextTick && tick + o.lockTtlMs < nextTick + d
    ensures Overlaps(OneRouting(now, lockedAt, 0, nextTick, Some(tick), o), acts, d, o)
  {
    acts := NextBeatTooLate(tick + d, nextTick, tick, d, o);
    acts := BeforeLanding(now, tick + d, lockedAt, 0, nextTick, tick, acts, d, o);
  }

  /** A heartbeat that lands `d` after its tick; the next one leaves `NextBeat` after that tick and is as slow. */
  lemma {:induction false} SlowBeatsOverlap(now: nat, lockedAt: nat, nextTick: nat, tick: nat, d: nat, o: Options)
    returns (acts: seq<Action>)
    requires OnTime(now, nextTick, Some(tick), d) && o.lockTtlMs < NextBeat(d, o) + d
    requires Intervals(nextTick - tick, o.heartbeatIntervalMs) && nextTick <= tick + d + o.heartbeatIntervalMs
    ensures Overlaps(OneRouting(now, lockedAt, 0, nextTick, Some(tick), o), acts, d, o)
    decreases tick + d + o.heartbeatIntervalMs - nextTick
  {
    if nextTick <= tick + d {
      acts := SlowBeatsOverlap(nextTick, lockedAt, nextTick + o.heartbeatIntervalMs, tick, d, o);
      acts := BeforeNextTick(now, lockedAt, 0, nextTick, Some(tick), acts, d, o);
    } else {
      NextBeatIsGreatest(nextTick - tick, d, o);
      acts := SecondBeatOverlaps(now, lockedAt, nextTick, tick, d, o);
    }
  }

  /** From the empty table: an event is appended and claimed. */
  lemma FirstClaim(rest: seq<Action>, d: nat, o: Options) returns (acts: seq<Action>)
    requires Overlaps(OneRouting(0, 0, 0, o.heartbeatIntervalMs, None, o), rest, d, o)
    ensures Overlaps(INIT, acts, d, o)
  {
    var s := State(0, [NewRow("e", 0)], []);
    assert IsBatch(s.rows, s.now, o, [0], {});
    var s' := Apply(s, Claim([0], {}), o);
    assert s'.rows == [ClaimRow(NewRow("e", 0), 0, 0)];
    assert s'.workers[0].batch == [Claimed(0, 0)];
    assert s' == OneRouting(0, 0, 0, o.heartbeatIntervalMs, None, o);
    Before(s, Claim([0], {}), rest, d, o);
    acts := FirstAppend([Claim([0], {})] + rest, d, o);
  }

  lemma FirstAppend(rest: seq<Action>, d: nat, o: Options) returns (acts: seq<Action>)
    requires Overlaps(State(0, [NewRow("e", 0)], []), rest, d, o)
    ensures Overlaps(INIT, acts, d, o)
  {
    assert Apply(INIT, Append("e"), o) == State(0, [NewRow("e", 0)], []);
    Before(INIT, Append("e"), rest, d, o);
    acts := [Append("e")] + rest;
  }

  /** The condition is exact, for every heartbeat delay. */
  lemma LeaseConditionIsExact(d: nat, o: Options)
    ensures HeadRoutingIsExclusive(d, o) <==> NextBeat(d, o) + d <= o.lockTtlMs
  {
    if NextBeat(d, o) + d <= o.lockTtlMs {
      TimelyBeatsExclude(d, o);
    } else {
      var i := o.heartbeatIntervalMs;
      var acts := SlowBeatsOverlap(i, 0, 2 * i, i, d, o);
      acts := BeforeNextTick(0, 0, 0, i, None, acts, d, o);
      acts := FirstClaim(acts, d, o);
      OverlapRefutes(INIT, acts, d, o);
    }
  }

  /** For delays below the interval no tick is ever skipped, and the condition is interval + d <= lockTtl. */
  lemma PromptBeatsCondition(d: nat, o: Options)
    requires d < o.heartbeatIntervalMs
    ensures HeadRoutingIsExclusive(d, o) <==> o.heartbeatIntervalMs + d <= o.lockTtlMs
  {
    NextBeatBounds(d, o);
    LeaseConditionIsExact(d, o);
  }

  /** The environment schema admits only intervals up to half the TTL, which leave room for any such delay. */
  lemma EnvironmentLeavesRoom(d: nat, o: Options)
    requires o.heartbeatIntervalMs <= o.lockTtlMs / 2 && d < o.heartbeatIntervalMs
    ensures HeadRoutingIsExclusive(d, o)
  {
    PromptBeatsCondition(d, o);
  }
}
