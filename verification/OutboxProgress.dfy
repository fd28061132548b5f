/**
 No starvation: without lease loss, an eligible row with n older unfinished rows is claimed
 within floor(n * maxAttempts / batchSize) + 1 claim batches, however many newer rows arrive.
 Each batch that passes the row over is full of older rows, and an older row can be claimed
 at most once per attempt it has left.
 */
module OutboxProgress {
  import opened Prelude
  import opened Outbox
  import opened OutboxLedger

  /** Claims an unfinished row can still consume. */
  function ClaimsLeft(row: Row, o: Options): int {
    match row.status
    case Pending => o.maxAttempts - row.attempts
    case Processing => o.maxAttempts - row.attempts - 1
    case _ => 0
  }

  /** Row `i` competes with a row created at `bound`: it sorts no later. */
  function Competition(rows: seq<Row>, i: nat, r: nat, bound: nat, o: Options): int
    requires i < |rows|
  {
    if i != r && rows[i].createdAt <= bound then ClaimsLeft(rows[i], o) else 0
  }

  function Backlog(rows: seq<Row>, r: nat, bound: nat, o: Options): int {
    if rows == [] then 0
    else Backlog(rows[..|rows| - 1], r, bound, o) + Competition(rows, |rows| - 1, r, bound, o)
  }

  /** The older rows that are not finished. */
  function OlderUnfinished(rows: seq<Row>, r: nat, bound: nat): nat {
    if rows == [] then 0
    else
      var last := |rows| - 1;
      OlderUnfinished(rows[..last], r, bound) +
      if last != r && rows[last].createdAt <= bound && !Terminal(rows[last]) then 1 else 0
  }

  lemma {:induction false} BacklogUpdate(rows: seq<Row>, i: nat, row: Row, r: nat, bound: nat, o: Options)
    requires i < |rows|
    ensures Backlog(rows[i := row], r, bound, o) ==
      Backlog(rows, r, bound, o) - Competition(rows, i, r, bound, o) + Competition(rows[i := row], i, r, bound, o)
    decreases |rows|
  {
    var n := |rows| - 1;
    if i < n {
      assert rows[i := row][..n] == rows[..n][i := row];
      BacklogUpdate(rows[..n], i, row, r, bound, o);
    } else {
      assert rows[i := row][..n] == rows[..n];
    }
  }

  /** Claiming distinct pending older rows uses up one claim of each. */
  lemma {:induction false} BacklogClaim(rows: seq<Row>, ids: seq<nat>, k: nat, now: nat, r: nat, bound: nat, o: Options)
    requires forall p | 0 <= p < |ids| ::
      ids[p] < |rows| && ids[p] != r && rows[ids[p]].status.Pending? && rows[ids[p]].createdAt <= bound
    requires forall p, q | 0 <= p < q < |ids| :: ids[p] != ids[q]
    ensures Backlog(ClaimRows(rows, ids, k, now), r, bound, o) == Backlog(rows, r, bound, o) - |ids|
    decreases |ids|
  {
    if ids == [] {
      assert ClaimRows(rows, ids, k, now) == rows;
    } else {
      var n := |ids| - 1;
      var last, rest := ids[n], ids[..n];
      var before := ClaimRows(rows, rest, k, now);
      BacklogClaim(rows, rest, k, now, r, bound, o);
      assert last !in rest;
      assert before[last] == rows[last];
      assert ids == rest + [last];
      assert ClaimRows(rows, ids, k, now) == before[last := ClaimRow(rows[last], k, now)];
      BacklogUpdate(before, last, ClaimRow(rows[last], k, now), r, bound, o);
    }
  }

  lemma {:induction false} BacklogBound(rows: seq<Row>, r: nat, bound: nat, o: Options)
    requires forall i | 0 <= i < |rows| ::
      rows[i].attempts <= o.maxAttempts && (rows[i].status.Processing? ==> rows[i].attempts < o.maxAttempts)
    ensures 0 <= Backlog(rows, r, bound, o) <= OlderUnfinished(rows, r, bound) * o.maxAttempts
    decreases |rows|
  {
    if rows == [] {
    } else {
      var last := |rows| - 1;
      BacklogBound(rows[..last], r, bound, o);
      assert 0 <= Competition(rows, last, r, bound, o) <= o.maxAttempts;
      OneMoreFactor(OlderUnfinished(rows[..last], r, bound), o.maxAttempts);
    }
  }

  lemma OneMoreFactor(n: nat, m: nat)
    ensures (n + 1) * m == n * m + m
  {
  }

  // ---------------------------------------------------------------- runs

  /** No lease is lost, no other transaction holds row `r` when a claim runs, and arrivals are newer than `r`. */
  predicate Orderly(s: State, a: Action, r: nat) {
    r < |s.rows| &&
    match a
    case Claim(ids, skipped) => r !in skipped && forall p | 0 <= p < |ids| ::
      ids[p] < |s.rows| && s.rows[ids[p]].status.Pending?
    case Append(_) => s.rows[r].createdAt < s.now
    case _ => true
  }

  predicate OrderlyRun(s: State, acts: seq<Action>, r: nat, o: Options)
    decreases |acts|
  {
    acts == [] ||
    (Enabled(s, acts[0], o) && Orderly(s, acts[0], r) && OrderlyRun(Apply(s, acts[0], o), acts[1..], r, o))
  }

  predicate Takes(a: Action, r: nat) {
    a.Claim? && r in a.ids
  }

  function Claims(acts: seq<Action>): nat {
    if acts == [] then 0 else (if acts[0].Claim? then 1 else 0) + Claims(acts[1..])
  }

  predicate Waiting(s: State, r: nat, o: Options) {
    r < |s.rows| && s.rows[r].status.Pending? && Claimable(s.rows[r], s.now, o)
  }

  lemma ClaimPassesOver(s: State, ids: seq<nat>, skipped: set<nat>, r: nat, o: Options)
    requires Inv(s, o) && Waiting(s, r, o) && Enabled(s, Claim(ids, skipped), o)
    requires Orderly(s, Claim(ids, skipped), r) && r !in ids
    ensures var s' := Apply(s, Claim(ids, skipped), o);
      Waiting(s', r, o) && s'.rows[r] == s.rows[r] &&
      Backlog(s'.rows, r, s.rows[r].createdAt, o) == Backlog(s.rows, r, s.rows[r].createdAt, o) - o.batchSize
  {
    BacklogClaim(s.rows, ids, |s.workers|, s.now, r, s.rows[r].createdAt, o);
  }

  lemma OtherStep(s: State, a: Action, r: nat, o: Options)
    requires Inv(s, o) && Waiting(s, r, o) && Enabled(s, a, o) && Orderly(s, a, r) && !a.Claim?
    ensures var s' := Apply(s, a, o);
      Waiting(s', r, o) && s'.rows[r] == s.rows[r] &&
      Backlog(s'.rows, r, s.rows[r].createdAt, o) <= Backlog(s.rows, r, s.rows[r].createdAt, o)
  {
    var s', bound := Apply(s, a, o), s.rows[r].createdAt;
    assert RowConsistent(s.rows[r], s.now, o);
    if a.Append? {
      assert s'.rows[..|s.rows|] == s.rows;
    } else if a.Land? || a.Mark? || a.MarkReject? {
      var i := CurrentRow(s, a.worker);
      assert RowConsistent(s.rows[i], s.now, o);
      if OwnedBy(s.rows[i], a.worker) && !a.Land? {
        MarkedRowConsistent(s, a.worker, o);
      }
      BacklogUpdate(s.rows, i, s'.rows[i], r, bound, o);
      assert s'.rows == s.rows[i := s'.rows[i]];
    }
  }

  lemma StillNotTaken(acts: seq<Action>, r: nat)
    requires acts != [] && forall i | 0 <= i < |acts| :: !Takes(acts[i], r)
    ensures forall i | 0 <= i < |acts[1..]| :: !Takes(acts[1..][i], r)
  {
    assert forall i | 0 <= i < |acts[1..]| :: acts[1..][i] == acts[i + 1];
  }

  /** One orderly step that does not take `r`: what it costs the backlog. */
  lemma PassStep(s: State, a: Action, r: nat, o: Options)
    requires Inv(s, o) && Waiting(s, r, o) && Enabled(s, a, o) && Orderly(s, a, r) && !Takes(a, r)
    ensures var s' := Apply(s, a, o);
      Inv(s', o) && Waiting(s', r, o) && s'.rows[r] == s.rows[r] &&
      Backlog(s'.rows, r, s.rows[r].createdAt, o) + Cost(a, o) <= Backlog(s.rows, r, s.rows[r].createdAt, o)
  {
    InvStep(s, a, o);
    if a.Claim? {
      ClaimPassesOver(s, a.ids, a.skipped, r, o);
    } else {
      OtherStep(s, a, r, o);
    }
  }

  function Cost(a: Action, o: Options): nat {
    if a.Claim? then o.batchSize else 0
  }

  function TotalCost(acts: seq<Action>, o: Options): nat {
    if acts == [] then 0 else Cost(acts[0], o) + TotalCost(acts[1..], o)
  }

  lemma {:induction false} TotalCostIsClaims(acts: seq<Action>, o: Options)
    ensures TotalCost(acts, o) == Claims(acts) * o.batchSize
  {
    if acts == [] {
    } else {
      TotalCostIsClaims(acts[1..], o);
      OneMoreFactor(Claims(acts[1..]), o.batchSize);
    }
  }

  lemma {:induction false} PassedOverRun(s: State, acts: seq<Action>, r: nat, o: Options)
    requires Inv(s, o) && Waiting(s, r, o) && OrderlyRun(s, acts, r, o)
    requires forall i | 0 <= i < |acts| :: !Takes(acts[i], r)
    ensures TotalCost(acts, o) <= Backlog(s.rows, r, s.rows[r].createdAt, o)
    decreases |acts|
  {
    if acts == [] {
      BacklogIsPositive(s, r, s.rows[r].createdAt, o);
    } else {
      PassStep(s, acts[0], r, o);
      StillNotTaken(acts, r);
      PassedOverRun(Apply(s, acts[0], o), acts[1..], r, o);
    }
  }

  lemma BacklogIsPositive(s: State, r: nat, bound: nat, o: Options)
    requires Inv(s, o)
    ensures 0 <= Backlog(s.rows, r, bound, o) <= OlderUnfinished(s.rows, r, bound) * o.maxAttempts
  {
    assert forall i | 0 <= i < |s.rows| :: RowConsistent(s.rows[i], s.now, o);
    BacklogBound(s.rows, r, bound, o);
  }

  lemma QuotientBound(c: nat, b: Pos, t: nat)
    requires c * b <= t
    ensures c <= t / b
  {
    QuotientUpper(t, b);
    ProductGrows(t / b + 1, c, b);
  }

  lemma QuotientUpper(t: nat, b: Pos)
    ensures t < (t / b + 1) * b
  {
    assert t == (t / b) * b + t % b;
    OneMoreFactor(t / b, b);
  }

  lemma ProductGrows(x: nat, y: nat, b: nat)
    ensures x <= y ==> x * b <= y * b
  {
  }

  /**
   Among any floor(n * maxAttempts / batchSize) + 1 claim batches of an orderly run from a
   reachable state, one takes the waiting row, where n counts its older unfinished rows.
   */
  lemma {:induction false} NoStarvation(before: seq<Action>, acts: seq<Action>, r: nat, o: Options)
    requires Legal(INIT, before, o) && Waiting(Exec(INIT, before, o), r, o)
    requires OrderlyRun(Exec(INIT, before, o), acts, r, o)
    requires var s := Exec(INIT, before, o);
      Claims(acts) == OlderUnfinished(s.rows, r, s.rows[r].createdAt) * o.maxAttempts / o.batchSize + 1
    ensures exists i :: 0 <= i < |acts| && Takes(acts[i], r)
  {
    var s := Exec(INIT, before, o);
    var n := OlderUnfinished(s.rows, r, s.rows[r].createdAt);
    InvFromStart(before, o);
    if forall i | 0 <= i < |acts| :: !Takes(acts[i], r) {
      PassedOverRun(s, acts, r, o);
      TotalCostIsClaims(acts, o);
      BacklogIsPositive(s, r, s.rows[r].createdAt, o);
      QuotientBound(Claims(acts), o.batchSize, n * o.maxAttempts);
    }
  }
}
