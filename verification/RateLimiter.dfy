/**
 redis-rate-limiter.ts: a counter that INCR creates and that expires `ttl` after its first
 increment. A run of checks on one key is a sequence of request times.
 */
module RateLimiter {
  import opened Prelude
  import opened RedisKeys

  datatype Verdict = Verdict(allowed: bool, remaining: nat, resetAt: nat)

  /** The increment-with-TTL script. */
  function Incremented(slot: Slot<nat>, now: nat, ttl: Ttl): Slot<nat> {
    if Live(slot, now) then Held(slot.value + 1, slot.deadline) else SetEx(now, 1, ttl)
  }

  /** The counter of one key. */
  class RedisRateLimiter {
    var now: nat
    var counter: Slot<nat>
    /** The times of the requests checked so far, and which of them were let through. */
    ghost var times: seq<nat>
    ghost var allowed: seq<bool>

    constructor ()
      ensures counter == Absent && times == [] && allowed == []
    {
      now, counter, times, allowed := 0, Absent, [], [];
    }

    ghost predicate Valid(limit: nat, ttl: Ttl)
      reads this
    {
      && Chronological(times) && (times != [] ==> times[|times| - 1] <= now)
      && Decided(times, allowed, limit, ttl)
      && counter == CounterOf(times, ttl)
    }

    method Elapse(seconds: nat)
      modifies this`now
      ensures now == old(now) + seconds
    {
      now := now + seconds;
    }

    /** With one limit and TTL throughout, a check decides as the windows of the request times say. */
    method Check(limit: nat, ttl: Ttl) returns (verdict: Verdict)
      requires Valid(limit, ttl)
      modifies this`counter, this`times, this`allowed
      ensures Valid(limit, ttl) && times == old(times) + [now] && allowed == old(allowed) + [verdict.allowed]
      ensures var window := CounterOf(times, ttl);
        verdict == Verdict(window.value <= limit, Max(limit - window.value, 0), window.deadline)
    {
      CounterFollowsWindow(times, now, ttl);
      AddedRequest(times, allowed, now, limit, ttl);
      counter := Incremented(counter, now, ttl);
      var count, remainingTtl := counter.value, counter.deadline - now;
      verdict := Verdict(count <= limit, Max(limit - count, 0), now + remainingTtl);
      times := times + [now];
      allowed := allowed + [verdict.allowed];
    }
  }

  /** The verdicts `allowed` are those that the windows of `times` give. */
  ghost predicate Decided(times: seq<nat>, allowed: seq<bool>, limit: nat, ttl: Ttl) {
    |allowed| == |times| && forall i | 0 <= i < |times| :: allowed[i] == Admitted(times, i, limit, ttl)
  }

  lemma AddedRequest(times: seq<nat>, allowed: seq<bool>, t: nat, limit: nat, ttl: Ttl)
    requires Decided(times, allowed, limit, ttl) && Chronological(times) && (times != [] ==> times[|times| - 1] <= t)
    ensures Decided(times + [t], allowed + [CounterOf(times + [t], ttl).value <= limit], limit, ttl)
    ensures Chronological(times + [t])
  {
    OneMoreRequest(times, t, limit, ttl);
  }

  /** A further request leaves the standing of the earlier ones. */
  lemma OneMoreRequest(times: seq<nat>, t: nat, limit: nat, ttl: Ttl)
    ensures forall i | 0 <= i < |times| :: Admitted(times + [t], i, limit, ttl) == Admitted(times, i, limit, ttl)
  {
    forall i | 0 <= i < |times|
      ensures Admitted(times + [t], i, limit, ttl) == Admitted(times, i, limit, ttl)
    {
      WindowsArePrefixStable(times, t, i, ttl);
    }
  }

  /** The counter value and deadline that the window of the last request calls for. */
  function CounterOf(times: seq<nat>, ttl: Ttl): (counter: Slot<nat>)
    ensures times != [] ==> counter.Held?
  {
    if times == [] then Absent
    else
      var w := WindowStart(times, |times| - 1, ttl);
      Held(|times| - w, times[w] + ttl)
  }

  lemma CounterFollowsWindow(times: seq<nat>, t: nat, ttl: Ttl)
    ensures CounterOf(times + [t], ttl) == Incremented(CounterOf(times, ttl), t, ttl)
  {
    if times == [] {
    } else {
      WindowsArePrefixStable(times, t, |times| - 1, ttl);
    }
  }

  // ---------------------------------------------------------------- windows

  predicate Chronological(times: seq<nat>) {
    forall i, j | 0 <= i <= j < |times| :: times[i] <= times[j]
  }

  /**
   Reference definition: the first request opens a window of length `ttl`, and the first
   request at or after its end opens the next one.
   */
  function WindowStart(times: seq<nat>, i: nat, ttl: Ttl): (w: nat)
    requires i < |times|
    ensures w <= i
  {
    if i == 0 then 0
    else
      var w := WindowStart(times, i - 1, ttl);
      if times[i] < times[w] + ttl then w else i
  }

  predicate Admitted(times: seq<nat>, i: nat, limit: nat, ttl: Ttl)
    requires i < |times|
  {
    i - WindowStart(times, i, ttl) + 1 <= limit
  }

  lemma {:induction false} WindowsArePrefixStable(times: seq<nat>, t: nat, i: nat, ttl: Ttl)
    requires i < |times|
    ensures WindowStart(times + [t], i, ttl) == WindowStart(times, i, ttl)
  {
    if i == 0 {
    } else {
      WindowsArePrefixStable(times, t, i - 1, ttl);
    }
  }

  /** A window's requests are consecutive. */
  lemma {:induction false} WindowSpan(times: seq<nat>, i: nat, k: nat, ttl: Ttl)
    requires i < |times| && WindowStart(times, i, ttl) <= k <= i
    ensures WindowStart(times, k, ttl) == WindowStart(times, i, ttl)
    decreases i
  {
    if k < i {
      WindowSpan(times, i - 1, k, ttl);
    }
  }

  /** A window's requests are within `ttl` of its first, and it opened `ttl` or more after the one before. */
  lemma {:induction false} WindowShape(times: seq<nat>, i: nat, ttl: Ttl)
    requires i < |times|
    ensures var w := WindowStart(times, i, ttl);
      WindowStart(times, w, ttl) == w && times[i] < times[w] + ttl &&
      (w > 0 ==> times[WindowStart(times, w - 1, ttl)] + ttl <= times[w]) &&
      (forall k | w <= k <= i :: WindowStart(times, k, ttl) == w)
  {
    var w := WindowStart(times, i, ttl);
    WindowSpan(times, i, w, ttl);
    forall k | w <= k <= i
      ensures WindowStart(times, k, ttl) == w
    {
      WindowSpan(times, i, k, ttl);
    }
  }

  /** Window starts never go back. */
  lemma {:induction false} WindowsAdvance(times: seq<nat>, i: nat, j: nat, ttl: Ttl)
    requires i <= j < |times|
    ensures WindowStart(times, i, ttl) <= WindowStart(times, j, ttl)
    decreases j
  {
    if i < j {
      WindowsAdvance(times, i, j - 1, ttl);
    }
  }

  /** Requests let through among those with numbers from `lo` up to, but not including, `hi`. */
  function AdmittedCount(times: seq<nat>, lo: nat, hi: nat, limit: nat, ttl: Ttl): nat
    requires lo <= hi <= |times|
    decreases hi
  {
    if lo == hi then 0
    else AdmittedCount(times, lo, hi - 1, limit, ttl) + if Admitted(times, hi - 1, limit, ttl) then 1 else 0
  }

  /** Each window admits exactly min(requests, limit): its first `limit` requests. */
  lemma {:induction false} WindowAdmitsUpToLimit(times: seq<nat>, w: nat, hi: nat, limit: nat, ttl: Ttl)
    requires w <= hi <= |times| && forall k | w <= k < hi :: WindowStart(times, k, ttl) == w
    ensures AdmittedCount(times, w, hi, limit, ttl) == Min(hi - w, limit)
    decreases hi
  {
    if w < hi {
      WindowAdmitsUpToLimit(times, w, hi - 1, limit, ttl);
    }
  }

  lemma {:induction false} CountSplits(times: seq<nat>, lo: nat, mid: nat, hi: nat, limit: nat, ttl: Ttl)
    requires lo <= mid <= hi <= |times|
    ensures AdmittedCount(times, lo, hi, limit, ttl) ==
      AdmittedCount(times, lo, mid, limit, ttl) + AdmittedCount(times, mid, hi, limit, ttl)
    decreases hi
  {
    if mid < hi {
      CountSplits(times, lo, mid, hi - 1, limit, ttl);
    }
  }

  /** Part of one window admits at most the limit. */
  lemma PartOfWindow(times: seq<nat>, w: nat, lo: nat, hi: nat, limit: nat, ttl: Ttl)
    requires w <= lo <= hi <= |times| && forall k | w <= k < hi :: WindowStart(times, k, ttl) == w
    ensures AdmittedCount(times, lo, hi, limit, ttl) <= limit
  {
    WindowAdmitsUpToLimit(times, w, hi, limit, ttl);
    CountSplits(times, w, lo, hi, limit, ttl);
  }

  /** A part that misses the first request of its window, which was let through, admits one less. */
  lemma TailOfWindow(times: seq<nat>, w: nat, lo: nat, hi: nat, limit: nat, ttl: Ttl)
    requires w < lo <= hi <= |times| && 0 < limit && forall k | w <= k < hi :: WindowStart(times, k, ttl) == w
    ensures AdmittedCount(times, lo, hi, limit, ttl) <= limit - 1
  {
    WindowAdmitsUpToLimit(times, w, lo, limit, ttl);
    WindowAdmitsUpToLimit(times, w, hi, limit, ttl);
    CountSplits(times, w, lo, hi, limit, ttl);
  }

  /**
   Any stretch of `ttl` seconds, aligned with the windows or not, admits at most 2 * limit - 1
   requests: it meets two windows at most, and of the earlier one it misses the first request.
   */
  lemma StretchAdmitsLessThanTwiceLimit(times: seq<nat>, lo: nat, hi: nat, limit: nat, ttl: Ttl)
    requires Chronological(times) && lo < hi <= |times| && times[hi - 1] < times[lo] + ttl
    ensures AdmittedCount(times, lo, hi, limit, ttl) <= Max(2 * limit - 1, 0)
  {
    var first, last := WindowStart(times, lo, ttl), WindowStart(times, hi - 1, ttl);
    WindowsAdvance(times, lo, hi - 1, ttl);
    WindowShape(times, lo, ttl);
    WindowShape(times, hi - 1, ttl);
    if last <= lo {
      PartOfWindow(times, last, lo, hi, limit, ttl);
    } else {
      OneWindowBetween(times, lo, last, ttl);
      PartOfWindow(times, first, lo, last, limit, ttl);
      PartOfWindow(times, last, last, hi, limit, ttl);
      CountSplits(times, lo, last, hi, limit, ttl);
      if 0 < limit {
        TailOfWindow(times, first, lo, last, limit, ttl);
      }
    }
  }

  /** A window opening less than `ttl` after request `lo` directly follows the window of `lo`, which opened before. */
  lemma OneWindowBetween(times: seq<nat>, lo: nat, last: nat, ttl: Ttl)
    requires Chronological(times) && lo < last < |times| && WindowStart(times, last, ttl) == last
    requires times[last] < times[lo] + ttl
    ensures forall k | WindowStart(times, lo, ttl) <= k < last ::
      WindowStart(times, k, ttl) == WindowStart(times, lo, ttl)
    ensures WindowStart(times, lo, ttl) < lo
  {
    var before := WindowStart(times, last - 1, ttl);
    WindowShape(times, last, ttl);
    WindowShape(times, last - 1, ttl);
    WindowShape(times, lo, ttl);
    WindowsAdvance(times, lo, last - 1, ttl);
    assert before < lo by {
      ChronologicalAt(times, lo, before);
    }
  }

  lemma ChronologicalAt(times: seq<nat>, i: nat, j: nat)
    requires Chronological(times) && i < |times| && j < |times|
    ensures i <= j ==> times[i] <= times[j]
  {
  }

  // ---------------------------------------------------------------- the bound is reached

  /** One request, the rest of the limit just before the window closes, and a full limit just after. */
  function Burst(limit: nat, ttl: Ttl): seq<nat> {
    seq(2 * limit, i => if i == 0 then 0 else if i < limit then ttl - 1 else ttl)
  }

  lemma {:induction false} BurstWindows(limit: nat, ttl: Ttl, i: nat)
    requires 0 < limit && i < 2 * limit
    ensures WindowStart(Burst(limit, ttl), i, ttl) == if i < limit then 0 else limit
  {
    if i == 0 {
    } else {
      BurstWindows(limit, ttl, i - 1);
    }
  }

  lemma StretchBoundIsReached(limit: nat, ttl: Ttl)
    requires 0 < limit && 2 <= ttl
    ensures var times := Burst(limit, ttl);
      Chronological(times) && (1 < 2 * limit - 1 ==> times[2 * limit - 1] < times[1] + ttl) &&
      AdmittedCount(times, 1, 2 * limit, limit, ttl) == 2 * limit - 1
  {
    var times := Burst(limit, ttl);
    forall k | 0 <= k < 2 * limit
      ensures WindowStart(times, k, ttl) == if k < limit then 0 else limit
    {
      BurstWindows(limit, ttl, k);
    }
    WindowAdmitsUpToLimit(times, 0, 1, limit, ttl);
    WindowAdmitsUpToLimit(times, 0, limit, limit, ttl);
    WindowAdmitsUpToLimit(times, limit, 2 * limit, limit, ttl);
    CountSplits(times, 0, 1, limit, limit, ttl);
    CountSplits(times, 1, limit, 2 * limit, limit, ttl);
  }
}
