/**
 The `setInterval` heartbeat that guards a lease: a tick sends a renewal unless one is still
 in flight. `nextTick` is when the timer is due, `beat` the tick of the renewal in flight.
 */
module Heartbeat {
  import opened Prelude

  /** The timer fires on time, and a renewal in flight lands within `d` of its tick. */
  predicate OnTime(now: nat, nextTick: nat, beat: Option<nat>, d: nat) {
    now <= nextTick && (beat.Some? ==> now <= beat.value + d)
  }
}
