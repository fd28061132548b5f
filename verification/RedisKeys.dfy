/**
 One Redis string key under a clock, and the single-key commands that redis.service.ts
 sends. Redis runs a command or a Lua script without interruption, so each is one function.
 A TTL is positive: Redis itself refuses to set a key with any other.
 */
module RedisKeys {
  import opened Prelude

  type Ttl = t: nat | 0 < t witness 1

  /** What is stored under a key: nothing, or a value that Redis serves until `deadline`. */
  datatype Slot<+V> = Absent | Held(value: V, deadline: nat)

  predicate Live<V>(slot: Slot<V>, now: nat) {
    slot.Held? && now < slot.deadline
  }

  predicate Matches<V(==)>(slot: Slot<V>, now: nat, expected: V) {
    Live(slot, now) && slot.value == expected
  }

  /** GET */
  function Get<V>(slot: Slot<V>, now: nat): Option<V> {
    if Live(slot, now) then Some(slot.value) else None
  }

  /** SET .. EX */
  function SetEx<V>(now: nat, value: V, ttl: Ttl): Slot<V> {
    Held(value, now + ttl)
  }

  /** SET .. EX .. NX */
  function SetNx<V>(slot: Slot<V>, now: nat, value: V, ttl: Ttl): Slot<V> {
    if Live(slot, now) then slot else SetEx(now, value, ttl)
  }

  /** The compare-and-expire script. */
  function CompareAndExpire<V(==)>(slot: Slot<V>, now: nat, expected: V, ttl: Ttl): Slot<V> {
    if Matches(slot, now, expected) then SetEx(now, expected, ttl) else slot
  }

  /** The compare-and-delete script. */
  function CompareAndDelete<V(==)>(slot: Slot<V>, now: nat, expected: V): Slot<V> {
    if Matches(slot, now, expected) then Absent else slot
  }
}
