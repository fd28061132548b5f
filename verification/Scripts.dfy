/**
 The multi-key Lua scripts, command by command, against the functions that the state machines
 step with.
 */
module Scripts {
  import opened Prelude
  import opened RedisKeys
  import I = Idempotency
  import R = RefreshTokens

  /** The three keys of one idempotency key, as the scripts of redis.service.ts change them. */
  class IdempotencyKeys {
    var now: nat
    var lock: Slot<nat>
    var fence: Slot<I.Hash>
    var result: Slot<I.Stored>

    constructor ()
      ensures Keys() == I.INIT.keys && now == 0
    {
      now, lock, fence, result := 0, Absent, Absent, Absent;
    }

    function Keys(): I.Keys
      reads this
    {
      I.Keys(lock, fence, result)
    }

    method AcquireIdempotencyLockWithFence(token: nat, hash: I.Hash, fenceTtl: Ttl) returns (acquired: bool)
      modifies this`lock, this`fence
      ensures var p := I.AcquireLockWithFence(old(Keys()), now, token, hash, fenceTtl);
        Keys() == p.keys && acquired == p.ok
      ensures acquired <==> !Live(old(lock), now)
      ensures acquired ==> lock == Held(token, now + 30_000) && fence == Held(hash, now + fenceTtl)
      ensures !acquired ==> lock == old(lock) && fence == old(fence)
    {
      if Live(lock, now) {
        return false;
      }
      lock := SetEx(now, token, I.LOCK_TTL_MS);
      fence := SetEx(now, hash, fenceTtl);
      return true;
    }

    method CompleteIdempotency(token: nat, stored: I.Stored, ttl: Ttl) returns (completed: bool)
      modifies this`lock, this`fence, this`result
      ensures var p := I.CompleteIdempotency(old(Keys()), now, token, stored, ttl);
        Keys() == p.keys && completed == p.ok == p.wrote
      ensures completed <==> Matches(old(lock), now, token)
      ensures completed ==> lock == Absent && fence == Absent && result == Held(stored, now + ttl)
      ensures !completed ==> Keys() == old(Keys())
    {
      if !Matches(lock, now, token) {
        return false;
      }
      result := SetEx(now, stored, ttl);
      lock := Absent;
      fence := Absent;
      return true;
    }

    method PersistIdempotencyResultBestEffort(stored: I.Stored, ttl: Ttl) returns (persisted: I.Stored)
      modifies this`fence, this`result
      ensures var p := I.PersistBestEffort(old(Keys()), now, stored, ttl);
        Keys() == p.keys && persisted == if p.wrote then stored else old(result).value
      ensures Get(result, now) == Some(persisted)
      ensures if Live(old(result), now) then Keys() == old(Keys())
              else result == Held(stored, now + ttl) && fence == Absent && lock == old(lock)
    {
      var existing := Get(result, now);
      if existing.Some? {
        return existing.value;
      }
      result := SetEx(now, stored, ttl);
      fence := Absent;
      return stored;
    }
  }

  /** buildIndexTtlRefreshScript: the index outlives what it did and the new member, and nothing more. */
  method RefreshIndexTtl(members: set<nat>, remaining: int, now: nat, ttl: Ttl) returns (slot: Slot<set<nat>>)
    ensures slot.Held? && slot.value == members
    ensures now + remaining <= slot.deadline && now + ttl <= slot.deadline
    ensures slot.deadline == now + ttl || slot.deadline == now + remaining
  {
    var indexTtl: int := ttl;
    if remaining > indexTtl {
      indexTtl := remaining;
    }
    slot := Held(members, now + indexTtl);
  }

  /** SADD answers on a set with its remaining TTL, which is -1 for a set it had to create. */
  method AddToIndex(slot: Slot<set<nat>>, now: nat, family: nat, ttl: Ttl) returns (slot': Slot<set<nat>>)
    ensures slot' == R.Indexed(slot, now, family, ttl)
    ensures forall t: nat | t < now + ttl || (Live(slot, now) && Live(slot, t)) :: Live(slot', t)
  {
    var members, remaining := {family}, -1;
    if Live(slot, now) {
      members, remaining := slot.value + {family}, slot.deadline - now;
    }
    slot' := RefreshIndexTtl(members, remaining, now, ttl);
  }

  method RotateScript(s: R.State, current: nat, next: nat, ttl: Ttl) returns (s': R.State, rotated: bool)
    requires current in s.issued
    ensures s'.(issued := s'.issued[next := s.issued[current]]) == R.RotateToken(s, current, next, ttl)
    ensures rotated <==>
      var family := R.At(s.families, s.issued[current].family);
      Live(R.At(s.tokens, current), s.now) && Live(family, s.now) && family.value == current
    ensures !rotated ==> s' == s
    ensures rotated ==>
      var record := s.issued[current];
      && R.At(s'.tokens, current) == (if next == current then Held(record, s.now + ttl) else Absent)
      && R.At(s'.tokens, next) == Held(record, s.now + ttl)
      && R.At(s'.families, record.family) == Held(next, s.now + ttl)
  {
    s', rotated := s, false;
    var record := s.issued[current];
    if !R.TokenLive(s, current) {
      return;
    }
    var activeFamilyTokenId := Get(R.At(s.families, record.family), s.now);
    if activeFamilyTokenId.None? {
      return;
    }
    if activeFamilyTokenId.value != current {
      return;
    }
    s' := s'.(tokens := s'.tokens[current := Absent]);
    s' := s'.(tokens := s'.tokens[next := SetEx(s.now, record, ttl)]);
    s' := s'.(families := s'.families[record.family := SetEx(s.now, next, ttl)]);
    var index := AddToIndex(R.At(s.index, record.user), s.now, record.family, ttl);
    s' := s'.(index := s'.index[record.user := index], rotated := s'.rotated + {current});
    rotated := true;
  }

  method RevokeScript(s: R.State, family: nat) returns (s': R.State)
    ensures s' == R.RevokeFamily(s, family)
  {
    s' := s;
    var currentTokenId := Get(R.At(s.families, family), s.now);
    if currentTokenId.Some? {
      var rawRecord := Get(R.At(s.tokens, currentTokenId.value), s.now);
      s' := s'.(tokens := s'.tokens[currentTokenId.value := Absent]);
      if rawRecord.Some? {
        var user := rawRecord.value.user;
        s' := s'.(index := s'.index[user := R.Unindexed(R.At(s'.index, user), s.now, family)]);
      }
    }
    s' := s'.(families := s'.families[family := Absent]);
  }
}
