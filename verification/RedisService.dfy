/**
 The single-key commands of redis.service.ts over a key space, stated by what readers see
 afterwards: every key but the one named reads as before.
 */
module RedisService {
  import opened Prelude
  import opened RedisKeys

  class RedisService<V(==)> {
    var now: nat
    var db: map<string, Slot<V>>

    constructor ()
      ensures db == map[] && now == 0
    {
      now, db := 0, map[];
    }

    function At(key: string): Slot<V>
      reads this
    {
      if key in db then db[key] else Absent
    }

    /** What GET answers for a key. */
    function Reads(key: string): Option<V>
      reads this
    {
      Get(At(key), now)
    }

    twostate predicate OnlyChanges(key: string)
      reads this
    {
      now == old(now) && forall other | other != key :: At(other) == old(At(other))
    }

    method Set(key: string, value: V, ttl: Ttl)
      modifies this`db
      ensures OnlyChanges(key) && At(key) == Held(value, now + ttl) && Reads(key) == Some(value)
    {
      db := db[key := SetEx(now, value, ttl)];
    }

    method Del(key: string)
      modifies this`db
      ensures OnlyChanges(key) && At(key) == Absent
    {
      db := db - {key};
    }

    /** SET NX: a live key wins over the newcomer. */
    method SetIfNotExists(key: string, value: V, ttl: Ttl) returns (stored: bool)
      modifies this`db
      ensures OnlyChanges(key) && At(key) == SetNx(old(At(key)), now, value, ttl)
      ensures stored <==> old(Reads(key)).None?
      ensures if stored then At(key) == Held(value, now + ttl) else At(key) == old(At(key))
    {
      stored := !Live(At(key), now);
      if stored {
        db := db[key := SetEx(now, value, ttl)];
      }
    }

    method CompareAndDelete(key: string, expected: V) returns (deleted: bool)
      modifies this`db
      ensures OnlyChanges(key) && At(key) == RedisKeys.CompareAndDelete(old(At(key)), now, expected)
      ensures deleted <==> old(Reads(key)) == Some(expected)
      ensures if deleted then At(key) == Absent else At(key) == old(At(key))
    {
      var current := Reads(key);
      deleted := current == Some(expected);
      if deleted {
        db := db - {key};
      }
    }

    method CompareAndExpire(key: string, expected: V, ttl: Ttl) returns (extended: bool)
      modifies this`db
      ensures OnlyChanges(key) && At(key) == RedisKeys.CompareAndExpire(old(At(key)), now, expected, ttl)
      ensures extended <==> old(Reads(key)) == Some(expected)
      ensures if extended then At(key) == Held(expected, now + ttl) else At(key) == old(At(key))
    {
      var current := Reads(key);
      extended := current == Some(expected);
      if extended {
        db := db[key := SetEx(now, expected, ttl)];
      }
    }
  }
}
