/**
 redis-job-execution.store.ts over the Redis commands. What each method leaves under its key
 is what the command of the same name does in the state machine of the email worker.
 */
module JobExecutionStore {
  import opened Prelude
  import opened RedisKeys
  import opened RedisService
  import opened EmailWorker

  function BuildKey(key: string): string {
    "job-execution:" + key
  }

  /** A worker call of the state machine that awaits the command of the given place. */
  function Awaiting(pc: Pc): Call {
    Call(None, false, pc, false, None, 0, None, None)
  }

  class RedisJobExecutionStore {
    const redis: RedisService<JobValue>
    const o: Options
    /** Ownership tokens drawn so far. */
    var drawn: nat

    constructor (redis: RedisService<JobValue>, o: Options)
      ensures this.redis == redis && this.o == o && drawn == 0
    {
      this.redis, this.o, this.drawn := redis, o, 0;
    }

    function At(key: string): Slot<JobValue>
      reads redis
    {
      redis.At(BuildKey(key))
    }

    method Acquire(key: string) returns (token: Option<nat>)
      modifies this`drawn, redis`db
      ensures redis.OnlyChanges(BuildKey(key))
      ensures At(key) == Perform(Awaiting(Acquiring), old(drawn), old(At(key)), redis.now, o)
      ensures token.Some? <==> !Live(old(At(key)), redis.now)
      ensures token.Some? ==> token.value == old(drawn) && At(key) == Held(Owner(token.value), redis.now + o.leaseTtl)
      ensures token.None? ==> At(key) == old(At(key))
      ensures drawn == old(drawn) + 1
    {
      var ownershipToken := drawn;
      drawn := drawn + 1;
      var acquired := redis.SetIfNotExists(BuildKey(key), Owner(ownershipToken), o.leaseTtl);
      return if acquired then Some(ownershipToken) else None;
    }

    method Extend(key: string, ownershipToken: nat) returns (extended: bool)
      modifies redis`db
      ensures redis.OnlyChanges(BuildKey(key))
      ensures extended <==> Matches(old(At(key)), redis.now, Owner(ownershipToken))
      ensures At(key) == if extended then Held(Owner(ownershipToken), redis.now + o.leaseTtl) else old(At(key))
    {
      extended := redis.CompareAndExpire(BuildKey(key), Owner(ownershipToken), o.leaseTtl);
    }

    method Complete(key: string, ownershipToken: nat) returns (completed: bool)
      modifies redis`db
      ensures redis.OnlyChanges(BuildKey(key))
      ensures completed <==> Matches(old(At(key)), redis.now, Owner(ownershipToken))
      ensures At(key) == Perform(Awaiting(Completing), ownershipToken, old(At(key)), redis.now, o)
      ensures At(key) == if completed then Held(Completed, redis.now + o.retentionTtl) else old(At(key))
    {
      var current := redis.Reads(BuildKey(key));
      completed := current == Some(Owner(ownershipToken));
      if completed {
        redis.Set(BuildKey(key), Completed, o.retentionTtl);
      }
    }

    method Release(key: string, ownershipToken: nat)
      modifies redis`db
      ensures redis.OnlyChanges(BuildKey(key))
      ensures At(key) == Perform(Awaiting(Releasing), ownershipToken, old(At(key)), redis.now, o)
      ensures At(key) == if Matches(old(At(key)), redis.now, Owner(ownershipToken)) then Absent else old(At(key))
    {
      var deleted := redis.CompareAndDelete(BuildKey(key), Owner(ownershipToken));
    }

    method MarkAmbiguousSent(key: string)
      modifies redis`db
      ensures redis.OnlyChanges(BuildKey(key))
      ensures At(key) == Perform(Awaiting(MarkingAmbiguous), 0, old(At(key)), redis.now, o)
      ensures At(key) == Held(SentAmbiguous, redis.now + o.retentionTtl)
    {
      redis.Set(BuildKey(key), SentAmbiguous, o.retentionTtl);
    }
  }
}
