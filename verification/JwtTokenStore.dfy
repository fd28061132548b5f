/**
 The token store and the rotating half of jwt-auth-token.service.ts as they are written. At
 every await other callers and the clock move as the `world` field prescribes; with an empty
 `world` calls run one at a time. Every such run is a run of the state machine.
 */
module JwtTokenStore {
  import opened Prelude
  import opened RedisKeys
  import opened RefreshEffects
  import opened RefreshTokens
  import opened RefreshFamilies
  import opened RefreshPurge

  /** A step of the control flow of purge `p`. */
  predicate Own(a: Action, p: nat) {
    (a.PurgeNext? || a.PurgeEnd?) && a.purge == p
  }

  /** Nothing of any user but `user` differs between two states. */
  ghost predicate KeepsOthers(s: State, s': State, user: string) {
    && s'.now == s.now && s'.issued == s.issued && s'.owners == s.owners
    && (forall f | f in s.owners && s.owners[f] != user :: At(s'.families, f) == At(s.families, f))
    && (forall t | t in s.issued && s.issued[t].user != user :: At(s'.tokens, t) == At(s.tokens, t))
  }

  lemma RevokeKeepsOthers(s: State, family: nat)
    requires Inv(s) && family in s.owners
    ensures KeepsOthers(s, RevokeFamily(s, family), s.owners[family])
  {
  }

  /** What was signed and who owns what are never forgotten. */
  ghost predicate Grows(s: State, s': State) {
    && |s.purges| <= |s'.purges|
    && (forall f | f in s.owners :: f in s'.owners && s'.owners[f] == s.owners[f])
    && (forall t | t in s.issued :: t in s'.issued && s'.issued[t] == s.issued[t])
  }

  lemma GrowsStep(s: State, a: Action)
    requires Enabled(s, a)
    ensures Grows(s, Apply(s, a))
  {
  }

  lemma OthersLeavePurge(s: State, a: Action, p: nat)
    requires Enabled(s, a) && p < |s.purges| && !Own(a, p)
    ensures p < |Apply(s, a).purges| && Apply(s, a).purges[p] == s.purges[p]
  {
  }

  predicate Issued(s: State, t: nat, record: Record) {
    t in s.issued && s.issued[t] == record
  }

  lemma ExchangeResult(s: State, current: nat, next: nat, ttl: Ttl)
    requires Enabled(s, Rotate(current, next, ttl)) && Accepts(s, current, s.issued[current].family)
    ensures var s' := RotateToken(s, current, next, ttl);
      Accepts(s', next, s.issued[current].family) && Issued(s', next, s.issued[current]) && !TokenLive(s', current)
  {
  }

  class RedisJwtTokenStore {
    var st: State
    var world: seq<seq<Action>>
    ghost var trace: seq<Action>

    constructor (world: seq<seq<Action>>)
      ensures Valid() && st == INIT && trace == [] && this.world == world
    {
      this.st, this.world, this.trace := INIT, world, [];
    }

    ghost predicate Valid()
      reads this
    {
      Legal(INIT, trace) && st == Exec(INIT, trace)
    }

    method Step(a: Action)
      requires Valid() && Enabled(st, a)
      modifies this`st, this`trace
      ensures Valid() && st == Apply(old(st), a) && trace == old(trace) + [a]
    {
      OneMore(INIT, trace, a);
      trace := trace + [a];
      st := Apply(st, a);
    }

    /** An await; `mine` is the purge that waits, if one does. */
    method Await(mine: Option<nat>)
      requires Valid() && (mine.Some? ==> mine.value < |st.purges|)
      modifies this`st, this`trace, this`world
      ensures Valid() && old(trace) <= trace && Grows(old(st), st)
      ensures mine.Some? ==> st.purges[mine.value] == old(st).purges[mine.value]
      ensures old(world) == [] ==> st == old(st) && world == []
    {
      if world == [] {
        return;
      }
      var steps := world[0];
      world := world[1..];
      for n := 0 to |steps|
        invariant Valid() && old(trace) <= trace && Grows(old(st), st)
        invariant mine.Some? ==> st.purges[mine.value] == old(st).purges[mine.value]
      {
        if Enabled(st, steps[n]) && (mine.None? || !Own(steps[n], mine.value)) {
          GrowsStep(st, steps[n]);
          if mine.Some? {
            OthersLeavePurge(st, steps[n], mine.value);
          }
          Step(steps[n]);
        }
      }
    }

    /** `createAuthSession`: a new family with its first token. */
    method CreateFamily(user: string, ttl: Ttl) returns (family: nat, token: nat)
      requires Valid()
      modifies this`st, this`trace, this`world
      ensures Valid() && old(trace) <= trace && Grows(old(st), st)
      ensures Accepts(st, token, family) && Issued(st, token, Record(user, family))
      ensures token !in old(st).issued && family !in old(st).owners
      ensures LivesFor(st, token, family, ttl) && family in Members(st, user)
      ensures old(world) == [] ==> world == [] && st == SaveToken(old(st), user, family, token, ttl)
    {
      Await(None);
      family := Fresh(st.owners.Keys);
      token := Fresh(st.issued.Keys);
      GrowsStep(st, Save(user, family, token, ttl));
      SavedTokenLives(st, user, family, token, ttl);
      Step(Save(user, family, token, ttl));
    }

    /** `rotateRefreshToken` for the next token, which is signed before the script decides. */
    method RotateRefreshToken(current: nat, ttl: Ttl) returns (next: nat, rotated: bool)
      requires Valid() && current in st.issued
      modifies this`st, this`trace, this`world
      ensures Valid() && old(trace) <= trace && Grows(old(st), st)
      ensures Issued(st, next, old(st).issued[current])
      ensures rotated ==>
        LivesFor(st, next, old(st).issued[current].family, ttl) && !TokenLive(st, current)
      ensures old(world) == [] ==>
        && world == [] && (rotated <==> Accepts(old(st), current, old(st).issued[current].family))
        && next !in old(st).issued && st == RotateToken(old(st), current, next, ttl)
    {
      Await(None);
      next := Fresh(st.issued.Keys);
      rotated := Accepts(st, current, st.issued[current].family);
      GrowsStep(st, Rotate(current, next, ttl));
      if rotated {
        ExchangeResult(st, current, next, ttl);
        RotatedTokenLives(st, current, next, ttl);
      }
      Step(Rotate(current, next, ttl));
    }

    /** `rotateAuthSession`: the next token, or `None` after the family has been revoked. */
    method RotateSession(current: nat, ttl: Ttl) returns (next: Option<nat>)
      requires Valid() && current in st.issued
      modifies this`st, this`trace, this`world
      ensures Valid() && old(trace) <= trace && Grows(old(st), st)
      ensures var record := old(st).issued[current];
        match next
        case Some(token) =>
          LivesFor(st, token, record.family, ttl) && Accepts(st, token, record.family) &&
          Issued(st, token, record) && !TokenLive(st, current)
        case None => Dead(st, record.family)
      ensures old(world) == [] ==>
        world == [] && st.now == old(st).now &&
        (next.Some? <==> Accepts(old(st), current, old(st).issued[current].family))
      ensures old(world) == [] && next.Some? ==>
        next.value !in old(st).issued && st == RotateToken(old(st), current, next.value, ttl)
    {
      var family := st.issued[current].family;
      InvRun(INIT, trace);
      var signed, rotated := RotateRefreshToken(current, ttl);
      if rotated {
        assert Accepts(st.(now := st.now), signed, family);
        return Some(signed);
      }
      RevokeOne(family);
      return None;
    }

    method RevokeOne(family: nat)
      requires Valid() && family in st.owners
      modifies this`st, this`trace, this`world
      ensures Valid() && old(trace) <= trace && Grows(old(st), st) && Dead(st, family)
      ensures old(world) == [] ==> world == [] && st == RevokeFamily(old(st), family)
      ensures old(world) == [] ==> forall g | g != family :: SameFamily(old(st), st, g)
    {
      Await(None);
      InvRun(INIT, trace);
      InvRevoke(st, family);
      GrowsStep(st, Revoke(family));
      forall g | g != family
        ensures SameFamily(st, Apply(st, Revoke(family)), g)
      {
        RevokeSparesOthers(st, family, g, "");
      }
      Step(Revoke(family));
    }

    /** `revokeAllRefreshTokenFamilies`; `listed` is what SMEMBERS returned. */
    method RevokeAll(user: string) returns (listed: seq<nat>)
      requires Valid()
      modifies this`st, this`trace, this`world
      ensures Valid() && old(trace) <= trace
      ensures forall f | f in listed :: Dead(st, f)
      ensures Members(st, user) == {}
      ensures old(world) == [] ==> world == [] && KeepsOthers(old(st), st, user)
      ensures old(world) == [] ==> (set f | f in listed) == Members(old(st), user)
    {
      Await(None);
      listed := Enumerate(Members(st, user));
      var p := |st.purges|;
      Step(PurgeStart(user, listed));
      for i := 0 to |listed|
        invariant Valid() && old(trace) <= trace && p < |st.purges|
        invariant st.purges[p] == Purge(user, (set f | f in listed), listed[i..], Revoking)
        invariant old(world) == [] ==> world == [] && KeepsOthers(old(st), st, user)
        invariant old(world) == [] ==> (set f | f in listed) == Members(old(st), user)
      {
        PurgeOne(p, user);
      }
      Await(Some(p));
      Step(PurgeEnd(p));
      TakenDieRun(INIT, trace);
      forall f | f in listed
        ensures Dead(st, f)
      {
        assert f in st.purges[p].taken;
      }
    }

    /** One revocation of the loop. */
    method PurgeOne(p: nat, user: string)
      requires Valid() && p < |st.purges| && st.purges[p].pc.Revoking? && st.purges[p].todo != [] &&
        st.purges[p].user == user
      modifies this`st, this`trace, this`world
      ensures Valid() && old(trace) <= trace && p < |st.purges|
      ensures st.purges[p] == old(st).purges[p].(todo := old(st).purges[p].todo[1..])
      ensures old(world) == [] ==> world == [] && KeepsOthers(old(st), st, user)
    {
      Await(Some(p));
      TakenDieRun(INIT, trace);
      OwnersRun(INIT, trace);
      var next := st.purges[p].todo[0];
      assert next in st.purges[p].todo && next in st.purges[p].taken;
      RevokeKeepsOthers(st, next);
      Step(PurgeNext(p));
    }
  }

  /** Purges list families of their own user. */
  ghost predicate TakenOwned(s: State) {
    forall p, f | 0 <= p < |s.purges| && f in s.purges[p].taken :: f in s.owners && s.owners[f] == s.purges[p].user
  }

  lemma TakenOwnedStep(s: State, a: Action)
    requires Inv(s) && TakenOwned(s) && Enabled(s, a)
    ensures TakenOwned(Apply(s, a))
  {
    var s' := Apply(s, a);
    GrowsStep(s, a);
    forall p, f | 0 <= p < |s'.purges| && f in s'.purges[p].taken
      ensures f in s'.owners && s'.owners[f] == s'.purges[p].user
    {
      if p < |s.purges| {
        assert f in s.purges[p].taken;
      } else {
        assert f in Members(s, a.user);
      }
    }
  }

  lemma {:induction false} OwnersRun(s: State, acts: seq<Action>)
    requires Inv(s) && TakenOwned(s) && Legal(s, acts)
    ensures TakenOwned(Exec(s, acts))
    decreases |acts|
  {
    if acts == [] {
    } else {
      InvStep(s, acts[0]);
      TakenOwnedStep(s, acts[0]);
      OwnersRun(Apply(s, acts[0]), acts[1..]);
    }
  }
}
