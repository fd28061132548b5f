/**
 Rotation safety: a family has one live token, the one its cursor names; a token is
 exchanged at most once; a family that is revoked or has expired never comes back.
 */
module RefreshFamilies {
  import opened Prelude
  import opened RedisKeys
  import opened RefreshTokens

  /** A live token is issued as it stands, and its family's cursor names it until the same deadline. */
  ghost predicate TokensNamed(s: State) {
    forall t | t in s.tokens && TokenLive(s, t) ::
      && t in s.issued && s.issued[t] == s.tokens[t].value
      && At(s.families, s.tokens[t].value.family) == Held(t, s.tokens[t].deadline)
  }

  /** A live family's cursor names a live token of it, until the same deadline. */
  ghost predicate CursorsLive(s: State) {
    forall f | f in s.families && FamilyLive(s, f) ::
      f in s.owners && At(s.tokens, s.families[f].value) == Held(Record(s.owners[f], f), s.families[f].deadline)
  }

  ghost predicate ClaimsOwned(s: State) {
    && (forall t | t in s.rotated :: t in s.issued && !TokenLive(s, t))
    && (forall t | t in s.issued :: s.issued[t].family in s.owners && s.owners[s.issued[t].family] == s.issued[t].user)
  }

  /** An index lists only families of its user. */
  ghost predicate ListsOwned(s: State) {
    forall u, f | u in s.index && f in Members(s, u) :: f in s.owners && s.owners[f] == u
  }

  ghost predicate Inv(s: State) {
    TokensNamed(s) && CursorsLive(s) && ClaimsOwned(s) && ListsOwned(s)
  }

  lemma RevokeLists(s: State, family: nat)
    requires ListsOwned(s)
    ensures ListsOwned(RevokeFamily(s, family))
  {
    var s' := RevokeFamily(s, family);
    forall u, f | u in s'.index && f in Members(s', u)
      ensures f in s'.owners && s'.owners[f] == u
    {
      assert u in s.index && f in Members(s, u);
    }
  }

  lemma InvRevoke(s: State, family: nat)
    requires Inv(s)
    ensures Inv(RevokeFamily(s, family)) && !FamilyLive(RevokeFamily(s, family), family)
  {
    RevokeLists(s, family);
  }

  lemma IndexedLists(s: State, s': State, user: string, family: nat, ttl: Ttl)
    requires ListsOwned(s) && s'.now == s.now &&
      s'.index == s.index[user := Indexed(At(s.index, user), s.now, family, ttl)]
    requires family in s'.owners && s'.owners[family] == user
    requires forall f | f in s.owners :: f in s'.owners && s'.owners[f] == s.owners[f]
    ensures ListsOwned(s')
  {
    forall u, f | u in s'.index && f in Members(s', u)
      ensures f in s'.owners && s'.owners[f] == u
    {
      assert (u in s.index && f in Members(s, u)) || (u == user && f == family);
    }
  }

  lemma RotateKeys(s: State, current: nat, next: nat, ttl: Ttl)
    requires Inv(s) && Enabled(s, Rotate(current, next, ttl))
    ensures var s' := RotateToken(s, current, next, ttl); TokensNamed(s') && CursorsLive(s')
  {
  }

  lemma RotateClaims(s: State, current: nat, next: nat, ttl: Ttl)
    requires Inv(s) && Enabled(s, Rotate(current, next, ttl))
    ensures ClaimsOwned(RotateToken(s, current, next, ttl))
  {
  }

  lemma InvRotate(s: State, current: nat, next: nat, ttl: Ttl)
    requires Inv(s) && Enabled(s, Rotate(current, next, ttl))
    ensures Inv(RotateToken(s, current, next, ttl))
  {
    RotateKeys(s, current, next, ttl);
    RotateClaims(s, current, next, ttl);
    var s' := RotateToken(s, current, next, ttl);
    if Accepts(s, current, s.issued[current].family) {
      IndexedLists(s, s', s.issued[current].user, s.issued[current].family, ttl);
    } else {
      assert forall u :: Members(s', u) == Members(s, u);
    }
  }

  lemma SaveKeys(s: State, user: string, family: nat, token: nat, ttl: Ttl)
    requires Inv(s) && Enabled(s, Save(user, family, token, ttl))
    ensures var s' := SaveToken(s, user, family, token, ttl); TokensNamed(s') && CursorsLive(s') && ClaimsOwned(s')
  {
  }

  lemma InvSave(s: State, user: string, family: nat, token: nat, ttl: Ttl)
    requires Inv(s) && Enabled(s, Save(user, family, token, ttl))
    ensures Inv(SaveToken(s, user, family, token, ttl))
  {
    SaveKeys(s, user, family, token, ttl);
    IndexedLists(s, SaveToken(s, user, family, token, ttl), user, family, ttl);
  }

  lemma InvTick(s: State, dt: nat)
    requires Inv(s)
    ensures Inv(s.(now := s.now + dt))
  {
    var s' := s.(now := s.now + dt);
    forall u, f | u in s'.index && f in Members(s', u)
      ensures f in s'.owners && s'.owners[f] == u
    {
      assert f in Members(s, u);
    }
  }

  /** The invariant is about the keys, not about who is purging. */
  lemma InvPurges(s: State, purges: seq<Purge>)
    requires Inv(s)
    ensures Inv(s.(purges := purges))
  {
    var s' := s.(purges := purges);
    forall u, f | u in s'.index && f in Members(s', u)
      ensures f in s'.owners && s'.owners[f] == u
    {
      assert f in Members(s, u);
    }
  }

  lemma InvDropIndex(s: State, user: string)
    requires Inv(s)
    ensures Inv(s.(index := s.index[user := Absent]))
  {
    var s' := s.(index := s.index[user := Absent]);
    forall u, f | u in s'.index && f in Members(s', u)
      ensures f in s'.owners && s'.owners[f] == u
    {
      assert f in Members(s, u);
    }
  }

  lemma InvStep(s: State, a: Action)
    requires Inv(s) && Enabled(s, a)
    ensures Inv(Apply(s, a))
  {
    match a
    case Tick(dt) => InvTick(s, dt);
    case Save(user, family, token, ttl) => InvSave(s, user, family, token, ttl);
    case Rotate(current, next, ttl) => InvRotate(s, current, next, ttl);
    case Revoke(family) => InvRevoke(s, family);
    case PurgeStart(_, _) => InvPurges(s, Apply(s, a).purges);
    case PurgeNext(p) =>
      InvRevoke(s, s.purges[p].todo[0]);
      InvPurges(RevokeFamily(s, s.purges[p].todo[0]), Apply(s, a).purges);
    case PurgeEnd(p) =>
      InvDropIndex(s, s.purges[p].user);
      InvPurges(s.(index := s.index[s.purges[p].user := Absent]), Apply(s, a).purges);
  }

  lemma {:induction false} InvRun(s: State, acts: seq<Action>)
    requires Inv(s) && Legal(s, acts)
    ensures Inv(Exec(s, acts))
    decreases |acts|
  {
    if acts == [] {
    } else {
      InvStep(s, acts[0]);
      InvRun(Apply(s, acts[0]), acts[1..]);
    }
  }

  /** A live token is the one its live family's cursor names, so a family has at most one. */
  lemma OneLiveTokenPerFamily(acts: seq<Action>, t: nat, u: nat)
    requires Legal(INIT, acts)
    ensures var s := Exec(INIT, acts);
      && (TokenLive(s, t) ==> Accepts(s, t, s.tokens[t].value.family))
      && (TokenLive(s, t) && TokenLive(s, u) && s.tokens[t].value.family == s.tokens[u].value.family ==> t == u)
  {
    InvRun(INIT, acts);
  }

  /** A live family's cursor names a live token of that family with the same deadline. */
  lemma LiveFamilyHasItsToken(acts: seq<Action>, f: nat)
    requires Legal(INIT, acts)
    ensures var s := Exec(INIT, acts);
      FamilyLive(s, f) ==>
        TokenLive(s, s.families[f].value) && s.tokens[s.families[f].value].value.family == f &&
        s.tokens[s.families[f].value].deadline == s.families[f].deadline
  {
    InvRun(INIT, acts);
  }

  // ---------------------------------------------------------------- exchanged at most once

  predicate Exchanges(s: State, a: Action, t: nat) {
    a.Rotate? && a.current == t && t in s.issued && Accepts(s, t, s.issued[t].family)
  }

  function Exchanged(s: State, acts: seq<Action>, t: nat): nat
    requires Legal(s, acts)
    decreases |acts|
  {
    if acts == [] then 0
    else (if Exchanges(s, acts[0], t) then 1 else 0) + Exchanged(Apply(s, acts[0]), acts[1..], t)
  }

  lemma {:induction false} ExchangesSpent(s: State, acts: seq<Action>, t: nat)
    requires Inv(s) && Legal(s, acts)
    ensures Exchanged(s, acts, t) <= if t in s.rotated then 0 else 1
    decreases |acts|
  {
    if acts == [] {
    } else {
      InvStep(s, acts[0]);
      ExchangesSpent(Apply(s, acts[0]), acts[1..], t);
    }
  }

  /** Over every run, a refresh token is exchanged successfully at most once. */
  lemma ExchangedAtMostOnce(acts: seq<Action>, t: nat)
    requires Legal(INIT, acts)
    ensures Exchanged(INIT, acts, t) <= 1
  {
    ExchangesSpent(INIT, acts, t);
  }

  // ---------------------------------------------------------------- dead families stay dead

  /** The family was created and is no longer live. */
  predicate Dead(s: State, f: nat) {
    f in s.owners && !FamilyLive(s, f)
  }

  lemma DeadStep(s: State, a: Action, f: nat)
    requires Dead(s, f) && Enabled(s, a)
    ensures Dead(Apply(s, a), f)
  {
  }

  /** No token of a dead family is ever accepted again. */
  lemma {:induction false} DeadForever(s: State, acts: seq<Action>, f: nat, t: nat)
    requires Dead(s, f) && Legal(s, acts)
    ensures Dead(Exec(s, acts), f) && !Accepts(Exec(s, acts), t, f)
    decreases |acts|
  {
    if acts == [] {
    } else {
      DeadStep(s, acts[0], f);
      DeadForever(Apply(s, acts[0]), acts[1..], f, t);
    }
  }

  /**
   Replay: once a refused rotation has been answered by revoking the family, no token of
   that family is accepted in any continuation, whatever happened in between.
   */
  lemma ReplayKillsFamily(before: seq<Action>, t: nat, next: nat, ttl: Ttl, between: seq<Action>, after: seq<Action>,
      u: nat)
    requires Legal(INIT, before) && Enabled(Exec(INIT, before), Rotate(t, next, ttl))
    requires var s := Exec(INIT, before); !Accepts(s, t, s.issued[t].family)
    requires var s := Exec(INIT, before);
      Legal(RotateToken(s, t, next, ttl), between) &&
      Legal(RevokeFamily(Exec(RotateToken(s, t, next, ttl), between), s.issued[t].family), after)
    ensures var s := Exec(INIT, before);
      !Accepts(Exec(RevokeFamily(Exec(RotateToken(s, t, next, ttl), between), s.issued[t].family), after), u,
        s.issued[t].family)
  {
    var s := Exec(INIT, before);
    var family := s.issued[t].family;
    InvRun(INIT, before);
    InvStep(s, Rotate(t, next, ttl));
    OwnersStay(RotateToken(s, t, next, ttl), between, family);
    DeadForever(RevokeFamily(Exec(RotateToken(s, t, next, ttl), between), family), after, family, u);
  }

  lemma {:induction false} OwnersStay(s: State, acts: seq<Action>, f: nat)
    requires Legal(s, acts) && f in s.owners
    ensures f in Exec(s, acts).owners
    decreases |acts|
  {
    if acts == [] {
    } else {
      OwnersStay(Apply(s, acts[0]), acts[1..], f);
    }
  }
}
