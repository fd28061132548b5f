/**
 How long issued refresh tokens live, and what saving, rotating, revoking and purging leave
 alone: every other family with its token, and every other user's index.
 */
module RefreshEffects {
  import opened Prelude
  import opened RedisKeys
  import opened RefreshFamilies
  import opened RefreshTokens

  /** If nothing else happens, the token is accepted for `ttl` seconds from now, and no longer. */
  ghost predicate LivesFor(s: State, token: nat, family: nat, ttl: Ttl) {
    forall t: nat | s.now <= t :: Accepts(s.(now := t), token, family) <==> t < s.now + ttl
  }

  /** The keys of a family: its cursor and the tokens issued for it. */
  ghost predicate SameFamily(s: State, s': State, family: nat) {
    && At(s'.families, family) == At(s.families, family)
    && forall t | t in s.issued && s.issued[t].family == family :: At(s'.tokens, t) == At(s.tokens, t)
  }

  lemma SavedTokenLives(s: State, user: string, family: nat, token: nat, ttl: Ttl)
    requires Enabled(s, Save(user, family, token, ttl))
    ensures LivesFor(Apply(s, Save(user, family, token, ttl)), token, family, ttl)
  {
  }

  /** A successful exchange gives the next token its own full TTL. */
  lemma RotatedTokenLives(s: State, current: nat, next: nat, ttl: Ttl)
    requires Enabled(s, Rotate(current, next, ttl)) && Accepts(s, current, s.issued[current].family)
    ensures LivesFor(Apply(s, Rotate(current, next, ttl)), next, s.issued[current].family, ttl)
  {
  }

  lemma SaveSparesOthers(s: State, user: string, family: nat, token: nat, ttl: Ttl, g: nat, u: string)
    requires Enabled(s, Save(user, family, token, ttl)) && g != family
    ensures var s' := Apply(s, Save(user, family, token, ttl));
      SameFamily(s, s', g) && Members(s', u) == Members(s, u) + if u == user then {family} else {}
  {
  }

  /** A refused exchange changes no key; a successful one only its own family and index. */
  lemma RotateSparesOthers(s: State, current: nat, next: nat, ttl: Ttl, g: nat, u: string)
    requires Enabled(s, Rotate(current, next, ttl))
    ensures var s', r := Apply(s, Rotate(current, next, ttl)), s.issued[current];
      if Accepts(s, current, r.family) then
        && (g != r.family ==> SameFamily(s, s', g))
        && Members(s', u) == Members(s, u) + if u == r.user then {r.family} else {}
      else s'.tokens == s.tokens && s'.families == s.families && s'.index == s.index
  {
  }

  /** A revocation takes the family's keys, its index entry if it was live, and nothing else. */
  lemma RevokeSparesOthers(s: State, family: nat, g: nat, u: string)
    requires Inv(s)
    ensures var s' := Apply(s, Revoke(family));
      && !FamilyLive(s', family) && (g != family ==> SameFamily(s, s', g))
      && Members(s', u) ==
           Members(s, u) - if FamilyLive(s, family) && family in s.owners && s.owners[family] == u then {family} else {}
  {
  }

  /** The end of a purge drops the index of its user and nothing else. */
  lemma PurgeEndDropsIndex(s: State, p: nat, u: string)
    requires Enabled(s, PurgeEnd(p))
    ensures var s' := Apply(s, PurgeEnd(p));
      && s'.tokens == s.tokens && s'.families == s.families
      && Members(s', u) == if u == s.purges[p].user then {} else Members(s, u)
  {
  }
}
