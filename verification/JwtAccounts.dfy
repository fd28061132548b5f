/**
 Credentials under the JWT driver, use cases run one at a time: jwt-auth-token.service.ts with
 the fresh-user resolver wired, the refresh use case, and the password use cases over it.
 */
module JwtAccounts {
  import opened Prelude
  import opened RedisKeys
  import opened RefreshEffects
  import opened RefreshTokens
  import opened RefreshFamilies
  import opened JwtTokenStore
  import opened Users

  /** What a signed access token claims, and when it expires. */
  datatype AccessClaims = AccessClaims(user: string, authVersion: nat, exp: nat)

  /** The claims of a signed refresh token that the token store does not record. */
  datatype RefreshClaims = RefreshClaims(authVersion: nat, exp: nat)

  /** The user rows; every access token delivered, and those denied until a deadline; every refresh token delivered. */
  datatype Ledger = Ledger(
    users: map<string, User>,
    access: map<nat, AccessClaims>,
    denied: map<nat, Slot<()>>,
    refresh: map<nat, RefreshClaims>)

  /** `verifyAccessToken` accepts the token. */
  predicate AccessAccepted(l: Ledger, now: nat, j: nat) {
    j in l.access && now < l.access[j].exp && !Live(At(l.denied, j), now) &&
    l.access[j].user in l.users && l.users[l.access[j].user].authVersion == l.access[j].authVersion
  }

  /** The refresh token was signed here and has not expired. */
  predicate Verified(l: Ledger, s: State, t: nat) {
    t in l.refresh && t in s.issued && s.now < l.refresh[t].exp
  }

  /** A refresh with the token would succeed. */
  predicate RefreshAccepted(l: Ledger, s: State, t: nat) {
    Verified(l, s, t) && s.issued[t].user in l.users &&
    l.users[s.issued[t].user].authVersion == l.refresh[t].authVersion && Accepts(s, t, s.issued[t].family)
  }

  /** The access and refresh tokens that are accepted for a user. */
  function AccessOf(l: Ledger, now: nat, user: string): set<nat> {
    set j | j in l.access && l.access[j].user == user && AccessAccepted(l, now, j)
  }

  function RefreshOf(l: Ledger, s: State, user: string): set<nat> {
    set t | t in l.refresh && t in s.issued && s.issued[t].user == user && RefreshAccepted(l, s, t)
  }

  /** No delivered token is ahead of its user's row. */
  ghost predicate Sound(l: Ledger, s: State) {
    && (forall j | j in l.access && l.access[j].user in l.users ::
      l.access[j].authVersion <= l.users[l.access[j].user].authVersion)
    && (forall j | j in l.denied :: j in l.access)
    && (forall t | t in l.refresh :: t in s.issued)
    && (forall t | t in l.refresh && s.issued[t].user in l.users ::
      l.refresh[t].authVersion <= l.users[s.issued[t].user].authVersion)
  }

  /** What is accepted for the users other than `user` is the same before and after. */
  ghost predicate OthersKeep(l: Ledger, s: State, l': Ledger, s': State, user: string) {
    forall other | other != user ::
      AccessOf(l', s'.now, other) == AccessOf(l, s.now, other) && RefreshOf(l', s', other) == RefreshOf(l, s, other)
  }

  // ---------------------------------------------------------------- the effect of each part on what is accepted

  function IssueAccess(l: Ledger, now: nat, user: string, j: nat, ttl: Ttl): Ledger
    requires user in l.users
  {
    l.(access := l.access[j := AccessClaims(user, l.users[user].authVersion, now + ttl)])
  }

  function IssueRefresh(l: Ledger, now: nat, user: string, t: nat, ttl: Ttl): Ledger
    requires user in l.users
  {
    l.(refresh := l.refresh[t := RefreshClaims(l.users[user].authVersion, now + ttl)])
  }

  lemma IssuedAccessCounts(l: Ledger, s: State, user: string, j: nat, ttl: Ttl)
    requires Sound(l, s) && user in l.users && j !in l.access
    ensures var l' := IssueAccess(l, s.now, user, j, ttl);
      Sound(l', s) && AccessOf(l', s.now, user) == AccessOf(l, s.now, user) + {j} &&
      RefreshOf(l', s, user) == RefreshOf(l, s, user) && OthersKeep(l, s, l', s, user)
  {
    var l' := IssueAccess(l, s.now, user, j, ttl);
    assert AccessOf(l', s.now, user) == AccessOf(l, s.now, user) + {j};
    forall other | other != user
      ensures AccessOf(l', s.now, other) == AccessOf(l, s.now, other) &&
        RefreshOf(l', s, other) == RefreshOf(l, s, other)
    {
    }
  }

  /** Saving a new family changes the standing of no issued token but its own. */
  lemma SaveAccepts(s: State, user: string, family: nat, token: nat, ttl: Ttl)
    requires Inv(s) && Enabled(s, Save(user, family, token, ttl))
    ensures var s' := SaveToken(s, user, family, token, ttl);
      Accepts(s', token, family) &&
      forall t | t in s.issued :: Accepts(s', t, s.issued[t].family) == Accepts(s, t, s.issued[t].family)
  {
  }

  lemma SavedFamilyStanding(l: Ledger, s: State, user: string, family: nat, token: nat, ttl: Ttl)
    requires Inv(s) && Sound(l, s) && user in l.users && Enabled(s, Save(user, family, token, ttl))
    ensures var l', s' := IssueRefresh(l, s.now, user, token, ttl), SaveToken(s, user, family, token, ttl);
      Sound(l', s') && RefreshAccepted(l', s', token) &&
      forall t | t in s.issued :: RefreshAccepted(l', s', t) == RefreshAccepted(l, s, t)
  {
    SaveAccepts(s, user, family, token, ttl);
  }

  /** A refresh token of `user` becomes accepted, those in `gone` no longer are, and nothing else changes. */
  lemma StandingChanged(l: Ledger, s: State, l': Ledger, s': State, next: nat, record: Record, gone: set<nat>)
    requires next !in s.issued && s'.issued == s.issued[next := record]
    requires s'.now == s.now && l'.users == l.users && l'.access == l.access && l'.denied == l.denied
    requires RefreshAccepted(l', s', next) && forall t | t in gone :: t in s.issued && s.issued[t].user == record.user
    requires forall t | t in s.issued :: RefreshAccepted(l', s', t) == (RefreshAccepted(l, s, t) && t !in gone)
    ensures RefreshOf(l', s', record.user) == RefreshOf(l, s, record.user) - gone + {next}
    ensures AccessOf(l', s'.now, record.user) == AccessOf(l, s.now, record.user)
    ensures OthersKeep(l, s, l', s', record.user)
  {
    assert RefreshOf(l', s', record.user) == RefreshOf(l, s, record.user) - gone + {next};
    forall other | other != record.user
      ensures AccessOf(l', s'.now, other) == AccessOf(l, s.now, other) &&
        RefreshOf(l', s', other) == RefreshOf(l, s, other)
    {
    }
  }

  lemma SavedFamilyCounts(l: Ledger, s: State, user: string, family: nat, token: nat, ttl: Ttl)
    requires Inv(s) && Sound(l, s) && user in l.users && Enabled(s, Save(user, family, token, ttl))
    ensures var l', s' := IssueRefresh(l, s.now, user, token, ttl), SaveToken(s, user, family, token, ttl);
      Sound(l', s') && RefreshOf(l', s', user) == RefreshOf(l, s, user) + {token} &&
      AccessOf(l', s'.now, user) == AccessOf(l, s.now, user) && OthersKeep(l, s, l', s', user)
  {
    var l', s' := IssueRefresh(l, s.now, user, token, ttl), SaveToken(s, user, family, token, ttl);
    SavedFamilyStanding(l, s, user, family, token, ttl);
    assert s'.issued == s.issued[token := Record(user, family)];
    StandingChanged(l, s, l', s', token, Record(user, family), {});
  }

  /** A raised version makes everything delivered to that user stale at once, whatever the token store holds. */
  lemma RaisedVersionStales(l: Ledger, s: State, user: string, updated: User)
    requires Sound(l, s) && user in l.users && l.users[user].authVersion < updated.authVersion
    ensures var l' := l.(users := l.users[user := updated]);
      Sound(l', s) && AccessOf(l', s.now, user) == {} && OthersKeep(l, s, l', s, user) &&
      forall s': State | s'.issued == s.issued :: RefreshOf(l', s', user) == {}
  {
    var l' := l.(users := l.users[user := updated]);
    assert AccessOf(l', s.now, user) == {};
    forall s': State | s'.issued == s.issued
      ensures RefreshOf(l', s', user) == {}
    {
    }
    OthersKeepRow(l, s, user, updated);
  }

  /** A row decides only about its own user's tokens. */
  lemma OthersKeepRow(l: Ledger, s: State, user: string, updated: User)
    requires Sound(l, s)
    ensures OthersKeep(l, s, l.(users := l.users[user := updated]), s, user)
  {
    var l' := l.(users := l.users[user := updated]);
    forall other | other != user
      ensures AccessOf(l', s.now, other) == AccessOf(l, s.now, other) &&
        RefreshOf(l', s, other) == RefreshOf(l, s, other)
    {
      assert forall j | j in l.access && l.access[j].user == other ::
        AccessAccepted(l', s.now, j) == AccessAccepted(l, s.now, j);
      assert forall t | t in s.issued && s.issued[t].user == other ::
        RefreshAccepted(l', s, t) == RefreshAccepted(l, s, t);
    }
  }

  /** Whatever a row goes through, its user's tokens all stay accepted or none does: only Google links spare them. */
  lemma {:induction false} HistoryKeepsOrStales(l: Ledger, s: State, user: string, ts: seq<Transition>)
    requires Sound(l, s) && user in l.users
    ensures var l' := l.(users := l.users[user := Evolve(l.users[user], ts)]);
      Sound(l', s) && OthersKeep(l, s, l', s, user) &&
      AccessOf(l', s.now, user) == (if OnlyLinks(ts) then AccessOf(l, s.now, user) else {}) &&
      RefreshOf(l', s, user) == (if OnlyLinks(ts) then RefreshOf(l, s, user) else {})
  {
    var updated := Evolve(l.users[user], ts);
    VersionCountsStaling(l.users[user], ts);
    OnlyLinksStaleNothing(ts);
    if OnlyLinks(ts) {
      OthersKeepRow(l, s, user, updated);
      var l' := l.(users := l.users[user := updated]);
      assert forall j :: AccessAccepted(l', s.now, j) == AccessAccepted(l, s.now, j);
      assert forall t :: RefreshAccepted(l', s, t) == RefreshAccepted(l, s, t);
    } else {
      RaisedVersionStales(l, s, user, updated);
    }
  }

  /** A purge touches nobody else's tokens. */
  lemma PurgeKeepsAccepted(l: Ledger, s: State, s': State, user: string)
    requires Inv(s) && Sound(l, s) && KeepsOthers(s, s', user)
    ensures Sound(l, s') && OthersKeep(l, s, l, s', user) && AccessOf(l, s'.now, user) == AccessOf(l, s.now, user)
  {
    forall t | t in s.issued && s.issued[t].user != user
      ensures RefreshAccepted(l, s', t) == RefreshAccepted(l, s, t)
    {
      assert s.owners[s.issued[t].family] == s.issued[t].user;
    }
  }

  /** A rotation changes the standing of no issued token but the current one, in the store. */
  lemma RotateAccepts(s: State, current: nat, next: nat, ttl: Ttl, t: nat)
    requires Inv(s) && current in s.issued && next !in s.issued && Accepts(s, current, s.issued[current].family)
    requires t in s.issued
    ensures var s' := RotateToken(s, current, next, ttl);
      Accepts(s', t, s.issued[t].family) == (Accepts(s, t, s.issued[t].family) && t != current)
  {
    if Accepts(s, t, s.issued[t].family) && t != current {
      assert s.issued[t].family != s.issued[current].family;
    }
  }

  /** Nor, with the version claims, for its user. */
  lemma RotatedStanding(l: Ledger, s: State, current: nat, next: nat, ttl: Ttl)
    requires Inv(s) && Sound(l, s) && RefreshAccepted(l, s, current) && next !in s.issued
    ensures var user := s.issued[current].user;
      var l', s' := IssueRefresh(l, s.now, user, next, ttl), RotateToken(s, current, next, ttl);
      Sound(l', s') && RefreshAccepted(l', s', next) &&
      forall t | t in s.issued :: RefreshAccepted(l', s', t) == (RefreshAccepted(l, s, t) && t != current)
  {
    ExchangeResult(s, current, next, ttl);
    forall t | t in s.issued
      ensures Accepts(RotateToken(s, current, next, ttl), t, s.issued[t].family) ==
        (Accepts(s, t, s.issued[t].family) && t != current)
    {
      RotateAccepts(s, current, next, ttl, t);
    }
  }

  /** A successful rotation moves acceptance from the current token to the next. */
  lemma RotationMoves(l: Ledger, s: State, current: nat, next: nat, ttl: Ttl)
    requires Inv(s) && Sound(l, s) && RefreshAccepted(l, s, current) && next !in s.issued
    ensures var user := s.issued[current].user;
      var l', s' := IssueRefresh(l, s.now, user, next, ttl), RotateToken(s, current, next, ttl);
      Sound(l', s') && RefreshOf(l', s', user) == RefreshOf(l, s, user) - {current} + {next} &&
      AccessOf(l', s'.now, user) == AccessOf(l, s.now, user) && OthersKeep(l, s, l', s', user)
  {
    var user := s.issued[current].user;
    var l', s' := IssueRefresh(l, s.now, user, next, ttl), RotateToken(s, current, next, ttl);
    RotatedStanding(l, s, current, next, ttl);
    assert s'.issued == s.issued[next := s.issued[current]];
    StandingChanged(l, s, l', s', next, s.issued[current], {current});
  }

  /**
   A logout is refused without a refresh token, for one that is not verified, and for an access
   token that was signed here for another user, in this order; and otherwise not.
   */
  predicate LogoutRefused(
      l: Ledger, s: State, refreshToken: Option<nat>, accessToken: Option<nat>, refusal: Option<Error>)
  {
    var verified := refreshToken.Some? && Verified(l, s, refreshToken.value);
    var foreign := verified && accessToken.Some? && accessToken.value in l.access &&
      l.access[accessToken.value].user != s.issued[refreshToken.value].user;
    && (refusal == Some(RefreshTokenRequired) <==> refreshToken.None?)
    && (refusal == Some(InvalidRefreshToken) <==> refreshToken.Some? && !verified)
    && (refusal == Some(TokensOfDifferentUsers) <==> foreign)
    && (refusal.None? <==> verified && !foreign)
  }

  /** When a refresh deserves a refusal: see each case. */
  predicate RefreshRefused(l: Ledger, s: State, current: nat, error: Error) {
    if !Verified(l, s, current) then error == InvalidRefreshToken
    else
      var user := s.issued[current].user;
      match error
      case UserNotFound => user !in l.users
      case AuthVersionMismatch => user in l.users && l.users[user].authVersion != l.refresh[current].authVersion
      case RefreshTokenUsedOrRevoked =>
        && user in l.users && l.users[user].authVersion == l.refresh[current].authVersion
        && !Accepts(s, current, s.issued[current].family)
      case _ => false
  }

  // ---------------------------------------------------------------- the service

  /** A pair of tokens by their ids. */
  datatype Tokens = Tokens(access: nat, refresh: nat)

  datatype Issue = Issued(tokens: Tokens) | Refused(error: Error)

  /** If nothing else happens, each token of the pair is accepted for its own TTL from now, and no longer. */
  ghost predicate PairLives(l: Ledger, s: State, tokens: Tokens, accessTtl: Ttl, refreshTtl: Ttl) {
    && (forall t: nat | s.now <= t :: AccessAccepted(l, t, tokens.access) <==> t < s.now + accessTtl)
    && (forall t: nat | s.now <= t :: RefreshAccepted(l, s.(now := t), tokens.refresh) <==> t < s.now + refreshTtl)
  }

  lemma PairStands(l: Ledger, s: State, tokens: Tokens, accessTtl: Ttl, refreshTtl: Ttl)
    requires tokens.access in l.access && tokens.access !in l.denied && l.access[tokens.access].exp == s.now + accessTtl
    requires AccessAccepted(l, s.now, tokens.access) && RefreshAccepted(l, s, tokens.refresh)
    requires l.refresh[tokens.refresh].exp == s.now + refreshTtl
    requires LivesFor(s, tokens.refresh, s.issued[tokens.refresh].family, refreshTtl)
    ensures PairLives(l, s, tokens, accessTtl, refreshTtl)
  {
    forall t: nat | s.now <= t
      ensures RefreshAccepted(l, s.(now := t), tokens.refresh) <==> t < s.now + refreshTtl
    {
      assert Accepts(s.(now := t), tokens.refresh, s.issued[tokens.refresh].family) <==> t < s.now + refreshTtl;
    }
  }

  /** What a revocation leaves accepted: every refresh token of another family. */
  lemma RevokedStanding(l: Ledger, s: State, family: nat, t: nat)
    requires Inv(s) && t in s.issued
    ensures RefreshAccepted(l, RevokeFamily(s, family), t) <==> RefreshAccepted(l, s, t) && s.issued[t].family != family
  {
    InvRevoke(s, family);
    if s.issued[t].family != family {
      RevokeSparesOthers(s, family, s.issued[t].family, "");
    }
  }

  class JwtAccountService {
    const store: RedisJwtTokenStore
    const accessTtl: Ttl
    const refreshTtl: Ttl
    var ledger: Ledger
    /** Outstanding password-reset tokens. */
    var resetTokens: map<string, string>

    constructor (store: RedisJwtTokenStore, accessTtl: Ttl, refreshTtl: Ttl, users: map<string, User>,
        resetTokens: map<string, string>)
      requires store.Valid() && store.world == []
      ensures this.store == store && Valid() && ledger == Ledger(users, map[], map[], map[])
    {
      this.store, this.accessTtl, this.refreshTtl := store, accessTtl, refreshTtl;
      this.ledger, this.resetTokens := Ledger(users, map[], map[], map[]), resetTokens;
    }

    ghost predicate Valid()
      reads this, store
    {
      store.Valid() && store.world == [] && Sound(ledger, store.st)
    }

    method VerifyAccessToken(j: nat) returns (user: Option<User>)
      requires Valid()
      ensures user.Some? <==> AccessAccepted(ledger, store.st.now, j)
      ensures user.Some? ==> user.value == ledger.users[ledger.access[j].user]
    {
      if j !in ledger.access || ledger.access[j].exp <= store.st.now || Live(At(ledger.denied, j), store.st.now) {
        return None;
      }
      user := FindById(ledger.users, ledger.access[j].user);
      if user.Some? && user.value.authVersion != ledger.access[j].authVersion {
        user := None;
      }
    }

    /** A new family for the user's row as it stands: just the new pair is added to what is accepted. */
    method CreateAuthSession(userId: string) returns (tokens: Tokens)
      requires Valid() && userId in ledger.users
      modifies this`ledger, store
      ensures Valid() && ledger.users == old(ledger.users)
      ensures AccessOf(ledger, store.st.now, userId) == old(AccessOf(ledger, store.st.now, userId)) + {tokens.access}
      ensures RefreshOf(ledger, store.st, userId) == old(RefreshOf(ledger, store.st, userId)) + {tokens.refresh}
      ensures PairLives(ledger, store.st, tokens, accessTtl, refreshTtl)
      ensures forall f | Dead(old(store.st), f) :: Dead(store.st, f)
      ensures OthersKeep(old(ledger), old(store.st), ledger, store.st, userId)
    {
      InvRun(INIT, store.trace);
      var j := Fresh(ledger.access.Keys);
      IssuedAccessCounts(ledger, store.st, userId, j, accessTtl);
      ledger := IssueAccess(ledger, store.st.now, userId, j, accessTtl);
      ghost var s := store.st;
      var family, token := store.CreateFamily(userId, refreshTtl);
      SavedFamilyCounts(ledger, s, userId, family, token, refreshTtl);
      ledger := IssueRefresh(ledger, store.st.now, userId, token, refreshTtl);
      tokens := Tokens(j, token);
      PairStands(ledger, store.st, tokens, accessTtl, refreshTtl);
    }

    /** The update, the purge and the re-issue that both password use cases end with. */
    method ReplaceCredentials(updated: User, userId: string) returns (tokens: Tokens)
      requires Valid() && userId in ledger.users && updated.authVersion == ledger.users[userId].authVersion + 1
      modifies this`ledger, store
      ensures Valid() && ledger.users == old(ledger.users)[userId := updated]
      ensures AccessOf(ledger, store.st.now, userId) == {tokens.access}
      ensures RefreshOf(ledger, store.st, userId) == {tokens.refresh}
      ensures PairLives(ledger, store.st, tokens, accessTtl, refreshTtl)
      ensures forall f | f in old(Members(store.st, userId)) :: Dead(store.st, f)
      ensures OthersKeep(old(ledger), old(store.st), ledger, store.st, userId)
    {
      RaisedVersionStales(ledger, store.st, userId, updated);
      ledger := ledger.(users := ledger.users[userId := updated]);
      ghost var s := store.st;
      InvRun(INIT, store.trace);
      var listed := store.RevokeAll(userId);
      PurgeKeepsAccepted(ledger, s, store.st, userId);
      tokens := CreateAuthSession(userId);
    }

    /**
     change-password.usecase.ts. On success exactly the pair just issued is accepted for the
     user; on refusal nothing changes.
     */
    method ChangePassword(userId: string, currentPassword: string, newPassword: string) returns (issue: Issue)
      requires Valid()
      modifies this`ledger, store
      ensures Valid() && OthersKeep(old(ledger), old(store.st), ledger, store.st, userId)
      ensures issue.Issued? <==>
        userId in old(ledger.users) && old(ledger.users)[userId].passwordHash == Some(HashOf(currentPassword)) &&
        newPassword != currentPassword
      ensures issue.Refused? ==>
        ledger == old(ledger) && store.st == old(store.st) &&
        Deserved(issue.error, if userId in ledger.users then Some(ledger.users[userId]) else None,
                 currentPassword, newPassword)
      ensures issue.Issued? ==>
        AccessOf(ledger, store.st.now, userId) == {issue.tokens.access} &&
        RefreshOf(ledger, store.st, userId) == {issue.tokens.refresh} &&
        PairLives(ledger, store.st, issue.tokens, accessTtl, refreshTtl) &&
        (forall f | f in old(Members(store.st, userId)) :: Dead(store.st, f)) &&
        ledger.users == old(ledger.users)[userId := old(ledger.users)[userId].(
          passwordHash := Some(HashOf(newPassword)), authVersion := old(ledger.users)[userId].authVersion + 1)]
    {
      var user := FindById(ledger.users, userId);
      var refused := ChangeRefused(user, currentPassword, newPassword);
      if refused.Some? {
        return Refused(refused.value);
      }
      var tokens := ReplaceCredentials(Users.ChangePassword(user.value, HashOf(newPassword)), userId);
      return Issued(tokens);
    }

    /** reset-password.usecase.ts: a reset token works at most once, and then like a change. */
    method ResetPassword(token: string, newPassword: string) returns (issue: Issue)
      requires Valid()
      modifies this`ledger, this`resetTokens, store
      ensures Valid() && resetTokens == old(resetTokens) - {token}
      ensures issue.Issued? <==> token in old(resetTokens) && old(resetTokens)[token] in old(ledger.users)
      ensures issue.Refused? ==> issue.error == InvalidResetToken && ledger == old(ledger) && store.st == old(store.st)
      ensures issue.Issued? ==>
        var userId := old(resetTokens)[token];
        AccessOf(ledger, store.st.now, userId) == {issue.tokens.access} &&
        RefreshOf(ledger, store.st, userId) == {issue.tokens.refresh} &&
        PairLives(ledger, store.st, issue.tokens, accessTtl, refreshTtl) &&
        (forall f | f in old(Members(store.st, userId)) :: Dead(store.st, f)) &&
        ledger.users == old(ledger.users)[userId := old(ledger.users)[userId].(
          passwordHash := Some(HashOf(newPassword)), authVersion := old(ledger.users)[userId].authVersion + 1)] &&
        OthersKeep(old(ledger), old(store.st), ledger, store.st, userId)
    {
      if token !in resetTokens {
        return Refused(InvalidResetToken);
      }
      var userId := resetTokens[token];
      resetTokens := resetTokens - {token};
      var user := FindById(ledger.users, userId);
      if user.None? {
        return Refused(InvalidResetToken);
      }
      var tokens := ReplaceCredentials(Users.ChangePassword(user.value, HashOf(newPassword)), userId);
      return Issued(tokens);
    }

    /**
     `rotateAuthSession` for a verified token of the row's version: if the store accepts it, the
     next pair takes its place; if not, its family dies.
     */
    method RotateAuthSession(current: nat) returns (issue: Issue)
      requires Valid() && Verified(ledger, store.st, current) && store.st.issued[current].user in ledger.users
      requires ledger.users[store.st.issued[current].user].authVersion == ledger.refresh[current].authVersion
      modifies this`ledger, store
      ensures Valid() && ledger.users == old(ledger.users) && store.st.now == old(store.st.now)
      ensures issue.Issued? <==> old(RefreshAccepted(ledger, store.st, current))
      ensures issue.Issued? ==>
        var user := old(store.st).issued[current].user;
        && RefreshOf(ledger, store.st, user) ==
             old(RefreshOf(ledger, store.st, user)) - {current} + {issue.tokens.refresh}
        && AccessOf(ledger, store.st.now, user) == old(AccessOf(ledger, store.st.now, user)) + {issue.tokens.access}
        && PairLives(ledger, store.st, issue.tokens, accessTtl, refreshTtl)
        && OthersKeep(old(ledger), old(store.st), ledger, store.st, user)
      ensures issue.Refused? ==>
        issue.error == RefreshTokenUsedOrRevoked && Dead(store.st, old(store.st).issued[current].family)
    {
      var userId := store.st.issued[current].user;
      ghost var s := store.st;
      InvRun(INIT, store.trace);
      var next := store.RotateSession(current, refreshTtl);
      if next.None? {
        SoundGrows(ledger, s, store.st);
        return Refused(RefreshTokenUsedOrRevoked);
      }
      RotationMoves(ledger, s, current, next.value, refreshTtl);
      ledger := IssueRefresh(ledger, store.st.now, userId, next.value, refreshTtl);
      var j := Fresh(ledger.access.Keys);
      IssuedAccessCounts(ledger, store.st, userId, j, accessTtl);
      ledger := IssueAccess(ledger, store.st.now, userId, j, accessTtl);
      issue := Issued(Tokens(j, next.value));
      PairStands(ledger, store.st, issue.tokens, accessTtl, refreshTtl);
    }

    /**
     refresh-auth-session.usecase.ts over `rotateAuthSession`: a refresh succeeds exactly when
     its token is accepted, and then the next pair takes its place. Each refusal has its own
     reason, and only a verified token that the store refuses has an effect: its family dies.
     */
    method Refresh(current: nat) returns (issue: Issue)
      requires Valid()
      modifies this`ledger, store
      ensures Valid() && ledger.users == old(ledger.users)
      ensures issue.Issued? <==> old(RefreshAccepted(ledger, store.st, current))
      ensures issue == Refused(InvalidRefreshToken) <==>
        current !in old(ledger).refresh || old(ledger).refresh[current].exp <= old(store.st).now
      ensures issue.Refused? ==> RefreshRefused(old(ledger), old(store.st), current, issue.error)
      ensures issue.Refused? && issue.error != RefreshTokenUsedOrRevoked ==>
        ledger == old(ledger) && store.st == old(store.st)
      ensures issue.Issued? ==>
        var user := old(store.st).issued[current].user;
        && RefreshOf(ledger, store.st, user) ==
             old(RefreshOf(ledger, store.st, user)) - {current} + {issue.tokens.refresh}
        && AccessOf(ledger, store.st.now, user) == old(AccessOf(ledger, store.st.now, user)) + {issue.tokens.access}
        && PairLives(ledger, store.st, issue.tokens, accessTtl, refreshTtl)
        && OthersKeep(old(ledger), old(store.st), ledger, store.st, user)
      ensures issue == Refused(RefreshTokenUsedOrRevoked) ==>
        current in old(store.st).issued && Dead(store.st, old(store.st).issued[current].family)
    {
      if current !in ledger.refresh || ledger.refresh[current].exp <= store.st.now {
        return Refused(InvalidRefreshToken);
      }
      var user := FindById(ledger.users, store.st.issued[current].user);
      if user.None? {
        return Refused(UserNotFound);
      }
      if user.value.authVersion != ledger.refresh[current].authVersion {
        return Refused(AuthVersionMismatch);
      }
      issue := RotateAuthSession(current);
    }

    /** Denies an access token until it expires. */
    method DenyAccess(j: nat)
      requires Valid() && j in ledger.access
      modifies this`ledger
      ensures Valid() && ledger == old(ledger).(denied := ledger.denied) && DeniedFrom(ledger, store.st.now, j)
      ensures forall i: nat | i != j ::
        AccessAccepted(ledger, store.st.now, i) == old(AccessAccepted(ledger, store.st.now, i))
    {
      var ttlSeconds := Max(ledger.access[j].exp - store.st.now, 0);
      if ttlSeconds > 0 {
        ledger := ledger.(denied := ledger.denied[j := SetEx(store.st.now, (), ttlSeconds)]);
      }
    }

    /** Revokes the family of a refresh token; nothing else that is accepted changes. */
    method RevokeFamilyOf(refresh: nat)
      requires Valid() && refresh in store.st.issued
      modifies store
      ensures Valid() && store.st.now == old(store.st.now) && store.st.issued == old(store.st.issued)
      ensures Dead(store.st, store.st.issued[refresh].family)
      ensures forall t | t in store.st.issued ::
        RefreshAccepted(ledger, store.st, t) <==>
        old(RefreshAccepted(ledger, store.st, t)) && store.st.issued[t].family != store.st.issued[refresh].family
    {
      ghost var s, family := store.st, store.st.issued[refresh].family;
      InvRun(INIT, store.trace);
      forall t | t in s.issued
        ensures RefreshAccepted(ledger, RevokeFamily(s, family), t) <==>
          RefreshAccepted(ledger, s, t) && s.issued[t].family != family
      {
        RevokedStanding(ledger, s, family, t);
      }
      store.RevokeOne(store.st.issued[refresh].family);
      SoundGrows(ledger, s, store.st);
    }

    /**
     `revoke`, the logout: unless it refuses, no token of the refresh token's family is accepted
     any more, and the access token, expired or not, is never accepted again. Every other token
     is accepted as before.
     */
    method Revoke(refreshToken: Option<nat>, accessToken: Option<nat>) returns (refusal: Option<Error>)
      requires Valid()
      modifies this`ledger, store
      ensures Valid() && ledger.users == old(ledger.users)
      ensures LogoutRefused(old(ledger), old(store.st), refreshToken, accessToken, refusal)
      ensures refusal == Some(InvalidRefreshToken) <==>
        refreshToken.Some? && (refreshToken.value !in old(ledger).refresh ||
                               old(ledger).refresh[refreshToken.value].exp <= old(store.st).now)
      ensures refusal.Some? ==> ledger == old(ledger) && store.st == old(store.st)
      ensures refusal.None? ==> Dead(store.st, old(store.st).issued[refreshToken.value].family)
      ensures refusal.None? && accessToken.Some? ==> DeniedFrom(ledger, store.st.now, accessToken.value)
      ensures refusal.None? ==>
        && (forall j: nat | accessToken != Some(j) ::
              AccessAccepted(ledger, store.st.now, j) == old(AccessAccepted(ledger, store.st.now, j)))
        && (forall t | t in old(store.st).issued &&
                       old(store.st).issued[t].family != old(store.st).issued[refreshToken.value].family ::
              RefreshAccepted(ledger, store.st, t) == old(RefreshAccepted(ledger, store.st, t)))
    {
      if refreshToken.None? {
        return Some(RefreshTokenRequired);
      }
      var refresh := refreshToken.value;
      if refresh !in ledger.refresh || ledger.refresh[refresh].exp <= store.st.now {
        return Some(InvalidRefreshToken);
      }
      var access := if accessToken.Some? && accessToken.value in ledger.access then accessToken else None;
      if access.Some? && ledger.access[access.value].user != store.st.issued[refresh].user {
        return Some(TokensOfDifferentUsers);
      }
      RevokeFamilyOf(refresh);
      if access.Some? {
        DenyAccess(access.value);
      }
      return None;
    }
  }

  /** From `now` on the access token is never accepted. */
  ghost predicate DeniedFrom(l: Ledger, now: nat, j: nat) {
    forall t: nat | now <= t :: !AccessAccepted(l, t, j)
  }

  lemma SoundGrows(l: Ledger, s: State, s': State)
    requires Sound(l, s) && Grows(s, s')
    ensures Sound(l, s')
  {
  }
}
