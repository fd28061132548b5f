/**
 Credentials under the session driver, use cases run one at a time: session-auth-token.service.ts
 with the fresh-user resolver wired, and the password use cases over it.
 */
module SessionAccounts {
  import opened Prelude
  import opened RedisKeys
  import opened SessionStore
  import opened SessionManagement
  import opened Users

  datatype Changed = Changed(sessionId: nat) | Refused(error: Error)

  /** The sessions that authenticate `user`: live, and of the version the row has. */
  ghost function AcceptedIn(users: map<string, User>, live: map<nat, SessionRecord>, user: string): set<nat> {
    set id | id in live && live[id].userId == user && user in users && users[user].authVersion == live[id].authVersion
  }

  /** No stored session is ahead of its user's row. */
  ghost predicate Bounded(users: map<string, User>, live: map<nat, SessionRecord>) {
    forall id | id in live && live[id].userId in users :: live[id].authVersion <= users[live[id].userId].authVersion
  }

  ghost predicate OthersKeep(
      users: map<string, User>, live: map<nat, SessionRecord>,
      users': map<string, User>, live': map<nat, SessionRecord>, user: string)
  {
    forall other | other != user :: AcceptedIn(users', live', other) == AcceptedIn(users, live, other)
  }

  /** A new session of the current version is accepted, and changes nothing else. */
  lemma IssuedSessionCounts(users: map<string, User>, live: map<nat, SessionRecord>, id: nat, record: SessionRecord)
    requires Bounded(users, live) && id !in live
    requires record.userId in users && record.authVersion == users[record.userId].authVersion
    ensures var live' := live[id := record];
      Bounded(users, live') && OthersKeep(users, live, users, live', record.userId) &&
      AcceptedIn(users, live', record.userId) == AcceptedIn(users, live, record.userId) + {id} &&
      OfUser(live', record.userId) == OfUser(live, record.userId) + {id}
  {
    var live' := live[id := record];
    forall other | other != record.userId
      ensures AcceptedIn(users, live', other) == AcceptedIn(users, live, other)
    {
    }
  }

  /** Whatever a row goes through, its user's sessions all stay accepted or none does: only Google links spare them. */
  lemma {:induction false} HistoryKeepsOrStales(
      users: map<string, User>, live: map<nat, SessionRecord>, user: string, ts: seq<Transition>)
    requires Bounded(users, live) && user in users
    ensures var users' := users[user := Evolve(users[user], ts)];
      Bounded(users', live) && OthersKeep(users, live, users', live, user) &&
      AcceptedIn(users', live, user) == if OnlyLinks(ts) then AcceptedIn(users, live, user) else {}
  {
    VersionCountsStaling(users[user], ts);
    OnlyLinksStaleNothing(ts);
    var users' := users[user := Evolve(users[user], ts)];
    assert AcceptedIn(users', live, user) == if OnlyLinks(ts) then AcceptedIn(users, live, user) else {};
    forall other | other != user
      ensures AcceptedIn(users', live, other) == AcceptedIn(users, live, other)
    {
    }
  }

  /** A raised version and a purge leave the user no session, and touch nobody else. */
  lemma PurgedUserHasNothing(users: map<string, User>, live: map<nat, SessionRecord>, user: string, updated: User)
    requires Bounded(users, live) && user in users && updated.authVersion == users[user].authVersion + 1
    ensures var users', live' := users[user := updated], live - OfUser(live, user);
      Bounded(users', live) && Bounded(users', live') && OthersKeep(users, live, users', live', user) &&
      AcceptedIn(users', live', user) == {} && OfUser(live', user) == {}
  {
    var users', live' := users[user := updated], live - OfUser(live, user);
    assert OfUser(live', user) == {};
    forall other | other != user
      ensures AcceptedIn(users', live', other) == AcceptedIn(users, live, other)
    {
    }
  }

  class SessionAccountService {
    const sessions: RedisSessionStore
    const sessionTtl: Ttl
    var users: map<string, User>
    /** Outstanding password-reset tokens. */
    var resetTokens: map<string, string>

    constructor (sessions: RedisSessionStore, sessionTtl: Ttl, users: map<string, User>,
        resetTokens: map<string, string>)
      requires sessions.Valid() && sessions.LiveSessions() == map[]
      ensures this.sessions == sessions && Valid() && this.users == users
    {
      this.sessions, this.sessionTtl, this.users, this.resetTokens := sessions, sessionTtl, users, resetTokens;
    }

    ghost predicate Valid()
      reads this, sessions
    {
      sessions.Valid() && Bounded(users, sessions.LiveSessions())
    }

    /** The session authenticates its user. */
    ghost predicate Accepted(id: nat)
      reads this, sessions
    {
      id in sessions.LiveSessions() && id in AcceptedOf(sessions.LiveSessions()[id].userId)
    }

    ghost function AcceptedOf(user: string): set<nat>
      reads this, sessions
    {
      AcceptedIn(users, sessions.LiveSessions(), user)
    }

    /** The session lives for the configured time from now. */
    ghost predicate HasWholeTtl(id: nat)
      reads this, sessions
    {
      id in sessions.sessions && sessions.sessions[id].Held? &&
      sessions.sessions[id].deadline == sessions.now + sessionTtl
    }

    method VerifyAccessToken(sessionId: nat) returns (user: Option<User>)
      requires Valid()
      ensures user.Some? <==> Accepted(sessionId)
      ensures user.Some? ==> user.value == users[sessions.LiveSessions()[sessionId].userId]
    {
      var record := sessions.Get(sessionId);
      if record.None? {
        return None;
      }
      user := FindById(users, record.value.userId);
      if user.Some? && user.value.authVersion != record.value.authVersion {
        user := None;
      }
    }

    /** A session of the row's present version, for the whole session TTL; just it is added to what is accepted. */
    method CreateAuthSession(userId: string, timestamp: string, ip: Option<string>, userAgent: Option<string>)
      returns (sessionId: nat)
      requires Valid() && userId in users
      modifies sessions
      ensures Valid() && sessionId !in old(sessions.LiveSessions())
      ensures sessions.now == old(sessions.now)
      ensures HasWholeTtl(sessionId)
      ensures sessionId in sessions.LiveSessions() && timestamp != "" ==>
        sessions.LiveSessions()[sessionId] ==
          SessionRecord(userId, users[userId].authVersion, timestamp, timestamp, ip, userAgent)
      ensures AcceptedOf(userId) == old(AcceptedOf(userId)) + {sessionId}
      ensures OfUser(sessions.LiveSessions(), userId) == old(OfUser(sessions.LiveSessions(), userId)) + {sessionId}
      ensures OthersKeep(users, old(sessions.LiveSessions()), users, sessions.LiveSessions(), userId)
    {
      var record := SessionRecord(userId, users[userId].authVersion, timestamp, timestamp, ip, userAgent);
      RecordRoundTrip(record);
      ghost var live := sessions.LiveSessions();
      sessionId := sessions.Create(record, sessionTtl);
      assert sessionId !in live;
      IssuedSessionCounts(users, live, sessionId, NormalizeRecord(Stringify(record)).value);
    }

    /** The update, the purge and the re-issue that both use cases end with. */
    method ReplaceCredentials(updated: User, userId: string, timestamp: string) returns (sessionId: nat)
      requires Valid() && userId in users && updated.authVersion == users[userId].authVersion + 1
      modifies this`users, sessions
      ensures Valid() && users == old(users)[userId := updated]
      ensures AcceptedOf(userId) == {sessionId} == OfUser(sessions.LiveSessions(), userId) && HasWholeTtl(sessionId)
      ensures OthersKeep(old(users), old(sessions.LiveSessions()), users, sessions.LiveSessions(), userId)
    {
      PurgedUserHasNothing(users, sessions.LiveSessions(), userId, updated);
      users := users[userId := updated];
      RevokeAllForUser(userId);
      sessionId := CreateAuthSession(userId, timestamp, None, None);
    }

    /** Eager purge of the user's sessions. */
    method RevokeAllForUser(userId: string)
      requires Valid()
      modifies sessions
      ensures Valid()
      ensures sessions.LiveSessions() == old(sessions.LiveSessions()) - old(OfUser(sessions.LiveSessions(), userId))
    {
      var entries := sessions.ListByUserId(userId);
      ghost var live := sessions.LiveSessions();
      for i := 0 to |entries|
        invariant sessions.Valid() && sessions.LiveSessions() == live - Ids(entries[..i])
      {
        IdsStep(entries, i);
        sessions.Delete(entries[i].id);
        DropOneMore(live, Ids(entries[..i]), entries[i].id);
      }
      assert entries[..|entries|] == entries;
    }
  
    /**
     change-password.usecase.ts. On success the only session of the user that authenticates,
     and the only one left, is the one just created; on refusal nothing changes.
     */
    method ChangePassword(userId: string, currentPassword: string, newPassword: string, timestamp: string)
      returns (changed: Changed)
      requires Valid()
      modifies this`users, sessions
      ensures Valid()
      ensures changed.Changed? <==>
        userId in old(users) && old(users)[userId].passwordHash == Some(HashOf(currentPassword)) &&
        newPassword != currentPassword
      ensures changed.Refused? ==>
        users == old(users) && SameSessions(old(sessions.LiveSessions())) &&
        Deserved(changed.error, if userId in users then Some(users[userId]) else None, currentPassword, newPassword)
      ensures changed.Changed? ==>
        AcceptedOf(userId) == {changed.sessionId} == OfUser(sessions.LiveSessions(), userId) &&
        HasWholeTtl(changed.sessionId) &&
        users == old(users)[userId := old(users)[userId].(
          passwordHash := Some(HashOf(newPassword)), authVersion := old(users)[userId].authVersion + 1)]
      ensures OthersKeep(old(users), old(sessions.LiveSessions()), users, sessions.LiveSessions(), userId)
    {
      var user := FindById(users, userId);
      var refused := ChangeRefused(user, currentPassword, newPassword);
      if refused.Some? {
        return Refused(refused.value);
      }
      var sessionId := ReplaceCredentials(Users.ChangePassword(user.value, HashOf(newPassword)), userId, timestamp);
      return Changed(sessionId);
    }

    /** reset-password.usecase.ts: a reset token works at most once, and then like a change. */
    method ResetPassword(token: string, newPassword: string, timestamp: string) returns (changed: Changed)
      requires Valid()
      modifies this`users, this`resetTokens, sessions
      ensures Valid() && resetTokens == old(resetTokens) - {token}
      ensures changed.Changed? <==> token in old(resetTokens) && old(resetTokens)[token] in old(users)
      ensures changed.Refused? ==>
        changed.error == InvalidResetToken && users == old(users) && SameSessions(old(sessions.LiveSessions()))
      ensures changed.Changed? ==>
        var userId := old(resetTokens)[token];
        AcceptedOf(userId) == {changed.sessionId} == OfUser(sessions.LiveSessions(), userId) &&
        HasWholeTtl(changed.sessionId) &&
        users == old(users)[userId := old(users)[userId].(
          passwordHash := Some(HashOf(newPassword)), authVersion := old(users)[userId].authVersion + 1)] &&
        OthersKeep(old(users), old(sessions.LiveSessions()), users, sessions.LiveSessions(), userId)
    {
      if token !in resetTokens {
        return Refused(InvalidResetToken);
      }
      var userId := resetTokens[token];
      resetTokens := resetTokens - {token};
      var user := FindById(users, userId);
      if user.None? {
        return Refused(InvalidResetToken);
      }
      var sessionId := ReplaceCredentials(Users.ChangePassword(user.value, HashOf(newPassword)), userId, timestamp);
      return Changed(sessionId);
    }

    ghost predicate SameSessions(live: map<nat, SessionRecord>)
      reads sessions
    {
      sessions.LiveSessions() == live
    }
  }
}
