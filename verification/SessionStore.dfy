/**
 redis-session-store.ts and redis-session-management.service.ts: session keys and the
 per-user index, with calls run one at a time. The indexed store behaves as a plain map of
 live sessions.
 */
module SessionStore {
  import opened Prelude
  import opened RedisKeys

  const LEGACY_CREATED_AT_FALLBACK := "1970-01-01T00:00:00.000Z"

  datatype SessionRecord = SessionRecord(
    userId: string,
    authVersion: int,
    createdAt: string,
    lastActivityAt: string,
    ip: Option<string>,
    userAgent: Option<string>)

  /** Stored text: no JSON object, or an object whose fields may be missing or of the wrong type (`None`). */
  datatype Raw =
    | Unreadable
    | Json(
        userId: Option<string>,
        authVersion: Option<int>,
        createdAt: Option<string>,
        lastActivityAt: Option<string>,
        ip: Option<string>,
        userAgent: Option<string>)

  function Stringify(r: SessionRecord): Raw {
    Json(Some(r.userId), Some(r.authVersion), Some(r.createdAt), Some(r.lastActivityAt), r.ip, r.userAgent)
  }

  function NonEmptyOr(text: Option<string>, fallback: string): string {
    if text.Some? && |text.value| > 0 then text.value else fallback
  }

  function NormalizeRecord(raw: Raw): Option<SessionRecord> {
    if raw.Unreadable? || raw.userId.None? || raw.authVersion.None? then None
    else
      var createdAt := NonEmptyOr(raw.createdAt, LEGACY_CREATED_AT_FALLBACK);
      Some(SessionRecord(raw.userId.value, raw.authVersion.value, createdAt,
                         NonEmptyOr(raw.lastActivityAt, createdAt), raw.ip, raw.userAgent))
  }

  /** A record reads back as it was written exactly when its timestamps are not empty. */
  lemma RecordRoundTrip(r: SessionRecord)
    ensures NormalizeRecord(Stringify(r)) == Some(r) <==> r.createdAt != "" && r.lastActivityAt != ""
    ensures NormalizeRecord(Stringify(r)).Some?
    ensures var n := NormalizeRecord(Stringify(r)).value;
      n.userId == r.userId && n.authVersion == r.authVersion && n.createdAt != "" && n.lastActivityAt != ""
  {
    assert |LEGACY_CREATED_AT_FALLBACK| > 0;
  }

  /** Older records are read too: what is missing or empty is filled in; only owner and version are required. */
  lemma LegacyRecordsRead(raw: Raw)
    ensures NormalizeRecord(raw).Some? <==> raw.Json? && raw.userId.Some? && raw.authVersion.Some?
    ensures NormalizeRecord(raw).Some? ==>
      var n := NormalizeRecord(raw).value;
      && raw.userId == Some(n.userId) && raw.authVersion == Some(n.authVersion)
      && n.ip == raw.ip && n.userAgent == raw.userAgent
      && (if raw.createdAt.None? || raw.createdAt.value == "" then n.createdAt == "1970-01-01T00:00:00.000Z"
          else raw.createdAt == Some(n.createdAt))
      && (if raw.lastActivityAt.None? || raw.lastActivityAt.value == "" then n.lastActivityAt == n.createdAt
          else raw.lastActivityAt == Some(n.lastActivityAt))
  {
  }

  /** A set key: SADD creates it without an expiry, EXPIRE gives it one, SREM of the last member removes it. */
  datatype Expiry = Never | At(time: nat)
  datatype SetKey = NoSet | SetOf(members: set<nat>, expiry: Expiry)

  predicate SetLive(k: SetKey, now: nat) {
    k.SetOf? && (k.expiry.At? ==> now < k.expiry.time)
  }

  function SMembers(k: SetKey, now: nat): set<nat> {
    if SetLive(k, now) then k.members else {}
  }

  function SAdd(k: SetKey, now: nat, member: nat): SetKey {
    if SetLive(k, now) then SetOf(k.members + {member}, k.expiry) else SetOf({member}, Never)
  }

  function SRem(k: SetKey, now: nat, member: nat): SetKey {
    if !SetLive(k, now) then k
    else if k.members - {member} == {} then NoSet
    else SetOf(k.members - {member}, k.expiry)
  }

  /** TTL: the remaining seconds, -1 without expiry, -2 without key. */
  function TtlReply(k: SetKey, now: nat): int {
    if !SetLive(k, now) then -2 else if k.expiry.Never? then -1 else k.expiry.time - now
  }

  function Expire(k: SetKey, now: nat, ttl: nat): SetKey {
    if SetLive(k, now) then SetOf(k.members, At(now + ttl)) else k
  }

  predicate Outlasts(e: Expiry, deadline: nat) {
    e.At? ==> deadline <= e.time
  }

  function IndexAt(index: map<string, SetKey>, user: string): SetKey {
    if user in index then index[user] else NoSet
  }

  datatype Entry = Entry(id: nat, record: SessionRecord, expiresAt: nat)

  datatype Item = Item(
    id: nat, createdAt: string, lastActivityAt: string, expiresAt: nat, ip: Option<string>, userAgent: Option<string>,
      isCurrent: bool)

  /** The user's sessions among the live ones. */
  ghost function OfUser(live: map<nat, SessionRecord>, user: string): set<nat> {
    set id | id in live && live[id].userId == user
  }

  ghost function Ids(entries: seq<Entry>): set<nat> {
    set i | 0 <= i < |entries| :: entries[i].id
  }

  /** The readable sessions that have not expired. */
  ghost function LiveOf(sessions: map<nat, Slot<Raw>>, now: nat): map<nat, SessionRecord> {
    map id | id in sessions && Live(sessions[id], now) && NormalizeRecord(sessions[id].value).Some? ::
      NormalizeRecord(sessions[id].value).value
  }

  /** Every live session is in its user's index, which lasts as long. */
  ghost predicate Covered(now: nat, sessions: map<nat, Slot<Raw>>, index: map<string, SetKey>) {
    forall id | id in LiveOf(sessions, now) ::
      && id in SMembers(IndexAt(index, LiveOf(sessions, now)[id].userId), now)
      && Outlasts(IndexAt(index, LiveOf(sessions, now)[id].userId).expiry, sessions[id].deadline)
  }

  /** An index lists only sessions of its user. */
  ghost predicate Owned(now: nat, sessions: map<nat, Slot<Raw>>, index: map<string, SetKey>, drawn: set<nat>) {
    forall user, id | id in SMembers(IndexAt(index, user), now) ::
      id in drawn && (id in LiveOf(sessions, now) ==> LiveOf(sessions, now)[id].userId == user)
  }

  /** Between calls every index has an expiry. */
  ghost predicate Timed(index: map<string, SetKey>, now: nat) {
    forall user | user in index && SetLive(index[user], now) :: index[user].expiry.At?
  }

  lemma CreateKeeps(
      now: nat, sessions: map<nat, Slot<Raw>>, index: map<string, SetKey>, drawn: set<nat>,
      id: nat, record: SessionRecord, ttl: Ttl, key: SetKey)
    requires Covered(now, sessions, index) && Owned(now, sessions, index, drawn) && id !in drawn && id !in sessions
    requires SMembers(key, now) == SMembers(IndexAt(index, record.userId), now) + {id}
    requires Outlasts(key.expiry, now + ttl)
    requires SetLive(IndexAt(index, record.userId), now) && IndexAt(index, record.userId).expiry.At? ==>
      key.expiry.At? && IndexAt(index, record.userId).expiry.time <= key.expiry.time
    requires SetLive(IndexAt(index, record.userId), now) ==> IndexAt(index, record.userId).expiry.At?
    ensures var sessions' := sessions[id := SetEx(now, Stringify(record), ttl)];
      var index' := index[record.userId := key];
      Covered(now, sessions', index') && Owned(now, sessions', index', drawn + {id}) &&
      LiveOf(sessions', now) == LiveOf(sessions, now)[id := NormalizeRecord(Stringify(record)).value]
  {
    RecordRoundTrip(record);
    var sessions' := sessions[id := SetEx(now, Stringify(record), ttl)];
    var index' := index[record.userId := key];
    assert LiveOf(sessions', now) == LiveOf(sessions, now)[id := NormalizeRecord(Stringify(record)).value];
    forall other | other in LiveOf(sessions', now)
      ensures other in SMembers(IndexAt(index', LiveOf(sessions', now)[other].userId), now)
      ensures Outlasts(IndexAt(index', LiveOf(sessions', now)[other].userId).expiry, sessions'[other].deadline)
    {
      assert other == id || other in LiveOf(sessions, now);
    }
    forall user, other | other in SMembers(IndexAt(index', user), now)
      ensures other in drawn + {id} && (other in LiveOf(sessions', now) ==>
        LiveOf(sessions', now)[other].userId == user)
    {
      if user != record.userId {
        assert IndexAt(index', user) == IndexAt(index, user);
      } else {
        assert other == id || other in SMembers(IndexAt(index, user), now);
      }
    }
  }

  /** Removing from one index a member that is not (or no longer) a live session. */
  lemma RemoveKeeps(now: nat, sessions: map<nat, Slot<Raw>>, index: map<string, SetKey>, drawn: set<nat>, user: string,
      id: nat)
    requires Covered(now, sessions, index) && Owned(now, sessions, index, drawn) && id !in LiveOf(sessions, now)
    ensures var index' := index[user := SRem(IndexAt(index, user), now, id)];
      Covered(now, sessions, index') && Owned(now, sessions, index', drawn) &&
      SMembers(IndexAt(index', user), now) == SMembers(IndexAt(index, user), now) - {id}
  {
    var index' := index[user := SRem(IndexAt(index, user), now, id)];
    assert SMembers(IndexAt(index', user), now) == SMembers(IndexAt(index, user), now) - {id};
    forall u, other | other in SMembers(IndexAt(index', u), now)
      ensures other in drawn && (other in LiveOf(sessions, now) ==> LiveOf(sessions, now)[other].userId == u)
    {
      assert other in SMembers(IndexAt(index, u), now);
    }
  }

  lemma DropKeeps(now: nat, sessions: map<nat, Slot<Raw>>, index: map<string, SetKey>, drawn: set<nat>, id: nat)
    requires Covered(now, sessions, index) && Owned(now, sessions, index, drawn)
    ensures Covered(now, sessions - {id}, index) && Owned(now, sessions - {id}, index, drawn) &&
      LiveOf(sessions - {id}, now) == LiveOf(sessions, now) - {id}
  {
    assert LiveOf(sessions - {id}, now) == LiveOf(sessions, now) - {id};
  }

  function Elements(q: seq<nat>): set<nat> {
    set x | x in q
  }

  lemma ElementsSplit(q: seq<nat>, i: nat)
    requires i < |q| && forall a, b | 0 <= a < b < |q| :: q[a] != q[b]
    ensures Elements(q[i..]) == {q[i]} + Elements(q[i + 1..]) && q[i] !in Elements(q[i + 1..])
  {
    assert q[i..] == [q[i]] + q[i + 1..];
  }

  class RedisSessionStore {
    var now: nat
    var sessions: map<nat, Slot<Raw>>
    var index: map<string, SetKey>
    /** Session ids drawn so far. */
    var drawn: set<nat>

    constructor ()
      ensures Valid() && LiveSessions() == map[] && now == 0
    {
      now, sessions, index, drawn := 0, map[], map[], {};
    }

    /** The abstract store. */
    ghost function LiveSessions(): map<nat, SessionRecord>
      reads this`sessions, this`now
    {
      LiveOf(sessions, now)
    }

    ghost predicate Valid()
      reads this
    {
      && sessions.Keys <= drawn
      && Covered(now, sessions, index)
      && Owned(now, sessions, index, drawn)
      && Timed(index, now)
    }

    /** Time passes: exactly the sessions whose deadline comes drop out. */
    method Elapse(seconds: nat)
      requires Valid()
      modifies this`now
      ensures Valid() && now == old(now) + seconds
      ensures forall id :: id in LiveSessions() <==> id in old(LiveSessions()) && now < sessions[id].deadline
      ensures forall id | id in LiveSessions() :: LiveSessions()[id] == old(LiveSessions())[id]
    {
      now := now + seconds;
      assert forall id | id in LiveSessions() :: id in old(LiveSessions());
      assert forall user :: SMembers(IndexAt(index, user), now) <= SMembers(IndexAt(index, user), old(now));
    }

    method Create(record: SessionRecord, ttl: Ttl) returns (id: nat)
      requires Valid()
      modifies this
      ensures id !in old(LiveSessions())
      ensures Valid() && now == old(now) && drawn == old(drawn) + {id} && id !in old(drawn)
      ensures LiveSessions() == old(LiveSessions())[id := NormalizeRecord(Stringify(record)).value]
      ensures id in sessions && sessions[id].Held? && sessions[id].deadline == now + ttl
      ensures forall other | other in old(sessions) :: other in sessions && sessions[other] == old(sessions)[other]
      ensures forall user | user != record.userId :: IndexAt(index, user) == IndexAt(old(index), user)
      ensures SMembers(IndexAt(index, record.userId), now) == SMembers(IndexAt(old(index), record.userId), now) + {id}
    {
      id := Fresh(drawn);
      drawn := drawn + {id};
      var user := record.userId;
      sessions := sessions[id := SetEx(now, Stringify(record), ttl)];
      index := index[user := SAdd(IndexAt(index, user), now, id)];
      var currentIndexTtl := TtlReply(IndexAt(index, user), now);
      var indexTtl := if currentIndexTtl < 0 then ttl else Max(currentIndexTtl, ttl);
      index := index[user := Expire(IndexAt(index, user), now, indexTtl)];
      ghost var key := index[user];
      assert index == old(index)[user := key];
      CreateKeeps(now, old(sessions), old(index), old(drawn), id, record, ttl, key);
    }

    method Get(id: nat) returns (record: Option<SessionRecord>)
      ensures record == if id in LiveSessions() then Some(LiveSessions()[id]) else None
    {
      if id !in sessions || !Live(sessions[id], now) {
        return None;
      }
      return NormalizeRecord(sessions[id].value);
    }

    method Delete(id: nat)
      requires Valid()
      modifies this`sessions, this`index
      ensures Valid() && LiveSessions() == old(LiveSessions()) - {id}
      ensures forall other | other in sessions :: other in old(sessions) && sessions[other] == old(sessions)[other]
      ensures forall user ::
        SMembers(IndexAt(index, user), now) ==
          SMembers(IndexAt(old(index), user), now) - if id in old(OfUser(LiveSessions(), user)) then {id} else {}
    {
      var record := Get(id);
      DropKeeps(now, sessions, index, drawn, id);
      sessions := sessions - {id};
      if record.Some? {
        RemoveKeeps(now, sessions, index, drawn, record.value.userId, id);
        index := index[record.value.userId := SRem(IndexAt(index, record.value.userId), now, id)];
      }
    }

    /** One stale member leaves the index; no live session notices. */
    method Prune(user: string, id: nat)
      requires Valid() && id !in LiveSessions()
      modifies this`index
      ensures Valid()
      ensures forall other | other != user :: IndexAt(index, other) == IndexAt(old(index), other)
      ensures SMembers(IndexAt(index, user), now) == SMembers(IndexAt(old(index), user), now) - {id}
    {
      RemoveKeeps(now, sessions, index, drawn, user, id);
      index := index[user := SRem(IndexAt(index, user), now, id)];
    }

    /** What `listByUserId` says of each entry. */
    ghost predicate Faithful(entries: seq<Entry>)
      reads this
    {
      && (forall i, j | 0 <= i < j < |entries| :: entries[i].id != entries[j].id)
      && forall i | 0 <= i < |entries| ::
           && entries[i].id in LiveSessions() && entries[i].record == LiveSessions()[entries[i].id]
           && entries[i].expiresAt == sessions[entries[i].id].deadline
    }

    /**
     Lists exactly the live sessions of the user, each once, with their deadlines. Only the
     user's index changes, and it loses only members that are no live session.
     */
    method ListByUserId(user: string) returns (entries: seq<Entry>)
      requires Valid()
      modifies this`index
      ensures Valid() && Faithful(entries)
      ensures Ids(entries) == OfUser(LiveSessions(), user) == SMembers(IndexAt(index, user), now)
      ensures forall other | other != user :: IndexAt(index, other) == IndexAt(old(index), other)
    {
      var members := Enumerate(SMembers(IndexAt(index, user), now));
      entries := [];
      for i := 0 to |members|
        invariant Valid() && Faithful(entries)
        invariant SMembers(IndexAt(index, user), now) == Ids(entries) + Elements(members[i..])
        invariant Ids(entries) !! Elements(members[i..])
        invariant forall other | other != user :: IndexAt(index, other) == IndexAt(old(index), other)
      {
        ElementsSplit(members, i);
        var id := members[i];
        var record := Get(id);
        if record.None? {
          Prune(user, id);
        } else {
          var ttlSeconds := sessions[id].deadline - now;
          var expiresAt := if ttlSeconds > 0 then now + ttlSeconds else now;
          var entry := Entry(id, record.value, expiresAt);
          AppendEntry(entries, entry);
          entries := entries + [entry];
        }
      }
      assert Ids(entries) <= OfUser(LiveSessions(), user) by {
        assert forall x | x in Ids(entries) :: x in SMembers(IndexAt(index, user), now);
      }
    }

    lemma AppendEntry(entries: seq<Entry>, e: Entry)
      requires Faithful(entries) && Faithful([e]) && e.id !in Ids(entries)
      ensures Faithful(entries + [e]) && Ids(entries + [e]) == Ids(entries) + {e.id}
    {
      var all := entries + [e];
      assert all[|entries|] == e;
      assert forall i | 0 <= i < |entries| :: all[i] == entries[i] && entries[i].id in Ids(entries);
      assert [e][0] == e;
    }
  }
}
