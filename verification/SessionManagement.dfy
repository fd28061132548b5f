/** redis-session-management.service.ts over the session store. */
module SessionManagement {
  import opened Prelude
  import opened RedisKeys
  import opened SessionStore

  class RedisSessionManagementService {
    const sessionStore: RedisSessionStore

    constructor (sessionStore: RedisSessionStore)
      ensures this.sessionStore == sessionStore
    {
      this.sessionStore := sessionStore;
    }

    /** Exactly the user's live sessions of the current version, the current one flagged. */
    method ListForUser(user: string, currentSessionId: nat, currentAuthVersion: int) returns (items: seq<Item>)
      requires sessionStore.Valid()
      modifies sessionStore`index
      ensures sessionStore.Valid()
      ensures ItemIds(items) ==
              set id | id in OfUser(sessionStore.LiveSessions(), user) &&
                sessionStore.LiveSessions()[id].authVersion == currentAuthVersion
      ensures forall i | 0 <= i < |items| ::
                && items[i].id in sessionStore.LiveSessions()
                && Describes(items[i], sessionStore.LiveSessions()[items[i].id])
                && items[i].expiresAt == sessionStore.sessions[items[i].id].deadline
                && (items[i].isCurrent <==> items[i].id == currentSessionId)
      ensures forall i, j | 0 <= i < j < |items| :: items[i].id != items[j].id
    {
      var entries := sessionStore.ListByUserId(user);
      items := Select(entries, currentSessionId, currentAuthVersion);
      forall id
        ensures id in ItemIds(items) <==>
          id in OfUser(sessionStore.LiveSessions(), user) &&
            sessionStore.LiveSessions()[id].authVersion == currentAuthVersion
      {
        assert id in Ids(entries) <==> id in OfUser(sessionStore.LiveSessions(), user);
      }
    }

    /** Not found unless the session is live and the user's own; otherwise it alone goes. */
    method RevokeOne(user: string, sessionId: nat, currentSessionId: nat) returns (clearedCurrent: Option<bool>)
      requires sessionStore.Valid()
      modifies sessionStore`sessions, sessionStore`index
      ensures sessionStore.Valid()
      ensures clearedCurrent.Some? <==> sessionId in old(OfUser(sessionStore.LiveSessions(), user))
      ensures clearedCurrent.Some? ==> clearedCurrent.value == (sessionId == currentSessionId)
      ensures sessionStore.LiveSessions() ==
              old(sessionStore.LiveSessions()) - if clearedCurrent.Some? then {sessionId} else {}
    {
      var record := sessionStore.Get(sessionId);
      if record.None? || record.value.userId != user {
        return None;
      }
      sessionStore.Delete(sessionId);
      return Some(sessionId == currentSessionId);
    }

    /** The user's other sessions go, all others stay, and the count is how many went. */
    method RevokeOthers(user: string, currentSessionId: nat) returns (revokedCount: nat)
      requires sessionStore.Valid()
      modifies sessionStore`sessions, sessionStore`index
      ensures sessionStore.Valid()
      ensures sessionStore.LiveSessions() ==
              old(sessionStore.LiveSessions()) - (old(OfUser(sessionStore.LiveSessions(), user)) - {currentSessionId})
      ensures revokedCount == |old(OfUser(sessionStore.LiveSessions(), user)) - {currentSessionId}|
    {
      var entries := sessionStore.ListByUserId(user);
      ghost var live := sessionStore.LiveSessions();
      ghost var gone := {};
      revokedCount := 0;
      for i := 0 to |entries|
        invariant sessionStore.Valid() && sessionStore.LiveSessions() == live - gone
        invariant gone == Ids(entries[..i]) - {currentSessionId} && revokedCount == |gone|
      {
        OthersStep(entries, i, currentSessionId);
        if entries[i].id != currentSessionId {
          sessionStore.Delete(entries[i].id);
          DropOneMore(live, gone, entries[i].id);
          gone := gone + {entries[i].id};
          revokedCount := revokedCount + 1;
        }
      }
      assert entries[..|entries|] == entries;
    }

    method RevokeAll(user: string)
      requires sessionStore.Valid()
      modifies sessionStore`sessions, sessionStore`index
      ensures sessionStore.Valid()
      ensures sessionStore.LiveSessions() == old(sessionStore.LiveSessions()) -
        old(OfUser(sessionStore.LiveSessions(), user))
    {
      var entries := sessionStore.ListByUserId(user);
      ghost var live := sessionStore.LiveSessions();
      for i := 0 to |entries|
        invariant sessionStore.Valid()
        invariant sessionStore.LiveSessions() == live - Ids(entries[..i])
      {
        IdsStep(entries, i);
        DropOneMore(live, Ids(entries[..i]), entries[i].id);
        sessionStore.Delete(entries[i].id);
      }
      assert entries[..|entries|] == entries;
    }
  }

  /** An item shows what the record says. */
  predicate Describes(item: Item, record: SessionRecord) {
    item.createdAt == record.createdAt && item.lastActivityAt == record.lastActivityAt &&
    item.ip == record.ip && item.userAgent == record.userAgent
  }

  /** The filter and the map of `listForUser`: one item for each entry of the version, and nothing else. */
  method Select(entries: seq<Entry>, currentSessionId: nat, version: int) returns (items: seq<Item>)
    requires forall a, b | 0 <= a < b < |entries| :: entries[a].id != entries[b].id
    ensures ItemIds(items) == set j | 0 <= j < |entries| && entries[j].record.authVersion == version :: entries[j].id
    ensures forall k, l | 0 <= k < l < |items| :: items[k].id != items[l].id
    ensures forall k, j | 0 <= k < |items| && 0 <= j < |entries| && items[k].id == entries[j].id ::
      Shows(items[k], entries[j], currentSessionId)
  {
    items := [];
    for i := 0 to |entries|
      invariant ItemIds(items) == set j | 0 <= j < i && entries[j].record.authVersion == version :: entries[j].id
      invariant forall k, l | 0 <= k < l < |items| :: items[k].id != items[l].id
      invariant forall k, j | 0 <= k < |items| && 0 <= j < |entries| && items[k].id == entries[j].id ::
        Shows(items[k], entries[j], currentSessionId)
    {
      if entries[i].record.authVersion == version {
        var item := ItemOf(entries[i].id, entries[i].record, entries[i].expiresAt, currentSessionId);
        AppendItem(items, item);
        NotYetListed(entries, i, version, items);
        items := items + [item];
      }
    }
  }

  /** The item shows the entry. */
  predicate Shows(item: Item, e: Entry, currentSessionId: nat) {
    Describes(item, e.record) && item.expiresAt == e.expiresAt && (item.isCurrent <==> e.id == currentSessionId)
  }

  /** The next entry is none of those listed so far. */
  lemma NotYetListed(entries: seq<Entry>, i: nat, version: int, items: seq<Item>)
    requires i < |entries| && forall a, b | 0 <= a < b < |entries| :: entries[a].id != entries[b].id
    requires ItemIds(items) == set j | 0 <= j < i && entries[j].record.authVersion == version :: entries[j].id
    ensures forall k | 0 <= k < |items| :: items[k].id != entries[i].id
  {
    forall k | 0 <= k < |items|
      ensures items[k].id != entries[i].id
    {
      assert items[k].id in ItemIds(items);
    }
  }

  function ItemOf(id: nat, record: SessionRecord, expiresAt: nat, currentSessionId: nat): Item {
    Item(id, record.createdAt, record.lastActivityAt, expiresAt, record.ip, record.userAgent, id == currentSessionId)
  }

  /** Distinct entries contribute one id each. */
  lemma IdsStep(entries: seq<Entry>, i: nat)
    requires i < |entries| && forall a, b | 0 <= a < b < |entries| :: entries[a].id != entries[b].id
    ensures Ids(entries[..i + 1]) == Ids(entries[..i]) + {entries[i].id}
    ensures entries[i].id !in Ids(entries[..i])
  {
    var longer, shorter := entries[..i + 1], entries[..i];
    assert longer[i] == entries[i];
    assert forall a | 0 <= a < i :: longer[a] == shorter[a] == entries[a];
  }

  /** The ids other than the current one grow by one, unless the entry is the current one. */
  lemma OthersStep(entries: seq<Entry>, i: nat, current: nat)
    requires i < |entries| && forall a, b | 0 <= a < b < |entries| :: entries[a].id != entries[b].id
    ensures var before, after := Ids(entries[..i]) - {current}, Ids(entries[..i + 1]) - {current};
      if entries[i].id == current then after == before
      else after == before + {entries[i].id} && |after| == |before| + 1
  {
    IdsStep(entries, i);
    var before, after := Ids(entries[..i]) - {current}, Ids(entries[..i + 1]) - {current};
    if entries[i].id == current {
      assert after == before;
    } else {
      assert after == before + {entries[i].id};
    }
  }

  ghost function ItemIds(items: seq<Item>): set<nat> {
    set i | 0 <= i < |items| :: items[i].id
  }

  lemma AppendItem(items: seq<Item>, item: Item)
    ensures ItemIds(items + [item]) == ItemIds(items) + {item.id}
    ensures forall i | 0 <= i < |items| :: (items + [item])[i] == items[i]
  {
    var all := items + [item];
    assert all[|items|] == item;
    assert forall i | 0 <= i < |items| :: all[i] == items[i];
  }

  lemma DropOneMore<K, V>(m: map<K, V>, gone: set<K>, k: K)
    ensures m - gone - {k} == m - (gone + {k})
  {
  }
}
