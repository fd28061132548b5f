/**
 redis-jwt-token-store.ts as a state machine: refresh tokens, family cursors and the
 per-user family index. A step is one script or command; `revokeAllRefreshTokenFamilies`
 takes one step per command and interleaves with everything else. Seconds are whole.
 */
module RefreshTokens {
  import opened Prelude
  import opened RedisKeys

  /** The record stored under a token, which is also what the signed token claims. */
  datatype Record = Record(user: string, family: nat)

  datatype PurgePc = Revoking | Finished

  /** One `revokeAllRefreshTokenFamilies` call: what SMEMBERS returned, and what is left of it. */
  datatype Purge = Purge(user: string, taken: set<nat>, todo: seq<nat>, pc: PurgePc)

  /**
   `issued` are the refresh tokens signed so far with their claims, `owners` the families
   created so far; `rotated` the tokens that were ever exchanged.
   */
  datatype State = State(
    now: nat,
    tokens: map<nat, Slot<Record>>,
    families: map<nat, Slot<nat>>,
    index: map<string, Slot<set<nat>>>,
    issued: map<nat, Record>,
    owners: map<nat, string>,
    rotated: set<nat>,
    purges: seq<Purge>)

  datatype Action =
    | Tick(dt: nat)
    | Save(user: string, family: nat, token: nat, ttl: Ttl)
    | Rotate(current: nat, next: nat, ttl: Ttl)
    | Revoke(family: nat)
    | PurgeStart(user: string, members: seq<nat>)
    | PurgeNext(purge: nat)
    | PurgeEnd(purge: nat)

  const INIT := State(0, map[], map[], map[], map[], map[], {}, [])

  function At<K, V>(m: map<K, Slot<V>>, key: K): Slot<V> {
    if key in m then m[key] else Absent
  }

  predicate TokenLive(s: State, token: nat) {
    Live(At(s.tokens, token), s.now)
  }

  predicate FamilyLive(s: State, family: nat) {
    Live(At(s.families, family), s.now)
  }

  // ---------------------------------------------------------------- the index

  /** SADD, then EXPIRE to the later of the remaining and the new TTL. */
  function Indexed(slot: Slot<set<nat>>, now: nat, family: nat, ttl: Ttl): Slot<set<nat>> {
    if Live(slot, now) then Held(slot.value + {family}, Max(slot.deadline, now + ttl))
    else Held({family}, now + ttl)
  }

  /** SREM; a set that becomes empty is gone. */
  function Unindexed(slot: Slot<set<nat>>, now: nat, family: nat): Slot<set<nat>> {
    if !Live(slot, now) then slot
    else if slot.value - {family} == {} then Absent
    else Held(slot.value - {family}, slot.deadline)
  }

  function Members(s: State, user: string): set<nat> {
    if Live(At(s.index, user), s.now) then s.index[user].value else {}
  }

  // ---------------------------------------------------------------- the scripts

  function SaveToken(s: State, user: string, family: nat, token: nat, ttl: Ttl): State {
    s.(tokens := s.tokens[token := SetEx(s.now, Record(user, family), ttl)],
       families := s.families[family := SetEx(s.now, token, ttl)],
       index := s.index[user := Indexed(At(s.index, user), s.now, family, ttl)],
       issued := s.issued[token := Record(user, family)],
       owners := s.owners[family := user])
  }

  /** The rotate script accepts a token that is live and that its live family's cursor names. */
  predicate Accepts(s: State, current: nat, family: nat) {
    TokenLive(s, current) && FamilyLive(s, family) && s.families[family].value == current
  }

  /** Rotation signs the next token before the script decides. */
  function RotateToken(s: State, current: nat, next: nat, ttl: Ttl): State
    requires current in s.issued
  {
    var record := s.issued[current];
    var signed := s.(issued := s.issued[next := record]);
    if !Accepts(s, current, record.family) then signed
    else signed.(
      tokens := s.tokens[current := Absent][next := SetEx(s.now, record, ttl)],
      families := s.families[record.family := SetEx(s.now, next, ttl)],
      index := s.index[record.user := Indexed(At(s.index, record.user), s.now, record.family, ttl)],
      rotated := s.rotated + {current})
  }

  function RevokeFamily(s: State, family: nat): State {
    var cursor := Get(At(s.families, family), s.now);
    var gone := s.(families := s.families[family := Absent]);
    if cursor.None? then gone
    else
      var record := Get(At(s.tokens, cursor.value), s.now);
      var without := gone.(tokens := s.tokens[cursor.value := Absent]);
      if record.None? then without
      else without.(index := s.index[record.value.user := Unindexed(At(s.index, record.value.user), s.now, family)])
  }

  // ---------------------------------------------------------------- steps and runs

  predicate Enabled(s: State, a: Action) {
    match a
    case Tick(_) => true
    case Save(_, family, token, _) => family !in s.owners && token !in s.issued
    case Rotate(current, next, _) => current in s.issued && next !in s.issued
    case Revoke(_) => true
    case PurgeStart(user, members) =>
      (set f | f in members) == Members(s, user) && forall i, j | 0 <= i < j < |members| :: members[i] != members[j]
    case PurgeNext(p) => p < |s.purges| && s.purges[p].pc.Revoking? && s.purges[p].todo != []
    case PurgeEnd(p) => p < |s.purges| && s.purges[p].pc.Revoking? && s.purges[p].todo == []
  }

  function Apply(s: State, a: Action): State
    requires Enabled(s, a)
  {
    match a
    case Tick(dt) => s.(now := s.now + dt)
    case Save(user, family, token, ttl) => SaveToken(s, user, family, token, ttl)
    case Rotate(current, next, ttl) => RotateToken(s, current, next, ttl)
    case Revoke(family) => RevokeFamily(s, family)
    case PurgeStart(user, members) => s.(purges := s.purges + [Purge(user, Members(s, user), members, Revoking)])
    case PurgeNext(p) =>
      RevokeFamily(s, s.purges[p].todo[0]).(purges := s.purges[p := s.purges[p].(todo := s.purges[p].todo[1..])])
    case PurgeEnd(p) =>
      s.(index := s.index[s.purges[p].user := Absent], purges := s.purges[p := s.purges[p].(pc := Finished)])
  }

  predicate Legal(s: State, acts: seq<Action>)
    decreases |acts|
  {
    acts == [] || (Enabled(s, acts[0]) && Legal(Apply(s, acts[0]), acts[1..]))
  }

  function Exec(s: State, acts: seq<Action>): State
    requires Legal(s, acts)
    decreases |acts|
  {
    if acts == [] then s else Exec(Apply(s, acts[0]), acts[1..])
  }

  /** A run can be extended by any enabled step. */
  lemma {:induction false} OneMore(s: State, acts: seq<Action>, a: Action)
    requires Legal(s, acts) && Enabled(Exec(s, acts), a)
    ensures Legal(s, acts + [a]) && Exec(s, acts + [a]) == Apply(Exec(s, acts), a)
    decreases |acts|
  {
    if acts == [] {
      var one := [a];
      assert acts + one == one && one[1..] == [];
      assert Legal(Apply(s, a), []) && Exec(Apply(s, a), []) == Apply(s, a);
    } else {
      OneMore(Apply(s, acts[0]), acts[1..], a);
      assert (acts + [a])[1..] == acts[1..] + [a];
    }
  }
}
