/**
 Revoking everything a user holds, one command at a time: SMEMBERS, a revoke per family, DEL
 of the index, with rotations, saves and revocations by others in between.
 */
module RefreshPurge {
  import opened Prelude
  import opened RedisKeys
  import opened RefreshTokens
  import opened RefreshFamilies

  // ---------------------------------------------------------------- what was listed dies

  ghost predicate TakenDie(s: State) {
    forall p | 0 <= p < |s.purges| ::
      && (forall f | f in s.purges[p].taken :: f in s.owners && (f in s.purges[p].todo || Dead(s, f)))
      && (s.purges[p].pc.Finished? ==> s.purges[p].todo == [])
      && (forall f | f in s.purges[p].todo :: f in s.purges[p].taken)
  }

  /** One listed family, one step: it stays listed ahead, or is dead. */
  lemma ListedFamilyStep(s: State, a: Action, p: nat, f: nat)
    requires Inv(s) && TakenDie(s) && Enabled(s, a) && p < |s.purges| && f in s.purges[p].taken
    ensures var s' := Apply(s, a);
      f in s'.owners && p < |s'.purges| && (f in s'.purges[p].todo || Dead(s', f))
  {
    if Dead(s, f) {
      DeadStep(s, a, f);
    } else if a.PurgeNext? && a.purge == p {
      var todo := s.purges[p].todo;
      InvRevoke(s, todo[0]);
      var i :| 0 <= i < |todo| && todo[i] == f;
      if i > 0 {
        assert todo[1..][i - 1] == f;
      }
    }
  }

  lemma TakenDieStep(s: State, a: Action)
    requires Inv(s) && TakenDie(s) && Enabled(s, a)
    ensures TakenDie(Apply(s, a))
  {
    var s' := Apply(s, a);
    forall p, f | 0 <= p < |s'.purges| && f in s'.purges[p].taken
      ensures f in s'.owners && (f in s'.purges[p].todo || Dead(s', f))
    {
      if p < |s.purges| {
        ListedFamilyStep(s, a, p, f);
      } else {
        assert f in Members(s, a.user);
      }
    }
    forall p, f | 0 <= p < |s'.purges| && f in s'.purges[p].todo
      ensures f in s'.purges[p].taken
    {
      assert p < |s.purges| ==> f in s.purges[p].todo;
    }
  }

  lemma {:induction false} TakenDieRun(s: State, acts: seq<Action>)
    requires Inv(s) && TakenDie(s) && Legal(s, acts)
    ensures Inv(Exec(s, acts)) && TakenDie(Exec(s, acts))
    decreases |acts|
  {
    if acts == [] {
    } else {
      InvStep(s, acts[0]);
      TakenDieStep(s, acts[0]);
      TakenDieRun(Apply(s, acts[0]), acts[1..]);
    }
  }

  lemma {:induction false} TakenStays(s: State, acts: seq<Action>, p: nat)
    requires Legal(s, acts) && p < |s.purges|
    ensures p < |Exec(s, acts).purges| && Exec(s, acts).purges[p].taken == s.purges[p].taken &&
      Exec(s, acts).purges[p].user == s.purges[p].user
    decreases |acts|
  {
    if acts == [] {
    } else {
      TakenStays(Apply(s, acts[0]), acts[1..], p);
    }
  }

  /**
   Whatever interleaves, every family in the user's index when SMEMBERS runs is dead when the
   call has returned, and no token of it is accepted in any continuation.
   */
  lemma PurgeKillsListedFamilies(
      before: seq<Action>, user: string, members: seq<nat>, during: seq<Action>, after: seq<Action>, f: nat, t: nat)
    requires Legal(INIT, before) && Enabled(Exec(INIT, before), PurgeStart(user, members))
    requires Legal(Apply(Exec(INIT, before), PurgeStart(user, members)), during)
    requires var s := Exec(Apply(Exec(INIT, before), PurgeStart(user, members)), during);
      |Exec(INIT, before).purges| < |s.purges| && s.purges[|Exec(INIT, before).purges|].pc.Finished? && Legal(s, after)
    requires f in Members(Exec(INIT, before), user)
    ensures var s := Exec(Apply(Exec(INIT, before), PurgeStart(user, members)), during);
      Dead(s, f) && Dead(Exec(s, after), f) && !Accepts(Exec(s, after), t, f)
  {
    TakenDieRun(INIT, before);
    var s0 := Exec(INIT, before);
    var s1 := Apply(s0, PurgeStart(user, members));
    InvStep(s0, PurgeStart(user, members));
    TakenDieStep(s0, PurgeStart(user, members));
    TakenDieRun(s1, during);
    TakenStays(s1, during, |s0.purges|);
    var s2 := Exec(s1, during);
    assert f in s2.purges[|s0.purges|].taken;
    DeadForever(s2, after, f, t);
  }

  // ---------------------------------------------------------------- the index covers what lives

  /** Every live family is in its owner's index, whose deadline is no earlier. */
  ghost predicate Covered(s: State) {
    forall f | f in s.families && FamilyLive(s, f) ::
      f in s.owners && f in Members(s, s.owners[f]) && s.families[f].deadline <= s.index[s.owners[f]].deadline
  }

  /** A purge in progress still has before it every live family of its user. */
  ghost predicate PurgesCover(s: State) {
    forall p, f | 0 <= p < |s.purges| && s.purges[p].pc.Revoking? && f in s.families && FamilyLive(s, f) &&
        f in s.owners && s.owners[f] == s.purges[p].user ::
      f in s.purges[p].todo
  }

  /** No save for a user falls inside a purge of that user. */
  predicate Quiet(s: State, a: Action) {
    a.Save? ==> forall p | 0 <= p < |s.purges| :: s.purges[p].pc.Revoking? ==> s.purges[p].user != a.user
  }

  predicate QuietRun(s: State, acts: seq<Action>)
    decreases |acts|
  {
    acts == [] || (Enabled(s, acts[0]) && Quiet(s, acts[0]) && QuietRun(Apply(s, acts[0]), acts[1..]))
  }

  lemma CoveredRevoke(s: State, family: nat)
    requires Inv(s) && Covered(s)
    ensures Covered(RevokeFamily(s, family))
  {
    var s' := RevokeFamily(s, family);
    forall f | f in s'.families && FamilyLive(s', f)
      ensures f in s'.owners && f in Members(s', s'.owners[f]) &&
        s'.families[f].deadline <= s'.index[s'.owners[f]].deadline
    {
      assert f != family && FamilyLive(s, f);
    }
  }

  lemma CoveredSave(s: State, user: string, family: nat, token: nat, ttl: Ttl)
    requires Inv(s) && Covered(s) && Enabled(s, Save(user, family, token, ttl))
    ensures Covered(SaveToken(s, user, family, token, ttl))
  {
    var s' := SaveToken(s, user, family, token, ttl);
    forall f | f in s'.families && FamilyLive(s', f)
      ensures f in s'.owners && f in Members(s', s'.owners[f]) &&
        s'.families[f].deadline <= s'.index[s'.owners[f]].deadline
    {
      if f != family {
        assert f in s.families && FamilyLive(s, f) && f in Members(s, s.owners[f]);
      }
    }
  }

  lemma CoveredRotate(s: State, current: nat, next: nat, ttl: Ttl)
    requires Inv(s) && Covered(s) && Enabled(s, Rotate(current, next, ttl))
    ensures Covered(RotateToken(s, current, next, ttl))
  {
    var s' := RotateToken(s, current, next, ttl);
    forall f | f in s'.families && FamilyLive(s', f)
      ensures f in s'.owners && f in Members(s', s'.owners[f]) &&
        s'.families[f].deadline <= s'.index[s'.owners[f]].deadline
    {
      assert f in s.families && FamilyLive(s, f) && f in Members(s, s.owners[f]);
    }
  }

  lemma CoveredPurgeEnd(s: State, p: nat)
    requires Inv(s) && Covered(s) && PurgesCover(s) && Enabled(s, PurgeEnd(p))
    ensures Covered(Apply(s, PurgeEnd(p)))
  {
    var s' := Apply(s, PurgeEnd(p));
    forall f | f in s'.families && FamilyLive(s', f)
      ensures f in s'.owners && f in Members(s', s'.owners[f]) &&
        s'.families[f].deadline <= s'.index[s'.owners[f]].deadline
    {
      assert f in s.families && FamilyLive(s, f) && f in Members(s, s.owners[f]);
      assert s.owners[f] != s.purges[p].user;
    }
  }

  lemma CoveredTick(s: State, dt: nat)
    requires Covered(s)
    ensures Covered(s.(now := s.now + dt))
  {
    forall f | f in s.families && FamilyLive(s.(now := s.now + dt), f)
      ensures f in s.owners && f in Members(s.(now := s.now + dt), s.owners[f]) &&
        s.families[f].deadline <= s.index[s.owners[f]].deadline
    {
      assert FamilyLive(s, f);
    }
  }

  lemma CoveredPurges(s: State, purges: seq<Purge>)
    requires Covered(s)
    ensures Covered(s.(purges := purges))
  {
    forall f | f in s.families && FamilyLive(s.(purges := purges), f)
      ensures f in s.owners && f in Members(s.(purges := purges), s.owners[f]) &&
        s.families[f].deadline <= s.index[s.owners[f]].deadline
    {
      assert FamilyLive(s, f) && f in Members(s, s.owners[f]);
    }
  }

  lemma CoveredStep(s: State, a: Action)
    requires Inv(s) && Covered(s) && PurgesCover(s) && Enabled(s, a)
    ensures Covered(Apply(s, a))
  {
    match a
    case Tick(dt) => CoveredTick(s, dt);
    case Save(user, family, token, ttl) => CoveredSave(s, user, family, token, ttl);
    case Rotate(current, next, ttl) => CoveredRotate(s, current, next, ttl);
    case Revoke(family) => CoveredRevoke(s, family);
    case PurgeStart(_, _) => CoveredPurges(s, Apply(s, a).purges);
    case PurgeNext(p) =>
      CoveredRevoke(s, s.purges[p].todo[0]);
      CoveredPurges(RevokeFamily(s, s.purges[p].todo[0]), Apply(s, a).purges);
    case PurgeEnd(p) => CoveredPurgeEnd(s, p);
  }

  /** Only a save brings a family to life, or gives it an owner. */
  lemma OnlySavesGiveLife(s: State, a: Action, f: nat)
    requires Enabled(s, a) && FamilyLive(Apply(s, a), f) && !(a.Save? && a.family == f)
    ensures FamilyLive(s, f)
  {
  }

  lemma OnlySavesGiveOwners(s: State, a: Action, f: nat)
    requires Enabled(s, a) && f in Apply(s, a).owners && !(a.Save? && a.family == f)
    ensures f in s.owners && Apply(s, a).owners[f] == s.owners[f]
  {
  }

  lemma PurgesCoverStep(s: State, a: Action)
    requires Inv(s) && Covered(s) && PurgesCover(s) && Quiet(s, a) && Enabled(s, a)
    ensures PurgesCover(Apply(s, a))
  {
    var s' := Apply(s, a);
    forall p, f | 0 <= p < |s'.purges| && s'.purges[p].pc.Revoking? && f in s'.families && FamilyLive(s', f) &&
        f in s'.owners && s'.owners[f] == s'.purges[p].user
      ensures f in s'.purges[p].todo
    {
      if !a.Save? || a.family != f {
        OnlySavesGiveLife(s, a, f);
        OnlySavesGiveOwners(s, a, f);
        StillAhead(s, a, p, f);
      }
    }
  }

  lemma StillAhead(s: State, a: Action, p: nat, f: nat)
    requires Inv(s) && Covered(s) && PurgesCover(s) && Enabled(s, a)
    requires p < |Apply(s, a).purges| && Apply(s, a).purges[p].pc.Revoking?
    requires FamilyLive(Apply(s, a), f) && FamilyLive(s, f) && f in s.owners &&
      s.owners[f] == Apply(s, a).purges[p].user
    ensures f in Apply(s, a).purges[p].todo
  {
    if p < |s.purges| {
      assert f in s.purges[p].todo;
      if a.PurgeNext? && a.purge == p {
        var todo := s.purges[p].todo;
        var i :| 0 <= i < |todo| && todo[i] == f;
        InvRevoke(s, todo[0]);
        assert todo[1..][i - 1] == f;
      }
    } else {
      assert f in Members(s, a.user);
    }
  }

  lemma {:induction false} CoveredRun(s: State, acts: seq<Action>)
    requires Inv(s) && Covered(s) && PurgesCover(s) && QuietRun(s, acts)
    ensures Legal(s, acts) && Inv(Exec(s, acts)) && Covered(Exec(s, acts)) && PurgesCover(Exec(s, acts))
    decreases |acts|
  {
    if acts == [] {
    } else {
      InvStep(s, acts[0]);
      CoveredStep(s, acts[0]);
      PurgesCoverStep(s, acts[0]);
      CoveredRun(Apply(s, acts[0]), acts[1..]);
    }
  }

  /** At every second, each live family is in its owner's index and does not outlive it. */
  lemma IndexCoversLiveFamilies(acts: seq<Action>, f: nat)
    requires QuietRun(INIT, acts)
    ensures Legal(INIT, acts)
    ensures var s := Exec(INIT, acts);
      FamilyLive(s, f) ==>
        f in s.owners && f in Members(s, s.owners[f]) && s.families[f].deadline <= s.index[s.owners[f]].deadline
  {
    CoveredRun(INIT, acts);
  }

  lemma ListedAhead(s: State, p: nat, f: nat)
    requires PurgesCover(s) && p < |s.purges| && s.purges[p].pc.Revoking?
    ensures FamilyLive(s, f) && f in s.owners && s.owners[f] == s.purges[p].user ==> f in s.purges[p].todo
  {
  }

  /** So a purge, when it returns, leaves its user without a live family. */
  lemma PurgeLeavesNothing(acts: seq<Action>, p: nat, f: nat)
    requires QuietRun(INIT, acts) && Legal(INIT, acts)
    requires Enabled(Exec(INIT, acts), PurgeEnd(p))
    ensures var s := Apply(Exec(INIT, acts), PurgeEnd(p));
      FamilyLive(s, f) && f in s.owners ==> s.owners[f] != s.purges[p].user
  {
    CoveredRun(INIT, acts);
    var s := Exec(INIT, acts);
    ListedAhead(s, p, f);
  }

  // ---------------------------------------------------------------- why saves are excluded

  /** A purge running to its end alone leaves an unlisted family alive and unindexed. */
  lemma {:induction false} PurgeRunsOut(s: State, p: nat, f: nat) returns (acts: seq<Action>)
    requires Inv(s) && p < |s.purges| && s.purges[p].pc.Revoking? && f !in s.purges[p].todo
    requires FamilyLive(s, f)
    ensures Legal(s, acts) && QuietRun(s, acts)
    ensures FamilyLive(Exec(s, acts), f) && f !in Members(Exec(s, acts), s.purges[p].user)
    ensures p < |Exec(s, acts).purges| && Exec(s, acts).purges[p].pc.Finished?
    decreases |s.purges[p].todo|
  {
    if s.purges[p].todo == [] {
      acts := [PurgeEnd(p)];
      assert acts[1..] == [];
      assert Exec(s, acts) == Apply(s, PurgeEnd(p));
    } else {
      var next := s.purges[p].todo[0];
      var s' := Apply(s, PurgeNext(p));
      InvStep(s, PurgeNext(p));
      assert next in s.purges[p].todo;
      var rest := PurgeRunsOut(s', p, f);
      acts := [PurgeNext(p)] + rest;
      assert acts[1..] == rest;
    }
  }

  /** From every reachable state, a save inside a purge of its user can lose its index entry. */
  lemma SaveInsidePurgeIsLost(before: seq<Action>, p: nat, family: nat, token: nat, ttl: Ttl)
    returns (acts: seq<Action>)
    requires Legal(INIT, before)
    requires p < |Exec(INIT, before).purges| && Exec(INIT, before).purges[p].pc.Revoking?
    requires Enabled(Exec(INIT, before), Save(Exec(INIT, before).purges[p].user, family, token, ttl))
    ensures Legal(Exec(INIT, before), acts)
    ensures var s, s' := Exec(INIT, before), Exec(Exec(INIT, before), acts);
      p < |s'.purges| && s'.purges[p].pc.Finished? && FamilyLive(s', family) &&
        family !in Members(s', s.purges[p].user) && !Covered(s')
  {
    TakenDieRun(INIT, before);
    var s := Exec(INIT, before);
    var save := Save(s.purges[p].user, family, token, ttl);
    var s1 := Apply(s, save);
    InvStep(s, save);
    var rest := PurgeRunsOut(s1, p, family);
    acts := [save] + rest;
    assert acts[1..] == rest;
    OwnerStays(s1, rest, family);
  }

  lemma {:induction false} OwnerStays(s: State, acts: seq<Action>, f: nat)
    requires Legal(s, acts) && f in s.owners
    ensures f in Exec(s, acts).owners && Exec(s, acts).owners[f] == s.owners[f]
    decreases |acts|
  {
    if acts == [] {
    } else {
      OwnerStays(Apply(s, acts[0]), acts[1..], f);
    }
  }

  /** In every quiet continuation the index covers what lives. */
  ghost predicate StaysCovered(s: State) {
    forall acts: seq<Action> | QuietRun(s, acts) && Legal(s, acts) :: Covered(Exec(s, acts))
  }

  /** Exactly: after a save the index covers what lives, now and later, if and only if no purge of that user runs. */
  lemma SaveConditionIsExact(before: seq<Action>, user: string, family: nat, token: nat, ttl: Ttl)
    requires QuietRun(INIT, before) && Legal(INIT, before)
    requires Enabled(Exec(INIT, before), Save(user, family, token, ttl))
    ensures var s := Exec(INIT, before);
      StaysCovered(Apply(s, Save(user, family, token, ttl))) <==>
      forall p | 0 <= p < |s.purges| && s.purges[p].pc.Revoking? :: s.purges[p].user != user
  {
    var s, save := Exec(INIT, before), Save(user, family, token, ttl);
    var s1 := Apply(s, save);
    CoveredRun(INIT, before);
    InvStep(s, save);
    if p :| 0 <= p < |s.purges| && s.purges[p].pc.Revoking? && s.purges[p].user == user {
      UnlistedIsLost(before, p, save);
    } else {
      CoveredStep(s, save);
      PurgesCoverStep(s, save);
      forall acts: seq<Action> | QuietRun(s1, acts) && Legal(s1, acts)
        ensures Covered(Exec(s1, acts))
      {
        CoveredRun(s1, acts);
      }
    }
  }

  /** The saved family is not listed in the purge, which runs out and takes the index along. */
  lemma UnlistedIsLost(before: seq<Action>, p: nat, save: Action)
    requires Legal(INIT, before) && save.Save? && Enabled(Exec(INIT, before), save)
    requires var s := Exec(INIT, before);
      p < |s.purges| && s.purges[p].pc.Revoking? && s.purges[p].user == save.user
    ensures !StaysCovered(Apply(Exec(INIT, before), save))
  {
    var s := Exec(INIT, before);
    var s1 := Apply(s, save);
    TakenDieRun(INIT, before);
    InvStep(s, save);
    var acts := PurgeRunsOut(s1, p, save.family);
    OwnerStays(s1, acts, save.family);
    assert !Covered(Exec(s1, acts));
  }
}
