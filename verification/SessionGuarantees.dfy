/** What every run of session steps guarantees. */
module SessionGuarantees {
  import opened Prelude
  import opened RefreshTokens
  import opened SessionRuns

  // ── Families ───────────────────────────────────────────────────────────

  /**
    In every reachable state a family has at most one live token, and that token is the newest ever
    created in the family; all its rows belong to one user; links point forward inside the family.
  */
  lemma FamiliesStayLinear(steps: seq<Step>, a: TokenId, b: TokenId)
    requires var tokens := Run(START, steps).store.tokens;
             a in tokens && b in tokens && tokens[a].family == tokens[b].family
    ensures var s := Run(START, steps);
            var tokens := s.store.tokens;
            && tokens[a].user == tokens[b].user
            && (tokens[a].revokedAt.None? ==> tokens[a].family in s.newest && a == s.newest[tokens[a].family])
            && (tokens[a].revokedAt.None? && tokens[b].revokedAt.None? ==> a == b)
            && (tokens[a].replacedBy.Some? ==>
                var n := tokens[a].replacedBy.value; n in tokens && n > a && tokens[n].family == tokens[a].family)
  {
    StartInv();
    InvRun(START, steps);
    assert TokenInv(Run(START, steps), a) && TokenInv(Run(START, steps), b);
  }

  // ── What no step changes ───────────────────────────────────────────────

  /** A stored row keeps its identity, and its revocation once it has one. */
  predicate Kept(t: Token, t': Token) {
    && t'.user == t.user && t'.hash == t.hash && t'.family == t.family && t'.expires == t.expires
    && (t.revokedAt.Some? ==> t'.revokedAt == t.revokedAt)
  }

  lemma KeptNext(s: Sessions, step: Step, id: TokenId)
    requires Enabled(s, step) && id in s.store.tokens && id in Next(s, step).store.tokens
    ensures Kept(s.store.tokens[id], Next(s, step).store.tokens[id])
  {
    if step.Refresh? && !Rotation(s, step).1.Rotated? { RefusedShape(s, step); }
  }

  lemma NoRebirth(s: Sessions, step: Step, id: TokenId)
    requires Inv(s) && Enabled(s, step) && id < s.store.nextId && id !in s.store.tokens
    ensures id !in Next(s, step).store.tokens && s.store.nextId <= Next(s, step).store.nextId
  {
    if step.Refresh? && !Rotation(s, step).1.Rotated? { RefusedShape(s, step); }
  }

  lemma IdsGrow(s: Sessions, step: Step)
    requires Enabled(s, step)
    ensures s.store.nextId <= Next(s, step).store.nextId
  {
    if step.Refresh? && !Rotation(s, step).1.Rotated? { RefusedShape(s, step); }
  }

  lemma {:induction false} GoneForGood(s: Sessions, steps: seq<Step>, id: TokenId)
    requires Inv(s) && id < s.store.nextId && id !in s.store.tokens
    ensures id !in Run(s, steps).store.tokens
    decreases |steps|
  {
    if steps != [] {
      if Enabled(s, steps[0]) { NoRebirth(s, steps[0], id); InvNext(s, steps[0]); }
      GoneForGood(Do(s, steps[0]), steps[1..], id);
    }
  }

  /** Over every continuation, `revokedAt` never changes once set and never becomes unset. */
  lemma {:induction false} RevocationPermanent(s: Sessions, steps: seq<Step>, id: TokenId)
    requires Inv(s) && id in s.store.tokens && id in Run(s, steps).store.tokens
    ensures Kept(s.store.tokens[id], Run(s, steps).store.tokens[id])
    decreases |steps|
  {
    if steps != [] {
      var s1 := Do(s, steps[0]);
      if Enabled(s, steps[0]) { InvNext(s, steps[0]); IdsGrow(s, steps[0]); }
      if id !in s1.store.tokens {
        GoneForGood(s1, steps[1..], id);
      } else {
        if Enabled(s, steps[0]) { KeptNext(s, steps[0], id); }
        RevocationPermanent(s1, steps[1..], id);
      }
    }
  }

  // ── Single use and reuse detection ─────────────────────────────────────

  /** Each refresh token buys at most one rotation in the whole run. */
  lemma RotatedAtMostOnce(steps: seq<Step>, h: Hash)
    ensures Run(START, steps).rotations[h] <= 1
  {
    StartInv();
    InvRun(START, steps);
    assert HashInv(Run(START, steps), h);
  }

  /** A known family without a live token. */
  ghost predicate Dead(s: Sessions, f: FamilyId) {
    f in s.newest && forall id :: id in s.store.tokens && s.store.tokens[id].family == f
                                  ==> s.store.tokens[id].revokedAt.Some?
  }

  lemma DeadNext(s: Sessions, step: Step, f: FamilyId)
    requires Inv(s) && Enabled(s, step) && Dead(s, f)
    ensures Dead(Next(s, step), f) && Next(s, step).rotatedIn[f] == s.rotatedIn[f]
  {
    var s' := Next(s, step);
    if step.Refresh? && Rotation(s, step).1.Rotated? {
      assert s.store.tokens[RotatedFrom(s, step)].family != f;
    } else if step.Refresh? {
      RefusedShape(s, step);
    }
    forall id | id in s'.store.tokens && s'.store.tokens[id].family == f ensures s'.store.tokens[id].revokedAt.Some? {
      if id in s.store.tokens { KeptNext(s, step, id); }
    }
  }

  /** From a dead family no continuation ever rotates again. */
  lemma {:induction false} DeadForever(s: Sessions, steps: seq<Step>, f: FamilyId)
    requires Inv(s) && Dead(s, f)
    ensures Dead(Run(s, steps), f) && Run(s, steps).rotatedIn[f] == s.rotatedIn[f]
    decreases |steps|
  {
    if steps != [] {
      if Enabled(s, steps[0]) { DeadNext(s, steps[0], f); InvNext(s, steps[0]); }
      DeadForever(Do(s, steps[0]), steps[1..], f);
    }
  }

  /** Presenting a stored, revoked token is refused and kills its family. */
  lemma ReuseKillsFamily(s: Sessions, step: Step, id: TokenId)
    requires Inv(s) && step.Refresh? && Enabled(s, step)
    requires id in s.store.tokens && step.presented == Some(s.store.tokens[id].hash)
    requires s.store.tokens[id].revokedAt.Some?
    ensures Rotation(s, step).1 == InvalidToken
    ensures Dead(Next(s, step), s.store.tokens[id].family)
  {
    assert Find(s.store.tokens, step.presented.value) == Some(id);
    assert TokenInv(s, id);
  }

  /**
    Theft: if a token is rotated and then, any number of steps later, presented again while its row is
    still stored, the second holder gets nothing and neither does anyone after that. If the row has
    been purged by then, the second presentation is refused but the family is left alone.
  */
  lemma TheftEndsFamily(s: Sessions, first: Step, between: seq<Step>, second: Step, after: seq<Step>)
    requires Inv(s) && first.Refresh? && Enabled(s, first) && Rotation(s, first).1.Rotated?
    requires var s2 := Run(Next(s, first), between);
             second.Refresh? && Enabled(s2, second) && second.presented == first.presented
    ensures var id := RotatedFrom(s, first);
            var f := s.store.tokens[id].family;
            var s2 := Run(Next(s, first), between);
            var s3 := Next(s2, second);
            && Rotation(s2, second).1 == InvalidToken
            && (id in s2.store.tokens ==> Dead(s3, f) && Run(s3, after).rotatedIn[f] == s2.rotatedIn[f])
            && (id !in s2.store.tokens ==> s3 == s2)
  {
    var id := RotatedFrom(s, first);
    var s1 := Next(s, first);
    var s2 := Run(s1, between);
    InvNext(s, first);
    InvRun(s1, between);
    if id in s2.store.tokens {
      RevocationPermanent(s1, between, id);
      ReuseKillsFamily(s2, second, id);
      RefusedShape(s2, second);
      InvNext(s2, second);
      DeadForever(Next(s2, second), after, s.store.tokens[id].family);
    } else {
      HashGone(s1, between, id);
    }
  }

  /** A purged token's hash is not found again: hashes are never issued twice. */
  lemma {:induction false} HashGone(s: Sessions, steps: seq<Step>, id: TokenId)
    requires Inv(s) && id in s.store.tokens && id !in Run(s, steps).store.tokens
    ensures forall x :: x in Run(s, steps).store.tokens ==>
              Run(s, steps).store.tokens[x].hash != s.store.tokens[id].hash
    decreases |steps|
  {
    var s1, h := Do(s, steps[0]), s.store.tokens[id].hash;
    assert TokenInv(s, id);
    if Enabled(s, steps[0]) { InvNext(s, steps[0]); }
    if id in s1.store.tokens {
      if Enabled(s, steps[0]) { KeptNext(s, steps[0], id); }
      HashGone(s1, steps[1..], id);
    } else {
      OthersDiffer(s, steps[0], h);
      HashStaysGone(s1, steps[1..], h);
    }
  }

  /** A spent hash that no stored token carries. */
  ghost predicate Retired(s: Sessions, h: Hash) {
    h in s.hashes && forall x :: x in s.store.tokens ==> s.store.tokens[x].hash != h
  }

  lemma OthersDiffer(s: Sessions, step: Step, h: Hash)
    requires Inv(s) && Enabled(s, step) && h in s.hashes
    requires forall x :: x in s.store.tokens && x in Next(s, step).store.tokens ==> s.store.tokens[x].hash != h
    ensures Retired(Next(s, step), h)
  {
    var s' := Next(s, step);
    if step.Refresh? && !Rotation(s, step).1.Rotated? { RefusedShape(s, step); }
    forall x | x in s'.store.tokens ensures s'.store.tokens[x].hash != h {
      if x in s.store.tokens { KeptNext(s, step, x); }
    }
  }

  lemma {:induction false} HashStaysGone(s: Sessions, steps: seq<Step>, h: Hash)
    requires Inv(s) && Retired(s, h)
    ensures Retired(Run(s, steps), h)
    decreases |steps|
  {
    if steps != [] {
      if Enabled(s, steps[0]) { OthersDiffer(s, steps[0], h); InvNext(s, steps[0]); }
      HashStaysGone(Do(s, steps[0]), steps[1..], h);
    }
  }

  // ── Logout ─────────────────────────────────────────────────────────────

  /**
    A logout ends the session it is for, family `f`, if and only if the token it read is still stored and live at
    the revoke, or the family is dead already: not when the token was rotated away or its row purged in between.
  */
  lemma LogoutEndsFamilyIff(s: Sessions, id: TokenId, f: FamilyId, now: Instant)
    requires Inv(s) && Enabled(s, LogoutRevoke(id, now))
    requires f in s.newest && (id in s.store.tokens ==> s.store.tokens[id].family == f)
    ensures Dead(Next(s, LogoutRevoke(id, now)), f)
            <==> (id in s.store.tokens && s.store.tokens[id].revokedAt.None?) || Dead(s, f)
  {
    var s' := Next(s, LogoutRevoke(id, now));
    if id in s.store.tokens && s.store.tokens[id].revokedAt.None? {
      assert TokenInv(s, id);
      forall x | x in s'.store.tokens && s'.store.tokens[x].family == f ensures s'.store.tokens[x].revokedAt.Some? {
        assert TokenInv(s, x);
      }
    } else {
      forall x | x in s.store.tokens ensures s'.store.tokens[x].revokedAt == s.store.tokens[x].revokedAt {}
      assert Dead(s', f) <==> Dead(s, f);
    }
  }

  /** The race is real: a refresh between the two steps of a logout leaves the session alive. */
  lemma LogoutRaceKeepsSession(s: Sessions, id: TokenId, refresh: Step, now: Instant)
    requires Inv(s) && id in s.store.tokens && refresh.Refresh? && Enabled(s, refresh)
    requires Rotation(s, refresh).1.Rotated? && RotatedFrom(s, refresh) == id
    ensures var s1 := Next(s, LogoutRead(refresh.presented));
            Enabled(s1, refresh) && Enabled(Next(s1, refresh), LogoutRevoke(id, now))
            && !Dead(Next(Next(s1, refresh), LogoutRevoke(id, now)), s.store.tokens[id].family)
  {
    var s1 := Next(s, LogoutRead(refresh.presented));
    assert Find(s.store.tokens, refresh.presented.value) == Some(id);
    assert id in s1.logouts && s1.store == s.store;
    InvNext(s, LogoutRead(refresh.presented));
    InvNext(s1, refresh);
    var s3 := Next(Next(s1, refresh), LogoutRevoke(id, now));
    assert s.store.nextId in s3.store.tokens && s3.store.tokens[s.store.nextId].revokedAt.None?;
  }

  // ── Spent tokens ───────────────────────────────────────────────────────

  /** An issued token of which no stored copy is live. */
  ghost predicate Spent(s: Sessions, h: Hash) {
    h in s.hashes && forall id :: id in s.store.tokens && s.store.tokens[id].hash == h
                                  ==> s.store.tokens[id].revokedAt.Some?
  }

  /** A spent token never rotates again. */
  lemma SpentNext(s: Sessions, step: Step, h: Hash)
    requires Inv(s) && Enabled(s, step) && Spent(s, h)
    ensures Spent(Next(s, step), h) && Next(s, step).rotations[h] == s.rotations[h]
  {
    var s' := Next(s, step);
    if step.Refresh? && !Rotation(s, step).1.Rotated? { RefusedShape(s, step); }
    forall id | id in s'.store.tokens && s'.store.tokens[id].hash == h ensures s'.store.tokens[id].revokedAt.Some? {
      if id in s.store.tokens { KeptNext(s, step, id); }
    }
  }

  /** Purging with a cutoff no later than now removes no live, unexpired token. */
  lemma PurgeKeepsLiveTokens(s: Sessions, cutoff: Instant, now: Instant, id: TokenId)
    requires Consistent(s.store) && cutoff <= now
    requires id in s.store.tokens && s.store.tokens[id].revokedAt.None? && s.store.tokens[id].expires >= now
    ensures id in Next(s, Purge(cutoff)).store.tokens
    ensures Kept(s.store.tokens[id], Next(s, Purge(cutoff)).store.tokens[id])
  {}

  /** The user a step acts for: the owner of the token it names, or the user it names. */
  function ActsFor(s: Sessions, step: Step): Option<UserId>
    requires Consistent(s.store)
  {
    match step
    case Login(user, _, _, _) => Some(user)
    case Refresh(presented, _, _, _, _) =>
      if presented.None? then None else
        var found := Find(s.store.tokens, presented.value);
        if found.None? then None else Some(s.store.tokens[found.value].user)
    case LogoutRead(_) => None
    case LogoutRevoke(id, _) => if id in s.store.tokens then Some(s.store.tokens[id].user) else None
    case RevokeAll(user, _) => Some(user)
    case Purge(_) => None
    case Erase(user) => Some(user)
  }

  /** Sessions of different users do not touch: a login, a refresh with all it may revoke, either step of a logout, a
      logout of all sessions or an erasure leaves every token of another user exactly as it was. */
  lemma OtherUsersUntouched(s: Sessions, step: Step, k: TokenId)
    requires Inv(s) && Enabled(s, step) && !step.Purge? && k in s.store.tokens
    requires ActsFor(s, step) != Some(s.store.tokens[k].user)
    ensures k in Next(s, step).store.tokens && Next(s, step).store.tokens[k] == s.store.tokens[k]
  {
    assert TokenInv(s, k);
    if step.Refresh? {
      OtherUsersRotation(s, step, k);
    } else if step.Erase? && s.store.tokens[k].replacedBy.Some? {
      assert TokenInv(s, s.store.tokens[k].replacedBy.value);
    }
  }

  lemma OtherUsersRotation(s: Sessions, step: Step, k: TokenId)
    requires Inv(s) && step.Refresh? && Enabled(s, step) && k in s.store.tokens
    requires ActsFor(s, step) != Some(s.store.tokens[k].user)
    ensures k in Next(s, step).store.tokens && Next(s, step).store.tokens[k] == s.store.tokens[k]
  {
    RefreshIsRotation(s, step);
    if id :| id in s.store.tokens && step.presented == Some(s.store.tokens[id].hash) {
      assert Find(s.store.tokens, s.store.tokens[id].hash) == Some(id);
      assert s.store.tokens[k].family != s.store.tokens[id].family;
      RotateOutcome(s.store, id, step.now, step.users, step.newHash, step.lifetime);
    } else {
      RotateUnknown(s.store, step.presented, step.now, step.users, step.newHash, step.lifetime);
    }
  }

  /** An erasure removes exactly the user's tokens. */
  lemma EraseRemovesUser(s: Sessions, user: UserId, k: TokenId)
    requires Inv(s) && Enabled(s, Erase(user))
    ensures k in Next(s, Erase(user)).store.tokens <==> k in s.store.tokens && s.store.tokens[k].user != user
  {
  }

  /** A logout of all sessions leaves the user no live token, and so ends every family of the user. */
  lemma LogoutAllEndsUser(s: Sessions, user: UserId, now: Instant, k: TokenId)
    requires Inv(s) && Enabled(s, RevokeAll(user, now)) && k in s.store.tokens && s.store.tokens[k].user == user
    ensures Dead(Next(s, RevokeAll(user, now)), s.store.tokens[k].family)
  {
    assert TokenInv(s, k);
    var s' := Next(s, RevokeAll(user, now));
    forall x | x in s'.store.tokens && s'.store.tokens[x].family == s.store.tokens[k].family
      ensures s'.store.tokens[x].revokedAt.Some?
    {
      assert TokenInv(s, x);
    }
  }

  /** A login stores one live token, first of its family, for its user and until its expiry, and changes no other. */
  lemma LoginStores(s: Sessions, step: Step, k: TokenId)
    requires Inv(s) && step.Login? && Enabled(s, step)
    ensures var s' := Next(s, step);
            && s'.store.tokens.Keys == s.store.tokens.Keys + {s.store.nextId}
            && s'.store.tokens[s.store.nextId] == Token(step.user, step.hash, step.family, step.expires, None, None)
            && (k in s.store.tokens ==> k != s.store.nextId && s'.store.tokens[k] == s.store.tokens[k])
  {
    assert !OwnedByOther(s.store.tokens, step.family, step.user) by {
      forall id | id in s.store.tokens ensures s.store.tokens[id].family != step.family { assert TokenInv(s, id); }
    }
  }

  /** The first step of a logout notes the presented token if it is stored and live, nothing otherwise. */
  lemma LogoutNotes(s: Sessions, presented: Option<Hash>, id: TokenId)
    requires Inv(s)
    ensures var s' := Next(s, LogoutRead(presented));
            && s' == s.(logouts := s'.logouts)
            && (id in s.store.tokens && presented == Some(s.store.tokens[id].hash) && s.store.tokens[id].revokedAt.None?
                ==> s'.logouts == s.logouts + multiset{id})
            && ((forall x :: x in s.store.tokens && s.store.tokens[x].revokedAt.None? ==>
                   presented != Some(s.store.tokens[x].hash)) ==> s'.logouts == s.logouts)
  {
  }

  /** A purge keeps exactly the tokens neither expired nor revoked before the cutoff. */
  lemma PurgeKeepsExactly(s: Sessions, cutoff: Instant)
    requires Inv(s)
    ensures Purged(s.store.tokens, cutoff, Next(s, Purge(cutoff)).store.tokens)
  {
    PurgeEffect(s.store.tokens, cutoff, Next(s, Purge(cutoff)).store.tokens);
  }
}
