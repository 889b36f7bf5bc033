/**
  Every run of logins, rotations, logouts, revocations, purges and erasures.

  One transaction is one atomic step. A logout takes two: it reads the token,
  and revokes it in a second transaction, so any other step may come between.
*/
module SessionRuns {
  import opened Prelude
  import opened RefreshTokens

  /** The table and the logouts in progress, followed by what an observer has seen so far:
      `newest`: the last token ever created in a family; `owner`: the user who logged the family in;
      `hashes`: every token hash ever issued; `rotations`: successful rotations per presented token;
      `rotatedIn`: successful rotations per family. */
  datatype Sessions = Sessions(
    store: Store, logouts: multiset<TokenId>,
    newest: map<FamilyId, TokenId>, owner: map<FamilyId, UserId>, hashes: set<Hash>,
    rotations: multiset<Hash>, rotatedIn: multiset<FamilyId>)

  datatype Step =
    | Login(user: UserId, hash: Hash, family: FamilyId, expires: Instant)
    | Refresh(presented: Option<Hash>, now: Instant, users: UserId -> Option<UserView>, newHash: Hash,
              lifetime: Instant)
    | LogoutRead(presented: Option<Hash>)
    | LogoutRevoke(token: TokenId, now: Instant)
    | RevokeAll(user: UserId, now: Instant)
    | Purge(cutoff: Instant)
    | Erase(user: UserId)

  /** Tokens and family ids are generated fresh; a logout revokes what it read. */
  predicate Enabled(s: Sessions, step: Step) {
    Consistent(s.store) &&
    match step
    case Login(_, hash, family, _) => hash !in s.hashes && family !in s.newest && Find(s.store.tokens, hash).None?
    case Refresh(_, _, _, newHash, _) => newHash !in s.hashes
    case LogoutRevoke(token, _) => token in s.logouts
    case _ => true
  }

  function Rotation(s: Sessions, step: Step): (Store, RotateResult)
    requires step.Refresh? && Consistent(s.store)
  {
    Rotate(s.store, step.presented, step.now, step.users, step.newHash, step.lifetime)
  }

  /** The state after live token `id` has been replaced. */
  function Replaced(s: Sessions, id: TokenId, newHash: Hash, expires: Instant, now: Instant): Sessions
    requires id in s.store.tokens
  {
    var t, n := s.store.tokens[id], s.store.nextId;
    s.(store := Store(s.store.tokens[n := Token(t.user, newHash, t.family, expires, None, None)]
                                    [id := Revoke(t, now).(replacedBy := Some(n))], n + 1),
       newest := s.newest[t.family := n], hashes := s.hashes + {newHash},
       rotations := s.rotations + multiset{t.hash}, rotatedIn := s.rotatedIn + multiset{t.family})
  }

  /** A refresh leaves the store the rotation returns; see RefreshIsRotation. */
  function RefreshNext(s: Sessions, step: Step): Sessions
    requires step.Refresh? && Consistent(s.store)
  {
    var (store, result) := Rotation(s, step);
    if !result.Rotated? then s.(store := store) else
    var id := RotatedFrom(s, step);
    Replaced(s, id, step.newHash, step.now + step.lifetime, step.now)
  }

  /** The token a successful rotation was presented with: stored and live. */
  function RotatedFrom(s: Sessions, step: Step): (id: TokenId)
    requires step.Refresh? && Consistent(s.store) && Rotation(s, step).1.Rotated?
    ensures step.presented.Some? && id in s.store.tokens && s.store.tokens[id].hash == step.presented.value
    ensures s.store.tokens[id].revokedAt.None?
  {
    Find(s.store.tokens, step.presented.value).value
  }

  function LoginNext(s: Sessions, step: Step): Sessions
    requires step.Login? && Consistent(s.store)
  {
    var created := Create(s.store, step.user, step.hash, step.family, step.expires);
    if created.None? then s
    else s.(store := created.value, newest := s.newest[step.family := s.store.nextId],
            owner := s.owner[step.family := step.user], hashes := s.hashes + {step.hash})
  }

  /** A logout only goes on to its second step for a stored, unrevoked token. */
  function LogoutReadNext(s: Sessions, presented: Option<Hash>): Sessions
    requires Consistent(s.store)
  {
    if presented.None? then s else
    var found := Find(s.store.tokens, presented.value);
    if found.Some? && s.store.tokens[found.value].revokedAt.None?
    then s.(logouts := s.logouts + multiset{found.value}) else s
  }

  function Next(s: Sessions, step: Step): Sessions
    requires Enabled(s, step)
  {
    match step
    case Login(_, _, _, _) => LoginNext(s, step)
    case Refresh(_, _, _, _, _) => RefreshNext(s, step)
    case LogoutRead(presented) => LogoutReadNext(s, presented)
    case LogoutRevoke(id, now) =>
      s.(store := s.store.(tokens := RevokeToken(s.store.tokens, id, None, now)), logouts := s.logouts - multiset{id})
    case RevokeAll(user, now) => s.(store := s.store.(tokens := RevokeUser(s.store.tokens, user, now)))
    case Purge(cutoff) => s.(store := s.store.(tokens := Remove(s.store.tokens, Expired(s.store.tokens, cutoff))))
    case Erase(user) => s.(store := s.store.(tokens := Remove(s.store.tokens, OwnedBy(s.store.tokens, user))))
  }

  function Do(s: Sessions, step: Step): Sessions { if Enabled(s, step) then Next(s, step) else s }

  function Run(s: Sessions, steps: seq<Step>): Sessions
    decreases |steps|
  {
    if steps == [] then s else Run(Do(s, steps[0]), steps[1..])
  }

  const START := Sessions(Store(map[], 0), multiset{}, map[], map[], {}, multiset{}, multiset{})

  // ── The invariant ──────────────────────────────────────────────────────

  /** A stored token is known, belongs to its family's owner, is live only if it is the newest of the
      family, and links only forward to a stored token of the same family. */
  ghost predicate TokenInv(s: Sessions, id: TokenId)
    requires id in s.store.tokens
  {
    var t := s.store.tokens[id];
    && t.hash in s.hashes
    && t.family in s.newest && t.family in s.owner && t.user == s.owner[t.family]
    && id <= s.newest[t.family]
    && (t.revokedAt.None? ==> id == s.newest[t.family])
    && (t.replacedBy.Some? ==>
        var n := t.replacedBy.value;
        n in s.store.tokens && n > id && s.store.tokens[n].family == t.family)
  }

  /** A token is rotated at most once, and never live again afterwards. */
  ghost predicate HashInv(s: Sessions, h: Hash) {
    && s.rotations[h] <= 1
    && (s.rotations[h] > 0 ==>
        && h in s.hashes
        && forall id :: id in s.store.tokens && s.store.tokens[id].hash == h ==> s.store.tokens[id].revokedAt.Some?)
  }

  ghost predicate Inv(s: Sessions) {
    && Consistent(s.store)
    && s.newest.Keys == s.owner.Keys
    && (forall f :: f in s.newest ==> s.newest[f] < s.store.nextId)
    && (forall id :: id in s.store.tokens ==> TokenInv(s, id))
    && (forall h :: HashInv(s, h))
  }

  lemma StartInv()
    ensures Inv(START)
  {}

  lemma LoginPair(s: Sessions, step: Step, s': Sessions, a: TokenId, b: TokenId)
    requires Inv(s) && step.Login? && Enabled(s, step) && s' == Next(s, step)
    requires a in s'.store.tokens && b in s'.store.tokens
    ensures s'.store.tokens[a].hash == s'.store.tokens[b].hash ==> a == b
    ensures s'.store.tokens[a].family == s'.store.tokens[b].family
            ==> s'.store.tokens[a].user == s'.store.tokens[b].user
  {
    assert a in s.store.tokens ==> TokenInv(s, a);
    assert b in s.store.tokens ==> TokenInv(s, b);
  }

  lemma LoginInv(s: Sessions, step: Step)
    requires Inv(s) && step.Login? && Enabled(s, step)
    ensures Inv(Next(s, step))
  {
    var s' := Next(s, step);
    assert !OwnedByOther(s.store.tokens, step.family, step.user) by {
      forall id | id in s.store.tokens ensures s.store.tokens[id].family != step.family { assert TokenInv(s, id); }
    }
    forall id | id in s'.store.tokens ensures TokenInv(s', id) {
      if id != s.store.nextId { assert TokenInv(s, id); }
    }
    forall h ensures HashInv(s', h) { assert HashInv(s, h); }
    forall a, b | a in s'.store.tokens && b in s'.store.tokens
      ensures s'.store.tokens[a].hash == s'.store.tokens[b].hash ==> a == b
      ensures s'.store.tokens[a].family == s'.store.tokens[b].family
              ==> s'.store.tokens[a].user == s'.store.tokens[b].user
    {
      LoginPair(s, step, s', a, b);
    }
  }

  /** A step that only revokes, with any forward links it may clear. */
  ghost predicate OnlyRevokes(a: Tokens, b: Tokens) {
    && b.Keys == a.Keys
    && forall id :: id in a ==>
         && b[id].user == a[id].user && b[id].hash == a[id].hash && b[id].family == a[id].family
         && b[id].expires == a[id].expires
         && (a[id].revokedAt.Some? ==> b[id].revokedAt == a[id].revokedAt)
         && (b[id].replacedBy == a[id].replacedBy || b[id].replacedBy == None)
  }

  lemma RevokingInv(s: Sessions, s': Sessions)
    requires Inv(s) && OnlyRevokes(s.store.tokens, s'.store.tokens)
    requires s' == s.(store := s.store.(tokens := s'.store.tokens), logouts := s'.logouts)
    ensures Inv(s')
  {
    forall id | id in s'.store.tokens ensures TokenInv(s', id) { assert TokenInv(s, id); }
    forall h ensures HashInv(s', h) { assert HashInv(s, h); }
  }

  lemma RemovingInv(s: Sessions, victims: set<TokenId>)
    requires Inv(s)
    ensures Inv(s.(store := s.store.(tokens := Remove(s.store.tokens, victims))))
  {
    var s' := s.(store := s.store.(tokens := Remove(s.store.tokens, victims)));
    assert forall id :: id in s'.store.tokens ==>
             s'.store.tokens[id] == s.store.tokens[id].(replacedBy := s'.store.tokens[id].replacedBy);
    assert Consistent(s'.store);
    forall id | id in s'.store.tokens ensures TokenInv(s', id) { assert TokenInv(s, id); }
    forall h ensures HashInv(s', h) { assert HashInv(s, h); }
  }

  lemma ReplacedTokens(s: Sessions, id: TokenId, newHash: Hash, expires: Instant, now: Instant, x: TokenId)
    requires Inv(s) && id in s.store.tokens && s.store.tokens[id].revokedAt.None? && newHash !in s.hashes
    requires x in Replaced(s, id, newHash, expires, now).store.tokens
    ensures TokenInv(Replaced(s, id, newHash, expires, now), x)
  {
    assert TokenInv(s, id);
    if x != s.store.nextId { assert TokenInv(s, x); }
  }

  lemma ReplacedConsistent(s: Sessions, id: TokenId, newHash: Hash, expires: Instant, now: Instant)
    requires Inv(s) && id in s.store.tokens && s.store.tokens[id].revokedAt.None? && newHash !in s.hashes
    ensures Consistent(Replaced(s, id, newHash, expires, now).store)
  {
    var tokens := Replaced(s, id, newHash, expires, now).store.tokens;
    forall a, b | a in tokens && b in tokens
      ensures tokens[a].hash == tokens[b].hash ==> a == b
      ensures tokens[a].family == tokens[b].family ==> tokens[a].user == tokens[b].user
    {
      assert a in s.store.tokens ==> TokenInv(s, a);
      assert b in s.store.tokens ==> TokenInv(s, b);
    }
  }

  lemma ReplacedInv(s: Sessions, id: TokenId, newHash: Hash, expires: Instant, now: Instant)
    requires Inv(s) && id in s.store.tokens && s.store.tokens[id].revokedAt.None? && newHash !in s.hashes
    ensures Inv(Replaced(s, id, newHash, expires, now))
  {
    var s' := Replaced(s, id, newHash, expires, now);
    ReplacedConsistent(s, id, newHash, expires, now);
    assert TokenInv(s, id);
    forall x | x in s'.store.tokens ensures TokenInv(s', x) { ReplacedTokens(s, id, newHash, expires, now, x); }
    forall h ensures HashInv(s', h) { assert HashInv(s, h); }
  }

  /** The store of the next state is the one the rotation transaction leaves. */
  lemma RefreshIsRotation(s: Sessions, step: Step)
    requires step.Refresh? && Enabled(s, step)
    ensures Next(s, step).store == Rotation(s, step).0
    ensures Rotation(s, step).1.Rotated? ==> Rotation(s, step).1.token == s.store.nextId
  {}

  lemma RefusedShape(s: Sessions, step: Step)
    requires step.Refresh? && Enabled(s, step) && !Rotation(s, step).1.Rotated?
    ensures var s' := Next(s, step);
            s' == s.(store := s.store.(tokens := s'.store.tokens)) && OnlyRevokes(s.store.tokens, s'.store.tokens)
  {}

  lemma RefreshInv(s: Sessions, step: Step)
    requires Inv(s) && step.Refresh? && Enabled(s, step)
    ensures Inv(RefreshNext(s, step))
  {
    var s' := RefreshNext(s, step);
    if Rotation(s, step).1.Rotated? {
      var id := RotatedFrom(s, step);
      assert s' == Replaced(s, id, step.newHash, step.now + step.lifetime, step.now);
      IssuedInv(s, id, step.newHash, step.now + step.lifetime, step.now, s');
    } else {
      RefusedShape(s, step);
      RevokingInv(s, s');
    }
  }

  lemma IssuedInv(s: Sessions, id: TokenId, newHash: Hash, expires: Instant, now: Instant, s': Sessions)
    requires Inv(s) && id in s.store.tokens && s.store.tokens[id].revokedAt.None? && newHash !in s.hashes
    requires s' == Replaced(s, id, newHash, expires, now)
    ensures Inv(s')
  {
    ReplacedInv(s, id, newHash, expires, now);
  }

  lemma InvNext(s: Sessions, step: Step)
    requires Inv(s) && Enabled(s, step)
    ensures Inv(Next(s, step))
  {
    match step {
      case Login(_, _, _, _) => LoginInv(s, step);
      case Refresh(_, _, _, _, _) => RefreshInv(s, step);
      case Purge(cutoff) => RemovingInv(s, Expired(s.store.tokens, cutoff));
      case Erase(user) => RemovingInv(s, OwnedBy(s.store.tokens, user));
      case _ => RevokingInv(s, Next(s, step));
    }
  }

  lemma {:induction false} InvRun(s: Sessions, steps: seq<Step>)
    requires Inv(s)
    ensures Inv(Run(s, steps))
    decreases |steps|
  {
    if steps != [] {
      if Enabled(s, steps[0]) { InvNext(s, steps[0]); }
      InvRun(Do(s, steps[0]), steps[1..]);
    }
  }
}
