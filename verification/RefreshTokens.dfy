/**
  The `refresh_tokens` table and the transactions on it: creation, rotation
  with reuse detection, revocation of a token, a family or a user, and the
  retention purge.

  Identifiers are drawn from a counter that stands for fresh UUIDs, so a larger
  id was created later. `Hash` is the digest of a raw token; the digest is
  injective, so a hash stands for the raw token itself.
*/
module RefreshTokens {
  import opened Prelude

  type TokenId = nat
  type UserId = nat
  type FamilyId = nat
  type Hash = nat

  datatype Token = Token(
    user: UserId, hash: Hash, family: FamilyId, expires: Instant,
    revokedAt: Option<Instant>, replacedBy: Option<TokenId>)

  type Tokens = map<TokenId, Token>

  datatype Store = Store(tokens: Tokens, nextId: TokenId)

  /** The user row as the rotation reads it. */
  datatype UserView = UserView(active: bool, version: nat)

  datatype RotateResult =
    | Rotated(token: TokenId, user: UserId, version: nat)
    | InvalidToken
    | InvalidCredentials
    | InactiveUser
    | Rejected  // the insert raised and the transaction was rolled back

  // ── Constraints the schema and the insert check enforce ────────────────

  predicate UniqueHashes(tokens: Tokens) {
    forall a, b :: a in tokens && b in tokens && tokens[a].hash == tokens[b].hash ==> a == b
  }

  predicate OneOwner(tokens: Tokens) {
    forall a, b :: a in tokens && b in tokens && tokens[a].family == tokens[b].family
                   ==> tokens[a].user == tokens[b].user
  }

  predicate Consistent(s: Store) {
    (forall id :: id in s.tokens ==> id < s.nextId) && UniqueHashes(s.tokens) && OneOwner(s.tokens)
  }

  // ── Queries and updates ────────────────────────────────────────────────

  function Find(tokens: Tokens, hash: Hash): (r: Option<TokenId>)
    requires UniqueHashes(tokens)
    ensures r.Some? ==> r.value in tokens && tokens[r.value].hash == hash
    ensures r.None? ==> forall id :: id in tokens ==> tokens[id].hash != hash
  {
    if exists id :: id in tokens && tokens[id].hash == hash then
      var id :| id in tokens && tokens[id].hash == hash;
      Some(id)
    else None
  }

  predicate OwnedByOther(tokens: Tokens, family: FamilyId, user: UserId) {
    exists id :: id in tokens && tokens[id].family == family && tokens[id].user != user
  }

  function Revoke(t: Token, now: Instant): Token {
    t.(revokedAt := if t.revokedAt.Some? then t.revokedAt else Some(now))
  }

  /** Overwrites the replacement link even when the token was already revoked. */
  function RevokeToken(tokens: Tokens, id: TokenId, replacedBy: Option<TokenId>, now: Instant): Tokens {
    if id in tokens then tokens[id := Revoke(tokens[id], now).(replacedBy := replacedBy)] else tokens
  }

  function RevokeFamily(tokens: Tokens, family: FamilyId, now: Instant): Tokens {
    map id | id in tokens :: if tokens[id].family == family then Revoke(tokens[id], now) else tokens[id]
  }

  function RevokeUser(tokens: Tokens, user: UserId, now: Instant): Tokens {
    map id | id in tokens :: if tokens[id].user == user then Revoke(tokens[id], now) else tokens[id]
  }

  /** DELETE with the foreign key's ON DELETE SET NULL on the replacement links. */
  function Remove(tokens: Tokens, victims: set<TokenId>): Tokens {
    map id | id in tokens && id !in victims ::
      if tokens[id].replacedBy.Some? && tokens[id].replacedBy.value in victims
      then tokens[id].(replacedBy := None) else tokens[id]
  }

  function Expired(tokens: Tokens, cutoff: Instant): set<TokenId> {
    set id | id in tokens &&
             (tokens[id].expires < cutoff || (tokens[id].revokedAt.Some? && tokens[id].revokedAt.value < cutoff))
  }

  function OwnedBy(tokens: Tokens, user: UserId): set<TokenId> {
    set id | id in tokens && tokens[id].user == user
  }

  /** Insert, refused on a duplicate hash or a family that belongs to someone else. */
  function Create(s: Store, user: UserId, hash: Hash, family: FamilyId, expires: Instant): Option<Store>
    requires UniqueHashes(s.tokens)
  {
    if OwnedByOther(s.tokens, family, user) || Find(s.tokens, hash).Some? then None
    else Some(Store(s.tokens[s.nextId := Token(user, hash, family, expires, None, None)], s.nextId + 1))
  }

  /** The rotation transaction. */
  function Rotate(s: Store, presented: Option<Hash>, now: Instant, users: UserId -> Option<UserView>,
                  newHash: Hash, lifetime: Instant): (Store, RotateResult)
    requires Consistent(s)
  {
    if presented.None? then (s, InvalidToken) else
    var found := Find(s.tokens, presented.value);
    if found.None? then (s, InvalidToken) else
    var id := found.value;
    var record := s.tokens[id];
    if record.revokedAt.Some? then
      (s.(tokens := RevokeFamily(s.tokens, record.family, now)), InvalidToken)
    else if record.expires <= now then
      (s.(tokens := RevokeToken(s.tokens, id, None, now)), InvalidToken)
    else
      var user := users(record.user);
      if user.None? then (s, InvalidCredentials)
      else if !user.value.active then (s, InactiveUser)
      else
        var created := Create(s, record.user, newHash, record.family, now + lifetime);
        if created.None? then (s, Rejected)
        else (created.value.(tokens := RevokeToken(created.value.tokens, id, Some(s.nextId), now)),
              Rotated(s.nextId, record.user, user.value.version))
  }

  /** What makes the stored token `id` rotate: live, unexpired, its user active, and a new hash not in use. */
  predicate Rotatable(s: Store, id: TokenId, now: Instant, users: UserId -> Option<UserView>, newHash: Hash)
    requires id in s.tokens
  {
    var t := s.tokens[id];
    && t.revokedAt.None? && now < t.expires && users(t.user).Some? && users(t.user).value.active
    && forall other :: other in s.tokens ==> s.tokens[other].hash != newHash
  }

  /** `s'` is `s` with `id` superseded by a live successor of the same user and family. */
  ghost predicate Succeeded(s: Store, id: TokenId, now: Instant, newHash: Hash, lifetime: Instant, s': Store)
    requires id in s.tokens
  {
    && s'.nextId == s.nextId + 1 && s'.tokens.Keys == s.tokens.Keys + {s.nextId}
    && s'.tokens[s.nextId] == Token(s.tokens[id].user, newHash, s.tokens[id].family, now + lifetime, None, None)
    && s'.tokens[id] == s.tokens[id].(revokedAt := Some(now), replacedBy := Some(s.nextId))
    && forall other :: other in s.tokens && other != id ==> s'.tokens[other] == s.tokens[other]
  }

  /** `s'` is `s` with every live row of the family stamped at `now`, and every other row as it was. */
  ghost predicate FamilyRevoked(s: Store, family: FamilyId, now: Instant, s': Store) {
    && s'.nextId == s.nextId && s'.tokens.Keys == s.tokens.Keys
    && forall k :: k in s.tokens ==>
         s'.tokens[k] == if s.tokens[k].family == family && s.tokens[k].revokedAt.None?
                         then s.tokens[k].(revokedAt := Some(now)) else s.tokens[k]
  }

  /** `s'` is `s` with the one row `id` revoked without a successor. */
  ghost predicate OneRevoked(s: Store, id: TokenId, now: Instant, s': Store)
    requires id in s.tokens
  {
    s'.nextId == s.nextId && s'.tokens == s.tokens[id := s.tokens[id].(revokedAt := Some(now), replacedBy := None)]
  }

  /** A stored token is rotated if and only if it is rotatable, and then exactly it and its successor change. Otherwise
      a revoked token revokes the live rows of its family and no other row, an expired one is revoked alone, and any
      other refusal, told apart by its cause, changes nothing. */
  lemma RotateOutcome(s: Store, id: TokenId, now: Instant, users: UserId -> Option<UserView>, newHash: Hash,
                      lifetime: Instant)
    requires Consistent(s) && id in s.tokens
    ensures var (s', r) := Rotate(s, Some(s.tokens[id].hash), now, users, newHash, lifetime);
            var t := s.tokens[id];
            && (r.Rotated? <==> Rotatable(s, id, now, users, newHash))
            && (r.Rotated? ==> Succeeded(s, id, now, newHash, lifetime, s') && r.token == s.nextId
                               && r.user == t.user && r.version == users(r.user).value.version)
            && (r.InvalidToken? <==> t.revokedAt.Some? || t.expires <= now)
            && (t.revokedAt.Some? ==> FamilyRevoked(s, t.family, now, s'))
            && (t.revokedAt.None? && t.expires <= now ==> OneRevoked(s, id, now, s'))
            && (!r.Rotated? && !r.InvalidToken? ==> s' == s)
            && (r.InvalidCredentials? <==> t.revokedAt.None? && now < t.expires && users(t.user).None?)
            && (r.InactiveUser? <==> t.revokedAt.None? && now < t.expires && users(t.user).Some?
                                     && !users(t.user).value.active)
            && (!r.Rotated? ==> forall k :: k in s.tokens && s.tokens[k].family != t.family
                                            ==> k in s'.tokens && s'.tokens[k] == s.tokens[k])
  {
    assert Find(s.tokens, s.tokens[id].hash) == Some(id);
    assert !OwnedByOther(s.tokens, s.tokens[id].family, s.tokens[id].user);
  }

  /** A missing token and one that is not stored are refused and change nothing. */
  lemma RotateUnknown(s: Store, presented: Option<Hash>, now: Instant, users: UserId -> Option<UserView>, newHash: Hash,
                      lifetime: Instant)
    requires Consistent(s)
    requires forall id :: id in s.tokens ==> presented != Some(s.tokens[id].hash)
    ensures Rotate(s, presented, now, users, newHash, lifetime) == (s, InvalidToken)
  {
  }

  // ── The repository ─────────────────────────────────────────────────────

  /** Rows one purge transaction may delete. */
  const PURGE_BATCH: nat := 10000

  class RefreshTokenRepository {
    var store: Store

    constructor ()
      ensures store == Store(map[], 0) && Consistent(store)
    {
      store := Store(map[], 0);
    }

    method CreateRefreshToken(user: UserId, hash: Hash, family: FamilyId, expires: Instant) returns (ok: bool)
      requires Consistent(store)
      modifies this
      ensures Consistent(store)
      ensures var r := Create(old(store), user, hash, family, expires);
              ok == r.Some? && store == if r.Some? then r.value else old(store)
      ensures ok <==> forall k :: k in old(store).tokens ==>
                old(store).tokens[k].hash != hash
                && (old(store).tokens[k].family == family ==> old(store).tokens[k].user == user)
      ensures ok ==>
                var token := Token(user, hash, family, expires, None, None);
                store.nextId == old(store).nextId + 1 && store.tokens == old(store).tokens[old(store).nextId := token]
      ensures !ok ==> store == old(store)
    {
      if OwnedByOther(store.tokens, family, user) || Find(store.tokens, hash).Some? {
        return false;
      }
      store := Store(store.tokens[store.nextId := Token(user, hash, family, expires, None, None)], store.nextId + 1);
      return true;
    }

    method RevokeRefreshToken(id: TokenId, replacedBy: Option<TokenId>, now: Instant)
      requires Consistent(store)
      modifies this
      ensures Consistent(store)
      ensures store == old(store).(tokens := RevokeToken(old(store).tokens, id, replacedBy, now))
      ensures store.nextId == old(store).nextId && store.tokens.Keys == old(store).tokens.Keys
      ensures forall k :: k in old(store).tokens && k != id ==> store.tokens[k] == old(store).tokens[k]
      ensures id in old(store).tokens ==>
                var t := old(store).tokens[id];
                store.tokens[id] == t.(revokedAt := if t.revokedAt.Some? then t.revokedAt else Some(now),
                                       replacedBy := replacedBy)
    {
      if id !in store.tokens { return; }
      var token := Revoke(store.tokens[id], now).(replacedBy := replacedBy);
      store := store.(tokens := store.tokens[id := token]);
    }

    /** Stamp the selected rows one at a time. */
    method RevokeEach(selected: set<TokenId>, now: Instant)
      requires Consistent(store) && selected <= store.tokens.Keys
      modifies this
      ensures Consistent(store) && store.nextId == old(store).nextId
      ensures store.tokens.Keys == old(store).tokens.Keys
      ensures forall id :: id in old(store).tokens ==>
                store.tokens[id] == if id in selected then Revoke(old(store).tokens[id], now) else old(store).tokens[id]
    {
      var todo := selected;
      while todo != {}
        invariant todo <= selected && store.nextId == old(store).nextId
        invariant store.tokens.Keys == old(store).tokens.Keys
        invariant forall id :: id in old(store).tokens ==>
                    store.tokens[id] == if id in selected && id !in todo then Revoke(old(store).tokens[id], now)
                                        else old(store).tokens[id]
        decreases |todo|
      {
        var id :| id in todo;
        store := store.(tokens := store.tokens[id := Revoke(store.tokens[id], now)]);
        todo := todo - {id};
      }
    }

    method RevokeRefreshFamily(family: FamilyId, now: Instant)
      requires Consistent(store)
      modifies this
      ensures Consistent(store)
      ensures store == old(store).(tokens := RevokeFamily(old(store).tokens, family, now))
      ensures FamilyRevoked(old(store), family, now, store)
    {
      RevokeEach((set id | id in store.tokens && store.tokens[id].family == family), now);
      assert store.tokens == RevokeFamily(old(store).tokens, family, now);
    }

    method RevokeUserRefreshTokens(user: UserId, now: Instant)
      requires Consistent(store)
      modifies this
      ensures Consistent(store)
      ensures store == old(store).(tokens := RevokeUser(old(store).tokens, user, now))
      ensures store.nextId == old(store).nextId && store.tokens.Keys == old(store).tokens.Keys
      ensures forall k :: k in old(store).tokens ==>
                var t := old(store).tokens[k];
                store.tokens[k] == if t.user == user && t.revokedAt.None? then t.(revokedAt := Some(now)) else t
    {
      var live := set id | id in store.tokens && store.tokens[id].user == user && store.tokens[id].revokedAt.None?;
      RevokeEach(live, now);
      assert store.tokens == RevokeUser(old(store).tokens, user, now);
    }

    /** One rotation: the whole of the transaction, with its early returns. */
    method RotateRefreshToken(presented: Option<Hash>, now: Instant, users: UserId -> Option<UserView>,
                              newHash: Hash, lifetime: Instant) returns (result: RotateResult)
      requires Consistent(store)
      modifies this
      ensures Consistent(store)
      ensures (store, result) == Rotate(old(store), presented, now, users, newHash, lifetime)
    {
      if presented.None? { return InvalidToken; }
      var found := Find(store.tokens, presented.value);
      if found.None? { return InvalidToken; }
      var id := found.value;
      var record := store.tokens[id];
      if record.revokedAt.Some? {
        RevokeRefreshFamily(record.family, now);
        return InvalidToken;
      }
      if record.expires <= now {
        RevokeRefreshToken(id, None, now);
        return InvalidToken;
      }
      var user := users(record.user);
      if user.None? { return InvalidCredentials; }
      if !user.value.active { return InactiveUser; }
      var replacement := store.nextId;
      var ok := CreateRefreshToken(record.user, newHash, record.family, now + lifetime);
      if !ok { return Rejected; }
      RevokeRefreshToken(id, Some(replacement), now);
      return Rotated(replacement, record.user, user.value.version);
    }

    /** One purge transaction: up to PURGE_BATCH eligible rows, no particular ones. */
    method DeleteExpiredBatch(cutoff: Instant) returns (deleted: nat, ghost victims: set<TokenId>)
      modifies this
      ensures victims <= Expired(old(store).tokens, cutoff) && deleted == |victims|
      ensures deleted == Min(10000, |Expired(old(store).tokens, cutoff)|)
      ensures store.nextId == old(store).nextId && store.tokens == Remove(old(store).tokens, victims)
    {
      var batch := TakeAny(Expired(store.tokens, cutoff), PURGE_BATCH);
      store := store.(tokens := Remove(store.tokens, batch));
      deleted, victims := |batch|, batch;
    }

    /** Delete expired and long-revoked rows batch by batch; comes to one unbounded delete. */
    method DeleteExpiredRefreshTokens(cutoff: Instant) returns (total: nat)
      modifies this
      ensures store.nextId == old(store).nextId
      ensures store.tokens == Remove(old(store).tokens, Expired(old(store).tokens, cutoff))
      ensures total == |Expired(old(store).tokens, cutoff)| == |old(store).tokens.Keys - store.tokens.Keys|
      ensures Purged(old(store).tokens, cutoff, store.tokens)
    {
      total := 0;
      ghost var before := store.tokens;
      ghost var all, gone := Expired(before, cutoff), {};
      RemoveNothing(before);
      while true
        invariant gone <= all && total == |gone|
        invariant store.nextId == old(store).nextId && store.tokens == Remove(before, gone)
        decreases |all - gone|
      {
        RemoveExpired(before, cutoff, gone);
        var deleted, victims := DeleteExpiredBatch(cutoff);
        if deleted <= 0 {
          RemoveNothing(Remove(before, gone));
          assert victims == {} && all - gone == {};
          assert gone == all;
          PurgeEffect(before, cutoff, store.tokens);
          return;
        }
        RemoveTwice(before, gone, victims);
        assert all - (gone + victims) == (all - gone) - victims;
        total, gone := total + deleted, gone + victims;
      }
    }
  }

  /** `after` holds exactly the rows of `before` that neither expired nor were revoked before the cutoff, unchanged
      except that a link to a row now gone is cleared. */
  ghost predicate Purged(before: Tokens, cutoff: Instant, after: Tokens) {
    && (forall k :: k in after <==> k in before && cutoff <= before[k].expires
                                    && (before[k].revokedAt.Some? ==> cutoff <= before[k].revokedAt.value))
    && forall k :: k in after ==>
         after[k] == before[k].(replacedBy := if before[k].replacedBy.Some? && before[k].replacedBy.value !in after
                                                 && before[k].replacedBy.value in before
                                              then None else before[k].replacedBy)
  }

  lemma PurgeEffect(before: Tokens, cutoff: Instant, after: Tokens)
    requires after == Remove(before, Expired(before, cutoff))
    ensures Purged(before, cutoff, after)
    ensures before.Keys - after.Keys == Expired(before, cutoff)
  {
  }

  lemma RemoveNothing(tokens: Tokens)
    ensures Remove(tokens, {}) == tokens
  {}

  /** Removing rows changes the eligibility of no other row. */
  lemma RemoveExpired(tokens: Tokens, cutoff: Instant, gone: set<TokenId>)
    ensures Expired(Remove(tokens, gone), cutoff) == Expired(tokens, cutoff) - gone
  {}

  /** LIMIT without ORDER BY: any subset of the right size. */
  method TakeAny(s: set<TokenId>, limit: nat) returns (t: set<TokenId>)
    ensures t <= s && |t| == Min(limit, |s|)
  {
    t := {};
    var rest := s;
    while rest != {} && |t| < limit
      invariant t !! rest && t + rest == s && |t| <= limit && |t| + |rest| == |s|
      decreases |rest|
    {
      var id :| id in rest;
      t, rest := t + {id}, rest - {id};
    }
  }

  lemma RemoveTwice(tokens: Tokens, a: set<TokenId>, b: set<TokenId>)
    ensures Remove(Remove(tokens, a), b) == Remove(tokens, a + b)
  {}
}
