/**
  Single-use password-reset and email-verification tokens, and the two
  transactions around them: issue (invalidate older ones, insert) and confirm.
*/
module InternalTokens {
  import opened Prelude
  import opened RefreshTokens

  datatype Purpose = PasswordReset | EmailVerify

  datatype InternalToken = InternalToken(
    user: Option<UserId>, purpose: Purpose, hash: Hash, expires: Instant, usedAt: Option<Instant>)

  type InternalTokens = map<nat, InternalToken>

  datatype ConfirmError = UnknownOrExpired | AlreadyUsed

  /** What the confirm transaction decides about a presented token. */
  datatype Verdict = Accept(id: nat, user: UserId) | Refuse(error: ConfirmError)

  predicate UniqueInternal(tokens: InternalTokens) {
    forall a, b :: a in tokens && b in tokens && tokens[a].hash == tokens[b].hash ==> a == b
  }

  function Lookup(tokens: InternalTokens, hash: Hash, purpose: Purpose): (r: Option<nat>)
    requires UniqueInternal(tokens)
    ensures r.Some? ==> r.value in tokens && tokens[r.value].hash == hash && tokens[r.value].purpose == purpose
    ensures r.None? ==> forall id :: id in tokens ==> tokens[id].hash != hash || tokens[id].purpose != purpose
  {
    if exists id :: id in tokens && tokens[id].hash == hash && tokens[id].purpose == purpose then
      var id :| id in tokens && tokens[id].hash == hash && tokens[id].purpose == purpose;
      Some(id)
    else None
  }

  function Judge(tokens: InternalTokens, hash: Hash, purpose: Purpose, now: Instant): Verdict
    requires UniqueInternal(tokens)
  {
    var found := Lookup(tokens, hash, purpose);
    if found.None? || tokens[found.value].expires <= now then Refuse(UnknownOrExpired)
    else if tokens[found.value].usedAt.Some? then Refuse(AlreadyUsed)
    else if tokens[found.value].user.None? then Refuse(UnknownOrExpired)
    else Accept(found.value, tokens[found.value].user.value)
  }

  function Use(t: InternalToken, now: Instant): InternalToken {
    t.(usedAt := if t.usedAt.Some? then t.usedAt else Some(now))
  }

  function MarkUsed(tokens: InternalTokens, id: nat, now: Instant): InternalTokens {
    if id in tokens then tokens[id := Use(tokens[id], now)] else tokens
  }

  /** Stamp every unused token of the user and purpose. */
  function Invalidate(tokens: InternalTokens, user: UserId, purpose: Purpose, now: Instant): InternalTokens {
    map id | id in tokens ::
      if tokens[id].user == Some(user) && tokens[id].purpose == purpose then Use(tokens[id], now) else tokens[id]
  }

  function Issue(tokens: InternalTokens, id: nat, user: UserId, purpose: Purpose, hash: Hash,
                 expires: Instant, now: Instant): InternalTokens {
    Invalidate(tokens, user, purpose, now)[id := InternalToken(Some(user), purpose, hash, expires, None)]
  }

  /** A request changes only unused tokens of its own user and purpose, which it stamps, and adds the new one. */
  lemma IssueMeaning(tokens: InternalTokens, id: nat, user: UserId, purpose: Purpose, hash: Hash, expires: Instant,
                     now: Instant, k: nat)
    requires id !in tokens
    ensures var after := Issue(tokens, id, user, purpose, hash, expires, now);
            && after.Keys == tokens.Keys + {id}
            && after[id] == InternalToken(Some(user), purpose, hash, expires, None)
            && (k in tokens ==>
                after[k] == if tokens[k].user == Some(user) && tokens[k].purpose == purpose && tokens[k].usedAt.None?
                            then tokens[k].(usedAt := Some(now)) else tokens[k])
  {
  }

  function ExpiredInternal(tokens: InternalTokens, cutoff: Instant): set<nat> {
    set id | id in tokens &&
             ((tokens[id].usedAt.Some? && tokens[id].usedAt.value < cutoff) || tokens[id].expires < cutoff)
  }

  function OwnedInternal(tokens: InternalTokens, user: UserId): set<nat> {
    set id | id in tokens && tokens[id].user == Some(user)
  }

  function Bump(versions: map<UserId, nat>, user: UserId): map<UserId, nat> {
    if user in versions then versions[user := versions[user] + 1] else versions
  }

  /** The rows a confirm transaction writes. */
  class AccountStore {
    var tokens: InternalTokens
    var nextId: nat
    var credentials: map<UserId, Hash>
    var versions: map<UserId, nat>
    var verified: set<UserId>
    const refresh: RefreshTokenRepository

    constructor (refresh: RefreshTokenRepository, versions: map<UserId, nat>)
      ensures this.refresh == refresh && this.versions == versions
      ensures tokens == map[] && nextId == 0 && credentials == map[] && verified == {}
    {
      this.refresh, this.versions := refresh, versions;
      tokens, nextId, credentials, verified := map[], 0, map[], {};
    }

    ghost predicate Valid()
      reads this, refresh
    {
      UniqueInternal(tokens) && (forall id :: id in tokens ==> id < nextId) && Consistent(refresh.store)
    }

    /** Issue: older unused tokens of the pair are invalidated in the same transaction.
        A hash that is already stored violates the unique constraint and rolls everything back. */
    method RequestToken(user: UserId, purpose: Purpose, hash: Hash, expires: Instant, now: Instant) returns (ok: bool)
      requires Valid()
      modifies this`tokens, this`nextId
      ensures Valid()
      ensures ok <==> forall id :: id in old(tokens) ==> old(tokens)[id].hash != hash
      ensures if ok
              then tokens == Issue(old(tokens), old(nextId), user, purpose, hash, expires, now)
                   && nextId == old(nextId) + 1
              else tokens == old(tokens) && nextId == old(nextId)
    {
      if exists id :: id in tokens && tokens[id].hash == hash { return false; }
      tokens := Invalidate(tokens, user, purpose, now);
      tokens := tokens[nextId := InternalToken(Some(user), purpose, hash, expires, None)];
      nextId := nextId + 1;
      return true;
    }

    /** Confirm a reset: new credential, version bump, token spent, every session of the user revoked. */
    method ConfirmPasswordReset(hash: Hash, newCredential: Hash, now: Instant) returns (verdict: Verdict)
      requires Valid()
      modifies this`tokens, this`credentials, this`versions, refresh
      ensures Valid()
      ensures verdict == Judge(old(tokens), hash, PasswordReset, now)
      ensures verdict.Refuse? ==> tokens == old(tokens) && credentials == old(credentials)
                                  && versions == old(versions) && refresh.store == old(refresh.store)
      ensures verdict.Accept? ==>
                && credentials == old(credentials)[verdict.user := newCredential]
                && versions == Bump(old(versions), verdict.user)
                && tokens == MarkUsed(old(tokens), verdict.id, now)
                && verdict.id in old(tokens)
                && tokens == old(tokens)[verdict.id := old(tokens)[verdict.id].(usedAt := Some(now))]
                && versions.Keys == old(versions).Keys
                && (forall u :: u in old(versions) ==>
                      versions[u] == old(versions)[u] + if u == verdict.user then 1 else 0)
                && refresh.store
                   == old(refresh.store).(tokens := RevokeUser(old(refresh.store).tokens, verdict.user, now))
    {
      var found := Lookup(tokens, hash, PasswordReset);
      if found.None? || tokens[found.value].expires <= now { return Refuse(UnknownOrExpired); }
      if tokens[found.value].usedAt.Some? { return Refuse(AlreadyUsed); }
      if tokens[found.value].user.None? { return Refuse(UnknownOrExpired); }
      var user := tokens[found.value].user.value;
      credentials := credentials[user := newCredential];
      versions := Bump(versions, user);
      tokens := MarkUsed(tokens, found.value, now);
      refresh.RevokeUserRefreshTokens(user, now);
      return Accept(found.value, user);
    }

    /** Confirm an address: the user becomes verified and the token is spent. */
    method ConfirmEmailVerification(hash: Hash, now: Instant) returns (verdict: Verdict)
      requires Valid()
      modifies this`tokens, this`verified
      ensures Valid()
      ensures verdict == Judge(old(tokens), hash, EmailVerify, now)
      ensures verdict.Refuse? ==> tokens == old(tokens) && verified == old(verified)
      ensures verdict.Accept? ==>
                && tokens == MarkUsed(old(tokens), verdict.id, now) && verified == old(verified) + {verdict.user}
                && verdict.id in old(tokens)
                && tokens == old(tokens)[verdict.id := old(tokens)[verdict.id].(usedAt := Some(now))]
    {
      var found := Lookup(tokens, hash, EmailVerify);
      if found.None? || tokens[found.value].expires <= now { return Refuse(UnknownOrExpired); }
      if tokens[found.value].usedAt.Some? { return Refuse(AlreadyUsed); }
      if tokens[found.value].user.None? { return Refuse(UnknownOrExpired); }
      var user := tokens[found.value].user.value;
      verified := verified + {user};
      tokens := MarkUsed(tokens, found.value, now);
      return Accept(found.value, user);
    }

    /** Delete used and expired rows batch by batch; comes to one unbounded delete. */
    method DeleteExpiredInternalTokens(cutoff: Instant) returns (total: nat)
      modifies this`tokens
      ensures tokens == old(tokens) - ExpiredInternal(old(tokens), cutoff)
      ensures total == |ExpiredInternal(old(tokens), cutoff)|
      ensures forall k :: k in tokens <==>
                k in old(tokens) && cutoff <= old(tokens)[k].expires
                && (old(tokens)[k].usedAt.Some? ==> cutoff <= old(tokens)[k].usedAt.value)
    {
      total := 0;
      ghost var before, gone := tokens, {};
      ghost var all := ExpiredInternal(before, cutoff);
      while true
        invariant gone <= all && total == |gone| && tokens == before - gone
        decreases |all - gone|
      {
        assert ExpiredInternal(tokens, cutoff) == all - gone;
        var batch := TakeAny(ExpiredInternal(tokens, cutoff), PURGE_BATCH);
        tokens := tokens - batch;
        if |batch| <= 0 {
          assert batch == {} && gone == all;
          return;
        }
        assert all - (gone + batch) == (all - gone) - batch;
        total, gone := total + |batch|, gone + batch;
      }
    }
  }
}
