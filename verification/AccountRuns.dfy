/** Runs that interleave session steps with issuing and confirming internal tokens. */
module AccountRuns {
  import opened Prelude
  import opened RefreshTokens
  import opened InternalTokens
  import S = SessionRuns
  import SessionGuarantees

  /** `issued`: every internal-token hash ever issued; `confirmed`: accepted confirmations per token. */
  datatype Accounts = Accounts(
    sessions: S.Sessions, tokens: InternalTokens, nextId: nat,
    credentials: map<UserId, Hash>, versions: map<UserId, nat>, verified: set<UserId>,
    issued: set<Hash>, confirmed: multiset<Hash>)

  datatype Step =
    | Session(step: S.Step)
    | Request(user: UserId, purpose: Purpose, hash: Hash, expires: Instant, at: Instant)
    | Confirm(presented: Hash, purpose: Purpose, newCredential: Hash, now: Instant)
    | PurgeInternal(cutoff: Instant)
    | EraseUser(user: UserId)

  predicate Enabled(a: Accounts, step: Step) {
    UniqueInternal(a.tokens) && Consistent(a.sessions.store) &&
    match step
    case Session(s) => S.Enabled(a.sessions, s)
    case Request(_, _, hash, _, _) => hash !in a.issued
    case _ => true
  }

  function Accepted(a: Accounts, v: Verdict, purpose: Purpose, newCredential: Hash, now: Instant): Accounts
    requires v.Accept? && v.id in a.tokens && Consistent(a.sessions.store)
  {
    var spent := a.(tokens := MarkUsed(a.tokens, v.id, now), confirmed := a.confirmed + multiset{a.tokens[v.id].hash});
    match purpose
    case EmailVerify => spent.(verified := a.verified + {v.user})
    case PasswordReset =>
      spent.(credentials := a.credentials[v.user := newCredential], versions := Bump(a.versions, v.user),
             sessions := S.Next(a.sessions, S.RevokeAll(v.user, now)))
  }

  function Next(a: Accounts, step: Step): Accounts
    requires Enabled(a, step)
  {
    match step
    case Session(s) => a.(sessions := S.Next(a.sessions, s))
    case Request(user, purpose, hash, expires, at) =>
      a.(tokens := Issue(a.tokens, a.nextId, user, purpose, hash, expires, at), nextId := a.nextId + 1,
         issued := a.issued + {hash})
    case Confirm(hash, purpose, newCredential, now) =>
      var v := Judge(a.tokens, hash, purpose, now);
      if v.Accept? then Accepted(a, v, purpose, newCredential, now) else a
    case PurgeInternal(cutoff) => a.(tokens := a.tokens - ExpiredInternal(a.tokens, cutoff))
    case EraseUser(user) =>
      a.(tokens := a.tokens - OwnedInternal(a.tokens, user), sessions := S.Next(a.sessions, S.Erase(user)))
  }

  function Do(a: Accounts, step: Step): Accounts { if Enabled(a, step) then Next(a, step) else a }

  function Run(a: Accounts, steps: seq<Step>): Accounts
    decreases |steps|
  {
    if steps == [] then a else Run(Do(a, steps[0]), steps[1..])
  }

  // ── Invariant ──────────────────────────────────────────────────────────

  predicate SamePair(t: InternalToken, u: InternalToken) {
    t.user.Some? && t.user == u.user && t.purpose == u.purpose
  }

  /** At most one unused token per user and purpose. */
  ghost predicate OneUnused(tokens: InternalTokens) {
    forall x, y | x in tokens && y in tokens && SamePair(tokens[x], tokens[y])
                  && tokens[x].usedAt.None? && tokens[y].usedAt.None? :: x == y
  }

  ghost predicate ConfirmedInv(a: Accounts, h: Hash) {
    && a.confirmed[h] <= 1
    && (a.confirmed[h] > 0 ==>
        h in a.issued && forall id :: id in a.tokens && a.tokens[id].hash == h ==> a.tokens[id].usedAt.Some?)
  }

  ghost predicate Inv(a: Accounts) {
    && S.Inv(a.sessions)
    && UniqueInternal(a.tokens)
    && (forall id :: id in a.tokens ==> id < a.nextId && a.tokens[id].hash in a.issued)
    && OneUnused(a.tokens)
    && (forall h :: ConfirmedInv(a, h))
  }

  lemma IssueKeepsOneUnused(a: Accounts, step: Step, tokens': InternalTokens)
    requires Inv(a) && step.Request? && Enabled(a, step) && tokens' == Next(a, step).tokens
    ensures OneUnused(tokens')
  {
  }

  lemma IssueKeepsUnique(a: Accounts, step: Step, tokens': InternalTokens)
    requires Inv(a) && step.Request? && Enabled(a, step) && tokens' == Next(a, step).tokens
    ensures UniqueInternal(tokens')
  {
  }

  lemma RequestInv(a: Accounts, step: Step)
    requires Inv(a) && step.Request? && Enabled(a, step)
    ensures Inv(Next(a, step))
  {
    var a' := Next(a, step);
    IssueKeepsOneUnused(a, step, a'.tokens);
    IssueKeepsUnique(a, step, a'.tokens);
    forall h ensures ConfirmedInv(a', h) { assert ConfirmedInv(a, h); }
  }

  lemma SpendInv(a: Accounts, a': Accounts, id: nat, now: Instant)
    requires Inv(a) && S.Inv(a'.sessions) && id in a.tokens && a.tokens[id].usedAt.None?
    requires a'.tokens == MarkUsed(a.tokens, id, now) && a'.nextId == a.nextId && a'.issued == a.issued
    requires a'.confirmed == a.confirmed + multiset{a.tokens[id].hash}
    ensures Inv(a')
  {
    forall h ensures ConfirmedInv(a', h) { assert ConfirmedInv(a, h); }
  }

  lemma ConfirmInv(a: Accounts, step: Step)
    requires Inv(a) && step.Confirm? && Enabled(a, step)
    ensures Inv(Next(a, step))
  {
    var a' := Next(a, step);
    var v := Judge(a.tokens, step.presented, step.purpose, step.now);
    if v.Accept? {
      S.InvNext(a.sessions, S.RevokeAll(v.user, step.now));
      SpendInv(a, a', v.id, step.now);
    }
  }

  lemma InvNext(a: Accounts, step: Step)
    requires Inv(a) && Enabled(a, step)
    ensures Inv(Next(a, step))
  {
    match step {
      case Session(s) => S.InvNext(a.sessions, s); SameInternal(a, Next(a, step));
      case Request(_, _, _, _, _) => RequestInv(a, step);
      case Confirm(_, _, _, _) => ConfirmInv(a, step);
      case PurgeInternal(_) => SameInternal(a, Next(a, step));
      case EraseUser(user) => S.InvNext(a.sessions, S.Erase(user)); SameInternal(a, Next(a, step));
    }
  }

  /** Removing internal tokens keeps what is known about the others. */
  lemma SameInternal(a: Accounts, a': Accounts)
    requires Inv(a) && S.Inv(a'.sessions)
    requires a'.tokens.Keys <= a.tokens.Keys && forall id :: id in a'.tokens ==> a'.tokens[id] == a.tokens[id]
    requires a'.nextId == a.nextId && a'.issued == a.issued && a'.confirmed == a.confirmed
    ensures Inv(a')
  {
    forall h ensures ConfirmedInv(a', h) { assert ConfirmedInv(a, h); }
  }

  lemma {:induction false} InvRun(a: Accounts, steps: seq<Step>)
    requires Inv(a)
    ensures Inv(Run(a, steps))
    decreases |steps|
  {
    if steps != [] {
      if Enabled(a, steps[0]) { InvNext(a, steps[0]); }
      InvRun(Do(a, steps[0]), steps[1..]);
    }
  }

  const START := Accounts(S.START, map[], 0, map[], map[], {}, {}, multiset{})

  // ── Guarantees ─────────────────────────────────────────────────────────

  /** In every run each internal token is accepted at most once, and a user has at most one usable
      token per purpose. */
  lemma SingleUse(versions: map<UserId, nat>, steps: seq<Step>, h: Hash)
    ensures var a := Run(START.(versions := versions), steps); a.confirmed[h] <= 1 && OneUnused(a.tokens)
  {
    S.StartInv();
    var a0 := START.(versions := versions);
    assert Inv(a0);
    InvRun(a0, steps);
    assert ConfirmedInv(Run(a0, steps), h);
  }

  /** A stored token for this purpose that has not expired. */
  predicate Presentable(t: InternalToken, hash: Hash, purpose: Purpose, now: Instant) {
    t.hash == hash && t.purpose == purpose && now < t.expires
  }

  /** A confirmation that is refused changes nothing, and says why: accepted exactly when the token is
      stored for this purpose, bound to a user, unexpired and unused. */
  lemma RefusedConfirmChangesNothing(a: Accounts, hash: Hash, purpose: Purpose, newCredential: Hash, now: Instant)
    requires Inv(a)
    ensures var v := Judge(a.tokens, hash, purpose, now);
            var known := set id | id in a.tokens && Presentable(a.tokens[id], hash, purpose, now);
            && (v.Refuse? ==> Next(a, Confirm(hash, purpose, newCredential, now)) == a)
            && (v.Accept? <==> exists id :: id in known && a.tokens[id].usedAt.None? && a.tokens[id].user.Some?)
            && (v == Refuse(AlreadyUsed) <==> exists id :: id in known && a.tokens[id].usedAt.Some?)
  {
    forall id | id in a.tokens ensures Lookup(a.tokens, a.tokens[id].hash, a.tokens[id].purpose) == Some(id) {
      LookupFinds(a.tokens, id);
    }
  }

  lemma LookupFinds(tokens: InternalTokens, id: nat)
    requires UniqueInternal(tokens) && id in tokens
    ensures Lookup(tokens, tokens[id].hash, tokens[id].purpose) == Some(id)
  {
    var r := Lookup(tokens, tokens[id].hash, tokens[id].purpose);
    assert r.Some? && tokens[r.value].hash == tokens[id].hash;
  }

  /** A requested token is accepted until it expires, whether or not it is the first one. */
  lemma RequestWorks(a: Accounts, step: Step, now: Instant)
    requires Inv(a) && step.Request? && Enabled(a, step) && now < step.expires
    ensures Inv(Next(a, step))
    ensures Judge(Next(a, step).tokens, step.hash, step.purpose, now) == Accept(a.nextId, step.user)
  {
    InvNext(a, step);
    LookupFinds(Next(a, step).tokens, a.nextId);
  }

  /** Older tokens of the same user and purpose stop working the moment a new one is requested. */
  lemma RequestSupersedes(a: Accounts, step: Step, id: nat, now: Instant)
    requires Inv(a) && step.Request? && Enabled(a, step)
    requires id in a.tokens && a.tokens[id].user == Some(step.user) && a.tokens[id].purpose == step.purpose
    ensures Inv(Next(a, step))
    ensures Judge(Next(a, step).tokens, a.tokens[id].hash, step.purpose, now).Refuse?
  {
    InvNext(a, step);
    LookupFinds(Next(a, step).tokens, id);
  }

  /** A request leaves every token of another user or another purpose as it was, so whether it is accepted does not
      change. */
  lemma RequestSparesOthers(a: Accounts, step: Step, id: nat, now: Instant)
    requires Inv(a) && step.Request? && Enabled(a, step) && id in a.tokens
    requires a.tokens[id].user != Some(step.user) || a.tokens[id].purpose != step.purpose
    ensures Inv(Next(a, step))
    ensures var t, tokens' := a.tokens[id], Next(a, step).tokens;
            && id in tokens' && tokens'[id] == t
            && Judge(tokens', t.hash, t.purpose, now) == Judge(a.tokens, t.hash, t.purpose, now)
  {
    InvNext(a, step);
    IssueMeaning(a.tokens, a.nextId, step.user, step.purpose, step.hash, step.expires, step.at, id);
    LookupFinds(a.tokens, id);
    LookupFinds(Next(a, step).tokens, id);
  }

  /** A confirmation spends the presented token and no other, and changes nothing of any user but the token's own. */
  lemma ConfirmSparesOthers(a: Accounts, step: Step, id: nat, u: UserId)
    requires Inv(a) && step.Confirm? && id in a.tokens && a.tokens[id].hash != step.presented
    requires var v := Judge(a.tokens, step.presented, step.purpose, step.now); v.Accept? ==> v.user != u
    ensures var a' := Next(a, step);
            && id in a'.tokens && a'.tokens[id] == a.tokens[id]
            && (u in a.credentials ==> u in a'.credentials && a'.credentials[u] == a.credentials[u])
            && (u in a.versions ==> u in a'.versions && a'.versions[u] == a.versions[u])
            && (u in a'.verified <==> u in a.verified)
            && (forall k :: k in a.sessions.store.tokens && a.sessions.store.tokens[k].user == u ==>
                  k in a'.sessions.store.tokens && a'.sessions.store.tokens[k] == a.sessions.store.tokens[k])
  {
  }

  /** An accepted confirmation does what its purpose asks for and no more: a verification marks the user verified, a
      reset replaces the credential, raises the version by one and revokes the user's live refresh tokens. */
  lemma ConfirmDoes(a: Accounts, step: Step, k: TokenId)
    requires Inv(a) && step.Confirm? && Judge(a.tokens, step.presented, step.purpose, step.now).Accept?
    ensures var v, a' := Judge(a.tokens, step.presented, step.purpose, step.now), Next(a, step);
            && a'.tokens == a.tokens[v.id := a.tokens[v.id].(usedAt := Some(step.now))]
            && (step.purpose == EmailVerify ==>
                && a'.verified == a.verified + {v.user} && a'.credentials == a.credentials
                && a'.versions == a.versions && a'.sessions == a.sessions)
            && (step.purpose == PasswordReset ==>
                && a'.verified == a.verified && a'.credentials == a.credentials[v.user := step.newCredential]
                && (v.user in a.versions ==> a'.versions == a.versions[v.user := a.versions[v.user] + 1])
                && (k in a.sessions.store.tokens ==>
                    var t := a.sessions.store.tokens[k];
                    k in a'.sessions.store.tokens
                    && a'.sessions.store.tokens[k]
                       == if t.user == v.user && t.revokedAt.None? then t.(revokedAt := Some(step.now)) else t))
  {
  }

  /** A purge removes exactly the internal tokens used or expired before the cutoff; an erasure those of its user. */
  lemma InternalRemovals(a: Accounts, cutoff: Instant, user: UserId, id: nat)
    requires Inv(a)
    ensures id in Next(a, PurgeInternal(cutoff)).tokens <==>
            id in a.tokens && cutoff <= a.tokens[id].expires
            && (a.tokens[id].usedAt.Some? ==> cutoff <= a.tokens[id].usedAt.value)
    ensures id in Next(a, EraseUser(user)).tokens <==> id in a.tokens && a.tokens[id].user != Some(user)
    ensures id in Next(a, PurgeInternal(cutoff)).tokens ==> Next(a, PurgeInternal(cutoff)).tokens[id] == a.tokens[id]
  {
  }

  ghost predicate AllSpent(a: Accounts, hashes: set<Hash>) {
    forall h :: h in hashes ==> SessionGuarantees.Spent(a.sessions, h)
  }

  /** The refresh tokens a user has in a state. */
  function UserHashes(a: Accounts, user: UserId): set<Hash> {
    var tokens := a.sessions.store.tokens;
    set id | id in tokens && tokens[id].user == user :: tokens[id].hash
  }

  lemma ResetSpends(a: Accounts, hash: Hash, newCredential: Hash, now: Instant)
    requires Inv(a) && Judge(a.tokens, hash, PasswordReset, now).Accept?
    ensures var user := Judge(a.tokens, hash, PasswordReset, now).user;
            AllSpent(Next(a, Confirm(hash, PasswordReset, newCredential, now)), UserHashes(a, user))
  {
    var user := Judge(a.tokens, hash, PasswordReset, now).user;
    var a' := Next(a, Confirm(hash, PasswordReset, newCredential, now));
    forall h | h in UserHashes(a, user) ensures SessionGuarantees.Spent(a'.sessions, h) {
      var id :| id in a.sessions.store.tokens && a.sessions.store.tokens[id].user == user
                && a.sessions.store.tokens[id].hash == h;
      assert S.TokenInv(a.sessions, id);
    }
  }

  lemma SpentStep(a: Accounts, step: Step, h: Hash)
    requires Inv(a) && Enabled(a, step) && SessionGuarantees.Spent(a.sessions, h)
    ensures SessionGuarantees.Spent(Next(a, step).sessions, h)
    ensures Next(a, step).sessions.rotations[h] == a.sessions.rotations[h]
  {
    match step {
      case Session(s) => SessionGuarantees.SpentNext(a.sessions, s, h);
      case EraseUser(user) => SessionGuarantees.SpentNext(a.sessions, S.Erase(user), h);
      case Confirm(hash, purpose, _, now) =>
        var v := Judge(a.tokens, hash, purpose, now);
        if v.Accept? { SessionGuarantees.SpentNext(a.sessions, S.RevokeAll(v.user, now), h); }
      case _ =>
    }
  }

  lemma {:induction false} SpentRun(a: Accounts, steps: seq<Step>, h: Hash)
    requires Inv(a) && SessionGuarantees.Spent(a.sessions, h)
    ensures Run(a, steps).sessions.rotations[h] == a.sessions.rotations[h]
    decreases |steps|
  {
    if steps != [] {
      if Enabled(a, steps[0]) { SpentStep(a, steps[0], h); InvNext(a, steps[0]); }
      SpentRun(Do(a, steps[0]), steps[1..], h);
    }
  }

  /**
    A successful reset ends every session the user had: over every continuation, none of the refresh
    tokens stored at that moment rotates again. It also raises the user's version and swaps the credential.
  */
  lemma ResetEndsSessions(a: Accounts, hash: Hash, newCredential: Hash, now: Instant, after: seq<Step>, id: TokenId)
    requires Inv(a) && Judge(a.tokens, hash, PasswordReset, now).Accept?
    requires id in a.sessions.store.tokens
    requires a.sessions.store.tokens[id].user == Judge(a.tokens, hash, PasswordReset, now).user
    ensures var user := Judge(a.tokens, hash, PasswordReset, now).user;
            var a' := Next(a, Confirm(hash, PasswordReset, newCredential, now));
            && a'.sessions.store.tokens[id].revokedAt.Some?
            && Run(a', after).sessions.rotations[a.sessions.store.tokens[id].hash]
               == a.sessions.rotations[a.sessions.store.tokens[id].hash]
            && a'.credentials[user] == newCredential
            && (user in a.versions ==> a'.versions[user] > a.versions[user])
  {
    var a' := Next(a, Confirm(hash, PasswordReset, newCredential, now));
    ResetSpends(a, hash, newCredential, now);
    assert a.sessions.store.tokens[id].hash in UserHashes(a, a.sessions.store.tokens[id].user);
    InvNext(a, Confirm(hash, PasswordReset, newCredential, now));
    SpentRun(a', after, a.sessions.store.tokens[id].hash);
  }
}
