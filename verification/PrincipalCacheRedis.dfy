/**
  The principal cache kept in Redis and shared by every replica. A set is one
  atomic pipeline. An invalidation is two server calls, reading and dropping
  the user's index key and then deleting the listed principal keys, and any
  other call may run between them.
*/
module PrincipalCacheRedis {
  import opened Prelude
  import P = PrincipalCache

  type UserId = P.UserId
  type TokenId = P.TokenId
  type CallId = nat

  /** `stamp` numbers the sets in server order. */
  datatype Entry = Entry(principal: P.Principal, expires: Instant, stamp: nat)
  datatype UserKey = UserKey(tokens: set<TokenId>, expires: Instant)
  datatype Call = Call(user: UserId, tokens: set<TokenId>)

  datatype Server = Server(now: Instant, entries: map<TokenId, Entry>, users: map<UserId, UserKey>,
                           pending: map<CallId, Call>, stamp: nat)

  /** An invalidation that is never finished is one whose caller died between the two calls. */
  datatype Step =
    | Advance(ticks: nat)
    | Set(token: TokenId, principal: P.Principal)
    | Pop(token: TokenId)
    | Begin(call: CallId, user: UserId)
    | Finish(call: CallId)

  predicate Live(s: Server, t: TokenId) { t in s.entries && s.now < s.entries[t].expires }

  /** What GET on a principal key answers. */
  function Lookup(s: Server, t: TokenId): Option<P.Principal> {
    if Live(s, t) then Some(s.entries[t].principal) else None
  }

  /** SMEMBERS of the user's key. */
  function Members(s: Server, u: UserId): set<TokenId> {
    if u in s.users && s.now < s.users[u].expires then s.users[u].tokens else {}
  }

  function DoSet(s: Server, t: TokenId, p: P.Principal, ttl: nat): Server {
    s.(entries := s.entries[t := Entry(p, s.now + ttl, s.stamp)],
       users := s.users[p.user := UserKey(Members(s, p.user) + {t}, s.now + ttl)],
       stamp := s.stamp + 1)
  }

  function DoBegin(s: Server, call: CallId, u: UserId): Server {
    s.(pending := s.pending[call := Call(u, Members(s, u))], users := s.users - {u})
  }

  function DoFinish(s: Server, call: CallId): Server
    requires call in s.pending
  {
    s.(entries := s.entries - s.pending[call].tokens, pending := s.pending - {call})
  }

  function Next(s: Server, step: Step, ttl: nat): Server {
    match step
    case Advance(ticks) => s.(now := s.now + ticks)
    case Set(t, p) => DoSet(s, t, p, ttl)
    case Pop(t) => s.(entries := s.entries - {t})
    case Begin(call, u) => if call in s.pending then s else DoBegin(s, call, u)
    case Finish(call) => if call in s.pending then DoFinish(s, call) else s
  }

  function Run(s: Server, steps: seq<Step>, ttl: nat): Server
    decreases |steps|
  {
    if steps == [] then s else Run(Next(s, steps[0], ttl), steps[1..], ttl)
  }

  // ── Index coverage ─────────────────────────────────────────────────────

  /** The entry is listed under its user by a key that lives at least as long. */
  predicate Indexed(s: Server, t: TokenId)
    requires t in s.entries
  {
    var u := s.entries[t].principal.user;
    u in s.users && t in s.users[u].tokens && s.entries[t].expires <= s.users[u].expires
  }

  /** An invalidation of `u` that has read the index is still to delete `t`. */
  ghost predicate Doomed(s: Server, u: UserId, t: TokenId) {
    exists call :: call in s.pending && s.pending[call].user == u && t in s.pending[call].tokens
  }

  ghost predicate EntryOk(s: Server, t: TokenId, ttl: nat)
    requires t in s.entries
  {
    && s.entries[t].stamp < s.stamp && s.entries[t].expires <= s.now + ttl
    && (s.now < s.entries[t].expires ==> Indexed(s, t) || Doomed(s, s.entries[t].principal.user, t))
  }

  ghost predicate Inv(s: Server, ttl: nat) {
    forall t :: t in s.entries ==> EntryOk(s, t, ttl)
  }

  lemma SetOk(s: Server, t: TokenId, p: P.Principal, ttl: nat, k: TokenId)
    requires Inv(s, ttl) && k in DoSet(s, t, p, ttl).entries
    ensures EntryOk(DoSet(s, t, p, ttl), k, ttl)
  {
    var s' := DoSet(s, t, p, ttl);
    if k != t {
      assert EntryOk(s, k, ttl);
      var u := s.entries[k].principal.user;
      if Doomed(s, u, k) {
        var call :| call in s.pending && s.pending[call].user == u && k in s.pending[call].tokens;
        assert s'.pending[call] == s.pending[call];
      }
    }
  }

  lemma BeginOk(s: Server, call: CallId, u: UserId, ttl: nat, k: TokenId)
    requires Inv(s, ttl) && call !in s.pending && k in s.entries
    ensures EntryOk(DoBegin(s, call, u), k, ttl)
  {
    var s' := DoBegin(s, call, u);
    assert EntryOk(s, k, ttl);
    var v := s.entries[k].principal.user;
    if s.now < s.entries[k].expires {
      if Doomed(s, v, k) {
        var c :| c in s.pending && s.pending[c].user == v && k in s.pending[c].tokens;
        assert s'.pending[c] == s.pending[c];
      } else if u == v {
        assert k in Members(s, u);
        assert s'.pending[call] == Call(u, Members(s, u));
      }
    }
  }

  lemma FinishOk(s: Server, call: CallId, ttl: nat, k: TokenId)
    requires Inv(s, ttl) && call in s.pending && k in DoFinish(s, call).entries
    ensures EntryOk(DoFinish(s, call), k, ttl)
  {
    var s' := DoFinish(s, call);
    assert EntryOk(s, k, ttl);
    var v := s.entries[k].principal.user;
    if Doomed(s, v, k) {
      var c :| c in s.pending && s.pending[c].user == v && k in s.pending[c].tokens;
      assert c != call && s'.pending[c] == s.pending[c];
    }
  }

  lemma UnpendingOk(s: Server, s': Server, ttl: nat, k: TokenId)
    requires Inv(s, ttl) && k in s'.entries && k in s.entries && s'.entries[k] == s.entries[k]
    requires s'.users == s.users && s'.pending == s.pending && s'.stamp == s.stamp && s.now <= s'.now
    ensures EntryOk(s', k, ttl)
  {
    assert EntryOk(s, k, ttl);
  }

  lemma InvNext(s: Server, step: Step, ttl: nat)
    requires Inv(s, ttl)
    ensures Inv(Next(s, step, ttl), ttl)
  {
    var s' := Next(s, step, ttl);
    forall k | k in s'.entries ensures EntryOk(s', k, ttl) {
      match step
      case Advance(_) => UnpendingOk(s, s', ttl, k);
      case Set(t, p) => SetOk(s, t, p, ttl, k);
      case Pop(_) => UnpendingOk(s, s', ttl, k);
      case Begin(call, u) => if call in s.pending { UnpendingOk(s, s', ttl, k); } else { BeginOk(s, call, u, ttl, k); }
      case Finish(call) => if call in s.pending { FinishOk(s, call, ttl, k); } else { UnpendingOk(s, s', ttl, k); }
    }
  }

  /** In every run each live principal key is listed in an index key that outlives it, or is about to be deleted
      by an invalidation in progress. */
  lemma {:induction false} InvRun(s: Server, steps: seq<Step>, ttl: nat)
    requires Inv(s, ttl)
    ensures Inv(Run(s, steps, ttl), ttl)
    decreases |steps|
  {
    if steps != [] {
      InvNext(s, steps[0], ttl);
      InvRun(Next(s, steps[0], ttl), steps[1..], ttl);
    }
  }

  lemma EmptyInv(now: Instant, ttl: nat)
    ensures Inv(Server(now, map[], map[], map[], 0), ttl)
  {
  }

  // ── What the commands do to lookups ────────────────────────────────────

  /** A set answers for `ttl`, a pop ends its token, and neither changes the answer for any other token. */
  lemma LookupAfterCommand(s: Server, t: TokenId, p: P.Principal, ttl: nat, wait: nat, other: TokenId)
    requires other != t
    ensures Lookup(Next(Next(s, Set(t, p), ttl), Advance(wait), ttl), t) == if wait < ttl then Some(p) else None
    ensures Lookup(Next(s, Set(t, p), ttl), other) == Lookup(s, other)
    ensures Lookup(Next(s, Pop(t), ttl), t) == None
    ensures Lookup(Next(s, Pop(t), ttl), other) == Lookup(s, other)
  {
  }

  /** Each token is only ever stored with the principal of one user, the one it was issued to. */
  ghost predicate OneOwner(steps: seq<Step>, owner: TokenId -> UserId) {
    forall i :: 0 <= i < |steps| && steps[i].Set? ==> steps[i].principal.user == owner(steps[i].token)
  }

  ghost predicate HoldsOwn(s: Server, owner: TokenId -> UserId) {
    && (forall u, t :: u in s.users && t in s.users[u].tokens ==> owner(t) == u)
    && (forall call, t :: call in s.pending && t in s.pending[call].tokens ==> owner(t) == s.pending[call].user)
  }

  lemma {:induction false} HoldsOwnRun(s: Server, steps: seq<Step>, ttl: nat, owner: TokenId -> UserId)
    requires HoldsOwn(s, owner) && OneOwner(steps, owner)
    ensures HoldsOwn(Run(s, steps, ttl), owner)
    decreases |steps|
  {
    if steps != [] {
      assert steps[0].Set? ==> steps[0].principal.user == owner(steps[0].token);
      HoldsOwnRun(Next(s, steps[0], ttl), steps[1..], ttl, owner);
    }
  }

  /** In every reachable state, neither half of an invalidation changes the answer for a token of another user, and the
      first half changes none. */
  lemma InvalidationSparesOthers(now: Instant, before: seq<Step>, ttl: nat, owner: TokenId -> UserId, call: CallId,
                                 u: UserId, t: TokenId)
    requires OneOwner(before, owner)
    ensures var s := Run(Server(now, map[], map[], map[], 0), before, ttl);
            && Lookup(Next(s, Begin(call, u), ttl), t) == Lookup(s, t)
            && (call in s.pending && owner(t) != s.pending[call].user ==>
                  Lookup(Next(s, Finish(call), ttl), t) == Lookup(s, t))
  {
    HoldsOwnRun(Server(now, map[], map[], map[], 0), before, ttl, owner);
  }

  // ── What an invalidation leaves ────────────────────────────────────────

  /** `s'` is later than `s`: its entries older than `s.stamp` were in `s`. */
  ghost predicate Later(s: Server, s': Server) {
    && s.now <= s'.now && s.stamp <= s'.stamp
    && forall t :: t in s'.entries && s'.entries[t].stamp < s.stamp
                   ==> t in s.entries && s.entries[t] == s'.entries[t]
  }

  lemma {:induction false} RunIsLater(s: Server, steps: seq<Step>, ttl: nat)
    ensures Later(s, Run(s, steps, ttl))
    decreases |steps|
  {
    if steps != [] {
      var s1 := Next(s, steps[0], ttl);
      assert Later(s, s1);
      RunIsLater(s1, steps[1..], ttl);
      var s2 := Run(s1, steps[1..], ttl);
      forall t | t in s2.entries && s2.entries[t].stamp < s.stamp
        ensures t in s.entries && s.entries[t] == s2.entries[t]
      {
        assert t in s1.entries && s1.entries[t] == s2.entries[t];
      }
    }
  }

  predicate Unfinished(steps: seq<Step>, call: CallId) {
    forall i :: 0 <= i < |steps| ==> steps[i] != Finish(call)
  }

  lemma {:induction false} CallWaits(s: Server, steps: seq<Step>, ttl: nat, call: CallId)
    requires call in s.pending && Unfinished(steps, call)
    ensures call in Run(s, steps, ttl).pending && Run(s, steps, ttl).pending[call] == s.pending[call]
    decreases |steps|
  {
    if steps != [] {
      assert steps[0] != Finish(call);
      var s' := Next(s, steps[0], ttl);
      assert s'.pending[call] == s.pending[call];
      CallWaits(s', steps[1..], ttl, call);
    }
  }

  /** The server when an invalidation of `u` that began in `s` finishes, other steps having run in between. */
  function AfterInvalidation(s: Server, call: CallId, u: UserId, between: seq<Step>, ttl: nat): Server {
    Next(Run(Next(s, Begin(call, u), ttl), between, ttl), Finish(call), ttl)
  }

  /** Whatever runs in between, an entry of the user still served when the invalidation returns was set after it
      began, or another invalidation of the same user was already under way holding that entry. */
  lemma InvalidationLeaves(s: Server, call: CallId, u: UserId, between: seq<Step>, ttl: nat, t: TokenId)
    requires Inv(s, ttl) && call !in s.pending && Unfinished(between, call)
    requires Live(AfterInvalidation(s, call, u, between, ttl), t)
    requires AfterInvalidation(s, call, u, between, ttl).entries[t].principal.user == u
    ensures AfterInvalidation(s, call, u, between, ttl).entries[t].stamp >= s.stamp || Doomed(s, u, t)
  {
    var s1 := Next(s, Begin(call, u), ttl);
    var s2 := Run(s1, between, ttl);
    CallWaits(s1, between, ttl, call);
    RunIsLater(s1, between, ttl);
    assert s1.pending[call].tokens == Members(s, u);
    if s2.entries[t].stamp < s.stamp {
      assert s.entries[t] == s2.entries[t];
      assert EntryOk(s, t, ttl);
    }
  }

  ghost predicate NeverSets(steps: seq<Step>, u: UserId) {
    forall i :: 0 <= i < |steps| && steps[i].Set? ==> steps[i].principal.user != u
  }

  ghost predicate Absent(s: Server, u: UserId) {
    forall t :: Live(s, t) ==> s.entries[t].principal.user != u
  }

  lemma {:induction false} AbsentRun(s: Server, steps: seq<Step>, ttl: nat, u: UserId)
    requires Absent(s, u) && NeverSets(steps, u)
    ensures Absent(Run(s, steps, ttl), u)
    decreases |steps|
  {
    if steps != [] {
      var s' := Next(s, steps[0], ttl);
      forall t | Live(s', t) ensures s'.entries[t].principal.user != u {
        assert (steps[0].Set? && steps[0].token == t) || Live(s, t);
      }
      AbsentRun(s', steps[1..], ttl, u);
    }
  }

  lemma {:induction false} UntouchedUser(s: Server, steps: seq<Step>, ttl: nat, u: UserId, t: TokenId)
    requires NeverSets(steps, u)
    requires t in Run(s, steps, ttl).entries && Run(s, steps, ttl).entries[t].principal.user == u
    ensures t in s.entries && s.entries[t] == Run(s, steps, ttl).entries[t]
    decreases |steps|
  {
    if steps != [] {
      UntouchedUser(Next(s, steps[0], ttl), steps[1..], ttl, u, t);
      assert !(steps[0].Set? && steps[0].principal.user == u);
    }
  }

  /** Every live entry of the user is listed where an invalidation would find it. */
  ghost predicate AllListed(s: Server, u: UserId) {
    forall t :: Live(s, t) && s.entries[t].principal.user == u ==> t in Members(s, u)
  }

  /** With `between` during an invalidation begun in `s` and `after` following it, neither setting for `u`, nothing of
      `u` is served from its return on. */
  ghost predicate ClearedIn(s: Server, call: CallId, u: UserId, ttl: nat, between: seq<Step>, after: seq<Step>) {
    Unfinished(between, call) && NeverSets(between, u) && NeverSets(after, u) ==>
      Absent(Run(AfterInvalidation(s, call, u, between, ttl), after, ttl), u)
  }

  lemma ListedIsCleared(s: Server, call: CallId, u: UserId, between: seq<Step>, after: seq<Step>, ttl: nat)
    requires call !in s.pending && AllListed(s, u)
    requires Unfinished(between, call) && NeverSets(between, u) && NeverSets(after, u)
    ensures Absent(Run(AfterInvalidation(s, call, u, between, ttl), after, ttl), u)
  {
    var s1 := Next(s, Begin(call, u), ttl);
    var s3 := AfterInvalidation(s, call, u, between, ttl);
    CallWaits(s1, between, ttl, call);
    RunIsLater(s1, between, ttl);
    assert s1.pending[call].tokens == Members(s, u);
    forall t | Live(s3, t) ensures s3.entries[t].principal.user != u {
      if s3.entries[t].principal.user == u { UntouchedUser(s1, between, ttl, u, t); }
    }
    AbsentRun(s3, after, ttl, u);
  }

  /** An entry the index does not list outlives an invalidation that nothing else disturbs. */
  lemma UnlistedIsServed(s: Server, call: CallId, u: UserId, ttl: nat, t: TokenId)
    requires call !in s.pending && Live(s, t) && s.entries[t].principal.user == u && t !in Members(s, u)
    ensures !Absent(Run(AfterInvalidation(s, call, u, [], ttl), [], ttl), u)
  {
    var s1 := Next(s, Begin(call, u), ttl);
    assert Run(s1, [], ttl) == s1;
    assert Live(AfterInvalidation(s, call, u, [], ttl), t);
  }

  /** Whatever runs during and after it, an invalidation leaves nothing of the user to look up until the next set for
      that user, if and only if every live entry of the user was listed when it began. */
  lemma InvalidatedUntilNextSet(s: Server, call: CallId, u: UserId, ttl: nat)
    requires call !in s.pending
    ensures (forall between, after :: ClearedIn(s, call, u, ttl, between, after)) <==> AllListed(s, u)
  {
    if AllListed(s, u) {
      forall between, after ensures ClearedIn(s, call, u, ttl, between, after) {
        if Unfinished(between, call) && NeverSets(between, u) && NeverSets(after, u) {
          ListedIsCleared(s, call, u, between, after, ttl);
        }
      }
    } else {
      var t :| Live(s, t) && s.entries[t].principal.user == u && t !in Members(s, u);
      UnlistedIsServed(s, call, u, ttl, t);
      assert !ClearedIn(s, call, u, ttl, [], []);
    }
  }

  /** In every reachable state a live entry is unlisted only while another invalidation of its user holds it. */
  lemma UnlistedIsDoomed(s: Server, u: UserId, ttl: nat, t: TokenId)
    requires Inv(s, ttl) && Live(s, t) && s.entries[t].principal.user == u && t !in Members(s, u)
    ensures Doomed(s, u, t)
  {
    assert EntryOk(s, t, ttl);
  }

  /** Such states are reached from every state that serves the user: a second invalidation that starts while a first
      one is between its two calls returns with every entry the first one holds still served. */
  lemma OverlappingInvalidation(s: Server, a: CallId, b: CallId, ttl: nat, t: TokenId)
    requires a !in s.pending && b !in s.pending && a != b
    requires Live(s, t)
    ensures var u := s.entries[t].principal.user;
            var s1 := Next(s, Begin(a, u), ttl);
            Lookup(AfterInvalidation(s1, b, u, [], ttl), t) == Some(s.entries[t].principal)
  {
    var u := s.entries[t].principal.user;
    var s1 := Next(s, Begin(a, u), ttl);
    var s2 := Next(s1, Begin(b, u), ttl);
    assert Members(s1, u) == {};
    assert s2.pending[b].tokens == {};
    assert Run(s2, [], ttl) == s2;
    assert Next(s2, Finish(b), ttl).entries == s.entries;
  }
}
