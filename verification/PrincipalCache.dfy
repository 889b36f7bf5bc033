/**
  The cache of resolved principals, keyed by access-token id, with its index
  from users to token ids: the in-process form, serialised by a lock.
*/
module PrincipalCache {
  import opened Prelude

  type UserId = nat
  type TokenId = nat

  datatype Principal = Principal(user: UserId, active: bool, verified: bool, version: nat)

  // ── In-process ─────────────────────────────────────────────────────────

  datatype Cached = Cached(principal: Principal, expires: Instant)

  datatype Cache = Cache(entries: map<TokenId, Cached>, index: map<UserId, set<TokenId>>)

  function Listed(index: map<UserId, set<TokenId>>, u: UserId): set<TokenId> {
    if u in index then index[u] else {}
  }

  /** Every entry of a user is listed under that user. */
  ghost predicate Covered(c: Cache) {
    forall t :: t in c.entries ==> t in Listed(c.index, c.entries[t].principal.user)
  }

  function Live(entries: map<TokenId, Cached>, now: Instant): map<TokenId, Cached> {
    map t | t in entries && now < entries[t].expires :: entries[t]
  }

  function Lookup(c: Cache, t: TokenId, now: Instant): Option<Principal> {
    if t in c.entries && now < c.entries[t].expires then Some(c.entries[t].principal) else None
  }

  function Without(entries: map<TokenId, Cached>, evicted: Option<TokenId>): map<TokenId, Cached> {
    if evicted.Some? then entries - {evicted.value} else entries
  }

  /** Expired entries go, one entry may be evicted to make room, and the new one is written and indexed. */
  function Put(c: Cache, t: TokenId, p: Principal, now: Instant, ttl: Instant, evicted: Option<TokenId>): Cache {
    Cache(Without(Live(c.entries, now), evicted)[t := Cached(p, now + ttl)],
          c.index[p.user := Listed(c.index, p.user) + {t}])
  }

  function Popped(c: Cache, t: TokenId): Cache { c.(entries := c.entries - {t}) }

  function Invalidated(c: Cache, u: UserId): Cache {
    Cache(c.entries - Listed(c.index, u), c.index - {u})
  }

  class InProcessPrincipalCache {
    const maxsize: nat
    const ttl: Instant
    var entries: map<TokenId, Cached>
    var index: map<UserId, set<TokenId>>

    ghost function Snapshot(): Cache
      reads this
    {
      Cache(entries, index)
    }

    constructor (maxsize: nat, ttl: Instant)
      ensures this.maxsize == maxsize && this.ttl == ttl
      ensures Snapshot() == Cache(map[], map[]) && Covered(Snapshot())
    {
      this.maxsize, this.ttl, entries, index := maxsize, ttl, map[], map[];
    }

    method Get(t: TokenId, now: Instant) returns (p: Option<Principal>)
      ensures p == Lookup(Snapshot(), t, now)
    {
      if t in entries && now < entries[t].expires { return Some(entries[t].principal); }
      return None;
    }

    /** Expired entries go; which live entry a full cache then evicts is left open. */
    method MakeRoom(t: TokenId, now: Instant) returns (evicted: Option<TokenId>)
      modifies `entries
      ensures entries == Without(Live(old(entries), now), evicted)
      ensures evicted.Some? <==> t !in Live(old(entries), now) && |Live(old(entries), now)| >= maxsize
                                 && Live(old(entries), now) != map[]
      ensures evicted.Some? ==> evicted.value in Live(old(entries), now)
    {
      var live := Live(entries, now);
      if t !in live && |live| >= maxsize && live.Keys != {} {
        var victim :| victim in live.Keys;
        entries := live - {victim};
        return Some(victim);
      }
      entries := live;
      return None;
    }

    /** The index is never trimmed when entries expire or are evicted. */
    method Set(t: TokenId, p: Principal, now: Instant) returns (evicted: Option<TokenId>)
      requires Covered(Snapshot())
      modifies `entries, `index
      ensures Snapshot() == Put(old(Snapshot()), t, p, now, ttl, evicted)
      ensures Covered(Snapshot())
    {
      evicted := MakeRoom(t, now);
      entries := entries[t := Cached(p, now + ttl)];
      index := index[p.user := (if p.user in index then index[p.user] else {}) + {t}];
      CoveredNext(old(Snapshot()), Step.Set(t, p, now, ttl, evicted));
    }

    method Pop(t: TokenId)
      requires Covered(Snapshot())
      modifies `entries
      ensures Snapshot() == Popped(old(Snapshot()), t) && Covered(Snapshot())
    {
      entries := entries - {t};
    }

    /** Take the user's list out of the index and pop each token on it. */
    method InvalidateUser(u: UserId)
      requires Covered(Snapshot())
      modifies `entries, `index
      ensures Snapshot() == Invalidated(old(Snapshot()), u) && Covered(Snapshot())
      ensures forall t :: t in entries ==> entries[t].principal.user != u
    {
      var tokens := if u in index then index[u] else {};
      index := index - {u};
      var todo := tokens;
      while todo != {}
        invariant todo <= tokens && index == old(index) - {u}
        invariant entries == old(entries) - (tokens - todo)
        decreases |todo|
      {
        var t :| t in todo;
        entries := entries - {t};
        todo := todo - {t};
      }
    }
  }

  datatype Step =
    | Set(token: TokenId, principal: Principal, now: Instant, ttl: Instant, evicted: Option<TokenId>)
    | Pop(token: TokenId)
    | Invalidate(user: UserId)

  function Next(c: Cache, s: Step): Cache {
    match s
    case Set(t, p, now, ttl, evicted) => Put(c, t, p, now, ttl, evicted)
    case Pop(t) => Popped(c, t)
    case Invalidate(u) => Invalidated(c, u)
  }

  function Run(c: Cache, steps: seq<Step>): Cache
    decreases |steps|
  {
    if steps == [] then c else Run(Next(c, steps[0]), steps[1..])
  }

  /** What a set does to lookups from then on: the token answers with its principal for `ttl`, the evicted one no longer
      answers, and every other token answers as before. */
  lemma LookupAfterSet(c: Cache, t: TokenId, p: Principal, now: Instant, ttl: Instant, evicted: Option<TokenId>,
                       other: TokenId, later: Instant)
    requires later >= now && other != t
    ensures Lookup(Put(c, t, p, now, ttl, evicted), t, later) == if later < now + ttl then Some(p) else None
    ensures Lookup(Put(c, t, p, now, ttl, evicted), other, later)
            == if evicted == Some(other) then None else Lookup(c, other, later)
  {
  }

  lemma LookupAfterPop(c: Cache, t: TokenId, other: TokenId, now: Instant)
    requires other != t
    ensures Lookup(Popped(c, t), t, now) == None
    ensures Lookup(Popped(c, t), other, now) == Lookup(c, other, now)
  {
  }

  /** Each token is only ever stored with the principal of one user, the one it was issued to. */
  ghost predicate OneOwner(steps: seq<Step>, owner: TokenId -> UserId) {
    forall i :: 0 <= i < |steps| && steps[i].Set? ==> steps[i].principal.user == owner(steps[i].token)
  }

  ghost predicate ListsOwn(c: Cache, owner: TokenId -> UserId) {
    forall u, t :: t in Listed(c.index, u) ==> owner(t) == u
  }

  lemma {:induction false} ListsOwnRun(c: Cache, steps: seq<Step>, owner: TokenId -> UserId)
    requires ListsOwn(c, owner) && OneOwner(steps, owner)
    ensures ListsOwn(Run(c, steps), owner)
    decreases |steps|
  {
    if steps != [] {
      var c' := Next(c, steps[0]);
      forall u, t | t in Listed(c'.index, u) ensures owner(t) == u {
        assert t in Listed(c.index, u) || (steps[0].Set? && steps[0].token == t && steps[0].principal.user == u);
      }
      ListsOwnRun(c', steps[1..], owner);
    }
  }

  /** From any reachable cache, invalidating one user leaves every answer for the tokens of other users as it was. */
  lemma InvalidationSparesOthers(before: seq<Step>, owner: TokenId -> UserId, u: UserId, t: TokenId, now: Instant)
    requires OneOwner(before, owner) && owner(t) != u
    ensures var c := Run(Cache(map[], map[]), before); Lookup(Invalidated(c, u), t, now) == Lookup(c, t, now)
  {
    ListsOwnRun(Cache(map[], map[]), before, owner);
  }

  lemma CoveredNext(c: Cache, s: Step)
    requires Covered(c)
    ensures Covered(Next(c, s))
  {
    forall t | t in Next(c, s).entries
      ensures t in Listed(Next(c, s).index, Next(c, s).entries[t].principal.user)
    {
    }
  }

  lemma {:induction false} CoveredRun(c: Cache, steps: seq<Step>)
    requires Covered(c)
    ensures Covered(Run(c, steps))
    decreases |steps|
  {
    if steps != [] { CoveredNext(c, steps[0]); CoveredRun(Next(c, steps[0]), steps[1..]); }
  }

  ghost predicate Absent(c: Cache, u: UserId) {
    forall t :: t in c.entries ==> c.entries[t].principal.user != u
  }

  ghost predicate NeverSets(steps: seq<Step>, u: UserId) {
    forall i :: 0 <= i < |steps| && steps[i].Set? ==> steps[i].principal.user != u
  }

  lemma {:induction false} AbsentRun(c: Cache, steps: seq<Step>, u: UserId)
    requires Absent(c, u) && NeverSets(steps, u)
    ensures Absent(Run(c, steps), u)
    decreases |steps|
  {
    if steps != [] { AbsentRun(Next(c, steps[0]), steps[1..], u); }
  }

  /** From any reachable cache, once a user is invalidated no lookup returns a principal of that user until the
      next set for that user. */
  lemma InvalidatedUntilNextSet(before: seq<Step>, u: UserId, after: seq<Step>, t: TokenId, now: Instant)
    requires NeverSets(after, u)
    ensures var c := Run(Invalidated(Run(Cache(map[], map[]), before), u), after);
            Lookup(c, t, now).Some? ==> Lookup(c, t, now).value.user != u
  {
    var c := Run(Cache(map[], map[]), before);
    CoveredRun(Cache(map[], map[]), before);
    AbsentRun(Invalidated(c, u), after, u);
  }
}
