/**
  Bounded staleness of resolved principals. A request that misses the cache
  reads the user row and stores the principal later; rows change in between,
  and entries may vanish at any time by expiry, eviction, pop or invalidation.
*/
module PrincipalStaleness {
  import opened Prelude
  import opened PrincipalResolution
  import P = PrincipalCache
  import AuthzEngine

  type RequestId = nat

  datatype Held = Held(principal: P.Principal, readAt: Instant, expires: Instant)
  datatype Read = Read(token: TokenId, principal: P.Principal, at: Instant)
  datatype Moment = Moment(at: Instant, users: Users)

  datatype System = System(now: Instant, users: Users, entries: map<TokenId, Held>, flights: map<RequestId, Read>,
                           past: seq<Moment>)

  /** Entries live `ttl`; a request stores within `lag` of its read (zero when the two are one step). Token ids are
      issued once, so each stands for fixed claims. */
  datatype Setting = Setting(ttl: nat, lag: nat, issued: TokenId -> Payload)

  datatype Step =
    | Advance(ticks: nat)
    | Create(user: UserId, row: User)
    | Bump(user: UserId)
    | SetActive(user: UserId, active: bool)
    | MarkVerified(user: UserId)
    | Erase(user: UserId)
    | Relate(tuples: seq<AuthzEngine.Tuple>)
    | StartRead(request: RequestId, token: TokenId)
    | Store(request: RequestId)
    | Drop(tokens: set<TokenId>)

  function Raised(row: User): User { row.(version := row.version + 1) }

  /** The user table after a step. */
  function UsersNext(users: Users, step: Step): Users {
    match step
    case Create(u, row) => if u in users then users else users[u := row]
    case Bump(u) => if u in users then users[u := Raised(users[u])] else users
    case SetActive(u, active) => if u in users then users[u := Raised(users[u]).(active := active)] else users
    case MarkVerified(u) => if u in users then users[u := users[u].(verified := true)] else users
    case Erase(u) =>
      if u in users && !users[u].erased then users[u := Raised(users[u]).(active := false, erased := true)] else users
    case Relate(tuples) =>
      map u | u in users :: if u in AuthzEngine.AffectedUsers(tuples) then Raised(users[u]) else users[u]
    case _ => users
  }

  predicate Hit(s: System, t: TokenId) { t in s.entries && s.now < s.entries[t].expires }

  predicate InTime(k: Setting, s: System, r: RequestId) { r in s.flights && s.now <= s.flights[r].at + k.lag }

  function EntriesNext(k: Setting, s: System, step: Step): map<TokenId, Held> {
    match step
    case StartRead(_, t) =>
      if !Hit(s, t) && Judge(s.users, k.issued(t)) == Err(StaleToken) then s.entries - {t} else s.entries
    case Store(r) =>
      if InTime(k, s, r)
      then s.entries[s.flights[r].token := Held(s.flights[r].principal, s.flights[r].at, s.now + k.ttl)] else s.entries
    case Drop(tokens) => s.entries - tokens
    case _ => s.entries
  }

  function ReadsNext(k: Setting, s: System, step: Step): map<RequestId, Read> {
    match step
    case StartRead(r, t) =>
      var a := Judge(s.users, k.issued(t));
      if !Hit(s, t) && a.Ok? && r !in s.flights then s.flights[r := Read(t, a.principal, s.now)] else s.flights
    case Store(r) => s.flights - {r}
    case _ => s.flights
  }

  function Clock(s: System, step: Step): Instant { if step.Advance? then s.now + step.ticks else s.now }

  function Next(k: Setting, s: System, step: Step): System {
    System(Clock(s, step), UsersNext(s.users, step), EntriesNext(k, s, step), ReadsNext(k, s, step),
           s.past + [Moment(Clock(s, step), UsersNext(s.users, step))])
  }

  function Run(k: Setting, s: System, steps: seq<Step>): System
    decreases |steps|
  {
    if steps == [] then s else Run(k, Next(k, s, steps[0]), steps[1..])
  }

  function Start(now: Instant, users: Users): System { System(now, users, map[], map[], [Moment(now, users)]) }

  // ── Versions never go down ─────────────────────────────────────────────

  ghost predicate NotLower(a: Users, b: Users) {
    forall u :: u in a ==> u in b && a[u].version <= b[u].version
  }

  lemma StepNotLower(users: Users, step: Step)
    ensures NotLower(users, UsersNext(users, step))
  {
  }

  /** History is in time order, versions along it never go down, and it ends with the present. */
  ghost predicate Ordered(s: System) {
    && |s.past| > 0 && s.past[|s.past| - 1] == Moment(s.now, s.users)
    && forall i, j :: 0 <= i <= j < |s.past| ==>
                        s.past[i].at <= s.past[j].at && NotLower(s.past[i].users, s.past[j].users)
  }

  lemma OrderedNext(k: Setting, s: System, step: Step)
    requires Ordered(s)
    ensures Ordered(Next(k, s, step))
  {
    StepNotLower(s.users, step);
    var s' := Next(k, s, step);
    forall i, j | 0 <= i <= j < |s'.past|
      ensures s'.past[i].at <= s'.past[j].at && NotLower(s'.past[i].users, s'.past[j].users)
    {
      if j == |s.past| && i < j {
        assert NotLower(s.past[i].users, s.past[|s.past| - 1].users);
      }
    }
  }

  // ── Backing ────────────────────────────────────────────────────────────

  /** At time `at` the user row was as `p` says and satisfied the token's claims. */
  ghost predicate Backed(past: seq<Moment>, claims: Payload, p: P.Principal, at: Instant) {
    exists j :: 0 <= j < |past| && past[j].at == at && Judge(past[j].users, claims) == Ok(p)
  }

  lemma BackedGrows(past: seq<Moment>, m: Moment, claims: Payload, p: P.Principal, at: Instant)
    requires Backed(past, claims, p, at)
    ensures Backed(past + [m], claims, p, at)
  {
    var j :| 0 <= j < |past| && past[j].at == at && Judge(past[j].users, claims) == Ok(p);
    assert (past + [m])[j] == past[j];
  }

  ghost predicate EntryOk(k: Setting, s: System, t: TokenId)
    requires t in s.entries
  {
    var e := s.entries[t];
    e.readAt <= s.now && e.expires <= e.readAt + k.lag + k.ttl
    && Backed(s.past, k.issued(t), e.principal, e.readAt)
  }

  ghost predicate ReadOk(k: Setting, s: System, r: RequestId)
    requires r in s.flights
  {
    s.flights[r].at <= s.now && Backed(s.past, k.issued(s.flights[r].token), s.flights[r].principal, s.flights[r].at)
  }

  ghost predicate Inv(k: Setting, s: System) {
    && Ordered(s)
    && (forall t :: t in s.entries ==> EntryOk(k, s, t))
    && (forall r :: r in s.flights ==> ReadOk(k, s, r))
  }

  lemma EntryNext(k: Setting, s: System, step: Step, t: TokenId)
    requires Inv(k, s) && t in EntriesNext(k, s, step)
    ensures EntryOk(k, Next(k, s, step), t)
  {
    var s' := Next(k, s, step);
    var m := Moment(s'.now, s'.users);
    if step.Store? && InTime(k, s, step.request) && s.flights[step.request].token == t {
      var read := s.flights[step.request];
      assert ReadOk(k, s, step.request);
      BackedGrows(s.past, m, k.issued(t), read.principal, read.at);
    } else {
      assert EntryOk(k, s, t);
      BackedGrows(s.past, m, k.issued(t), s.entries[t].principal, s.entries[t].readAt);
    }
  }

  lemma ReadNext(k: Setting, s: System, step: Step, r: RequestId)
    requires Inv(k, s) && r in ReadsNext(k, s, step)
    ensures ReadOk(k, Next(k, s, step), r)
  {
    var s' := Next(k, s, step);
    var m := Moment(s'.now, s'.users);
    if r in s.flights {
      assert ReadOk(k, s, r);
      BackedGrows(s.past, m, k.issued(s.flights[r].token), s.flights[r].principal, s.flights[r].at);
    } else {
      NewReadBacked(k, s, step, r, s');
    }
  }

  lemma NewReadBacked(k: Setting, s: System, step: Step, r: RequestId, s': System)
    requires s' == Next(k, s, step) && r in s'.flights && r !in s.flights
    ensures ReadOk(k, s', r)
  {
    assert s'.past[|s.past|] == Moment(s.now, s.users);
  }

  lemma InvNext(k: Setting, s: System, step: Step)
    requires Inv(k, s)
    ensures Inv(k, Next(k, s, step))
  {
    OrderedNext(k, s, step);
    var s' := Next(k, s, step);
    forall t | t in s'.entries ensures EntryOk(k, s', t) { EntryNext(k, s, step, t); }
    forall r | r in s'.flights ensures ReadOk(k, s', r) { ReadNext(k, s, step, r); }
  }

  lemma {:induction false} InvRun(k: Setting, s: System, steps: seq<Step>)
    requires Inv(k, s)
    ensures Inv(k, Run(k, s, steps))
    decreases |steps|
  {
    if steps != [] {
      InvNext(k, s, steps[0]);
      InvRun(k, Next(k, s, steps[0]), steps[1..]);
    }
  }

  lemma StartInv(k: Setting, now: Instant, users: Users)
    ensures Inv(k, Start(now, users))
  {
  }

  // ── Guarantees ─────────────────────────────────────────────────────────

  /** The system can answer `t` with `p` now: from the cache, or by completing a request in flight. */
  ghost predicate Accepts(k: Setting, s: System, t: TokenId, p: P.Principal) {
    || (Hit(s, t) && s.entries[t].principal == p)
    || (exists r :: InTime(k, s, r) && s.flights[r].token == t && s.flights[r].principal == p)
  }

  lemma AcceptedWasRead(k: Setting, s: System, t: TokenId, p: P.Principal) returns (at: Instant)
    requires Inv(k, s) && Accepts(k, s, t, p)
    ensures s.now - k.ttl - k.lag <= at <= s.now && Backed(s.past, k.issued(t), p, at)
  {
    if Hit(s, t) && s.entries[t].principal == p {
      assert EntryOk(k, s, t);
      return s.entries[t].readAt;
    }
    var r :| InTime(k, s, r) && s.flights[r].token == t && s.flights[r].principal == p;
    assert ReadOk(k, s, r);
    return s.flights[r].at;
  }

  /** Every principal handed out at time `now` was the active user's row, at the token's version, at some moment of
      the last `ttl + lag`. */
  lemma BoundedStaleness(k: Setting, s: System, t: TokenId, p: P.Principal) returns (j: nat)
    requires Inv(k, s) && Accepts(k, s, t, p)
    ensures j < |s.past| && s.now - k.ttl - k.lag <= s.past[j].at <= s.now
    ensures Judge(s.past[j].users, k.issued(t)) == Ok(p)
    ensures p.active && p.version == k.issued(t).version && p.user == k.issued(t).subject
  {
    var at := AcceptedWasRead(k, s, t, p);
    j :| 0 <= j < |s.past| && s.past[j].at == at && Judge(s.past[j].users, k.issued(t)) == Ok(p);
  }

  lemma AboveFrom(s: System, i: nat, j: nat, claims: Payload)
    requires Ordered(s) && i < |s.past| && j < |s.past| && s.past[i].at < s.past[j].at
    requires claims.subject in s.past[i].users && s.past[i].users[claims.subject].version > claims.version
    ensures Judge(s.past[j].users, claims).Err?
  {
    assert i <= j;
    assert NotLower(s.past[i].users, s.past[j].users);
  }

  /** Once the user's version has been above the token's for longer than `ttl + lag`, the token is refused. */
  lemma OutlivedIsRefused(k: Setting, s: System, t: TokenId, p: P.Principal, i: nat)
    requires Inv(k, s) && i < |s.past|
    requires k.issued(t).subject in s.past[i].users
    requires s.past[i].users[k.issued(t).subject].version > k.issued(t).version
    requires s.now > s.past[i].at + k.ttl + k.lag
    ensures !Accepts(k, s, t, p)
  {
    if Accepts(k, s, t, p) {
      var j := BoundedStaleness(k, s, t, p);
      AboveFrom(s, i, j, k.issued(t));
    }
  }

  /** Steps that raise a user's version. */
  predicate Raises(users: Users, step: Step, u: UserId) {
    u in users &&
    match step
    case Bump(v) => v == u
    case SetActive(v, _) => v == u
    case Erase(v) => v == u && !users[u].erased
    case Relate(tuples) => u in AuthzEngine.AffectedUsers(tuples)
    case _ => false
  }

  lemma RaisesStrictly(users: Users, step: Step, u: UserId)
    requires u in users
    ensures UsersNext(users, step)[u].version == users[u].version + if Raises(users, step, u) then 1 else 0
  {
  }

  /** A relationship write or delete raises exactly the users its tuples name, and nothing else of their rows. */
  lemma RelateMeaning(users: Users, tuples: seq<AuthzEngine.Tuple>, u: UserId)
    requires u in users
    ensures UsersNext(users, Relate(tuples)).Keys == users.Keys
    ensures UsersNext(users, Relate(tuples))[u]
            == users[u].(version := users[u].version + if AuthzEngine.Names(tuples, u) then 1 else 0)
    ensures Raises(users, Relate(tuples), u) <==> AuthzEngine.Names(tuples, u)
  {
    AuthzEngine.AffectedAreNamed(tuples, u);
  }

  /** What the other steps on a user row do to it. */
  lemma UserStepMeaning(users: Users, u: UserId, active: bool)
    requires u in users
    ensures UsersNext(users, Bump(u))[u] == users[u].(version := users[u].version + 1)
    ensures UsersNext(users, SetActive(u, active))[u] == users[u].(version := users[u].version + 1, active := active)
    ensures UsersNext(users, MarkVerified(u))[u] == users[u].(verified := true)
    ensures UsersNext(users, Erase(u))[u]
            == if users[u].erased then users[u]
               else users[u].(version := users[u].version + 1, active := false, erased := true)
  {
  }

  /** A step on one user's row changes no other row, and only a creation adds one. */
  lemma OtherUsersKept(users: Users, step: Step, u: UserId, row: User)
    requires step in {Create(u, row), Bump(u), SetActive(u, row.active), MarkVerified(u), Erase(u)}
    ensures var users' := UsersNext(users, step);
            && users'.Keys == users.Keys + (if step.Create? then {u} else {})
            && (forall v :: v in users && v != u ==> users'[v] == users[v])
            && (step.Create? ==> users'[u] == if u in users then users[u] else row)
  {
  }

  lemma {:induction false} PastKept(k: Setting, s: System, steps: seq<Step>)
    ensures s.past <= Run(k, s, steps).past
    decreases |steps|
  {
    if steps != [] {
      PastKept(k, Next(k, s, steps[0]), steps[1..]);
      assert s.past <= Next(k, s, steps[0]).past;
    }
  }

  /** A relationship write or delete naming the user, a password reset, a change of activity or an erasure ends every
      token issued up to then: refused in every continuation once `ttl + lag` has passed. */
  lemma RevocationTakesHold(k: Setting, s: System, step: Step, rest: seq<Step>, t: TokenId, p: P.Principal)
    requires Inv(k, s) && Raises(s.users, step, k.issued(t).subject)
    requires k.issued(t).version <= s.users[k.issued(t).subject].version
    requires Run(k, s, [step] + rest).now > s.now + k.ttl + k.lag
    ensures !Accepts(k, Run(k, s, [step] + rest), t, p)
  {
    var s1 := Next(k, s, step);
    RaisesStrictly(s.users, step, k.issued(t).subject);
    assert ([step] + rest)[1..] == rest;
    InvNext(k, s, step);
    InvRun(k, s1, rest);
    PastKept(k, s1, rest);
    var last := |s1.past| - 1;
    assert s1.past[last] == Run(k, s1, rest).past[last];
    OutlivedIsRefused(k, Run(k, s1, rest), t, p, last);
  }

  /** So a write or delete of any tuple whose subject is the user ends the tokens issued to that user up to then. */
  lemma TupleChangeTakesHold(k: Setting, s: System, tuples: seq<AuthzEngine.Tuple>, rest: seq<Step>, t: TokenId,
                             p: P.Principal)
    requires Inv(k, s) && k.issued(t).subject in s.users
    requires k.issued(t).version <= s.users[k.issued(t).subject].version
    requires AuthzEngine.Names(tuples, k.issued(t).subject)
    requires Run(k, s, [Relate(tuples)] + rest).now > s.now + k.ttl + k.lag
    ensures !Accepts(k, Run(k, s, [Relate(tuples)] + rest), t, p)
  {
    RelateMeaning(s.users, tuples, k.issued(t).subject);
    RevocationTakesHold(k, s, Relate(tuples), rest, t, p);
  }

  /** A raise by itself does not touch the cache: a token served before it is served right after it. */
  lemma RaiseAloneKeepsServing(k: Setting, s: System, step: Step, t: TokenId)
    requires Raises(s.users, step, k.issued(t).subject) && Hit(s, t)
    ensures Accepts(k, Next(k, s, step), t, s.entries[t].principal)
  {
    assert Hit(Next(k, s, step), t);
  }

  /** No request that has read the row for `t` can still store it. */
  ghost predicate NoneInFlight(k: Setting, s: System, t: TokenId) {
    forall r :: InTime(k, s, r) ==> s.flights[r].token != t
  }

  ghost predicate Ended(k: Setting, s: System, t: TokenId) {
    && k.issued(t).subject in s.users && s.users[k.issued(t).subject].version > k.issued(t).version
    && !Hit(s, t) && NoneInFlight(k, s, t)
  }

  lemma EndedNext(k: Setting, s: System, step: Step, t: TokenId)
    requires Ended(k, s, t)
    ensures Ended(k, Next(k, s, step), t)
  {
    StepNotLower(s.users, step);
    var s' := Next(k, s, step);
    forall r | InTime(k, s', r) ensures s'.flights[r].token != t {
      if r in s.flights { assert InTime(k, s, r); }
    }
  }

  lemma {:induction false} EndedRun(k: Setting, s: System, steps: seq<Step>, t: TokenId)
    requires Ended(k, s, t)
    ensures Ended(k, Run(k, s, steps), t)
    decreases |steps|
  {
    if steps != [] {
      EndedNext(k, s, steps[0], t);
      EndedRun(k, Next(k, s, steps[0]), steps[1..], t);
    }
  }

  ghost predicate AcceptsAfter(k: Setting, s: System, steps: seq<Step>, t: TokenId, p: P.Principal) {
    Accepts(k, Run(k, s, steps), t, p)
  }

  /** After a raise the token is refused at once and for ever if and only if the cache does not serve it and no request
      that read the old row is still in flight. */
  lemma RefusedAtOnceIff(k: Setting, s: System, t: TokenId)
    requires k.issued(t).subject in s.users && s.users[k.issued(t).subject].version > k.issued(t).version
    ensures (forall steps, p :: !AcceptsAfter(k, s, steps, t, p)) <==> !Hit(s, t) && NoneInFlight(k, s, t)
  {
    if !Hit(s, t) && NoneInFlight(k, s, t) {
      forall steps, p ensures !AcceptsAfter(k, s, steps, t, p) {
        EndedRun(k, s, steps, t);
      }
    } else if Hit(s, t) {
      assert AcceptsAfter(k, s, [], t, s.entries[t].principal);
    } else {
      var r :| InTime(k, s, r) && s.flights[r].token == t;
      assert Accepts(k, s, t, s.flights[r].principal);
      assert AcceptsAfter(k, s, [], t, s.flights[r].principal);
    }
  }
}
