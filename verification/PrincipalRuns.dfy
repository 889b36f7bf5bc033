/**
  A resolution over either cache is a run of the staleness machine: what is
  proved for every run of that machine holds of the resolver.
*/
module PrincipalRuns {
  import opened Prelude
  import opened PrincipalResolution
  import opened PrincipalStaleness
  import P = PrincipalCache
  import R = PrincipalCacheRedis

  /** What a cache would answer, and until when. */
  type View = map<TokenId, P.Cached>

  predicate Shows(view: View, t: TokenId, now: Instant) { t in view && now < view[t].expires }

  /** The machine's entries are the live ones of the cache. */
  ghost predicate Mirrors(view: View, s: System) {
    forall t :: (Shows(view, t, s.now) <==> Hit(s, t))
                && (Hit(s, t) ==> s.entries[t].principal == view[t].principal
                                  && s.entries[t].expires == view[t].expires)
  }

  /** Nothing but time, users and other requests: what a resolution must leave alone. */
  ghost predicate SameOutside(s: System, s': System) {
    s'.now == s.now && s'.users == s.users && s'.flights == s.flights
  }

  /** `p` has been stored for `t`; of the other entries some may be gone but none has changed. */
  ghost predicate StoredIn(view: View, view': View, t: TokenId, e: P.Cached, now: Instant) {
    && t in view' && view'[t] == e
    && forall u :: u != t && Shows(view', u, now) ==> Shows(view, u, now) && view'[u] == view[u]
  }

  lemma Three(k: Setting, s: System, a: Step, b: Step, c: Step)
    ensures Run(k, s, [a, b, c]) == Next(k, Next(k, Next(k, s, a), b), c)
  {
    var s1 := Next(k, s, a);
    var s2 := Next(k, s1, b);
    assert [a, b, c][1..] == [b, c] && [b, c][1..] == [c] && [c][1..] == [];
    assert Run(k, s2, [c]) == Next(k, s2, c);
    assert Run(k, s1, [b, c]) == Run(k, s2, [c]);
  }

  lemma StoreEntries(k: Setting, s: System, t: TokenId, r: RequestId, p: P.Principal, s': System)
    requires !Hit(s, t) && r !in s.flights && Judge(s.users, k.issued(t)) == Ok(p)
    requires s' == Next(k, Next(k, s, StartRead(r, t)), Store(r))
    ensures SameOutside(s, s')
    ensures s'.entries == s.entries[t := Held(p, s.now, s.now + k.ttl)]
  {
    var s1 := Next(k, s, StartRead(r, t));
    assert s1.flights == s.flights[r := Read(t, p, s.now)];
    assert s1.flights - {r} == s.flights;
  }

  /** A miss that succeeds: read, store, and the loss of whatever the cache dropped on the way. */
  lemma SuccessIsRun(k: Setting, s: System, view: View, view': View, t: TokenId, r: RequestId, p: P.Principal)
    returns (steps: seq<Step>)
    requires Mirrors(view, s) && !Hit(s, t) && r !in s.flights && Judge(s.users, k.issued(t)) == Ok(p)
    requires StoredIn(view, view', t, P.Cached(p, s.now + k.ttl), s.now)
    ensures SameOutside(s, Run(k, s, steps)) && Mirrors(view', Run(k, s, steps))
  {
    var lost := set u | u in s.entries && u != t && !Shows(view', u, s.now);
    var s2 := Next(k, Next(k, s, StartRead(r, t)), Store(r));
    StoreEntries(k, s, t, r, p, s2);
    steps := [StartRead(r, t), Store(r), Drop(lost)];
    Three(k, s, StartRead(r, t), Store(r), Drop(lost));
    var s3 := Next(k, s2, Drop(lost));
    assert s3.entries == s2.entries - lost;
    forall u ensures (Shows(view', u, s3.now) <==> Hit(s3, u))
                     && (Hit(s3, u) ==> s3.entries[u].principal == view'[u].principal
                                        && s3.entries[u].expires == view'[u].expires)
    {
      if u != t { assert Shows(view, u, s.now) <==> Hit(s, u); }
    }
  }

  /** A miss that finds the token stale. */
  lemma StaleIsRun(k: Setting, s: System, view: View, t: TokenId, r: RequestId) returns (steps: seq<Step>)
    requires Mirrors(view, s) && !Hit(s, t) && Judge(s.users, k.issued(t)) == Err(StaleToken)
    ensures SameOutside(s, Run(k, s, steps)) && Mirrors(view - {t}, Run(k, s, steps))
  {
    steps := [StartRead(r, t)];
    var s' := Next(k, s, StartRead(r, t));
    assert steps[1..] == [] && Run(k, s, steps) == s';
    assert s'.entries == s.entries - {t};
    forall u ensures Shows(view - {t}, u, s.now) <==> Hit(s', u) { assert Shows(view, u, s.now) <==> Hit(s, u); }
  }

  /** Every resolution over the in-process cache is a run of the machine, and what it answers is what the machine
      accepts: from the cache before it, or freshly judged from the row. */
  lemma ExecuteIsRun(k: Setting, s: System, c: P.Cache, t: TokenId, a: Answer, c': P.Cache, r: RequestId)
    returns (steps: seq<Step>)
    requires Mirrors(c.entries, s) && r !in s.flights
    requires Resolves(c, s.users, t, k.issued(t), s.now, k.ttl, a, c')
    ensures SameOutside(s, Run(k, s, steps)) && Mirrors(c'.entries, Run(k, s, steps))
    ensures a.Ok? ==> Accepts(k, s, t, a.principal) || Judge(s.users, k.issued(t)) == a
  {
    assert Shows(c.entries, t, s.now) <==> Hit(s, t);
    if Hit(s, t) || (a.Err? && !a.error.StaleToken?) { return []; }
    if a.Err? {
      steps := StaleIsRun(k, s, c.entries, t, r);
    } else {
      var evicted :| c' == P.Put(c, t, a.principal, s.now, k.ttl, evicted);
      steps := SuccessIsRun(k, s, c.entries, c'.entries, t, r, a.principal);
    }
  }

  /** The principal keys of the Redis server. */
  function ServerView(server: R.Server): View {
    map t | t in server.entries :: P.Cached(server.entries[t].principal, server.entries[t].expires)
  }

  /** One resolution whose cache is the Redis server. */
  ghost predicate ResolvesOnServer(server: R.Server, users: Users, t: TokenId, claims: Payload, ttl: nat, a: Answer,
                                   server': R.Server)
  {
    if R.Lookup(server, t).Some? then a == Ok(R.Lookup(server, t).value) && server' == server
    else
      && a == Judge(users, claims)
      && match a {
        case Ok(p) => server' == R.Next(server, R.Set(t, p), ttl)
        case Err(error) => server' == if error.StaleToken? then R.Next(server, R.Pop(t), ttl) else server
      }
  }

  /** The same over Redis. */
  lemma ExecuteOnServerIsRun(k: Setting, s: System, server: R.Server, t: TokenId, a: Answer, server': R.Server,
                             r: RequestId)
    returns (steps: seq<Step>)
    requires Mirrors(ServerView(server), s) && server.now == s.now && r !in s.flights
    requires ResolvesOnServer(server, s.users, t, k.issued(t), k.ttl, a, server')
    ensures SameOutside(s, Run(k, s, steps)) && Mirrors(ServerView(server'), Run(k, s, steps))
    ensures a.Ok? ==> Accepts(k, s, t, a.principal) || Judge(s.users, k.issued(t)) == a
    ensures a == Err(StaleToken) ==> t !in server'.entries
  {
    var view := ServerView(server);
    assert Shows(view, t, s.now) <==> Hit(s, t);
    if Hit(s, t) || (a.Err? && !a.error.StaleToken?) { return []; }
    if a.Err? {
      steps := StaleIsRun(k, s, view, t, r);
      assert ServerView(server') == view - {t};
    } else {
      steps := SuccessIsRun(k, s, view, ServerView(server'), t, r, a.principal);
    }
  }
}
