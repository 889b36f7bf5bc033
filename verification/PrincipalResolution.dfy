/**
  Resolving an access token to a principal: the cache first, then the user row.
*/
module PrincipalResolution {
  import opened Prelude
  import P = PrincipalCache

  type UserId = P.UserId
  type TokenId = P.TokenId

  datatype User = User(active: bool, verified: bool, erased: bool, version: nat)

  type Users = map<UserId, User>

  /** The decoded claims of an access token. */
  datatype Payload = Payload(subject: UserId, version: nat)

  datatype AuthError = InvalidToken | InactiveUser | StaleToken

  datatype Answer = Ok(principal: P.Principal) | Err(error: AuthError)

  /** Erased users are invisible to readers. */
  function GetById(users: Users, u: UserId): Option<User> {
    if u in users && !users[u].erased then Some(users[u]) else None
  }

  /** The answer read off the user row. */
  function Judge(users: Users, claims: Payload): Answer {
    match GetById(users, claims.subject)
    case None => Err(InvalidToken)
    case Some(user) =>
      if !user.active then Err(InactiveUser)
      else if user.version != claims.version then Err(StaleToken)
      else Ok(P.Principal(claims.subject, user.active, user.verified, user.version))
  }

  /** A token is accepted exactly when its user exists, is not erased, is active and has the version of the claims; the
      principal is then the row as it stands. The refusals are told apart by what fails first. */
  lemma JudgeMeaning(users: Users, claims: Payload)
    ensures var a := Judge(users, claims); var u := claims.subject;
            && (a.Ok? <==> u in users && !users[u].erased && users[u].active && users[u].version == claims.version)
            && (a.Ok? ==> a.principal == P.Principal(u, true, users[u].verified, users[u].version))
            && (a == Err(InvalidToken) <==> u !in users || users[u].erased)
            && (a == Err(InactiveUser) <==> u in users && !users[u].erased && !users[u].active)
            && (a == Err(StaleToken) <==> u in users && !users[u].erased && users[u].active
                                          && users[u].version != claims.version)
  {
  }

  /** One resolution over the cache `c`, leaving `c'`: a hit answers from the cache and compares nothing with the row; a
      miss answers from the row, and success is cached while staleness drops the token's entry. */
  ghost predicate Resolves(c: P.Cache, users: Users, token: TokenId, claims: Payload, now: Instant, ttl: Instant,
                           a: Answer, c': P.Cache)
  {
    if P.Lookup(c, token, now).Some? then a == Ok(P.Lookup(c, token, now).value) && c' == c
    else
      && a == Judge(users, claims)
      && match a {
        case Ok(p) => exists evicted :: c' == P.Put(c, token, p, now, ttl, evicted)
        case Err(error) => c' == if error.StaleToken? then P.Popped(c, token) else c
      }
  }

  class ResolvePrincipalFromAccessToken {
    const cache: P.InProcessPrincipalCache

    constructor (cache: P.InProcessPrincipalCache)
      ensures this.cache == cache
    {
      this.cache := cache;
    }

    method Execute(users: Users, token: TokenId, claims: Payload, now: Instant) returns (a: Answer)
      requires P.Covered(cache.Snapshot())
      modifies cache
      ensures P.Covered(cache.Snapshot())
      ensures Resolves(old(cache.Snapshot()), users, token, claims, now, cache.ttl, a, cache.Snapshot())
      ensures a.Ok? && cache.ttl > 0 ==> P.Lookup(cache.Snapshot(), token, now) == Some(a.principal)
      ensures a == Err(StaleToken) ==> token !in cache.entries
    {
      var cached := cache.Get(token, now);
      if cached.Some? { return Ok(cached.value); }
      var user := GetById(users, claims.subject);
      if user.None? { return Err(InvalidToken); }
      if !user.value.active { return Err(InactiveUser); }
      var principal := P.Principal(claims.subject, user.value.active, user.value.verified, user.value.version);
      if principal.version != claims.version {
        cache.Pop(token);
        return Err(StaleToken);
      }
      var evicted := cache.Set(token, principal, now);
      return Ok(principal);
    }
  }
}
