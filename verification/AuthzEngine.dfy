/**
  The relationship engine: permission checks that walk from an inherited
  resource to the leaf resource holding the stored tuples, the reverse lookup,
  and the writes that bump the version of every user they touch.
*/
module AuthzEngine {
  import opened Prelude
  import opened AuthzRegistry
  import OrderedSelect

  type UserId = nat
  type RowId = nat

  /** A subject column: the text of a user id as the engine writes it, another spelling of a user id, or neither. */
  datatype Subject = Canonical(user: UserId) | Alias(user: UserId) | Other(text: string)

  datatype Tuple = Tuple(on: Resource, relation: Relation, subjectType: string, subject: Subject)

  type Table = map<RowId, Tuple>

  const USER: string := "user"
  const LOOKUP_MAX_LIMIT := 1000

  function Tuples(rows: Table): set<Tuple> { set id | id in rows :: rows[id] }

  predicate HeldBy(t: Tuple, user: UserId) { t.subjectType == USER && t.subject == Canonical(user) }

  /** The existence query behind a check. */
  predicate Holds(tuples: set<Tuple>, user: UserId, r: Resource, relations: set<Relation>) {
    exists t :: t in tuples && t.on == r && t.relation in relations && HeldBy(t, user)
  }

  // ── The walk ───────────────────────────────────────────────────────────

  /** The resource reached after `n` parent lookups; a leaf is where the walk stays. */
  function Walk(reg: Registry, r: Resource, n: nat): Option<Resource> {
    if n == 0 then Some(r) else
      match Walk(reg, r, n - 1)
      case None => None
      case Some(x) => if x.kind in reg.leaves then Some(x) else ParentOf(reg, x)
  }

  ghost predicate Stops(reg: Registry, r: Resource, n: nat) {
    Walk(reg, r, n).None? || Walk(reg, r, n).value.kind in reg.leaves
  }

  lemma {:induction false} StoppedStays(reg: Registry, r: Resource, n: nat, m: nat)
    requires Stops(reg, r, n) && n <= m
    ensures Walk(reg, r, m) == Walk(reg, r, n)
  {
    if n < m { StoppedStays(reg, r, n, m - 1); }
  }

  lemma StopsOnce(reg: Registry, r: Resource, n: nat, m: nat)
    requires Stops(reg, r, n) && Stops(reg, r, m)
    ensures Walk(reg, r, m) == Walk(reg, r, n)
  {
    if n <= m { StoppedStays(reg, r, n, m); } else { StoppedStays(reg, r, m, n); }
  }

  /** The parent lookup of `x` answers with the type its registration declares. */
  ghost predicate CoherentAt(reg: Registry, x: Resource) {
    x.kind !in reg.leaves && x.kind in reg.parents && reg.parents[x.kind].parentOf(x.id).Some? ==>
      reg.parents[x.kind].parentOf(x.id).value.kind == reg.parents[x.kind].inheritsFrom
  }

  /** So does every lookup the walk from `r` makes in its first `n` hops. */
  ghost predicate CoherentAlong(reg: Registry, r: Resource, n: nat) {
    forall i: nat :: i < n && Walk(reg, r, i).Some? ==> CoherentAt(reg, Walk(reg, r, i).value)
  }

  lemma {:induction false} FollowsChain(reg: Registry, r: Resource, n: nat)
    requires CoherentAlong(reg, r, n) && Chain(reg, r.kind, n).Some?
    ensures Walk(reg, r, n).Some? ==> Walk(reg, r, n).value.kind == Chain(reg, r.kind, n).value
  {
    if n > 0 {
      FollowsChain(reg, r, n - 1);
      if Walk(reg, r, n - 1).Some? { assert CoherentAt(reg, Walk(reg, r, n - 1).value); }
    }
  }

  /** If the lookups of its first hops, as many as there are inherited types, are coherent, the walk ends within them,
      in the declared leaf type or at a resource without a parent. */
  lemma CoherentWalkStops(reg: Registry, r: Resource) returns (n: nat)
    requires CoherentAlong(reg, r, |reg.parents|) && Resolve(reg, r.kind, {}).Resolved?
    ensures n <= |reg.parents| && Stops(reg, r, n)
    ensures Walk(reg, r, n).Some? ==> Walk(reg, r, n).value.kind == Resolve(reg, r.kind, {}).leaf
  {
    n := ResolveExplained(reg, r.kind, 0, r.kind, {});
    FollowsChain(reg, r, n);
  }

  /** A walk that never ends meets an incoherent lookup within as many hops as there are inherited types. */
  lemma EndlessWalkIsIncoherent(reg: Registry, r: Resource) returns (i: nat)
    requires Resolve(reg, r.kind, {}).Resolved? && forall n: nat :: !Stops(reg, r, n)
    ensures i < |reg.parents| && Walk(reg, r, i).Some? && !CoherentAt(reg, Walk(reg, r, i).value)
  {
    if CoherentAlong(reg, r, |reg.parents|) {
      var n := CoherentWalkStops(reg, r);
    }
    i :| i < |reg.parents| && Walk(reg, r, i).Some? && !CoherentAt(reg, Walk(reg, r, i).value);
  }

  lemma {:induction false} LoopForEver(reg: Registry, r: Resource, n: nat)
    requires r.kind !in reg.leaves && ParentOf(reg, r) == Some(r)
    ensures Walk(reg, r, n) == Some(r)
  {
    if n > 0 { LoopForEver(reg, r, n - 1); }
  }

  /** Without coherence the walk need not end, although the action is known. */
  lemma IncoherentWalkDiverges()
    ensures exists reg: Registry, r: Resource, action: Action ::
              Satisfying(reg, r.kind, action).Some? && forall n: nat :: !Stops(reg, r, n)
  {
    var leaf := LeafEntry(map["read" := {"reader"}], map["reader" := {"reader"}]);
    var r := Resource("card", 0);
    var reg := Registry(map["board" := leaf], map["card" := ParentEntry(_ => Some(r), "board")]);
    assert Resolve(reg, "board", {"card"}) == Resolved("board");
    assert Resolve(reg, "card", {}) == Resolve(reg, "board", {"card"});
    assert Satisfying(reg, r.kind, "read").Some?;
    forall n: nat ensures !Stops(reg, r, n) {
      LoopForEver(reg, r, n);
    }
  }

  // ── Meaning of a check ─────────────────────────────────────────────────

  datatype Verdict = Allowed | Denied | UnknownAction

  /** The verdict when the walk has stopped after `n` lookups. */
  ghost function Decision(reg: Registry, tuples: set<Tuple>, user: UserId, action: Action, r: Resource, n: nat): Verdict
  {
    var required := Satisfying(reg, r.kind, action);
    if required.None? then UnknownAction else
      match Walk(reg, r, n)
      case None => Denied
      case Some(leaf) =>
        var expanded := Expand(reg, leaf.kind, required.value);
        if expanded.None? then UnknownAction
        else if Holds(tuples, user, leaf, expanded.value) then Allowed else Denied
  }

  /** A leaf resource grants the action: the user holds a relation above one the action asks for. */
  ghost predicate LeafGrants(reg: Registry, tuples: set<Tuple>, user: UserId, action: Action, r: Resource)
    requires r.kind in reg.leaves
  {
    var entry := reg.leaves[r.kind];
    action in entry.actions
    && exists asked, held :: asked in entry.actions[action] && asked in entry.hierarchy
                             && held in entry.hierarchy[asked]
                             && Tuple(r, held, USER, Canonical(user)) in tuples
  }

  /** The permission relation: a leaf grants from its tuples, any other resource grants what the parent that its type's
      registered lookup gives it grants. */
  least predicate Permitted(reg: Registry, tuples: set<Tuple>, user: UserId, action: Action, r: Resource) {
    if r.kind in reg.leaves then LeafGrants(reg, tuples, user, action, r)
    else
      && r.kind in reg.parents && reg.parents[r.kind].parentOf(r.id).Some?
      && Permitted(reg, tuples, user, action, reg.parents[r.kind].parentOf(r.id).value)
  }

  lemma {:induction false} WalkFromParent(reg: Registry, r: Resource, n: nat)
    requires r.kind !in reg.leaves && ParentOf(reg, r).Some?
    ensures Walk(reg, r, n + 1) == Walk(reg, ParentOf(reg, r).value, n)
  {
    if n > 0 { WalkFromParent(reg, r, n - 1); }
  }

  lemma {:induction false} NoParentNoWalk(reg: Registry, r: Resource, n: nat)
    requires r.kind !in reg.leaves && ParentOf(reg, r).None? && n > 0
    ensures Walk(reg, r, n).None?
  {
    if n > 1 { NoParentNoWalk(reg, r, n - 1); }
  }

  lemma {:induction false} PermittedAtLanding(reg: Registry, tuples: set<Tuple>, user: UserId, action: Action,
                                              r: Resource, n: nat)
    requires Stops(reg, r, n)
    ensures Permitted(reg, tuples, user, action, r) <==>
            Walk(reg, r, n).Some? && LeafGrants(reg, tuples, user, action, Walk(reg, r, n).value)
    decreases n
  {
    if r.kind in reg.leaves {
      StoppedStays(reg, r, 0, n);
    } else if ParentOf(reg, r).None? {
      NoParentNoWalk(reg, r, n);
    } else {
      WalkFromParent(reg, r, n - 1);
      PermittedAtLanding(reg, tuples, user, action, ParentOf(reg, r).value, n - 1);
    }
  }

  /** The relations whose holders a leaf type grants the action. */
  function Granting(reg: Registry, kind: TypeName, action: Action): set<Relation>
    requires kind in reg.leaves
  {
    var entry := reg.leaves[kind];
    if action in entry.actions then Superiors(entry.hierarchy, entry.actions[action]) else {}
  }

  lemma HoldsIsGrant(reg: Registry, tuples: set<Tuple>, user: UserId, action: Action, r: Resource)
    requires r.kind in reg.leaves
    ensures Holds(tuples, user, r, Granting(reg, r.kind, action)) <==> LeafGrants(reg, tuples, user, action, r)
  {
    var entry, all := reg.leaves[r.kind], Granting(reg, r.kind, action);
    if t :| t in tuples && t.on == r && t.relation in all && HeldBy(t, user) {
      assert t == Tuple(r, t.relation, USER, Canonical(user));
    }
    if LeafGrants(reg, tuples, user, action, r) {
      var asked, held :| asked in entry.actions[action] && asked in entry.hierarchy
                         && held in entry.hierarchy[asked] && Tuple(r, held, USER, Canonical(user)) in tuples;
      assert held in all;
      assert HeldBy(Tuple(r, held, USER, Canonical(user)), user);
    }
  }

  /** The relations a check that landed on `leaf` asks the table for. */
  function Asked(reg: Registry, r: Resource, action: Action, leaf: Resource): set<Relation>
    requires Satisfying(reg, r.kind, action).Some? && leaf.kind in reg.leaves
  {
    Superiors(reg.leaves[leaf.kind].hierarchy, Satisfying(reg, r.kind, action).value)
  }

  /** A check errs exactly when the action asks for a relation missing from the hierarchy it landed in; otherwise it
      answers the permission relation, provided it asks for what that leaf type grants. */
  lemma CheckMeansPermitted(reg: Registry, tuples: set<Tuple>, user: UserId, action: Action, r: Resource, n: nat)
    requires Stops(reg, r, n) && Satisfying(reg, r.kind, action).Some?
    ensures Decision(reg, tuples, user, action, r, n) == UnknownAction <==>
            Walk(reg, r, n).Some?
            && !(Satisfying(reg, r.kind, action).value <= reg.leaves[Walk(reg, r, n).value.kind].hierarchy.Keys)
    ensures (Walk(reg, r, n).Some? ==>
               Asked(reg, r, action, Walk(reg, r, n).value) == Granting(reg, Walk(reg, r, n).value.kind, action))
            && Decision(reg, tuples, user, action, r, n) != UnknownAction ==>
              (Decision(reg, tuples, user, action, r, n) == Allowed <==> Permitted(reg, tuples, user, action, r))
  {
    PermittedAtLanding(reg, tuples, user, action, r, n);
    if Walk(reg, r, n).Some? { HoldsIsGrant(reg, tuples, user, action, Walk(reg, r, n).value); }
  }

  /** Check and permission relation agree on `r` for these tuples and this user. */
  ghost predicate AgreesOn(reg: Registry, tuples: set<Tuple>, user: UserId, action: Action, r: Resource, n: nat) {
    Decision(reg, tuples, user, action, r, n) == Allowed <==> Permitted(reg, tuples, user, action, r)
  }

  /** That proviso is exact: a check that lands on a leaf without an error answers the permission relation for all
      tuples and users if and only if it asks for what that leaf type grants. */
  lemma CheckAgreesIff(reg: Registry, action: Action, r: Resource, n: nat, leaf: Resource)
    requires Stops(reg, r, n) && Satisfying(reg, r.kind, action).Some? && Walk(reg, r, n) == Some(leaf)
    requires Satisfying(reg, r.kind, action).value <= reg.leaves[leaf.kind].hierarchy.Keys
    ensures (forall tuples, user :: AgreesOn(reg, tuples, user, action, r, n))
            <==> Asked(reg, r, action, leaf) == Granting(reg, leaf.kind, action)
  {
    var asked, granting := Asked(reg, r, action, leaf), Granting(reg, leaf.kind, action);
    if asked == granting {
      forall tuples, user ensures AgreesOn(reg, tuples, user, action, r, n) {
        CheckMeansPermitted(reg, tuples, user, action, r, n);
      }
    } else {
      var rel :| rel in (asked - granting) + (granting - asked);
      OneTupleTells(reg, action, r, n, leaf, rel);
    }
  }

  lemma OneTupleTells(reg: Registry, action: Action, r: Resource, n: nat, leaf: Resource, rel: Relation)
    requires Stops(reg, r, n) && Satisfying(reg, r.kind, action).Some? && Walk(reg, r, n) == Some(leaf)
    requires Satisfying(reg, r.kind, action).value <= reg.leaves[leaf.kind].hierarchy.Keys
    requires rel in Asked(reg, r, action, leaf) <==> rel !in Granting(reg, leaf.kind, action)
    ensures !AgreesOn(reg, {Tuple(leaf, rel, USER, Canonical(0))}, 0, action, r, n)
  {
    var t := Tuple(leaf, rel, USER, Canonical(0));
    PermittedAtLanding(reg, {t}, 0, action, r, n);
    HoldsIsGrant(reg, {t}, 0, action, leaf);
    assert t in {t} && HeldBy(t, 0);
    assert Expand(reg, leaf.kind, Satisfying(reg, r.kind, action).value) == Some(Asked(reg, r, action, leaf));
  }

  /** On a coherent registry whose hierarchy covers the action: the walk ends within the number of inherited types, the
      check does not err, and it allows exactly what is permitted. */
  lemma CoherentCheckIsPermitted(reg: Registry, tuples: set<Tuple>, user: UserId, action: Action, r: Resource)
    returns (n: nat)
    requires CoherentAlong(reg, r, |reg.parents|) && Satisfying(reg, r.kind, action).Some?
    requires Satisfying(reg, r.kind, action).value <= reg.leaves[Resolve(reg, r.kind, {}).leaf].hierarchy.Keys
    ensures n <= |reg.parents| && Stops(reg, r, n)
    ensures Decision(reg, tuples, user, action, r, n) != UnknownAction
    ensures Decision(reg, tuples, user, action, r, n) == Allowed <==> Permitted(reg, tuples, user, action, r)
  {
    n := CoherentWalkStops(reg, r);
    CheckMeansPermitted(reg, tuples, user, action, r, n);
  }

  // ── Version bumps ──────────────────────────────────────────────────────

  /** The user a tuple's subject parses to. */
  function AffectedUser(t: Tuple): Option<UserId> {
    if t.subjectType != USER || t.subject.Other? then None else Some(t.subject.user)
  }

  function AffectedUsers(tuples: seq<Tuple>): set<UserId> {
    set t | t in tuples && AffectedUser(t).Some? :: AffectedUser(t).value
  }

  /** The batch names user `u`: a subject of type "user" whose id, however spelled, is that of `u`. */
  ghost predicate Names(tuples: seq<Tuple>, u: UserId) {
    exists i :: 0 <= i < |tuples| && tuples[i].subjectType == "user"
                && (tuples[i].subject == Canonical(u) || tuples[i].subject == Alias(u))
  }

  lemma AffectedAreNamed(tuples: seq<Tuple>, u: UserId)
    ensures u in AffectedUsers(tuples) <==> Names(tuples, u)
  {
    if u in AffectedUsers(tuples) {
      var t :| t in tuples && AffectedUser(t) == Some(u);
      var i :| 0 <= i < |tuples| && tuples[i] == t;
    }
    if i :| 0 <= i < |tuples| && tuples[i].subjectType == "user"
            && (tuples[i].subject == Canonical(u) || tuples[i].subject == Alias(u)) {
      assert tuples[i] in tuples && AffectedUser(tuples[i]) == Some(u);
    }
  }

  method UserSubjectIds(tuples: seq<Tuple>) returns (users: set<UserId>)
    ensures users == AffectedUsers(tuples)
    ensures forall u :: u in users <==> Names(tuples, u)
  {
    users := {};
    for i := 0 to |tuples|
      invariant users == AffectedUsers(tuples[..i])
    {
      assert tuples[..i + 1] == tuples[..i] + [tuples[i]];
      if AffectedUser(tuples[i]).Some? {
        users := users + {tuples[i].subject.user};
      }
    }
    assert tuples[..|tuples|] == tuples;
    forall u ensures u in users <==> Names(tuples, u) { AffectedAreNamed(tuples, u); }
  }

  /** Every existing user among `users` moves up by one version, the rest stay. */
  function Bumped(versions: map<UserId, nat>, users: set<UserId>): map<UserId, nat> {
    map u | u in versions :: versions[u] + if u in users then 1 else 0
  }

  /** `after` is `before` with the version of every user the batch names raised by one. */
  ghost predicate RaisedByOne(before: map<UserId, nat>, tuples: seq<Tuple>, after: map<UserId, nat>) {
    && after.Keys == before.Keys
    && forall u :: u in before ==> after[u] == if Names(tuples, u) then before[u] + 1 else before[u]
  }

  lemma BumpedIsRaised(before: map<UserId, nat>, tuples: seq<Tuple>)
    ensures RaisedByOne(before, tuples, Bumped(before, AffectedUsers(tuples)))
  {
    forall u | u in before ensures u in AffectedUsers(tuples) <==> Names(tuples, u) { AffectedAreNamed(tuples, u); }
  }

  lemma BumpedOne(versions: map<UserId, nat>, done: set<UserId>, u: UserId)
    requires u !in done
    ensures var now := Bumped(versions, done);
            Bumped(versions, done + {u}) == if u in now then now[u := now[u] + 1] else now
  {
  }

  function RowRank(rows: Table): RowId -> OrderedSelect.Rank {
    (id: RowId) => if id in rows then (rows[id].on.id, id) else (0, id)
  }

  /** Rows the lookup query filters on. */
  function Matching(rows: Table, kind: TypeName, relations: set<Relation>, user: UserId): set<RowId> {
    set id | id in rows && rows[id].on.kind == kind && rows[id].relation in relations && HeldBy(rows[id], user)
  }

  /** ORDER BY resource_id LIMIT :cap over the filtered rows. */
  function Chosen(rows: Table, matching: set<RowId>, cap: nat): (chosen: seq<RowId>)
    ensures OrderedSelect.Ascending(RowRank(rows), chosen)
    ensures forall row :: row in chosen ==> row in matching
  {
    var chosen := OrderedSelect.Select(RowRank(rows), matching, cap);
    assert forall row :: row in chosen ==> row in Elements(chosen);
    chosen
  }

  function Clamp(limit: int): (c: nat)
    ensures limit < 1 ==> c == 1
    ensures 1 <= limit <= 1000 ==> c == limit
    ensures limit > 1000 ==> c == 1000
  {
    if limit < 1 then 1 else Min(limit, LOOKUP_MAX_LIMIT)
  }

  predicate Increasing(ids: seq<ResourceId>) {
    forall i, j :: 0 <= i < j < |ids| ==> ids[i] < ids[j]
  }

  /** The relations a lookup matches against, or None for the unknown-action error. */
  function MatchingRelations(reg: Registry, kind: TypeName, action: Action): Option<set<Relation>> {
    var leaf := Resolve(reg, kind, {});
    var required := Satisfying(reg, kind, action);
    if required.None? || !leaf.Resolved? then None else Expand(reg, leaf.leaf, required.value)
  }

  /** A lookup fails exactly when the chain reaches no leaf that knows the action and covers its relations. */
  lemma MatchingMeaning(reg: Registry, kind: TypeName, action: Action)
    ensures MatchingRelations(reg, kind, action).Some? <==>
            exists n: nat :: ReachesLeaf(reg, kind, n)
                             && action in reg.leaves[Chain(reg, kind, n).value].actions
                             && reg.leaves[Chain(reg, kind, n).value].actions[action]
                                <= reg.leaves[Chain(reg, kind, n).value].hierarchy.Keys
  {
    NearestLeafCorrect(reg, kind);
    forall n: nat | ReachesLeaf(reg, kind, n) ensures Resolve(reg, kind, {}) == Resolved(Chain(reg, kind, n).value) {
      ReachedIsResolved(reg, kind, n);
    }
  }

  /** A check on resource `id` of the leaf type that `kind` resolves to. */
  ghost predicate CheckAllows(reg: Registry, rows: Table, user: UserId, action: Action, kind: TypeName, id: ResourceId)
  {
    var leaf := Resolve(reg, kind, {});
    leaf.Resolved? && Decision(reg, Tuples(rows), user, action, Resource(leaf.leaf, id), 0) == Allowed
  }

  /** `ids` is an ascending initial segment of the ids a check allows: complete when the matching rows fit under
      the cap, never empty when there is one to list. */
  ghost predicate Listing(reg: Registry, rows: Table, user: UserId, action: Action, kind: TypeName, cap: nat,
                          ids: seq<ResourceId>)
  {
    && MatchingRelations(reg, kind, action).Some?
    && Increasing(ids) && |ids| <= cap
    && (forall x :: x in ids ==> CheckAllows(reg, rows, user, action, kind, x))
    && (forall x: ResourceId, y: ResourceId ::
          x in ids && CheckAllows(reg, rows, user, action, kind, y) && y !in ids ==> x < y)
    && (ids == [] ==> forall y :: !CheckAllows(reg, rows, user, action, kind, y))
    && (|Matching(rows, Resolve(reg, kind, {}).leaf, MatchingRelations(reg, kind, action).value, user)| <= cap
        ==> forall y :: CheckAllows(reg, rows, user, action, kind, y) ==> y in ids)
  }

  lemma MatchedIsAllowed(reg: Registry, rows: Table, user: UserId, action: Action, kind: TypeName, id: ResourceId)
    requires MatchingRelations(reg, kind, action).Some?
    ensures CheckAllows(reg, rows, user, action, kind, id) <==>
            exists row :: row in Matching(rows, Resolve(reg, kind, {}).leaf,
                                          MatchingRelations(reg, kind, action).value, user)
                          && rows[row].on.id == id
  {
    var leaf := Resolve(reg, kind, {}).leaf;
    var expanded := MatchingRelations(reg, kind, action).value;
    assert Resolve(reg, leaf, {}) == Resolved(leaf);
    assert Walk(reg, Resource(leaf, id), 0) == Some(Resource(leaf, id));
    if t :| t in Tuples(rows) && t.on == Resource(leaf, id) && t.relation in expanded && HeldBy(t, user) {
      var row :| row in rows && rows[row] == t;
      assert row in Matching(rows, leaf, expanded, user);
    }
    if row :| row in Matching(rows, leaf, expanded, user) && rows[row].on.id == id {
      assert rows[row] in Tuples(rows) && rows[row].on == Resource(leaf, id);
    }
  }

  /** `x` is the resource of one of the chosen rows. */
  ghost predicate Shown(rows: Table, chosen: seq<RowId>, x: ResourceId) {
    exists row :: row in chosen && row in rows && rows[row].on.id == x
  }

  /** The order-preserving removal of repeated ids. */
  method DistinctIds(rows: Table, chosen: seq<RowId>) returns (out: seq<ResourceId>)
    requires forall row :: row in chosen ==> row in rows
    requires OrderedSelect.Ascending(RowRank(rows), chosen)
    ensures Increasing(out) && |out| <= |chosen|
    ensures forall x :: x in out <==> Shown(rows, chosen, x)
  {
    var seen: set<ResourceId> := {};
    out := [];
    for i := 0 to |chosen|
      invariant Increasing(out) && |out| <= i && seen == Elements(out)
      invariant forall x :: x in out <==> Shown(rows, chosen[..i], x)
    {
      var id := rows[chosen[i]].on.id;
      assert chosen[..i + 1] == chosen[..i] + [chosen[i]];
      if id !in seen {
        forall j | 0 <= j < |out| ensures out[j] < id {
          assert out[j] in seen && Shown(rows, chosen[..i], out[j]);
          var row :| row in chosen[..i] && row in rows && rows[row].on.id == out[j];
          var k :| 0 <= k < i && chosen[k] == row;
          assert OrderedSelect.Less(RowRank(rows)(chosen[k]), RowRank(rows)(chosen[i]));
        }
        seen := seen + {id};
        out := out + [id];
      }
    }
    assert chosen[..|chosen|] == chosen;
  }

  lemma FullSelection(all: set<RowId>, chosen: seq<RowId>)
    requires Elements(chosen) <= all && |Elements(chosen)| == |all|
    ensures forall row :: row in all ==> row in chosen
  {
    assert all == Elements(chosen) + (all - Elements(chosen));
    forall row | row in all ensures row in chosen {
      assert row in Elements(chosen);
    }
  }

  /** The first rows by resource id, with repetitions removed, list what checks allow. */
  lemma LookupIsListing(reg: Registry, rows: Table, user: UserId, action: Action, kind: TypeName, cap: nat,
                        chosen: seq<RowId>, out: seq<ResourceId>)
    requires MatchingRelations(reg, kind, action).Some? && cap >= 1
    requires chosen == Chosen(rows, Matching(rows, Resolve(reg, kind, {}).leaf,
                                             MatchingRelations(reg, kind, action).value, user), cap)
    requires Increasing(out) && |out| <= |chosen|
    requires forall x :: x in out <==> Shown(rows, chosen, x)
    ensures Listing(reg, rows, user, action, kind, cap, out)
  {
    var all := Matching(rows, Resolve(reg, kind, {}).leaf, MatchingRelations(reg, kind, action).value, user);
    forall x | x in out ensures CheckAllows(reg, rows, user, action, kind, x) {
      MatchedIsAllowed(reg, rows, user, action, kind, x);
    }
    forall y | CheckAllows(reg, rows, user, action, kind, y)
      ensures out != []
      ensures y in out || forall x :: x in out ==> x < y
      ensures |all| <= cap ==> y in out
    {
      MatchedIsAllowed(reg, rows, user, action, kind, y);
      var row :| row in all && rows[row].on.id == y;
      AllowedIsListed(rows, all, cap, chosen, out, row);
    }
  }

  lemma AllowedIsListed(rows: Table, all: set<RowId>, cap: nat, chosen: seq<RowId>, out: seq<ResourceId>, row: RowId)
    requires forall r :: r in all ==> r in rows
    requires chosen == Chosen(rows, all, cap) && cap >= 1
    requires forall x :: x in out <==> Shown(rows, chosen, x)
    requires row in all
    ensures out != []
    ensures rows[row].on.id in out || forall x :: x in out ==> x < rows[row].on.id
    ensures |all| <= cap ==> rows[row].on.id in out
  {
    assert all != {};
    assert chosen[0] in chosen && Shown(rows, chosen, rows[chosen[0]].on.id);
    if |all| <= cap {
      OrderedSelect.AscendingDistinct(RowRank(rows), chosen);
      FullSelection(all, chosen);
    }
    if row !in chosen {
      forall x | x in out && rows[row].on.id !in out ensures x < rows[row].on.id {
        var other :| other in chosen && other in rows && rows[other].on.id == x;
        assert OrderedSelect.Less(RowRank(rows)(other), RowRank(rows)(row));
      }
    }
  }

  lemma Inserted(rows: Table, id: RowId, t: Tuple)
    requires id !in rows
    ensures Tuples(rows[id := t]) == Tuples(rows) + {t}
  {
    var more := rows[id := t];
    forall u | u in Tuples(rows) + {t} ensures u in Tuples(more) {
      if u != t {
        var k :| k in rows && rows[k] == u;
        assert more[k] == u;
      } else {
        assert more[id] == u;
      }
    }
  }

  class AuthorizationEngine {
    const registry: AuthorizationRegistry
    var rows: Table
    var nextRow: RowId
    var versions: map<UserId, nat>

    /** Row ids are issued once, and no tuple is stored twice. */
    ghost predicate Valid()
      reads this
    {
      && (forall id :: id in rows ==> id < nextRow)
      && (forall a, b :: a in rows && b in rows && rows[a] == rows[b] ==> a == b)
    }

    constructor (registry: AuthorizationRegistry)
      ensures Valid() && rows == map[] && versions == map[] && this.registry == registry
    {
      this.registry, rows, nextRow, versions := registry, map[], 0, map[];
    }

    /** The walk, then the expansion, then the existence query. It is defined when the walk ends. */
    method Check(user: UserId, action: Action, r: Resource) returns (v: Verdict)
      requires Satisfying(registry.Snapshot(), r.kind, action).Some? ==>
                 exists n: nat :: Stops(registry.Snapshot(), r, n)
      ensures Satisfying(registry.Snapshot(), r.kind, action).None? ==> v == UnknownAction
      ensures forall n: nat :: Stops(registry.Snapshot(), r, n)
                               ==> v == Decision(registry.Snapshot(), Tuples(rows), user, action, r, n)
    {
      ghost var reg := registry.Snapshot();
      var required := registry.RelationsFor(r.kind, action);
      if required.None? { return UnknownAction; }
      ghost var n: nat :| Stops(reg, r, n);
      ghost var hops := 0;
      var walked := r;
      while walked.kind !in registry.leaves
        invariant hops <= n && Walk(reg, r, hops) == Some(walked)
        decreases n - hops
      {
        var parent := registry.ParentLookup(walked);
        if parent.None? {
          forall m: nat | Stops(reg, r, m) ensures Walk(reg, r, m).None? {
            StopsOnce(reg, r, hops + 1, m);
          }
          return Denied;
        }
        walked := parent.value;
        hops := hops + 1;
      }
      forall m: nat | Stops(reg, r, m) ensures Walk(reg, r, m) == Some(walked) {
        StopsOnce(reg, r, hops, m);
      }
      var expanded := registry.ExpandRelations(walked.kind, required.value);
      if expanded.None? { return UnknownAction; }
      return if exists id :: id in rows && rows[id].on == walked && rows[id].relation in expanded.value
                             && HeldBy(rows[id], user) then Allowed else Denied;
    }

    /** The ids the user may act on, in order: an initial segment of all of them, and all of them when the
        matching tuples fit under the limit. */
    method LookupResources(user: UserId, action: Action, kind: TypeName, limit: int)
      returns (r: Option<seq<ResourceId>>)
      ensures r.None? <==> MatchingRelations(registry.Snapshot(), kind, action).None?
      ensures r.Some? ==> Listing(registry.Snapshot(), rows, user, action, kind, Clamp(limit), r.value)
    {
      var required := registry.RelationsFor(kind, action);
      if required.None? { return None; }
      var leaf := registry.NearestLeafType(kind);
      if !leaf.Resolved? { return None; }
      var expanded := registry.ExpandRelations(leaf.leaf, required.value);
      if expanded.None? { return None; }
      var chosen := Chosen(rows, Matching(rows, leaf.leaf, expanded.value, user), Clamp(limit));
      var out := DistinctIds(rows, chosen);
      LookupIsListing(registry.Snapshot(), rows, user, action, kind, Clamp(limit), chosen, out);
      return Some(out);
    }

    /** The existence check before each insert keeps the table free of duplicates; every user the batch names
        is bumped exactly once. */
    method WriteRelationships(tuples: seq<Tuple>)
      requires Valid()
      modifies `rows, `nextRow, `versions
      ensures Valid()
      ensures Tuples(rows) == old(Tuples(rows)) + Elements(tuples)
      ensures forall id :: id in old(rows) ==> id in rows && rows[id] == old(rows)[id]
      ensures versions == Bumped(old(versions), AffectedUsers(tuples))
      ensures RaisedByOne(old(versions), tuples, versions)
    {
      for i := 0 to |tuples|
        invariant Valid() && versions == old(versions)
        invariant Tuples(rows) == old(Tuples(rows)) + Elements(tuples[..i])
        invariant forall id :: id in old(rows) ==> id in rows && rows[id] == old(rows)[id]
      {
        assert tuples[..i + 1] == tuples[..i] + [tuples[i]];
        if !(exists id :: id in rows && rows[id] == tuples[i]) {
          Inserted(rows, nextRow, tuples[i]);
          rows := rows[nextRow := tuples[i]];
          nextRow := nextRow + 1;
        }
      }
      assert tuples[..|tuples|] == tuples;
      BumpAffectedUsers(tuples);
    }

    method DeleteRelationships(tuples: seq<Tuple>)
      requires Valid()
      modifies `rows, `versions
      ensures Valid()
      ensures rows == map id | id in old(rows) && old(rows)[id] !in tuples :: old(rows)[id]
      ensures Tuples(rows) == old(Tuples(rows)) - Elements(tuples)
      ensures versions == Bumped(old(versions), AffectedUsers(tuples))
      ensures RaisedByOne(old(versions), tuples, versions)
    {
      for i := 0 to |tuples|
        invariant Valid() && versions == old(versions)
        invariant rows == map id | id in old(rows) && old(rows)[id] !in tuples[..i] :: old(rows)[id]
      {
        assert tuples[..i + 1] == tuples[..i] + [tuples[i]];
        rows := map id | id in rows && rows[id] != tuples[i] :: rows[id];
      }
      assert tuples[..|tuples|] == tuples;
      BumpAffectedUsers(tuples);
    }

    method BumpAffectedUsers(tuples: seq<Tuple>)
      modifies `versions
      ensures versions == Bumped(old(versions), AffectedUsers(tuples))
      ensures RaisedByOne(old(versions), tuples, versions)
    {
      var users := UserSubjectIds(tuples);
      BumpEach(users);
      BumpedIsRaised(old(versions), tuples);
    }

    method BumpEach(users: set<UserId>)
      modifies `versions
      ensures versions == Bumped(old(versions), users)
    {
      var todo := users;
      while todo != {}
        invariant todo <= users && versions == Bumped(old(versions), users - todo)
        decreases |todo|
      {
        var u :| u in todo;
        assert users - (todo - {u}) == users - todo + {u};
        BumpedOne(old(versions), users - todo, u);
        if u in versions { versions := versions[u := versions[u] + 1]; }
        todo := todo - {u};
      }
      assert users - {} == users;
    }
  }
}
