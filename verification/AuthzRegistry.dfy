/**
  The registry of resource types. A leaf type owns stored relationship tuples;
  an inherited type names the type it inherits from and maps each of its
  resources to a parent resource.
*/
module AuthzRegistry {
  import opened Prelude

  type TypeName = string
  type Action = string
  type Relation = string
  type ResourceId = nat

  datatype Resource = Resource(kind: TypeName, id: ResourceId)

  datatype LeafEntry = LeafEntry(actions: map<Action, set<Relation>>, hierarchy: map<Relation, set<Relation>>)

  datatype ParentEntry = ParentEntry(parentOf: ResourceId -> Option<Resource>, inheritsFrom: TypeName)

  datatype Registry = Registry(leaves: map<TypeName, LeafEntry>, parents: map<TypeName, ParentEntry>)

  /** Outcome of resolving a type to its leaf. */
  datatype Resolution = Resolved(leaf: TypeName) | CycleDetected | UnknownType

  // ── The declared chain ─────────────────────────────────────────────────

  /** One `inherits_from` declaration; nothing follows a leaf or an unregistered type. */
  function Hop(reg: Registry, t: TypeName): Option<TypeName> {
    if t in reg.leaves || t !in reg.parents then None else Some(reg.parents[t].inheritsFrom)
  }

  function Chain(reg: Registry, t: TypeName, n: nat): Option<TypeName> {
    if n == 0 then Some(t) else
      match Chain(reg, t, n - 1)
      case None => None
      case Some(u) => Hop(reg, u)
  }

  /** Follow the chain until a leaf, an unregistered type or a type already seen. */
  function Resolve(reg: Registry, t: TypeName, seen: set<TypeName>): Resolution
    requires seen <= reg.parents.Keys
    decreases |reg.parents.Keys - seen|
  {
    if t in reg.leaves then Resolved(t)
    else if t in seen then CycleDetected
    else if t !in reg.parents then UnknownType
    else
      assert reg.parents.Keys - (seen + {t}) == (reg.parents.Keys - seen) - {t};
      Resolve(reg, reg.parents[t].inheritsFrom, seen + {t})
  }

  /** `seen` is what the chain from `start` has passed before its n-th type `t`. */
  ghost predicate Passed(reg: Registry, start: TypeName, n: nat, t: TypeName, seen: set<TypeName>) {
    && Chain(reg, start, n) == Some(t)
    && seen <= reg.parents.Keys && seen !! reg.leaves.Keys && |seen| == n
    && (n == 0 ==> start == t) && (n > 0 ==> start in seen)
    && forall u :: u in seen ==> Hop(reg, u).Some? && (Hop(reg, u).value in seen || Hop(reg, u).value == t)
  }

  /** The chain ends after `n` hops in a leaf or an unregistered type, never after more hops than there
      are inherited types; or it goes round for ever. */
  ghost predicate Explains(reg: Registry, start: TypeName, r: Resolution, n: nat) {
    match r
    case Resolved(leaf) => Chain(reg, start, n) == Some(leaf) && leaf in reg.leaves && n <= |reg.parents|
    case UnknownType =>
      Chain(reg, start, n).Some? && Chain(reg, start, n).value !in reg.leaves
      && Chain(reg, start, n).value !in reg.parents && n <= |reg.parents|
    case CycleDetected =>
      forall m: nat :: Chain(reg, start, m).Some? && Chain(reg, start, m).value in reg.parents
                       && Chain(reg, start, m).value !in reg.leaves
  }

  lemma {:induction false} StaysInside(reg: Registry, start: TypeName, inside: set<TypeName>, m: nat)
    requires start in inside
    requires forall u :: u in inside ==> Hop(reg, u).Some? && Hop(reg, u).value in inside
    ensures Chain(reg, start, m).Some? && Chain(reg, start, m).value in inside
  {
    if m > 0 { StaysInside(reg, start, inside, m - 1); }
  }

  lemma PassedCycle(reg: Registry, start: TypeName, n: nat, t: TypeName, seen: set<TypeName>)
    requires Passed(reg, start, n, t, seen) && t in seen
    ensures Explains(reg, start, CycleDetected, n)
  {
    forall k: nat ensures Chain(reg, start, k).Some? && Chain(reg, start, k).value in seen {
      StaysInside(reg, start, seen, k);
    }
  }

  lemma PassedOne(reg: Registry, start: TypeName, n: nat, t: TypeName, seen: set<TypeName>)
    requires Passed(reg, start, n, t, seen) && t !in seen && t !in reg.leaves && t in reg.parents
    ensures Passed(reg, start, n + 1, reg.parents[t].inheritsFrom, seen + {t})
    ensures |reg.parents.Keys - (seen + {t})| < |reg.parents.Keys - seen|
    ensures Resolve(reg, t, seen) == Resolve(reg, reg.parents[t].inheritsFrom, seen + {t})
  {
    assert reg.parents.Keys - (seen + {t}) == (reg.parents.Keys - seen) - {t};
  }

  lemma {:induction false} ResolveExplained(reg: Registry, start: TypeName, n: nat, t: TypeName, seen: set<TypeName>)
    returns (m: nat)
    requires Passed(reg, start, n, t, seen)
    ensures Explains(reg, start, Resolve(reg, t, seen), m)
    decreases |reg.parents.Keys - seen|
  {
    SubsetSize(seen, reg.parents.Keys);
    if t in reg.leaves { return n; }
    if t in seen {
      PassedCycle(reg, start, n, t, seen);
      return n;
    }
    if t !in reg.parents { return n; }
    PassedOne(reg, start, n, t, seen);
    m := ResolveExplained(reg, start, n + 1, reg.parents[t].inheritsFrom, seen + {t});
  }

  ghost predicate ReachesLeaf(reg: Registry, t: TypeName, n: nat) {
    Chain(reg, t, n).Some? && Chain(reg, t, n).value in reg.leaves
  }

  /** Resolution terminates on every registry, cyclic ones included, and tells the three cases apart:
      it finds a leaf if and only if the declared chain reaches one. */
  lemma NearestLeafCorrect(reg: Registry, t: TypeName)
    ensures exists n: nat :: Explains(reg, t, Resolve(reg, t, {}), n)
    ensures Resolve(reg, t, {}).Resolved? <==>
            exists n: nat :: ReachesLeaf(reg, t, n)
  {
    var r := Resolve(reg, t, {});
    var m := ResolveExplained(reg, t, 0, t, {});
    if r.Resolved? {
      assert ReachesLeaf(reg, t, m);
    } else if n: nat :| ReachesLeaf(reg, t, n) {
      if r.UnknownType? { LeafOrUnknown(reg, t, n, m); }
      assert false;
    }
  }

  lemma {:induction false} ChainStops(reg: Registry, t: TypeName, n: nat, m: nat)
    requires n < m && Chain(reg, t, n).Some? && Hop(reg, Chain(reg, t, n).value).None?
    ensures Chain(reg, t, m).None?
  {
    if m > n + 1 { ChainStops(reg, t, n, m - 1); }
  }

  /** A chain that reaches a leaf meets no unregistered type on its way. */
  lemma LeafOrUnknown(reg: Registry, t: TypeName, n: nat, m: nat)
    requires ReachesLeaf(reg, t, n)
    requires Chain(reg, t, m).Some?
    ensures Chain(reg, t, m).value in reg.leaves || Chain(reg, t, m).value in reg.parents
  {
    if n < m { ChainStops(reg, t, n, m); }
    if m < n && Hop(reg, Chain(reg, t, m).value).None? { ChainStops(reg, t, m, n); }
  }

  /** The chain reaches at most one leaf, the one resolution answers. */
  lemma ReachedIsResolved(reg: Registry, t: TypeName, n: nat)
    requires ReachesLeaf(reg, t, n)
    ensures Resolve(reg, t, {}) == Resolved(Chain(reg, t, n).value)
  {
    NearestLeafCorrect(reg, t);
    var m := ResolveExplained(reg, t, 0, t, {});
    if n < m { ChainStops(reg, t, n, m); }
    if m < n { ChainStops(reg, t, m, n); }
  }

  // ── Lookups ────────────────────────────────────────────────────────────

  /** The relations that satisfy an action, or None for the unknown-action error. */
  function Satisfying(reg: Registry, t: TypeName, action: Action): Option<set<Relation>> {
    var r := Resolve(reg, t, {});
    if r.Resolved? && r.leaf in reg.leaves && action in reg.leaves[r.leaf].actions
    then Some(reg.leaves[r.leaf].actions[action]) else None
  }

  /** The declared chain reaches a leaf whose registration maps the action to `relations`. */
  ghost predicate Satisfies(reg: Registry, t: TypeName, action: Action, relations: set<Relation>) {
    exists n: nat :: ReachesLeaf(reg, t, n)
                     && action in reg.leaves[Chain(reg, t, n).value].actions
                     && reg.leaves[Chain(reg, t, n).value].actions[action] == relations
  }

  /** The action's relations are those of the leaf the declared chain reaches, and there are none, which is the
      unknown-action error, exactly when no leaf is reached or the leaf does not know the action. */
  lemma SatisfyingMeaning(reg: Registry, t: TypeName, action: Action, relations: set<Relation>)
    ensures Satisfying(reg, t, action) == Some(relations) <==> Satisfies(reg, t, action, relations)
  {
    NearestLeafCorrect(reg, t);
    forall n: nat | ReachesLeaf(reg, t, n) ensures Resolve(reg, t, {}) == Resolved(Chain(reg, t, n).value) {
      ReachedIsResolved(reg, t, n);
    }
  }

  function Superiors(h: map<Relation, set<Relation>>, relations: set<Relation>): set<Relation> {
    set r, s | r in relations && r in h && s in h[r] :: s
  }

  /** Every relation that satisfies one of the given ones; None when one of them is not in the hierarchy. */
  function Expand(reg: Registry, t: TypeName, relations: set<Relation>): Option<set<Relation>> {
    var r := Resolve(reg, t, {});
    if r.Resolved? && r.leaf in reg.leaves && relations <= reg.leaves[r.leaf].hierarchy.Keys
    then Some(Superiors(reg.leaves[r.leaf].hierarchy, relations)) else None
  }

  /** On a leaf type: an error exactly when a relation is missing from its hierarchy, and otherwise every relation
      listed there for one of the given ones. */
  lemma ExpandMeaning(reg: Registry, leaf: TypeName, relations: set<Relation>, s: Relation)
    requires leaf in reg.leaves
    ensures Expand(reg, leaf, relations).None? <==> exists r :: r in relations && r !in reg.leaves[leaf].hierarchy
    ensures Expand(reg, leaf, relations).Some? ==>
              (s in Expand(reg, leaf, relations).value <==>
               exists r :: r in relations && r in reg.leaves[leaf].hierarchy && s in reg.leaves[leaf].hierarchy[r])
  {
  }

  function ParentOf(reg: Registry, r: Resource): Option<Resource> {
    if r.kind in reg.parents then reg.parents[r.kind].parentOf(r.id) else None
  }

  datatype RegisterError = Sealed | AlreadyRegistered

  class AuthorizationRegistry {
    var leaves: map<TypeName, LeafEntry>
    var parents: map<TypeName, ParentEntry>
    var isSealed: bool

    constructor ()
      ensures leaves == map[] && parents == map[] && !isSealed
    {
      leaves, parents, isSealed := map[], map[], false;
    }

    /** A type is registered as a leaf or as inherited, never as both. */
    ghost predicate Valid()
      reads this
    {
      leaves.Keys !! parents.Keys
    }

    ghost function Snapshot(): Registry
      reads this
    {
      Registry(leaves, parents)
    }

    method RegisterResourceType(t: TypeName, entry: LeafEntry) returns (error: Option<RegisterError>)
      requires Valid()
      modifies this
      ensures Valid() && isSealed == old(isSealed) && parents == old(parents)
      ensures old(isSealed) ==> error == Some(Sealed)
      ensures error.None? <==> !old(isSealed) && t !in old(leaves) && t !in old(parents)
      ensures leaves == if error.None? then old(leaves)[t := entry] else old(leaves)
    {
      if isSealed { return Some(Sealed); }
      if t in leaves || t in parents { return Some(AlreadyRegistered); }
      leaves := leaves[t := entry];
      return None;
    }

    method RegisterParent(t: TypeName, entry: ParentEntry) returns (error: Option<RegisterError>)
      requires Valid()
      modifies this
      ensures Valid() && isSealed == old(isSealed) && leaves == old(leaves)
      ensures old(isSealed) ==> error == Some(Sealed)
      ensures error.None? <==> !old(isSealed) && t !in old(leaves) && t !in old(parents)
      ensures parents == if error.None? then old(parents)[t := entry] else old(parents)
    {
      if isSealed { return Some(Sealed); }
      if t in leaves || t in parents { return Some(AlreadyRegistered); }
      parents := parents[t := entry];
      return None;
    }

    method Seal()
      modifies this`isSealed
      ensures isSealed
    {
      isSealed := true;
    }

    /** The loop over `inherits_from`, with its cycle guard. */
    method NearestLeafType(t: TypeName) returns (r: Resolution)
      ensures r == Resolve(Snapshot(), t, {})
    {
      var seen: set<TypeName> := {};
      var current := t;
      while current !in leaves
        invariant seen <= parents.Keys
        invariant Resolve(Snapshot(), t, {}) == Resolve(Snapshot(), current, seen)
        decreases |parents.Keys - seen|
      {
        if current in seen { return CycleDetected; }
        if current !in parents { return UnknownType; }
        assert parents.Keys - (seen + {current}) == (parents.Keys - seen) - {current};
        seen := seen + {current};
        current := parents[current].inheritsFrom;
      }
      return Resolved(current);
    }

    method ParentLookup(r: Resource) returns (p: Option<Resource>)
      ensures p == ParentOf(Snapshot(), r)
      ensures p == if r.kind in parents then parents[r.kind].parentOf(r.id) else None
    {
      if r.kind !in parents { return None; }
      return parents[r.kind].parentOf(r.id);
    }

    method RelationsFor(t: TypeName, action: Action) returns (r: Option<set<Relation>>)
      ensures r == Satisfying(Snapshot(), t, action)
      ensures forall relations :: r == Some(relations) <==> Satisfies(Snapshot(), t, action, relations)
    {
      forall relations { SatisfyingMeaning(Snapshot(), t, action, relations); }
      var leaf := NearestLeafType(t);
      if !leaf.Resolved? || leaf.leaf !in leaves || action !in leaves[leaf.leaf].actions { return None; }
      return Some(leaves[leaf.leaf].actions[action]);
    }

    /** The loop that unions the superiors of each relation. */
    method ExpandRelations(t: TypeName, relations: set<Relation>) returns (r: Option<set<Relation>>)
      ensures r == Expand(Snapshot(), t, relations)
    {
      var leaf := NearestLeafType(t);
      if !leaf.Resolved? || leaf.leaf !in leaves { return None; }
      var h := leaves[leaf.leaf].hierarchy;
      var todo, expanded: set<Relation> := relations, {};
      while todo != {}
        invariant todo <= relations && relations - todo <= h.Keys
        invariant expanded == Superiors(h, relations - todo)
        decreases |todo|
      {
        var relation :| relation in todo;
        if relation !in h { return None; }
        assert relations - (todo - {relation}) == relations - todo + {relation};
        expanded := expanded + h[relation];
        todo := todo - {relation};
      }
      assert relations - {} == relations;
      return Some(expanded);
    }
  }
}
