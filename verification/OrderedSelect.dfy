/**
  SELECT ... ORDER BY rank LIMIT n over a finite table.

  A rank is a pair compared lexicographically: the ordering column first, the
  unique row identifier as the tie-breaker.
*/
module OrderedSelect {
  import opened Prelude

  type Rank = (int, int)

  predicate Less(a: Rank, b: Rank) { a.0 < b.0 || (a.0 == b.0 && a.1 < b.1) }

  /** No two rows tie. */
  ghost predicate Injective<T>(rank: T -> Rank, rows: set<T>) {
    forall x, y :: x in rows && y in rows && rank(x) == rank(y) ==> x == y
  }

  predicate Ascending<T>(rank: T -> Rank, s: seq<T>) {
    forall i, j :: 0 <= i < j < |s| ==> Less(rank(s[i]), rank(s[j]))
  }

  predicate IsLeast<T(==)>(rank: T -> Rank, rows: set<T>, m: T) {
    m in rows && forall y :: y in rows ==> y == m || Less(rank(m), rank(y))
  }

  lemma {:induction false} LeastExists<T>(rank: T -> Rank, rows: set<T>) returns (m: T)
    requires rows != {} && Injective(rank, rows)
    ensures IsLeast(rank, rows, m)
    decreases rows
  {
    var x :| x in rows;
    if rows == {x} {
      m := x;
    } else {
      var r := LeastExists(rank, rows - {x});
      m := if Less(rank(x), rank(r)) then x else r;
    }
  }

  function Least<T(==)>(rank: T -> Rank, rows: set<T>): (m: T)
    requires rows != {} && Injective(rank, rows)
    ensures IsLeast(rank, rows, m)
  {
    assert exists m :: m in rows && IsLeast(rank, rows, m) by { var m := LeastExists(rank, rows); }
    var m :| m in rows && IsLeast(rank, rows, m);
    m
  }

  lemma SortedCons<T>(rank: T -> Rank, rows: set<T>, m: T, rest: seq<T>)
    requires IsLeast(rank, rows, m) && Ascending(rank, rest)
    requires Elements(rest) == rows - {m} && |rest| == |rows - {m}|
    ensures Ascending(rank, [m] + rest)
    ensures Elements([m] + rest) == rows && |[m] + rest| == |rows|
  {
    var s := [m] + rest;
    forall i, j | 0 <= i < j < |s| ensures Less(rank(s[i]), rank(s[j])) {
      assert s[j] == rest[j - 1] && rest[j - 1] in Elements(rest);
      if i > 0 { assert s[i] == rest[i - 1]; }
    }
    forall y | y in rows ensures y in Elements(s) {
      if y != m {
        assert y in Elements(rest);
        var k :| 0 <= k < |rest| && rest[k] == y;
        assert s[k + 1] == y;
      }
    }
    forall y | y in Elements(s) ensures y in rows {
      assert y == m || y in Elements(rest);
    }
  }

  /** The whole table in rank order. */
  function Sorted<T(==)>(rank: T -> Rank, rows: set<T>): (s: seq<T>)
    requires Injective(rank, rows)
    ensures Ascending(rank, s)
    ensures Elements(s) == rows && |s| == |rows|
    decreases rows
  {
    if rows == {} then [] else
      var m := Least(rank, rows);
      var rest := Sorted(rank, rows - {m});
      SortedCons(rank, rows, m, rest);
      [m] + rest
  }

  /** The first `limit` rows in rank order. */
  function Select<T(==)>(rank: T -> Rank, rows: set<T>, limit: nat): (s: seq<T>)
    requires Injective(rank, rows)
    ensures Ascending(rank, s)
    ensures Elements(s) <= rows && |s| == Min(limit, |rows|)
    ensures forall x, y :: x in s && y in rows && y !in s ==> Less(rank(x), rank(y))
    ensures |s| < limit ==> Elements(s) == rows
  {
    var all := Sorted(rank, rows);
    var s := if |all| <= limit then all else all[..limit];
    assert Elements(s) <= Elements(all);
    assert forall y :: y in rows ==> y in Elements(all);
    s
  }

  lemma AscendingDistinct<T>(rank: T -> Rank, s: seq<T>)
    requires Ascending(rank, s)
    ensures forall i, j :: 0 <= i < j < |s| ==> s[i] != s[j]
    ensures |Elements(s)| == |s|
  {
    forall i, j | 0 <= i < j < |s| ensures s[i] != s[j] {
      assert Less(rank(s[i]), rank(s[j]));
    }
    DistinctLength(s);
  }
}
