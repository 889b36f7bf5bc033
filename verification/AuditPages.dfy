/**
  Paging through the audit log, newest first, with a (created_at, id) cursor.
  The log may change between pages.
*/
module AuditPages {
  import opened Prelude
  import OrderedSelect

  type EventId = nat

  datatype Event = Event(createdAt: Instant, user: Option<nat>, kind: string)

  type Log = map<EventId, Event>

  /** A listed row; also what a cursor holds. */
  datatype Item = Item(createdAt: Instant, id: EventId)

  datatype Filter = Filter(user: Option<nat>, kind: Option<string>, since: Option<Instant>)

  const MAX_LIMIT := 500

  predicate Matches(f: Filter, e: Event) {
    && (f.user.Some? ==> e.user == f.user)
    && (f.kind.Some? ==> e.kind == f.kind.value)
    && (f.since.Some? ==> f.since.value <= e.createdAt)
  }

  /** Ascending by this rank is descending by (created_at, id). */
  function Newest(): Item -> OrderedSelect.Rank { (i: Item) => (-i.createdAt, 0 - i.id as int) }

  predicate Newer(a: Item, b: Item) { b.createdAt < a.createdAt || (b.createdAt == a.createdAt && b.id < a.id) }

  predicate Before(i: Item, cursor: Option<Item>) { cursor.Some? ==> Newer(cursor.value, i) }

  predicate Listable(log: Log, f: Filter, cursor: Option<Item>, i: Item) {
    i.id in log && log[i.id].createdAt == i.createdAt && Matches(f, log[i.id]) && Before(i, cursor)
  }

  /** Rows the query selects from. */
  function Candidates(log: Log, f: Filter, cursor: Option<Item>): (rows: set<Item>)
    ensures forall i :: i in rows <==> Listable(log, f, cursor, i)
  {
    set id | id in log && Listable(log, f, cursor, Item(log[id].createdAt, id)) :: Item(log[id].createdAt, id)
  }

  predicate Descending(items: seq<Item>) {
    forall i, j :: 0 <= i < j < |items| ==> Newer(items[i], items[j])
  }

  predicate LimitOk(limit: int) { 1 <= limit <= MAX_LIMIT }

  /** One page: the newest candidates, at most `limit` of them. */
  function Page(log: Log, f: Filter, cursor: Option<Item>, limit: int): (items: seq<Item>)
    requires LimitOk(limit)
    ensures Descending(items) && |items| == Min(limit, |Candidates(log, f, cursor)|)
    ensures forall i :: i in items ==> Listable(log, f, cursor, i)
    ensures forall i, j :: i in items && j !in items && Listable(log, f, cursor, j) ==> Newer(i, j)
    ensures |items| < limit ==> forall j :: Listable(log, f, cursor, j) ==> j in items
  {
    var items := OrderedSelect.Select(Newest(), Candidates(log, f, cursor), limit);
    assert forall i, j :: Newer(i, j) <==> OrderedSelect.Less(Newest()(i), Newest()(j));
    assert forall i :: i in items <==> i in Elements(items);
    items
  }

  /** The cursor handed out with a page: its last row when the page is full. */
  function NextBefore(items: seq<Item>, limit: int): Option<Item> {
    if |items| == limit && items != [] then Some(items[|items| - 1]) else None
  }

  /** Everything listed by following cursors, the k-th page being read from `logs[k]`. */
  function Walk(logs: seq<Log>, f: Filter, cursor: Option<Item>, limit: int): seq<Item>
    requires LimitOk(limit)
    decreases |logs|
  {
    if logs == [] then [] else
      var items := Page(logs[0], f, cursor, limit);
      var next := NextBefore(items, limit);
      if next.None? then items else items + Walk(logs[1..], f, next, limit)
  }

  /** The walk over these logs comes to a page without a cursor. */
  predicate Finishes(logs: seq<Log>, f: Filter, cursor: Option<Item>, limit: int)
    requires LimitOk(limit)
    decreases |logs|
  {
    logs != [] &&
    var next := NextBefore(Page(logs[0], f, cursor, limit), limit);
    next.None? || Finishes(logs[1..], f, next, limit)
  }

  /** However the log changes between pages, the whole listing is strictly descending, so no row appears twice. */
  lemma {:induction false} WalkDescending(logs: seq<Log>, f: Filter, cursor: Option<Item>, limit: int)
    requires 1 <= limit <= 500
    ensures Descending(Walk(logs, f, cursor, limit))
    ensures forall i :: i in Walk(logs, f, cursor, limit) ==> Before(i, cursor)
    decreases |logs|
  {
    if logs != [] {
      var items := Page(logs[0], f, cursor, limit);
      var next := NextBefore(items, limit);
      if next.Some? {
        WalkDescending(logs[1..], f, next, limit);
        JoinDescending(items, Walk(logs[1..], f, next, limit), cursor);
      }
    }
  }

  lemma JoinDescending(items: seq<Item>, rest: seq<Item>, cursor: Option<Item>)
    requires items != [] && Descending(items) && Descending(rest)
    requires forall i :: i in items ==> Before(i, cursor)
    requires forall i :: i in rest ==> Before(i, Some(items[|items| - 1]))
    ensures Descending(items + rest)
    ensures forall i :: i in items + rest ==> Before(i, cursor)
  {
    var tail := items[|items| - 1];
    var all := items + rest;
    assert tail in items;
    forall i, j | 0 <= i < j < |all| ensures Newer(all[i], all[j]) {
      if i < |items| <= j {
        assert all[j] in rest;
        assert all[i] == tail || Newer(all[i], tail);
      }
    }
  }

  /** The row is in the log and meets each filter that is set: its user, its event type, no older than `since`. */
  ghost predicate PresentIn(log: Log, f: Filter, i: Item) {
    && i.id in log && log[i.id].createdAt == i.createdAt
    && (f.user == None || log[i.id].user == f.user)
    && (f.kind == None || f.kind == Some(log[i.id].kind))
    && (f.since == None || i.createdAt >= f.since.value)
  }

  ghost predicate PresentThroughout(logs: seq<Log>, f: Filter, i: Item) {
    forall k :: 0 <= k < |logs| ==> PresentIn(logs[k], f, i)
  }

  /** A finished walk lists every row that was there for all of it and older than the first cursor. */
  lemma {:induction false} WalkComplete(logs: seq<Log>, f: Filter, cursor: Option<Item>, limit: int, i: Item)
    requires 1 <= limit <= 500 && Finishes(logs, f, cursor, limit)
    requires PresentThroughout(logs, f, i) && Before(i, cursor)
    ensures i in Walk(logs, f, cursor, limit)
    decreases |logs|
  {
    var items := Page(logs[0], f, cursor, limit);
    var next := NextBefore(items, limit);
    assert PresentIn(logs[0], f, i);
    assert Listable(logs[0], f, cursor, i);
    if next.Some? && i !in items {
      assert next.value in items;
      WalkComplete(logs[1..], f, next, limit, i);
    }
  }

  /** Nothing else is listed: each row was in the log its page was read from. */
  lemma {:induction false} WalkSound(logs: seq<Log>, f: Filter, cursor: Option<Item>, limit: int, i: Item)
    requires 1 <= limit <= 500 && i in Walk(logs, f, cursor, limit)
    ensures exists k :: 0 <= k < |logs| && PresentIn(logs[k], f, i)
    decreases |logs|
  {
    var items := Page(logs[0], f, cursor, limit);
    var next := NextBefore(items, limit);
    if i in items {
      assert PresentIn(logs[0], f, i);
    } else {
      WalkSound(logs[1..], f, next, limit, i);
      var k :| 0 <= k < |logs[1..]| && PresentIn(logs[1..][k], f, i);
      assert PresentIn(logs[k + 1], f, i);
    }
  }

  /** The next page starts exactly where this one ended. */
  lemma RestOfLog(log: Log, f: Filter, cursor: Option<Item>, limit: int, items: seq<Item>, i: Item)
    requires LimitOk(limit) && items == Page(log, f, cursor, limit) && |items| == limit
    ensures Listable(log, f, NextBefore(items, limit), i) <==> Listable(log, f, cursor, i) && i !in items
  {
    var tail := items[|items| - 1];
    assert tail in items && NextBefore(items, limit) == Some(tail);
    assert Listable(log, f, cursor, tail);
    if i in items {
      var k :| 0 <= k < |items| && items[k] == i;
      assert k == |items| - 1 || Newer(items[k], items[|items| - 1]);
    } else if Listable(log, f, cursor, i) {
      assert Newer(tail, i);
    }
  }

  lemma RestSize(log: Log, f: Filter, cursor: Option<Item>, limit: int, items: seq<Item>)
    requires LimitOk(limit) && items == Page(log, f, cursor, limit) && |items| == limit
    ensures |Candidates(log, f, NextBefore(items, limit))| == |Candidates(log, f, cursor)| - limit
  {
    var all, rest := Candidates(log, f, cursor), Candidates(log, f, NextBefore(items, limit));
    DistinctItems(items);
    forall i ensures i in rest <==> i in all && i !in Elements(items) {
      RestOfLog(log, f, cursor, limit, items, i);
    }
    assert all == Elements(items) + rest;
  }

  lemma DistinctItems(items: seq<Item>)
    requires Descending(items)
    ensures |Elements(items)| == |items|
  {
    forall i, j | 0 <= i < j < |items| ensures items[i] != items[j] {
      assert Newer(items[i], items[j]);
    }
    DistinctLength(items);
  }

  /** Pages of `limit` rows until one is not full. */
  function PageTotal(n: nat, limit: nat): (pages: nat)
    requires limit >= 1
    ensures pages >= 1
  {
    if n < limit then 1 else 1 + PageTotal(n - limit, limit)
  }

  lemma {:induction false} PageTotalBounds(n: nat, limit: nat)
    requires limit >= 1
    ensures (PageTotal(n, limit) - 1) * limit <= n < (PageTotal(n, limit) - 1) * limit + limit
  {
    if n >= limit {
      PageTotalBounds(n - limit, limit);
      var before := PageTotal(n - limit, limit) - 1;
      assert (before + 1) * limit == before * limit + limit;
    }
  }

  lemma Product(a: int, b: int, c: nat)
    requires a < b
    ensures a * c + c <= b * c
  {
    assert b * c == a * c + (b - a) * c;
    assert (b - a) * c == c + (b - a - 1) * c;
  }

  lemma PageTotalIsQuotient(n: nat, limit: nat)
    requires limit >= 1
    ensures PageTotal(n, limit) == n / limit + 1
  {
    PageTotalBounds(n, limit);
    var q, d := PageTotal(n, limit) - 1, n / limit;
    assert n == d * limit + n % limit;
    if q < d { Product(q, d, limit); }
    if d < q { Product(d, q, limit); }
  }

  lemma {:induction false} PageTotalExact(log: Log, f: Filter, cursor: Option<Item>, limit: int, logs: seq<Log>)
    requires LimitOk(limit) && forall k :: 0 <= k < |logs| ==> logs[k] == log
    ensures Finishes(logs, f, cursor, limit) <==> |logs| >= PageTotal(|Candidates(log, f, cursor)|, limit)
    decreases |logs|
  {
    if logs != [] {
      var items := Page(log, f, cursor, limit);
      if |items| == limit {
        RestSize(log, f, cursor, limit, items);
        PageTotalExact(log, f, NextBefore(items, limit), limit, logs[1..]);
      }
    }
  }

  /** On a log that does not change the walk takes exactly one page more than the matches fill. */
  lemma PageCount(log: Log, f: Filter, cursor: Option<Item>, limit: int, logs: seq<Log>)
    requires 1 <= limit <= 500 && forall k :: 0 <= k < |logs| ==> logs[k] == log
    ensures Finishes(logs, f, cursor, limit) <==> |logs| >= |Candidates(log, f, cursor)| / limit + 1
  {
    PageTotalExact(log, f, cursor, limit, logs);
    PageTotalIsQuotient(|Candidates(log, f, cursor)|, limit);
  }
}
