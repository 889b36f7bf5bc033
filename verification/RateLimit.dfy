/**
  The two rate limiters, each compared with a plain log of accepted attempts.

  Both are sliding logs over the last `window` ticks. The in-process limiter
  still counts an attempt exactly one window old, the Redis script no longer
  does; `boundary` is 0 for the first and 1 for the second.
*/
module RateLimit {
  import opened Prelude

  type Key = string

  /** The attempts at or after `lo`. */
  function Since(s: seq<Instant>, lo: Instant): seq<Instant> {
    if s == [] then []
    else Since(s[..|s| - 1], lo) + if s[|s| - 1] >= lo then [s[|s| - 1]] else []
  }

  /** How many attempts lie in `lo .. hi`, both ends included. */
  function CountIn(s: seq<Instant>, lo: Instant, hi: Instant): nat {
    if s == [] then 0 else CountIn(s[..|s| - 1], lo, hi) + if lo <= s[|s| - 1] <= hi then 1 else 0
  }

  lemma SinceAppend(s: seq<Instant>, x: Instant, lo: Instant)
    ensures Since(s + [x], lo) == Since(s, lo) + if x >= lo then [x] else []
  {
    assert (s + [x])[..|s|] == s;
  }

  /** Filtering by an earlier bound first makes no difference. */
  lemma {:induction false} SinceTwice(s: seq<Instant>, lo: Instant, lo': Instant)
    requires lo <= lo'
    ensures Since(Since(s, lo), lo') == Since(s, lo')
  {
    if s != [] {
      var last := s[|s| - 1];
      SinceTwice(s[..|s| - 1], lo, lo');
      if last >= lo { SinceAppend(Since(s[..|s| - 1], lo), last, lo'); }
      assert Since(s[..|s| - 1], lo) + [] == Since(s[..|s| - 1], lo);
    }
  }

  lemma {:induction false} SinceNothing(s: seq<Instant>, lo: Instant)
    requires forall i :: 0 <= i < |s| ==> s[i] < lo
    ensures Since(s, lo) == []
  {
    if s != [] { SinceNothing(s[..|s| - 1], lo); }
  }

  lemma {:induction false} CountWithinSince(s: seq<Instant>, lo: Instant, hi: Instant, from: Instant)
    requires from <= lo
    ensures CountIn(s, lo, hi) <= |Since(s, from)|
  {
    if s != [] { CountWithinSince(s[..|s| - 1], lo, hi, from); }
  }

  // ── The plain log ──────────────────────────────────────────────────────

  datatype Policy = Policy(maxAttempts: int, window: Instant, boundary: int) {
    /** The oldest attempt that still counts at `now`. */
    function From(now: Instant): Instant { now - window + boundary }
  }

  /** Every attempt ever accepted, per key, oldest first. */
  type Log = map<Key, seq<Instant>>

  function Recorded(log: Log, key: Key): seq<Instant> { if key in log then log[key] else [] }

  predicate Admits(p: Policy, log: Log, key: Key, now: Instant) {
    |Since(Recorded(log, key), p.From(now))| < p.maxAttempts
  }

  function LogNext(p: Policy, log: Log, key: Key, now: Instant): Log {
    if Admits(p, log, key, now) then log[key := Recorded(log, key) + [now]] else log
  }

  datatype Attempt = Attempt(key: Key, now: Instant)

  /** A run on one nondecreasing clock that starts no earlier than `clock`. */
  predicate Clocked(run: seq<Attempt>, clock: Instant) {
    run != [] ==> clock <= run[0].now && Clocked(run[1..], run[0].now)
  }

  function LogRun(p: Policy, log: Log, run: seq<Attempt>): Log
    decreases |run|
  {
    if run == [] then log else LogRun(p, LogNext(p, log, run[0].key, run[0].now), run[1..])
  }

  function LogDecisions(p: Policy, log: Log, run: seq<Attempt>): seq<bool>
    decreases |run|
  {
    if run == [] then [] else
      [Admits(p, log, run[0].key, run[0].now)]
      + LogDecisions(p, LogNext(p, log, run[0].key, run[0].now), run[1..])
  }

  /** Nothing recorded lies in the future. */
  predicate Past(log: Log, clock: Instant) {
    forall key :: key in log ==> forall i :: 0 <= i < |log[key]| ==> log[key][i] <= clock
  }

  /** Accepted attempts in the window that starts at `x`. */
  function WindowCount(p: Policy, s: seq<Instant>, x: Instant): nat { CountIn(s, x, x + p.window - p.boundary) }

  /** No stretch of one window holds more than `maxAttempts` accepted attempts. */
  ghost predicate Limited(p: Policy, s: seq<Instant>) {
    forall x :: WindowCount(p, s, x) <= (if p.maxAttempts < 0 then 0 else p.maxAttempts)
  }

  lemma LimitedNext(p: Policy, log: Log, key: Key, now: Instant, k: Key)
    requires Limited(p, Recorded(log, k))
    ensures Limited(p, Recorded(LogNext(p, log, key, now), k))
  {
    var s, s' := Recorded(log, k), Recorded(LogNext(p, log, key, now), k);
    if k == key && Admits(p, log, key, now) {
      forall x ensures WindowCount(p, s', x) <= p.maxAttempts {
        assert s'[..|s|] == s;
        assert WindowCount(p, s, x) <= p.maxAttempts;
        if x <= now <= x + p.window - p.boundary {
          CountWithinSince(s, x, x + p.window - p.boundary, p.From(now));
        }
      }
    }
  }

  /** Over every run, for every key: any window holds at most `maxAttempts` accepted attempts. */
  lemma {:induction false} WindowNeverExceeded(p: Policy, log: Log, run: seq<Attempt>, k: Key)
    requires Limited(p, Recorded(log, k))
    ensures Limited(p, Recorded(LogRun(p, log, run), k))
    decreases |run|
  {
    if run != [] {
      LimitedNext(p, log, run[0].key, run[0].now, k);
      WindowNeverExceeded(p, LogNext(p, log, run[0].key, run[0].now), run[1..], k);
    }
  }

  // ── What a run decides, said without a log ─────────────────────────────

  /** How many of the first `i` attempts were on `key`, accepted by `decisions` and no earlier than `lo`. */
  function Accepted(run: seq<Attempt>, decisions: seq<bool>, i: nat, key: Key, lo: Instant): nat
    requires i <= |run| == |decisions|
    decreases i
  {
    if i == 0 then 0 else
      (if decisions[0] && run[0].key == key && run[0].now >= lo then 1 else 0)
      + Accepted(run[1..], decisions[1..], i - 1, key, lo)
  }

  /** Every decision of the run: accepted if and only if fewer than `maxAttempts` of the key's earlier accepted attempts
      are no older than `reach`. */
  ghost predicate DecidesBy(run: seq<Attempt>, decisions: seq<bool>, maxAttempts: int, reach: Instant) {
    && |decisions| == |run|
    && forall i :: 0 <= i < |run| ==>
         (decisions[i] <==> Accepted(run, decisions, i, run[i].key, run[i].now - reach) < maxAttempts)
  }

  lemma RecordedNext(p: Policy, log: Log, here: Attempt, key: Key, lo: Instant)
    ensures |Since(Recorded(LogNext(p, log, here.key, here.now), key), lo)|
            == |Since(Recorded(log, key), lo)|
               + if Admits(p, log, here.key, here.now) && here.key == key && here.now >= lo then 1 else 0
  {
    SinceAppend(Recorded(log, here.key), here.now, lo);
  }

  lemma {:induction false} LogDecisionExact(p: Policy, log: Log, run: seq<Attempt>, i: nat, d: seq<bool>)
    requires i < |run| && d == LogDecisions(p, log, run)
    ensures |d| == |run|
    ensures d[i] <==> |Since(Recorded(log, run[i].key), p.From(run[i].now))|
                      + Accepted(run, d, i, run[i].key, p.From(run[i].now)) < p.maxAttempts
    decreases i
  {
    LogDecisionsLength(p, log, run);
    if i > 0 {
      var log' := LogNext(p, log, run[0].key, run[0].now);
      LogDecisionExact(p, log', run[1..], i - 1, d[1..]);
      RecordedNext(p, log, run[0], run[i].key, p.From(run[i].now));
    }
  }

  lemma {:induction false} LogDecisionsLength(p: Policy, log: Log, run: seq<Attempt>)
    ensures |LogDecisions(p, log, run)| == |run|
    decreases |run|
  {
    if run != [] { LogDecisionsLength(p, LogNext(p, log, run[0].key, run[0].now), run[1..]); }
  }

  lemma NewLogDecides(p: Policy, run: seq<Attempt>)
    ensures DecidesBy(run, LogDecisions(p, map[], run), p.maxAttempts, p.window - p.boundary)
  {
    var d := LogDecisions(p, map[], run);
    LogDecisionsLength(p, map[], run);
    forall i | 0 <= i < |run|
      ensures d[i] <==> Accepted(run, d, i, run[i].key, run[i].now - (p.window - p.boundary)) < p.maxAttempts
    {
      LogDecisionExact(p, map[], run, i, d);
      assert p.From(run[i].now) == run[i].now - (p.window - p.boundary);
    }
  }

  // ── In-process: a bounded TTL cache of timestamp lists ─────────────────

  /** Seconds an entry outlives its window in the cache. */
  const TTL_SLACK_SECONDS: nat := 60

  datatype Entry = Entry(stamps: seq<Instant>, expires: Instant)

  /** `order` lists the keys from least to most recently used. */
  datatype Cache = Cache(entries: map<Key, Entry>, order: seq<Key>)

  const EMPTY_CACHE := Cache(map[], [])

  function Stored(c: Cache, key: Key, now: Instant): seq<Instant> {
    if key in c.entries && now < c.entries[key].expires then c.entries[key].stamps else []
  }

  function Live(c: Cache, now: Instant): map<Key, Entry> {
    map k | k in c.entries && now < c.entries[k].expires :: c.entries[k]
  }

  function Keep(order: seq<Key>, keys: set<Key>): seq<Key> {
    if order == [] then [] else (if order[0] in keys then [order[0]] else []) + Keep(order[1..], keys)
  }

  /** Write the key last in the order, dropping the first one if the cache is full. */
  function Write(live: map<Key, Entry>, order: seq<Key>, full: bool, key: Key, e: Entry): Cache {
    if full && order != []
    then Cache((live - {order[0]})[key := e], order[1..] + [key])
    else Cache(live[key := e], order + [key])
  }

  /** Drop expired entries; make room for a new key by dropping the least recently used; write. */
  function Put(c: Cache, maxsize: int, key: Key, e: Entry, now: Instant): Cache {
    var live := Live(c, now);
    Write(live, Keep(c.order, live.Keys - {key}), key !in live && |live| + 1 > maxsize, key, e)
  }

  /** `second` is the length of a second in clock ticks. */
  datatype Limit = Limit(maxAttempts: int, window: Instant, maxsize: int, second: Instant) {
    predicate Valid() { window >= 0 && maxsize >= 1 && second >= 1 }
    function Ttl(): Instant { window + TTL_SLACK_SECONDS * second }
    function AsPolicy(): Policy { Policy(maxAttempts, window, 0) }
  }

  function Attempts(l: Limit, c: Cache, key: Key, now: Instant): seq<Instant> {
    Since(Stored(c, key, now), now - l.window)
  }

  predicate Allows(l: Limit, c: Cache, key: Key, now: Instant) {
    |Attempts(l, c, key, now)| < l.maxAttempts
  }

  function CacheNext(l: Limit, c: Cache, key: Key, now: Instant): Cache {
    var attempts := Attempts(l, c, key, now);
    var kept := if Allows(l, c, key, now) then attempts + [now] else attempts;
    Put(c, l.maxsize, key, Entry(kept, now + l.Ttl()), now)
  }

  /** The loop that keeps the stamps still in the window. */
  method Recent(stored: seq<Instant>, lo: Instant) returns (attempts: seq<Instant>)
    ensures attempts == Since(stored, lo)
  {
    attempts := [];
    for i := 0 to |stored|
      invariant attempts == Since(stored[..i], lo)
    {
      assert stored[..i + 1] == stored[..i] + [stored[i]];
      SinceAppend(stored[..i], stored[i], lo);
      if stored[i] >= lo { attempts := attempts + [stored[i]]; }
    }
    assert stored[..|stored|] == stored;
  }

  class FixedWindowRateLimiter {
    const limit: Limit
    var cache: Cache

    constructor (limit: Limit)
      ensures this.limit == limit && cache == EMPTY_CACHE
    {
      this.limit := limit;
      cache := EMPTY_CACHE;
    }

    /** True when the attempt is accepted, false when the limit error is raised. */
    method Check(key: Key, now: Instant) returns (ok: bool)
      requires limit.Valid()
      modifies this`cache
      ensures ok == Allows(limit, old(cache), key, now)
      ensures cache == CacheNext(limit, old(cache), key, now)
      ensures key in cache.entries && cache.entries[key].expires == now + limit.window + 60 * limit.second
    {
      var attempts := Recent(Stored(cache, key, now), now - limit.window);
      assert attempts == Attempts(limit, cache, key, now);
      var expires := now + limit.Ttl();
      if |attempts| >= limit.maxAttempts {
        cache := Put(cache, limit.maxsize, key, Entry(attempts, expires), now);
        return false;
      }
      cache := Put(cache, limit.maxsize, key, Entry(attempts + [now], expires), now);
      return true;
    }
  }

  /** At time `t` the cache and the log see the same in-window attempts of `key`. */
  ghost predicate SameAt(l: Limit, c: Cache, log: Log, key: Key, t: Instant) {
    Attempts(l, c, key, t) == Since(Recorded(log, key), t - l.window)
  }

  /** They do from `clock` on. */
  ghost predicate Agrees(l: Limit, c: Cache, log: Log, key: Key, clock: Instant) {
    forall t :: t >= clock ==> SameAt(l, c, log, key, t)
  }

  /** The key is already cached, or there is room for it: no more than `maxsize` keys live. */
  predicate HasRoom(l: Limit, c: Cache, key: Key, now: Instant) {
    key in Live(c, now) || |Live(c, now)| + 1 <= l.maxsize
  }

  /** The live key a check of `key` drops to make room: the least recently used one. */
  function Evicted(l: Limit, c: Cache, key: Key, now: Instant): Option<Key> {
    var order := Keep(c.order, Live(c, now).Keys - {key});
    if HasRoom(l, c, key, now) || order == [] then None else Some(order[0])
  }

  /** The check forgets nothing that could still count. */
  predicate Harmless(l: Limit, c: Cache, key: Key, now: Instant) {
    var victim := Evicted(l, c, key, now);
    victim.None? || Attempts(l, c, victim.value, now) == []
  }

  /** A list filtered before `x` was added shows the same later on, and so does nothing at all once every
      stamp is too old. */
  lemma LaterView(rec: seq<Instant>, x: seq<Instant>, lo: Instant, lo': Instant, alive: bool)
    requires lo <= lo' && |x| <= 1
    requires !alive ==> forall i :: 0 <= i < |rec + x| ==> (rec + x)[i] < lo'
    ensures Since(if alive then Since(rec, lo) + x else [], lo') == Since(rec + x, lo')
  {
    if !alive {
      SinceNothing(rec + x, lo');
      return;
    }
    SinceTwice(rec, lo, lo');
    if x == [] {
      assert rec + x == rec && Since(rec, lo) + x == Since(rec, lo);
    } else {
      assert x == [x[0]];
      SinceAppend(Since(rec, lo), x[0], lo');
      SinceAppend(rec, x[0], lo');
    }
  }

  /** A check leaves the entries of other keys alone, except for the one it evicts. */
  lemma OtherKeyKept(l: Limit, c: Cache, key: Key, now: Instant, k: Key, t: Instant)
    requires k != key && t >= now
    ensures Stored(CacheNext(l, c, key, now), k, t)
            == if Evicted(l, c, key, now) == Some(k) then [] else Stored(c, k, t)
  {
  }

  function Kept(l: Limit, c: Cache, key: Key, now: Instant): seq<Instant> {
    Attempts(l, c, key, now) + if Allows(l, c, key, now) then [now] else []
  }

  lemma CheckedEntry(l: Limit, c: Cache, key: Key, now: Instant)
    ensures key in CacheNext(l, c, key, now).entries
    ensures CacheNext(l, c, key, now).entries[key] == Entry(Kept(l, c, key, now), now + l.Ttl())
  {
    assert Attempts(l, c, key, now) + [] == Attempts(l, c, key, now);
  }

  /** Written at `now`, the entry and the record look the same at every later time, also after it expires. */
  lemma EntrySame(l: Limit, rec: seq<Instant>, x: seq<Instant>, now: Instant, t: Instant, key: Key, c': Cache,
                  log': Log)
    requires l.Valid() && t >= now && |x| <= 1 && forall i :: 0 <= i < |rec + x| ==> (rec + x)[i] <= now
    requires key in c'.entries && c'.entries[key] == Entry(Since(rec, now - l.window) + x, now + l.Ttl())
    requires Recorded(log', key) == rec + x
    ensures SameAt(l, c', log', key, t)
  {
    var alive, stamps := t < now + l.Ttl(), Since(rec, now - l.window) + x;
    assert !alive ==> now < t - l.window;
    assert Stored(c', key, t) == if alive then stamps else [];
    LaterView(rec, x, now - l.window, t - l.window, alive);
  }

  lemma CheckedKeySame(l: Limit, c: Cache, log: Log, key: Key, now: Instant, t: Instant, c': Cache, log': Log)
    requires l.Valid() && SameAt(l, c, log, key, now) && Past(log, now) && t >= now
    requires c' == CacheNext(l, c, key, now) && log' == LogNext(l.AsPolicy(), log, key, now)
    ensures SameAt(l, c', log', key, t)
  {
    var rec := Recorded(log, key);
    CheckedEntry(l, c, key, now);
    var x := if Allows(l, c, key, now) then [now] else [];
    assert Recorded(log', key) == rec + x;
    EntrySame(l, rec, x, now, t, key, c', log');
  }

  /** An evicted key shows as before if and only if it had nothing to show. */
  lemma EvictedSame(l: Limit, c: Cache, log: Log, victim: Key, now: Instant, t: Instant)
    requires Attempts(l, c, victim, now) == [] && SameAt(l, c, log, victim, now) && t >= now
    ensures Since(Recorded(log, victim), t - l.window) == []
  {
    SinceTwice(Recorded(log, victim), now - l.window, t - l.window);
  }

  lemma AgreesNext(l: Limit, c: Cache, log: Log, key: Key, now: Instant, k: Key, c': Cache, log': Log)
    requires l.Valid() && SameAt(l, c, log, key, now) && Agrees(l, c, log, k, now) && Past(log, now)
    requires c' == CacheNext(l, c, key, now) && log' == LogNext(l.AsPolicy(), log, key, now)
    requires Evicted(l, c, key, now) == Some(k) ==> Attempts(l, c, k, now) == []
    ensures Agrees(l, c', log', k, now)
  {
    assert SameAt(l, c, log, k, now);
    forall t | t >= now ensures SameAt(l, c', log', k, t) {
      if k == key {
        CheckedKeySame(l, c, log, key, now, t, c', log');
      } else {
        assert SameAt(l, c, log, k, t);
        OtherKeyKept(l, c, key, now, k, t);
        if Evicted(l, c, key, now) == Some(k) { EvictedSame(l, c, log, k, now, t); }
      }
    }
  }

  function CacheDecisions(l: Limit, c: Cache, run: seq<Attempt>): seq<bool>
    decreases |run|
  {
    if run == [] then [] else
      [Allows(l, c, run[0].key, run[0].now)] + CacheDecisions(l, CacheNext(l, c, run[0].key, run[0].now), run[1..])
  }

  predicate RoomThroughout(l: Limit, c: Cache, run: seq<Attempt>)
    decreases |run|
  {
    run != [] ==>
      HasRoom(l, c, run[0].key, run[0].now) && RoomThroughout(l, CacheNext(l, c, run[0].key, run[0].now), run[1..])
  }

  predicate HarmlessThroughout(l: Limit, c: Cache, run: seq<Attempt>)
    decreases |run|
  {
    run != [] ==>
      Harmless(l, c, run[0].key, run[0].now) && HarmlessThroughout(l, CacheNext(l, c, run[0].key, run[0].now), run[1..])
  }

  lemma {:induction false} RoomIsHarmless(l: Limit, c: Cache, run: seq<Attempt>)
    requires RoomThroughout(l, c, run)
    ensures HarmlessThroughout(l, c, run)
    decreases |run|
  {
    if run != [] { RoomIsHarmless(l, CacheNext(l, c, run[0].key, run[0].now), run[1..]); }
  }

  ghost predicate AllAgree(l: Limit, c: Cache, log: Log, clock: Instant) {
    forall key :: Agrees(l, c, log, key, clock)
  }

  lemma AllAgreeNext(l: Limit, c: Cache, log: Log, key: Key, now: Instant, c': Cache, log': Log)
    requires l.Valid() && AllAgree(l, c, log, now) && Past(log, now) && Harmless(l, c, key, now)
    requires c' == CacheNext(l, c, key, now) && log' == LogNext(l.AsPolicy(), log, key, now)
    ensures AllAgree(l, c', log', now) && Past(log', now)
    ensures Allows(l, c, key, now) == Admits(l.AsPolicy(), log, key, now)
  {
    assert Agrees(l, c, log, key, now) && SameAt(l, c, log, key, now);
    forall k ensures Agrees(l, c', log', k, now) {
      assert Agrees(l, c, log, k, now);
      AgreesNext(l, c, log, key, now, k, c', log');
    }
  }

  lemma AgreeLater(l: Limit, c: Cache, log: Log, clock: Instant, now: Instant)
    requires AllAgree(l, c, log, clock) && Past(log, clock) && clock <= now
    ensures AllAgree(l, c, log, now) && Past(log, now)
  {
    forall k ensures Agrees(l, c, log, k, now) { assert Agrees(l, c, log, k, clock); }
  }

  /** As long as no eviction forgets an attempt still in its window, the expiring bounded cache decides exactly like a
      log that never forgets. */
  lemma {:induction false} CacheDecidesLikeLog(l: Limit, c: Cache, log: Log, run: seq<Attempt>, clock: Instant)
    requires l.Valid() && AllAgree(l, c, log, clock) && Past(log, clock)
    requires Clocked(run, clock) && HarmlessThroughout(l, c, run)
    ensures CacheDecisions(l, c, run) == LogDecisions(l.AsPolicy(), log, run)
    decreases |run|
  {
    if run != [] {
      var key, now := run[0].key, run[0].now;
      var c', log' := CacheNext(l, c, key, now), LogNext(l.AsPolicy(), log, key, now);
      AgreeLater(l, c, log, clock, now);
      AllAgreeNext(l, c, log, key, now, c', log');
      CacheDecidesLikeLog(l, c', log', run[1..], now);
    }
  }

  lemma NewCacheDecidesLikeLog(l: Limit, run: seq<Attempt>, clock: Instant)
    requires l.Valid() && Clocked(run, clock) && HarmlessThroughout(l, EMPTY_CACHE, run)
    ensures CacheDecisions(l, EMPTY_CACHE, run) == LogDecisions(l.AsPolicy(), map[], run)
  {
    forall k ensures Agrees(l, EMPTY_CACHE, map[], k, clock) {}
    CacheDecidesLikeLog(l, EMPTY_CACHE, map[], run, clock);
  }

  /** A new limiter: it decides like the log, so no window of any key ever holds more than the limit. */
  lemma FixedWindowGuarantee(l: Limit, run: seq<Attempt>, clock: Instant, key: Key)
    requires l.Valid() && Clocked(run, clock) && HarmlessThroughout(l, EMPTY_CACHE, run)
    ensures CacheDecisions(l, EMPTY_CACHE, run) == LogDecisions(l.AsPolicy(), map[], run)
    ensures DecidesBy(run, CacheDecisions(l, EMPTY_CACHE, run), l.maxAttempts, l.window)
    ensures Limited(l.AsPolicy(), Recorded(LogRun(l.AsPolicy(), map[], run), key))
  {
    NewCacheDecidesLikeLog(l, run, clock);
    NewLogDecides(l.AsPolicy(), run);
    WindowNeverExceeded(l.AsPolicy(), map[], run, key);
  }

  // ── The cache is bounded, so it does evict ─────────────────────────────

  /** Every cached key is on the list, and no more than `maxsize` are cached. */
  predicate Bounded(l: Limit, c: Cache) {
    (forall k :: k in c.entries ==> k in c.order) && |c.entries| <= l.maxsize
  }

  lemma {:induction false} KeepContains(order: seq<Key>, keys: set<Key>, k: Key)
    requires k in order && k in keys
    ensures k in Keep(order, keys)
    decreases |order|
  {
    if order[0] != k { KeepContains(order[1..], keys, k); }
  }

  lemma {:induction false} KeepWithin(order: seq<Key>, keys: set<Key>, k: Key)
    requires k in Keep(order, keys)
    ensures k in keys
    decreases |order|
  {
    if order != [] && k !in (if order[0] in keys then [order[0]] else []) { KeepWithin(order[1..], keys, k); }
  }

  /** A check of a key that does not fit evicts exactly one live key, another one. */
  lemma FullEvicts(l: Limit, c: Cache, key: Key, now: Instant)
    requires l.Valid() && Bounded(l, c)
    ensures HasRoom(l, c, key, now) <==> Evicted(l, c, key, now).None?
    ensures Evicted(l, c, key, now).Some? ==>
              Evicted(l, c, key, now).value in Live(c, now) && Evicted(l, c, key, now).value != key
  {
    var live := Live(c, now);
    if !HasRoom(l, c, key, now) {
      assert live.Keys != {};
      var k :| k in live.Keys;
      KeepContains(c.order, live.Keys - {key}, k);
      var order := Keep(c.order, live.Keys - {key});
      KeepWithin(c.order, live.Keys - {key}, order[0]);
    }
  }

  /** The cache never outgrows `maxsize`. */
  lemma BoundedNext(l: Limit, c: Cache, key: Key, now: Instant)
    requires l.Valid() && Bounded(l, c)
    ensures Bounded(l, CacheNext(l, c, key, now))
  {
    var c', live := CacheNext(l, c, key, now), Live(c, now);
    FullEvicts(l, c, key, now);
    SubsetSize(live.Keys, c.entries.Keys);
    var victim := Evicted(l, c, key, now);
    if victim.Some? {
      assert c'.entries.Keys == live.Keys - {victim.value} + {key};
    } else {
      assert c'.entries.Keys == live.Keys + {key};
    }
    forall k | k in c'.entries ensures k in c'.order {
      if k != key { KeepContains(c.order, live.Keys - {key}, k); }
    }
  }

  // ── It evicts the key unchecked for longest ────────────────────────────

  /** If both are cached, `a` expires no later than `b`. */
  predicate NoLater(entries: map<Key, Entry>, a: Key, b: Key) {
    a in entries && b in entries ==> entries[a].expires <= entries[b].expires
  }

  predicate Sorted(entries: map<Key, Entry>, order: seq<Key>) {
    forall i, j :: 0 <= i < j < |order| ==> NoLater(entries, order[i], order[j])
  }

  lemma {:induction false} KeepSubset(order: seq<Key>, keys: set<Key>, k: Key)
    requires k in Keep(order, keys)
    ensures k in order
    decreases |order|
  {
    if order != [] && k != order[0] { KeepSubset(order[1..], keys, k); }
  }

  lemma {:induction false} KeepSorted(entries: map<Key, Entry>, order: seq<Key>, keys: set<Key>)
    requires Sorted(entries, order)
    ensures Sorted(entries, Keep(order, keys))
    decreases |order|
  {
    if order != [] {
      var rest := Keep(order[1..], keys);
      KeepSorted(entries, order[1..], keys);
      forall j | 0 <= j < |rest| ensures NoLater(entries, order[0], rest[j]) {
        KeepSubset(order[1..], keys, rest[j]);
        var k :| 0 <= k < |order[1..]| && order[1..][k] == rest[j];
        assert order[k + 1] == rest[j];
      }
    }
  }

  /** The cache after the checks of `run`, and when a key was last checked in it. */
  function CacheRun(l: Limit, run: seq<Attempt>): Cache {
    if run == [] then EMPTY_CACHE else
      var here := run[|run| - 1];
      CacheNext(l, CacheRun(l, run[..|run| - 1]), here.key, here.now)
  }

  function LastCheck(run: seq<Attempt>, key: Key): Option<Instant> {
    if run == [] then None
    else if run[|run| - 1].key == key then Some(run[|run| - 1].now)
    else LastCheck(run[..|run| - 1], key)
  }

  predicate OneClock(run: seq<Attempt>) { forall i, j :: 0 <= i < j < |run| ==> run[i].now <= run[j].now }

  /** A cached key expires one lifetime after its last check, and the list is in that order. */
  ghost predicate InCheckOrder(l: Limit, c: Cache, run: seq<Attempt>) {
    && Bounded(l, c) && Sorted(c.entries, c.order)
    && forall k :: k in c.entries ==>
         LastCheck(run, k).Some? && c.entries[k].expires == LastCheck(run, k).value + l.Ttl()
  }

  lemma {:induction false} LastCheckInRun(run: seq<Attempt>, key: Key, now: Instant)
    requires LastCheck(run, key).Some? && forall i :: 0 <= i < |run| ==> run[i].now <= now
    ensures LastCheck(run, key).value <= now
  {
    if run[|run| - 1].key != key { LastCheckInRun(run[..|run| - 1], key, now); }
  }

  lemma AppendSorted(entries: map<Key, Entry>, order: seq<Key>, entries': map<Key, Entry>, key: Key)
    requires Sorted(entries, order) && key in entries'
    requires forall k :: k in order && k in entries' ==> k in entries && entries'[k] == entries[k]
    requires forall k :: k in entries' ==> entries'[k].expires <= entries'[key].expires
    ensures Sorted(entries', order + [key])
  {
    var all := order + [key];
    forall i, j | 0 <= i < j < |all| ensures NoLater(entries', all[i], all[j]) {
      assert all[i] == order[i];
      if j < |order| { assert NoLater(entries, order[i], order[j]) && order[i] in order && order[j] in order; }
    }
  }

  lemma TailSorted(entries: map<Key, Entry>, order: seq<Key>)
    requires Sorted(entries, order) && order != []
    ensures Sorted(entries, order[1..])
  {
    forall i, j | 0 <= i < j < |order[1..]| ensures NoLater(entries, order[1..][i], order[1..][j]) {
      assert NoLater(entries, order[i + 1], order[j + 1]);
    }
  }

  /** A write leaves the other entries alone, those it keeps. */
  lemma PutEntry(c: Cache, maxsize: int, key: Key, e: Entry, now: Instant, k: Key)
    requires k in Put(c, maxsize, key, e, now).entries
    ensures k == key ==> Put(c, maxsize, key, e, now).entries[k] == e
    ensures k != key ==> k in c.entries && Put(c, maxsize, key, e, now).entries[k] == c.entries[k]
  {
  }

  lemma WriteSorted(entries: map<Key, Entry>, live: map<Key, Entry>, order: seq<Key>, full: bool, key: Key, e: Entry)
    requires Sorted(entries, order) && key !in order
    requires forall k :: k in live ==> k in entries && live[k] == entries[k] && live[k].expires <= e.expires
    ensures Sorted(Write(live, order, full, key, e).entries, Write(live, order, full, key, e).order)
  {
    if full && order != [] {
      TailSorted(entries, order);
      AppendSorted(entries, order[1..], (live - {order[0]})[key := e], key);
    } else {
      AppendSorted(entries, order, live[key := e], key);
    }
  }

  lemma PutSorted(c: Cache, maxsize: int, key: Key, e: Entry, now: Instant, c': Cache)
    requires Sorted(c.entries, c.order) && c' == Put(c, maxsize, key, e, now)
    requires forall k :: k in c.entries ==> c.entries[k].expires <= e.expires
    ensures Sorted(c'.entries, c'.order)
  {
    var live := Live(c, now);
    var order := Keep(c.order, live.Keys - {key});
    KeepSorted(c.entries, c.order, live.Keys - {key});
    if key in order { KeepWithin(c.order, live.Keys - {key}, key); }
    WriteSorted(c.entries, live, order, key !in live && |live| + 1 > maxsize, key, e);
  }

  /** A check is a write of the checked key. */
  lemma CheckIsPut(l: Limit, c: Cache, key: Key, now: Instant)
    ensures CacheNext(l, c, key, now) == Put(c, l.maxsize, key, Entry(Kept(l, c, key, now), now + l.Ttl()), now)
  {
    assert Attempts(l, c, key, now) + [] == Attempts(l, c, key, now);
  }

  lemma InCheckOrderNext(l: Limit, run: seq<Attempt>, here: Attempt, c: Cache, e: Entry, c': Cache)
    requires l.Valid() && InCheckOrder(l, c, run) && forall i :: 0 <= i < |run| ==> run[i].now <= here.now
    requires e.expires == here.now + l.Ttl() && c' == Put(c, l.maxsize, here.key, e, here.now) && Bounded(l, c')
    ensures InCheckOrder(l, c', run + [here])
  {
    forall k | k in c.entries ensures c.entries[k].expires <= e.expires { LastCheckInRun(run, k, here.now); }
    PutSorted(c, l.maxsize, here.key, e, here.now, c');
    assert (run + [here])[..|run|] == run;
    forall k | k in c'.entries
      ensures LastCheck(run + [here], k).Some? && c'.entries[k].expires == LastCheck(run + [here], k).value + l.Ttl()
    {
      PutEntry(c, l.maxsize, here.key, e, here.now, k);
    }
  }

  lemma CheckInOrder(l: Limit, run: seq<Attempt>, here: Attempt, c: Cache)
    requires l.Valid() && InCheckOrder(l, c, run) && forall i :: 0 <= i < |run| ==> run[i].now <= here.now
    ensures InCheckOrder(l, CacheNext(l, c, here.key, here.now), run + [here])
  {
    var e := Entry(Kept(l, c, here.key, here.now), here.now + l.Ttl());
    BoundedNext(l, c, here.key, here.now);
    CheckIsPut(l, c, here.key, here.now);
    InCheckOrderNext(l, run, here, c, e, CacheNext(l, c, here.key, here.now));
  }

  lemma {:induction false} RunInCheckOrder(l: Limit, run: seq<Attempt>)
    requires l.Valid() && OneClock(run)
    ensures InCheckOrder(l, CacheRun(l, run), run)
  {
    if run != [] {
      var before, here := run[..|run| - 1], run[|run| - 1];
      RunInCheckOrder(l, before);
      CheckInOrder(l, before, here, CacheRun(l, before));
      assert before + [here] == run;
    }
  }

  /** On every run of one clock, a check that has to make room drops a key last checked no later than any other key
      still cached. */
  lemma EvictsLeastRecentlyChecked(l: Limit, run: seq<Attempt>, key: Key, now: Instant, victim: Key, k: Key)
    requires l.Valid() && OneClock(run) && Evicted(l, CacheRun(l, run), key, now) == Some(victim)
    requires k in Live(CacheRun(l, run), now) && k != key
    ensures LastCheck(run, victim).Some? && LastCheck(run, k).Some?
    ensures LastCheck(run, victim).value <= LastCheck(run, k).value
  {
    RunInCheckOrder(l, run);
    var c := CacheRun(l, run);
    var keys := Live(c, now).Keys - {key};
    FullEvicts(l, c, key, now);
    KeepContains(c.order, keys, k);
    KeepSorted(c.entries, c.order, keys);
    var order := Keep(c.order, keys);
    var i :| 0 <= i < |order| && order[i] == k;
    assert i > 0 ==> NoLater(c.entries, order[0], order[i]);
  }

  // ── What an eviction costs ─────────────────────────────────────────────

  lemma WrittenEntry(l: Limit, c: Cache, key: Key, now: Instant)
    requires Allows(l, c, key, now)
    ensures key in CacheNext(l, c, key, now).entries
    ensures CacheNext(l, c, key, now).entries[key] == Entry(Attempts(l, c, key, now) + [now], now + l.Ttl())
  {}

  /** Checking a key twice at one instant: the second check sees the first. */
  lemma SeenAgain(l: Limit, c: Cache, key: Key, now: Instant, c': Cache)
    requires l.Valid() && key in c'.entries
    requires c'.entries[key] == Entry(Attempts(l, c, key, now) + [now], now + l.Ttl())
    ensures Attempts(l, c', key, now) == Attempts(l, c, key, now) + [now]
  {
    SinceTwice(Stored(c, key, now), now - l.window, now - l.window);
    SinceAppend(Attempts(l, c, key, now), now, now - l.window);
  }

  lemma OneMoreSeen(l: Limit, c: Cache, key: Key, now: Instant, c': Cache)
    requires l.Valid() && Allows(l, c, key, now) && c' == CacheNext(l, c, key, now)
    ensures |Attempts(l, c', key, now)| == |Attempts(l, c, key, now)| + 1
  {
    WrittenEntry(l, c, key, now);
    SeenAgain(l, c, key, now, c');
  }

  /** One accepted attempt later the cache is still short by as many. */
  lemma StillShort(l: Limit, c: Cache, log: Log, key: Key, now: Instant, c': Cache, log': Log)
    requires l.Valid() && Allows(l, c, key, now) && Admits(l.AsPolicy(), log, key, now)
    requires |Attempts(l, c, key, now)| < |Since(Recorded(log, key), now - l.window)|
    requires c' == CacheNext(l, c, key, now) && log' == LogNext(l.AsPolicy(), log, key, now)
    ensures Allows(l, c', key, now)
    ensures |Attempts(l, c', key, now)| == |Attempts(l, c, key, now)| + 1
    ensures |Since(Recorded(log', key), now - l.window)| == |Since(Recorded(log, key), now - l.window)| + 1
  {
    OneMoreSeen(l, c, key, now, c');
    RecordedNext(l.AsPolicy(), log, Attempt(key, now), key, now - l.window);
  }

  lemma {:induction false} DecisionLengths(l: Limit, c: Cache, log: Log, run: seq<Attempt>)
    ensures |CacheDecisions(l, c, run)| == |run| == |LogDecisions(l.AsPolicy(), log, run)|
    decreases |run|
  {
    if run != [] {
      var key, now := run[0].key, run[0].now;
      DecisionLengths(l, CacheNext(l, c, key, now), LogNext(l.AsPolicy(), log, key, now), run[1..]);
    }
  }

  /** At the i-th attempt of the run the cache accepts what the log refuses. */
  ghost predicate Overshoots(l: Limit, c: Cache, log: Log, run: seq<Attempt>, i: nat) {
    && i < |CacheDecisions(l, c, run)| == |run| == |LogDecisions(l.AsPolicy(), log, run)|
    && CacheDecisions(l, c, run)[i] && !LogDecisions(l.AsPolicy(), log, run)[i]
  }

  lemma OvershootsNow(l: Limit, c: Cache, log: Log, here: Attempt)
    requires Allows(l, c, here.key, here.now) && !Admits(l.AsPolicy(), log, here.key, here.now)
    ensures Clocked([here], here.now) && Overshoots(l, c, log, [here], 0)
  {
    DecisionLengths(l, c, log, [here]);
    assert [here][1..] == [];
  }

  lemma ClockedCons(here: Attempt, rest: seq<Attempt>)
    requires Clocked(rest, here.now)
    ensures Clocked([here] + rest, here.now)
  {
    assert ([here] + rest)[1..] == rest;
  }

  lemma DecisionsCons(l: Limit, c: Cache, log: Log, here: Attempt, rest: seq<Attempt>)
    ensures CacheDecisions(l, c, [here] + rest)
            == [Allows(l, c, here.key, here.now)] + CacheDecisions(l, CacheNext(l, c, here.key, here.now), rest)
    ensures LogDecisions(l.AsPolicy(), log, [here] + rest)
            == [Admits(l.AsPolicy(), log, here.key, here.now)]
               + LogDecisions(l.AsPolicy(), LogNext(l.AsPolicy(), log, here.key, here.now), rest)
  {
    assert ([here] + rest)[1..] == rest;
  }

  lemma OvershootsLater(l: Limit, c: Cache, log: Log, here: Attempt, rest: seq<Attempt>, i: nat, c': Cache, log': Log)
    requires c' == CacheNext(l, c, here.key, here.now) && log' == LogNext(l.AsPolicy(), log, here.key, here.now)
    requires Overshoots(l, c', log', rest, i)
    ensures Overshoots(l, c, log, [here] + rest, i + 1)
  {
    DecisionsCons(l, c, log, here, rest);
  }

  /** Some run from `now` on has an attempt that the cache accepts and the log refuses. */
  ghost predicate MayOvershoot(l: Limit, c: Cache, log: Log, now: Instant) {
    exists run: seq<Attempt>, i: nat :: Clocked(run, now) && Overshoots(l, c, log, run, i)
  }

  lemma OvershootNow(l: Limit, c: Cache, log: Log, key: Key, now: Instant)
    requires Allows(l, c, key, now) && !Admits(l.AsPolicy(), log, key, now)
    ensures MayOvershoot(l, c, log, now)
  {
    OvershootsNow(l, c, log, Attempt(key, now));
  }

  lemma OvershootLater(l: Limit, c: Cache, log: Log, key: Key, now: Instant, c': Cache, log': Log)
    requires c' == CacheNext(l, c, key, now) && log' == LogNext(l.AsPolicy(), log, key, now)
    requires MayOvershoot(l, c', log', now)
    ensures MayOvershoot(l, c, log, now)
  {
    var rest: seq<Attempt>, i: nat :| Clocked(rest, now) && Overshoots(l, c', log', rest, i);
    OvershootsLater(l, c, log, Attempt(key, now), rest, i, c', log');
    ClockedCons(Attempt(key, now), rest);
  }

  /** A cache that has forgotten an attempt still in its window will accept one too many. */
  lemma {:induction false} Diverges(l: Limit, c: Cache, log: Log, key: Key, now: Instant)
    requires l.Valid() && Allows(l, c, key, now)
    requires |Attempts(l, c, key, now)| < |Since(Recorded(log, key), now - l.window)|
    ensures MayOvershoot(l, c, log, now)
    decreases l.maxAttempts - |Since(Recorded(log, key), now - l.window)|
  {
    if !Admits(l.AsPolicy(), log, key, now) {
      OvershootNow(l, c, log, key, now);
    } else {
      var c', log' := CacheNext(l, c, key, now), LogNext(l.AsPolicy(), log, key, now);
      StillShort(l, c, log, key, now, c', log');
      Diverges(l, c', log', key, now);
      OvershootLater(l, c, log, key, now, c', log');
    }
  }

  /** After a check that evicts, cache and log still agree if and only if the victim had no attempt left in its
      window. */
  lemma EvictionHarmlessIff(l: Limit, c: Cache, log: Log, key: Key, now: Instant, victim: Key, c': Cache, log': Log)
    requires l.Valid() && AllAgree(l, c, log, now) && Past(log, now) && Bounded(l, c)
    requires Evicted(l, c, key, now) == Some(victim)
    requires c' == CacheNext(l, c, key, now) && log' == LogNext(l.AsPolicy(), log, key, now)
    ensures AllAgree(l, c', log', now) <==> Attempts(l, c, victim, now) == []
  {
    FullEvicts(l, c, key, now);
    if Attempts(l, c, victim, now) == [] {
      AllAgreeNext(l, c, log, key, now, c', log');
    } else {
      assert Agrees(l, c, log, victim, now) && SameAt(l, c, log, victim, now);
      ForgottenShort(l, c, log, key, now, victim, c', log');
      assert !SameAt(l, c', log', victim, now);
      assert !Agrees(l, c', log', victim, now);
    }
  }

  lemma ForgottenShort(l: Limit, c: Cache, log: Log, key: Key, now: Instant, victim: Key, c': Cache, log': Log)
    requires SameAt(l, c, log, victim, now) && Evicted(l, c, key, now) == Some(victim) && victim != key
    requires c' == CacheNext(l, c, key, now) && Recorded(log', victim) == Recorded(log, victim)
    ensures Attempts(l, c', victim, now) == []
    ensures Since(Recorded(log', victim), now - l.window) == Attempts(l, c, victim, now)
  {
    OtherKeyKept(l, c, key, now, victim, now);
    NothingStored(l, c', victim, now);
  }

  lemma NothingStored(l: Limit, c: Cache, key: Key, now: Instant)
    requires Stored(c, key, now) == []
    ensures Attempts(l, c, key, now) == []
  {
  }

  /** When the victim did have one, checking it again at the same instant shows it: some run of the real cache,
      evicting as it goes, accepts an attempt that the log refuses. */
  lemma HarmfulEviction(l: Limit, c: Cache, log: Log, key: Key, now: Instant, victim: Key, c': Cache, log': Log)
    returns (run: seq<Attempt>, i: nat)
    requires l.Valid() && l.maxAttempts >= 1 && AllAgree(l, c, log, now) && Bounded(l, c)
    requires Evicted(l, c, key, now) == Some(victim) && Attempts(l, c, victim, now) != []
    requires c' == CacheNext(l, c, key, now) && log' == LogNext(l.AsPolicy(), log, key, now)
    ensures Clocked(run, now) && Overshoots(l, c', log', run, i)
  {
    FullEvicts(l, c, key, now);
    assert Agrees(l, c, log, victim, now) && SameAt(l, c, log, victim, now);
    ForgottenShort(l, c, log, key, now, victim, c', log');
    Diverges(l, c', log', victim, now);
    run, i :| Clocked(run, now) && Overshoots(l, c', log', run, i);
  }

  // ── Redis: the sorted-set script ───────────────────────────────────────

  /** Scores of the members, in insertion order; members are unique, so every ZADD adds one. */
  datatype ZSet = ZSet(scores: seq<Instant>, expireAt: Instant)

  type Redis = map<Key, ZSet>

  /** ZREMRANGEBYSCORE key lo hi */
  function RemRange(scores: seq<Instant>, lo: Instant, hi: Instant): seq<Instant> {
    if scores == [] then [] else
      RemRange(scores[..|scores| - 1], lo, hi)
      + if lo <= scores[|scores| - 1] <= hi then [] else [scores[|scores| - 1]]
  }

  lemma {:induction false} RemRangeIsSince(scores: seq<Instant>, hi: Instant)
    requires forall i :: 0 <= i < |scores| ==> scores[i] >= 0
    ensures RemRange(scores, 0, hi) == Since(scores, hi + 1)
  {
    if scores != [] { RemRangeIsSince(scores[..|scores| - 1], hi); }
  }

  datatype RedisLimit = RedisLimit(maxAttempts: int, windowSeconds: nat) {
    function WindowMs(): Instant { windowSeconds * 1000 }
    function AsPolicy(): Policy { Policy(maxAttempts, WindowMs(), 1) }
  }

  /** The members of a key that has not expired. */
  function Members(r: Redis, key: Key, now: Instant): seq<Instant> {
    if key in r && now < r[key].expireAt then r[key].scores else []
  }

  /** What the script leaves after trimming the set. */
  function Trimmed(l: RedisLimit, r: Redis, key: Key, now: Instant): seq<Instant> {
    RemRange(Members(r, key, now), 0, now - l.WindowMs())
  }

  /** The script returns 0. */
  predicate Passes(l: RedisLimit, r: Redis, key: Key, now: Instant) {
    |Trimmed(l, r, key, now)| < l.maxAttempts
  }

  /** The expiry is set only when the attempt is added; an emptied set is deleted. */
  function RedisNext(l: RedisLimit, r: Redis, key: Key, now: Instant): Redis {
    var scores := Trimmed(l, r, key, now);
    if Passes(l, r, key, now) then r[key := ZSet(scores + [now], now + l.WindowMs())]
    else if scores == [] then r - {key}
    else r[key := r[key].(scores := scores)]
  }

  class RedisRateLimiter {
    const limit: RedisLimit
    var keys: Redis

    constructor (limit: RedisLimit)
      ensures this.limit == limit && keys == map[]
    {
      this.limit := limit;
      keys := map[];
    }

    /** The script, command by command. */
    method Check(key: Key, now: nat) returns (ok: bool)
      modifies this`keys
      ensures ok == Passes(limit, old(keys), key, now)
      ensures keys == RedisNext(limit, old(keys), key, now)
      ensures ok ==> key in keys && keys[key].expireAt == now + limit.windowSeconds * 1000
    {
      var windowTtl := (limit.WindowMs() + 999) / 1000;
      var live := Members(keys, key, now);
      var kept := RemRange(live, 0, now - limit.WindowMs());
      if |kept| >= limit.maxAttempts {
        if kept == [] {
          keys := keys - {key};
        } else {
          keys := keys[key := keys[key].(scores := kept)];
        }
        return false;
      }
      assert windowTtl * 1000 == limit.WindowMs();
      keys := keys[key := ZSet(kept + [now], now + windowTtl * 1000)];
      return true;
    }
  }

  /** At time `t` the sorted set and the log show the same in-window attempts of `key`. */
  ghost predicate ShowsSame(l: RedisLimit, r: Redis, log: Log, key: Key, t: Instant) {
    Since(Members(r, key, t), t - l.WindowMs() + 1) == Since(Recorded(log, key), t - l.WindowMs() + 1)
  }

  /** The set holds every recorded attempt that can still count, and expires one window after the last. */
  ghost predicate Tracks(l: RedisLimit, r: Redis, log: Log, key: Key, clock: Instant) {
    && (forall i :: 0 <= i < |Recorded(log, key)| ==> 0 <= Recorded(log, key)[i] <= clock)
    && (key in r ==> forall i :: 0 <= i < |r[key].scores| ==> r[key].scores[i] >= 0)
    && forall t :: t >= clock ==> ShowsSame(l, r, log, key, t)
  }

  lemma {:induction false} SinceSubset(s: seq<Instant>, lo: Instant, low: Instant)
    requires forall i :: 0 <= i < |s| ==> s[i] >= low
    ensures forall i :: 0 <= i < |Since(s, lo)| ==> Since(s, lo)[i] >= low
  {
    if s != [] { SinceSubset(s[..|s| - 1], lo, low); }
  }

  lemma TrimmedSince(l: RedisLimit, r: Redis, log: Log, key: Key, now: Instant)
    requires ShowsSame(l, r, log, key, now)
    requires key in r ==> forall i :: 0 <= i < |r[key].scores| ==> r[key].scores[i] >= 0
    ensures Trimmed(l, r, key, now) == Since(Recorded(log, key), now - l.WindowMs() + 1)
  {
    RemRangeIsSince(Members(r, key, now), now - l.WindowMs());
  }

  lemma TrimmedIsRecorded(l: RedisLimit, r: Redis, log: Log, key: Key, now: Instant)
    requires Tracks(l, r, log, key, now)
    ensures Trimmed(l, r, key, now) == Since(Recorded(log, key), now - l.WindowMs() + 1)
    ensures forall i :: 0 <= i < |Trimmed(l, r, key, now)| ==> Trimmed(l, r, key, now)[i] >= 0
    ensures Passes(l, r, key, now) == Admits(l.AsPolicy(), log, key, now)
  {
    assert ShowsSame(l, r, log, key, now);
    TrimmedSince(l, r, log, key, now);
    SinceSubset(Recorded(log, key), now - l.WindowMs() + 1, 0);
  }

  lemma AcceptedShows(l: RedisLimit, rec: seq<Instant>, now: Instant, t: Instant, key: Key, r': Redis, log': Log)
    requires t >= now && forall i :: 0 <= i < |rec| ==> rec[i] <= now
    requires key in r' && r'[key] == ZSet(Since(rec, now - l.WindowMs() + 1) + [now], now + l.WindowMs())
    requires Recorded(log', key) == rec + [now]
    ensures ShowsSame(l, r', log', key, t)
  {
    var w := l.WindowMs();
    LaterView(rec, [now], now - w + 1, t - w + 1, t < now + w);
    assert Members(r', key, t) == if t < now + w then Since(rec, now - w + 1) + [now] else [];
  }

  lemma RefusedShows(l: RedisLimit, r: Redis, log: Log, key: Key, now: Instant, t: Instant, r': Redis)
    requires t >= now && ShowsSame(l, r, log, key, t) && ShowsSame(l, r, log, key, now)
    requires Trimmed(l, r, key, now) == Since(Recorded(log, key), now - l.WindowMs() + 1)
    requires !Passes(l, r, key, now) && r' == RedisNext(l, r, key, now)
    ensures ShowsSame(l, r', log, key, t)
  {
    var w := l.WindowMs();
    SinceTwice(Recorded(log, key), now - w + 1, t - w + 1);
    if Trimmed(l, r, key, now) != [] {
      assert Members(r', key, t) == if t < r[key].expireAt then Trimmed(l, r, key, now) else [];
      assert t >= r[key].expireAt ==> Members(r, key, t) == [];
    } else {
      assert Members(r', key, t) == [];
    }
  }

  /** What the key shows at `t` after the check is what the log shows. */
  lemma CheckedShows(l: RedisLimit, r: Redis, log: Log, key: Key, now: Instant, t: Instant, r': Redis, log': Log)
    requires Tracks(l, r, log, key, now) && t >= now
    requires r' == RedisNext(l, r, key, now) && log' == LogNext(l.AsPolicy(), log, key, now)
    ensures ShowsSame(l, r', log', key, t)
  {
    TrimmedIsRecorded(l, r, log, key, now);
    if Passes(l, r, key, now) {
      AcceptedShows(l, Recorded(log, key), now, t, key, r', log');
    } else {
      assert ShowsSame(l, r, log, key, now) && ShowsSame(l, r, log, key, t);
      RefusedShows(l, r, log, key, now, t, r');
    }
  }

  lemma CheckedBounds(l: RedisLimit, r: Redis, log: Log, key: Key, now: Instant, r': Redis, log': Log)
    requires Tracks(l, r, log, key, now) && now >= 0
    requires r' == RedisNext(l, r, key, now) && log' == LogNext(l.AsPolicy(), log, key, now)
    ensures forall i :: 0 <= i < |Recorded(log', key)| ==> 0 <= Recorded(log', key)[i] <= now
    ensures key in r' ==> forall i :: 0 <= i < |r'[key].scores| ==> r'[key].scores[i] >= 0
  {
    TrimmedIsRecorded(l, r, log, key, now);
  }

  lemma CheckedTracks(l: RedisLimit, r: Redis, log: Log, key: Key, now: Instant, r': Redis, log': Log)
    requires Tracks(l, r, log, key, now) && now >= 0
    requires r' == RedisNext(l, r, key, now) && log' == LogNext(l.AsPolicy(), log, key, now)
    ensures Tracks(l, r', log', key, now)
  {
    CheckedBounds(l, r, log, key, now, r', log');
    forall t | t >= now ensures ShowsSame(l, r', log', key, t) {
      CheckedShows(l, r, log, key, now, t, r', log');
    }
  }

  lemma OtherTracks(l: RedisLimit, r: Redis, log: Log, k: Key, now: Instant, r': Redis, log': Log)
    requires Tracks(l, r, log, k, now)
    requires (k in r' <==> k in r) && (k in r ==> r'[k] == r[k]) && Recorded(log', k) == Recorded(log, k)
    ensures Tracks(l, r', log', k, now)
  {
    forall t | t >= now ensures ShowsSame(l, r', log', k, t) {
      assert ShowsSame(l, r, log, k, t);
      assert Members(r', k, t) == Members(r, k, t);
    }
  }

  lemma TracksNext(l: RedisLimit, r: Redis, log: Log, key: Key, now: Instant, k: Key)
    requires Tracks(l, r, log, key, now) && Tracks(l, r, log, k, now) && now >= 0
    ensures Tracks(l, RedisNext(l, r, key, now), LogNext(l.AsPolicy(), log, key, now), k, now)
  {
    var r', log' := RedisNext(l, r, key, now), LogNext(l.AsPolicy(), log, key, now);
    if k == key { CheckedTracks(l, r, log, key, now, r', log'); } else { OtherTracks(l, r, log, k, now, r', log'); }
  }

  function RedisDecisions(l: RedisLimit, r: Redis, run: seq<Attempt>): seq<bool>
    decreases |run|
  {
    if run == [] then [] else
      [Passes(l, r, run[0].key, run[0].now)] + RedisDecisions(l, RedisNext(l, r, run[0].key, run[0].now), run[1..])
  }

  ghost predicate AllTrack(l: RedisLimit, r: Redis, log: Log, clock: Instant) {
    forall key :: Tracks(l, r, log, key, clock)
  }

  /** The trimming and expiring script decides exactly like a log that never forgets, on every run. */
  lemma {:induction false} RedisDecidesLikeLog(l: RedisLimit, r: Redis, log: Log, run: seq<Attempt>, clock: Instant)
    requires AllTrack(l, r, log, clock) && clock >= 0 && Clocked(run, clock)
    ensures RedisDecisions(l, r, run) == LogDecisions(l.AsPolicy(), log, run)
    decreases |run|
  {
    if run != [] {
      var key, now := run[0].key, run[0].now;
      assert Tracks(l, r, log, key, clock);
      TrimmedIsRecorded(l, r, log, key, now);
      forall k ensures Tracks(l, RedisNext(l, r, key, now), LogNext(l.AsPolicy(), log, key, now), k, now) {
        assert Tracks(l, r, log, k, clock);
        TracksNext(l, r, log, key, now, k);
      }
      RedisDecidesLikeLog(l, RedisNext(l, r, key, now), LogNext(l.AsPolicy(), log, key, now), run[1..], now);
    }
  }

  lemma NewRedisDecidesLikeLog(l: RedisLimit, run: seq<Attempt>)
    requires Clocked(run, 0)
    ensures RedisDecisions(l, map[], run) == LogDecisions(l.AsPolicy(), map[], run)
  {
    forall k ensures Tracks(l, map[], map[], k, 0) {}
    RedisDecidesLikeLog(l, map[], map[], run, 0);
  }

  /** A new Redis limiter: same guarantee, with the window open at its old end. */
  lemma RedisGuarantee(l: RedisLimit, run: seq<Attempt>, key: Key)
    requires Clocked(run, 0)
    ensures RedisDecisions(l, map[], run) == LogDecisions(l.AsPolicy(), map[], run)
    ensures DecidesBy(run, RedisDecisions(l, map[], run), l.maxAttempts, l.windowSeconds * 1000 - 1)
    ensures Limited(l.AsPolicy(), Recorded(LogRun(l.AsPolicy(), map[], run), key))
  {
    NewRedisDecidesLikeLog(l, run);
    NewLogDecides(l.AsPolicy(), run);
    WindowNeverExceeded(l.AsPolicy(), map[], run, key);
  }

  // ── The two boundaries ─────────────────────────────────────────────────

  function Closed(maxAttempts: int, window: Instant): Policy { Policy(maxAttempts, window, 0) }
  function Open(maxAttempts: int, window: Instant): Policy { Policy(maxAttempts, window, 1) }

  lemma {:induction false} BoundaryMatters(s: seq<Instant>, lo: Instant)
    ensures |Since(s, lo + 1)| <= |Since(s, lo)|
    ensures lo !in s <==> |Since(s, lo)| == |Since(s, lo + 1)|
    ensures lo !in s ==> Since(s, lo) == Since(s, lo + 1)
  {
    if s != [] {
      BoundaryMatters(s[..|s| - 1], lo);
      assert s == s[..|s| - 1] + [s[|s| - 1]];
    }
  }

  /** On one log, the two differ exactly when the attempts one window old make up the difference, and then
      it is the in-process limiter that refuses. */
  lemma LimitersDifferIff(maxAttempts: int, window: Instant, log: Log, key: Key, now: Instant)
    ensures var inWindow := |Since(Recorded(log, key), now - window + 1)|;
            var onBoundary := |Since(Recorded(log, key), now - window)| - inWindow;
            && (Admits(Closed(maxAttempts, window), log, key, now) ==> Admits(Open(maxAttempts, window), log, key, now))
            && (Admits(Closed(maxAttempts, window), log, key, now) != Admits(Open(maxAttempts, window), log, key, now)
                <==> inWindow < maxAttempts <= inWindow + onBoundary)
            && (onBoundary > 0 <==> now - window in Recorded(log, key))
  {
    BoundaryMatters(Recorded(log, key), now - window);
  }

  /** At this attempt the attempts exactly one window old tip the decision. */
  predicate BoundaryDecides(maxAttempts: int, window: Instant, log: Log, key: Key, now: Instant) {
    |Since(Recorded(log, key), now - window + 1)| < maxAttempts <= |Since(Recorded(log, key), now - window)|
  }

  /** It never comes to that along the run. */
  predicate BoundaryNeverDecides(maxAttempts: int, window: Instant, log: Log, run: seq<Attempt>)
    decreases |run|
  {
    run != [] ==>
      && !BoundaryDecides(maxAttempts, window, log, run[0].key, run[0].now)
      && BoundaryNeverDecides(maxAttempts, window, LogNext(Closed(maxAttempts, window), log, run[0].key, run[0].now),
                              run[1..])
  }

  lemma {:induction false} LogsAgreeIff(maxAttempts: int, window: Instant, log: Log, run: seq<Attempt>)
    ensures LogDecisions(Closed(maxAttempts, window), log, run) == LogDecisions(Open(maxAttempts, window), log, run)
            <==> BoundaryNeverDecides(maxAttempts, window, log, run)
    decreases |run|
  {
    if run != [] {
      var key, now := run[0].key, run[0].now;
      var closed := LogDecisions(Closed(maxAttempts, window), log, run);
      var open := LogDecisions(Open(maxAttempts, window), log, run);
      LimitersDifferIff(maxAttempts, window, log, key, now);
      if BoundaryDecides(maxAttempts, window, log, key, now) {
        assert closed[0] != open[0];
      } else {
        var log' := LogNext(Closed(maxAttempts, window), log, key, now);
        assert log' == LogNext(Open(maxAttempts, window), log, key, now);
        LogsAgreeIff(maxAttempts, window, log', run[1..]);
        assert closed == open <==> closed[1..] == open[1..];
      }
    }
  }

  /** The two limiters, new, with one window and limit, over a run that forgets nothing: they take the same decisions
      if and only if no attempt finds attempts exactly one window old tipping the balance. */
  lemma LimitersAgreeIff(l: Limit, rl: RedisLimit, run: seq<Attempt>)
    requires l.Valid() && l.maxAttempts == rl.maxAttempts && l.window == rl.WindowMs()
    requires Clocked(run, 0) && HarmlessThroughout(l, EMPTY_CACHE, run)
    ensures CacheDecisions(l, EMPTY_CACHE, run) == RedisDecisions(rl, map[], run)
            <==> BoundaryNeverDecides(l.maxAttempts, l.window, map[], run)
  {
    NewCacheDecidesLikeLog(l, run, 0);
    NewRedisDecidesLikeLog(rl, run);
    LogsAgreeIff(l.maxAttempts, l.window, map[], run);
  }
}
