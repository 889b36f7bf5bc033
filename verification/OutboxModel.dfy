/**
  The `outbox_messages` and `processed_outbox_messages` tables: rows, the claim
  query, the three `mark_*` updates, the retry backoff and the send-email
  handler with its dedup insert.
*/
module OutboxModel {
  import opened Prelude
  import OrderedSelect

  type Id = nat

  datatype Status = Pending | Delivered | Failed

  /** What the producer's payload holds under the reserved key `__outbox_message_id`. */
  datatype MessageKey = Absent | Uuid(id: Id) | Malformed | NotString

  datatype Row = Row(
    messageKey: MessageKey,
    availableAt: Instant,
    status: Status,
    attempts: nat,
    lastError: Option<string>,
    lockedAt: Option<Instant>,
    lockedBy: Option<string>,
    deliveredAt: Option<Instant>,
    failedAt: Option<Instant>)

  type Table = map<Id, Row>

  /** A claimed row as the worker holds it: a copy taken when it was claimed. */
  datatype Snapshot = Snapshot(id: Id, row: Row)

  datatype Config = Config(batchSize: int, maxAttempts: int, retryBase: Instant, retryMax: Instant) {
    /** The settings the validator accepts. */
    predicate Valid() {
      batchSize > 0 && maxAttempts > 0 && 0 < retryBase <= retryMax
    }
    /** Age at which a dedup mark may be pruned. */
    function DedupRetention(): Instant { 2 * retryMax }
  }

  function NewRow(messageKey: MessageKey, availableAt: Instant): (row: Row)
    ensures row.status == Pending && row.attempts == 0
    ensures row.messageKey == messageKey && row.availableAt == availableAt
    ensures row.lastError.None? && row.lockedAt.None? && row.lockedBy.None?
    ensures row.deliveredAt.None? && row.failedAt.None?
  {
    Row(messageKey, availableAt, Pending, 0, None, None, None, None, None)
  }

  // ── Claim ──────────────────────────────────────────────────────────────

  function Due(rows: Table, now: Instant): set<Id> {
    set id | id in rows && rows[id].status == Pending && rows[id].availableAt <= now
  }

  /** ORDER BY available_at, id */
  function DueRank(rows: Table): Id -> OrderedSelect.Rank {
    (id: Id) => if id in rows then (rows[id].availableAt, id) else (0, id)
  }

  function ClaimIds(rows: Table, now: Instant, limit: int): (ids: seq<Id>)
    ensures Elements(ids) <= Due(rows, now)
    ensures |ids| == if limit <= 0 then 0 else Min(limit, |Due(rows, now)|)
    ensures OrderedSelect.Ascending(DueRank(rows), ids)
    ensures forall x, y :: x in ids && y in Due(rows, now) && y !in ids
                           ==> OrderedSelect.Less(DueRank(rows)(x), DueRank(rows)(y))
  {
    if limit <= 0 then [] else OrderedSelect.Select(DueRank(rows), Due(rows, now), limit)
  }

  lemma ClaimIdsDistinct(rows: Table, now: Instant, limit: int)
    ensures var ids := ClaimIds(rows, now, limit);
            && (forall i, j :: 0 <= i < j < |ids| ==> ids[i] != ids[j])
            && |Elements(ids)| == |ids|
            && (forall id :: id in ids ==> id in Due(rows, now))
  {
    var ids := ClaimIds(rows, now, limit);
    OrderedSelect.AscendingDistinct(DueRank(rows), ids);
    assert forall id :: id in ids ==> id in Elements(ids);
  }

  predicate DueRow(rows: Table, now: Instant, id: Id) {
    id in rows && rows[id].status == Pending && rows[id].availableAt <= now
  }

  /** By (available_at, id). */
  predicate Earlier(rows: Table, a: Id, b: Id)
    requires a in rows && b in rows
  {
    rows[a].availableAt < rows[b].availableAt || (rows[a].availableAt == rows[b].availableAt && a < b)
  }

  /** `ids` are the first `limit` pending rows due at `now`, in order; fewer only if there are no more. */
  ghost predicate IsClaim(rows: Table, now: Instant, limit: int, ids: seq<Id>) {
    && |ids| <= (if limit <= 0 then 0 else limit)
    && (forall i :: 0 <= i < |ids| ==> DueRow(rows, now, ids[i]))
    && (forall i, j :: 0 <= i < j < |ids| ==> Earlier(rows, ids[i], ids[j]))
    && forall x :: DueRow(rows, now, x) && x !in ids && limit > 0 ==>
         |ids| == limit && forall i :: 0 <= i < |ids| ==> Earlier(rows, ids[i], x)
  }

  lemma ClaimedAreDue(rows: Table, now: Instant, limit: int, ids: seq<Id>, i: nat)
    requires ids == ClaimIds(rows, now, limit) && i < |ids|
    ensures DueRow(rows, now, ids[i])
  {
    assert ids[i] in Elements(ids);
  }

  lemma ClaimedInOrder(rows: Table, now: Instant, limit: int, ids: seq<Id>, i: nat, j: nat)
    requires ids == ClaimIds(rows, now, limit) && i < j < |ids|
    ensures ids[i] in rows && ids[j] in rows && Earlier(rows, ids[i], ids[j])
  {
    ClaimedAreDue(rows, now, limit, ids, i);
    ClaimedAreDue(rows, now, limit, ids, j);
    assert OrderedSelect.Less(DueRank(rows)(ids[i]), DueRank(rows)(ids[j]));
  }

  lemma ClaimedFirst(rows: Table, now: Instant, limit: int, ids: seq<Id>, x: Id, i: nat)
    requires ids == ClaimIds(rows, now, limit) && i < |ids| && DueRow(rows, now, x) && x !in ids
    ensures ids[i] in rows && Earlier(rows, ids[i], x)
  {
    ClaimedAreDue(rows, now, limit, ids, i);
    assert x in Due(rows, now) && ids[i] in ids;
    assert OrderedSelect.Less(DueRank(rows)(ids[i]), DueRank(rows)(x));
  }

  lemma ClaimFull(rows: Table, now: Instant, limit: int, ids: seq<Id>, x: Id)
    requires ids == ClaimIds(rows, now, limit) && DueRow(rows, now, x) && x !in ids && limit > 0
    ensures |ids| == limit
  {
    ClaimIdsDistinct(rows, now, limit);
    assert x in Due(rows, now) && x !in Elements(ids);
    SubsetSize(Elements(ids) + {x}, Due(rows, now));
  }

  lemma ClaimMeaning(rows: Table, now: Instant, limit: int, ids: seq<Id>)
    requires ids == ClaimIds(rows, now, limit)
    ensures IsClaim(rows, now, limit, ids)
  {
    forall i | 0 <= i < |ids| ensures DueRow(rows, now, ids[i]) { ClaimedAreDue(rows, now, limit, ids, i); }
    forall i, j | 0 <= i < j < |ids| ensures Earlier(rows, ids[i], ids[j]) {
      ClaimedInOrder(rows, now, limit, ids, i, j);
    }
    forall x | DueRow(rows, now, x) && x !in ids && limit > 0
      ensures |ids| == limit && forall i :: 0 <= i < |ids| ==> Earlier(rows, ids[i], x)
    {
      ClaimFull(rows, now, limit, ids, x);
      forall i | 0 <= i < |ids| ensures Earlier(rows, ids[i], x) { ClaimedFirst(rows, now, limit, ids, x, i); }
    }
  }

  function Lock(row: Row, now: Instant, worker: string): Row {
    row.(lockedAt := Some(now), lockedBy := Some(worker))
  }

  function Stamp(rows: Table, ids: seq<Id>, now: Instant, worker: string): Table {
    map id | id in rows :: if id in ids then Lock(rows[id], now, worker) else rows[id]
  }

  function Snapshots(rows: Table, ids: seq<Id>, now: Instant, worker: string): (snaps: seq<Snapshot>)
    requires forall id :: id in ids ==> id in rows
    ensures |snaps| == |ids|
    ensures forall i :: 0 <= i < |ids| ==> snaps[i] == Snapshot(ids[i], Lock(rows[ids[i]], now, worker))
  {
    seq(|ids|, i requires 0 <= i < |ids| => Snapshot(ids[i], Lock(rows[ids[i]], now, worker)))
  }

  // ── Settlement of one dispatched row ───────────────────────────────────

  function Pow2(n: nat): (r: nat)
    ensures r >= 1
  {
    if n == 0 then 1 else 2 * Pow2(n - 1)
  }

  /** Delay before the retry that follows the `attempts`-th attempt. */
  function Backoff(cfg: Config, attempts: nat): Instant
    requires attempts >= 1
  {
    Min(cfg.retryBase * Pow2(attempts - 1), cfg.retryMax)
  }

  lemma {:induction false} Pow2Grows(m: nat, n: nat)
    requires m <= n
    ensures Pow2(m) <= Pow2(n)
  {
    if m < n { Pow2Grows(m, n - 1); }
  }

  /** Delays stay between the base and the cap and never shrink from one retry to the next. */
  lemma BackoffBounds(cfg: Config, m: nat, n: nat)
    requires cfg.Valid() && 1 <= m <= n
    ensures cfg.retryBase <= Backoff(cfg, m) <= Backoff(cfg, n) <= cfg.retryMax
  {
    Pow2Grows(m - 1, n - 1);
    assert cfg.retryBase * Pow2(m - 1) <= cfg.retryBase * Pow2(n - 1);
    assert cfg.retryBase * 1 <= cfg.retryBase * Pow2(m - 1);
  }

  /** The delay starts at the base and doubles with every retry until it reaches the cap. */
  lemma BackoffDoubles(cfg: Config, n: nat)
    requires cfg.Valid() && n >= 1
    ensures Backoff(cfg, 1) == cfg.retryBase
    ensures Backoff(cfg, n + 1) == Min(2 * Backoff(cfg, n), cfg.retryMax)
  {
    assert Pow2(0) == 1 && cfg.retryBase * 1 == cfg.retryBase;
    assert Pow2(n) == 2 * Pow2(n - 1);
    assert cfg.retryBase * (2 * Pow2(n - 1)) == 2 * (cfg.retryBase * Pow2(n - 1));
  }

  function MarkDelivered(row: Row, at: Instant): Row {
    row.(status := Delivered, deliveredAt := Some(at), lockedAt := None, lockedBy := None)
  }

  function MarkRetry(row: Row, attempts: nat, error: string, availableAt: Instant): Row {
    row.(attempts := attempts, lastError := Some(error), availableAt := availableAt,
         lockedAt := None, lockedBy := None)
  }

  function MarkFailed(row: Row, attempts: nat, error: string, at: Instant): Row {
    row.(status := Failed, attempts := attempts, lastError := Some(error), failedAt := Some(at),
         lockedAt := None, lockedBy := None)
  }

  /** The write that follows one `enqueue` call; `attempts` is the claimed snapshot's count. */
  function SettleRow(cfg: Config, row: Row, attempts: nat, now: Instant, raised: Option<string>): Row {
    match raised
    case None => MarkDelivered(row, now)
    case Some(error) =>
      if attempts + 1 >= cfg.maxAttempts
      then MarkFailed(row, attempts + 1, error, now)
      else MarkRetry(row, attempts + 1, error, now + Backoff(cfg, attempts + 1))
  }

  /** UPDATE ... WHERE id = :id, a no-op when the row is gone. */
  function Settle(cfg: Config, rows: Table, snap: Snapshot, now: Instant, raised: Option<string>): Table {
    if snap.id in rows
    then rows[snap.id := SettleRow(cfg, rows[snap.id], snap.row.attempts, now, raised)]
    else rows
  }

  /** A settlement writes its own row and no other: delivered if the call returned, failed if that was the last attempt
      of the snapshot, and otherwise due again after the backoff with the status left alone. */
  lemma SettleMeaning(cfg: Config, rows: Table, snap: Snapshot, now: Instant, raised: Option<string>)
    ensures var rows' := Settle(cfg, rows, snap, now, raised);
            && rows'.Keys == rows.Keys && (forall id :: id in rows && id != snap.id ==> rows'[id] == rows[id])
            && (snap.id in rows ==>
                var row, row', next := rows[snap.id], rows'[snap.id], snap.row.attempts + 1;
                && row'.lockedAt == None && row'.lockedBy == None && row'.messageKey == row.messageKey
                && (raised.None? ==> row'.status == Delivered && row'.deliveredAt == Some(now)
                                     && row'.attempts == row.attempts && row'.lastError == row.lastError
                                     && row'.failedAt == row.failedAt && row'.availableAt == row.availableAt)
                && (raised.Some? ==> row'.attempts == next && row'.lastError == raised
                                     && row'.deliveredAt == row.deliveredAt)
                && (raised.Some? && next >= cfg.maxAttempts ==>
                    row'.status == Failed && row'.failedAt == Some(now) && row'.availableAt == row.availableAt)
                && (raised.Some? && next < cfg.maxAttempts ==>
                    row'.status == row.status && row'.failedAt == row.failedAt
                    && row'.availableAt == now + Backoff(cfg, next)))
  {
  }

  /** Operator re-arm: every failed row goes back to pending with a fresh budget. */
  function RetryFailed(rows: Table, now: Instant): Table {
    map id | id in rows ::
      if rows[id].status == Failed
      then rows[id].(status := Pending, attempts := 0, lastError := None, availableAt := now,
                     lockedAt := None, lockedBy := None)
      else rows[id]
  }

  /** A re-arm changes exactly the failed rows: pending, due now, with a fresh budget and no error or lock. */
  lemma RearmMeaning(rows: Table, now: Instant, id: Id)
    requires id in rows
    ensures RetryFailed(rows, now).Keys == rows.Keys
    ensures rows[id].status != Failed ==> RetryFailed(rows, now)[id] == rows[id]
    ensures rows[id].status == Failed ==>
              var row := RetryFailed(rows, now)[id];
              && row.status == Pending && row.attempts == 0 && row.availableAt == now && row.lastError == None
              && row.lockedAt == None && row.lockedBy == None && row.messageKey == rows[id].messageKey
              && row.deliveredAt == rows[id].deliveredAt && row.failedAt == rows[id].failedAt
  {
  }

  // ── Handler ────────────────────────────────────────────────────────────

  /** The id the handler dedups on, or None when it runs without dedup. */
  function DedupKey(id: Id, messageKey: MessageKey): Option<Id> {
    match messageKey
    case Absent => Some(id)
    case Uuid(k) => Some(k)
    case Malformed => None
    case NotString => None
  }

  /** What the environment does to the send that follows a successful dedup insert. */
  datatype SendResult = Sent | SendError(error: string) | FieldMissing(error: string)

  /** One handler invocation: it raises before the insert, or inserts at `at` and goes on. */
  datatype Handling = RaisesEarly(error: string) | Runs(at: Instant, result: SendResult)

  type Marks = map<Id, Instant>

  /** `sends` is the multiset of ids the mail port was called for. */
  datatype Handled = Handled(marks: Marks, sends: multiset<Id>, raised: Option<string>)

  /** `enqueue` with the handler run inline. */
  function Handle(marks: Marks, sends: multiset<Id>, snap: Snapshot, h: Handling): Handled {
    match h
    case RaisesEarly(error) => Handled(marks, sends, Some(error))
    case Runs(at, result) =>
      var key := DedupKey(snap.id, snap.row.messageKey);
      if key.Some? && key.value in marks then Handled(marks, sends, None)
      else
        var marks' := if key.Some? then marks[key.value := at] else marks;
        match result
        case Sent => Handled(marks', sends + multiset{snap.id}, None)
        case SendError(error) => Handled(marks', sends + multiset{snap.id}, Some(error))
        case FieldMissing(error) => Handled(marks', sends, Some(error))
  }

  /** A call that raises before the insert does nothing else. */
  lemma EarlyRaiseMeaning(marks: Marks, sends: multiset<Id>, snap: Snapshot, error: string)
    ensures Handle(marks, sends, snap, RaisesEarly(error)) == Handled(marks, sends, Some(error))
  {
  }

  /** With a key, which is the row's own id unless the payload carries one: a marked key returns at once; otherwise the
      mark is written before anything else, and the mail port is called unless a field is missing. */
  lemma KeyedMeaning(marks: Marks, sends: multiset<Id>, snap: Snapshot, at: Instant, result: SendResult, k: Id)
    requires snap.row.messageKey == Uuid(k) || (snap.row.messageKey == Absent && k == snap.id)
    ensures var r := Handle(marks, sends, snap, Runs(at, result));
            if k in marks then r == Handled(marks, sends, None)
            else
              && r.marks == marks[k := at]
              && r.sends == sends + (if result.FieldMissing? then multiset{} else multiset{snap.id})
              && (result.Sent? <==> r.raised.None?) && (!result.Sent? ==> r.raised == Some(result.error))
  {
  }

  /** Without a usable key the handler runs undeduplicated and leaves no mark. */
  lemma KeylessMeaning(marks: Marks, sends: multiset<Id>, snap: Snapshot, at: Instant, result: SendResult)
    requires snap.row.messageKey == Malformed || snap.row.messageKey == NotString
    ensures var r := Handle(marks, sends, snap, Runs(at, result));
            && r.marks == marks
            && r.sends == sends + (if result.FieldMissing? then multiset{} else multiset{snap.id})
            && (result.Sent? <==> r.raised.None?) && (!result.Sent? ==> r.raised == Some(result.error))
  {
  }

  // ── Retention ──────────────────────────────────────────────────────────

  function PruneMarks(marks: Marks, cutoff: Instant): Marks {
    map k | k in marks && marks[k] >= cutoff :: marks[k]
  }

  predicate PrunableRow(row: Row, deliveredCutoff: Instant, failedCutoff: Instant) {
    || (row.status == Delivered && row.deliveredAt.Some? && row.deliveredAt.value < deliveredCutoff)
    || (row.status == Failed && row.failedAt.Some? && row.failedAt.value < failedCutoff)
  }

  function PruneRows(rows: Table, deliveredCutoff: Instant, failedCutoff: Instant): Table {
    map id | id in rows && !PrunableRow(rows[id], deliveredCutoff, failedCutoff) :: rows[id]
  }
}
