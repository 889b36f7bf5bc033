/**
  Dedup marks are pruned `2 * retryMax` after they were written. This module
  proves when that is late enough: in every run of one worker's ticks, prunes,
  re-arms and producer inserts in which no deadline set by a mark is missed,
  the mail port is called at most once per row.
*/
module OutboxRetention {
  import opened Prelude
  import opened OutboxModel
  import opened OutboxRelay
  import opened OutboxProgress
  import F = OutboxFairness
  import OutboxPrune

  datatype Op =
    | Enqueue(id: Id, availableAt: Instant)
    | Relay(tick: Tick)
    | Prune(at: Instant, deliveredCutoff: Instant, failedCutoff: Instant)
    | Rearm(now: Instant)

  /** The tables plus every row id ever used. */
  datatype Ledger = Ledger(w: World, known: set<Id>)

  const EMPTY_LEDGER := Ledger(World(map[], map[], multiset{}), {})

  function PruneWorld(cfg: Config, w: World, at: Instant, deliveredCutoff: Instant, failedCutoff: Instant): World {
    World(PruneRows(w.rows, deliveredCutoff, failedCutoff), PruneMarks(w.marks, at - cfg.DedupRetention()), w.sends)
  }

  /** The sweep with the configured retention, twice the backoff cap, is the prune of these runs. */
  lemma SweepIsPrune(cfg: Config, w: World, now: Instant, keepDelivered: Instant, keepFailed: Instant, limit: int,
                     t': OutboxPrune.Tables, sum: OutboxPrune.PruneSummary)
    requires limit > 0
    requires OutboxPrune.Swept(OutboxPrune.Tables(w.rows, w.marks), now - keepDelivered, now - keepFailed,
                               now - 2 * cfg.retryMax, limit, t', sum)
    ensures World(t'.rows, t'.marks, w.sends) == PruneWorld(cfg, w, now, now - keepDelivered, now - keepFailed)
  {
  }

  function Apply(cfg: Config, l: Ledger, op: Op): Ledger {
    match op
    case Enqueue(id, at) => Ledger(l.w.(rows := l.w.rows[id := NewRow(Absent, at)]), l.known + {id})
    case Relay(t) => l.(w := RunTick(cfg, l.w, t))
    case Prune(at, dc, fc) => l.(w := PruneWorld(cfg, l.w, at, dc, fc))
    case Rearm(now) => l.(w := l.w.(rows := RetryFailed(l.w.rows, now)))
  }

  /** A producer's insert adds its row, pending and untried, and a re-arm makes exactly the failed rows pending and due
      now; neither touches a mark, a send or any other row. */
  lemma OpMeaning(cfg: Config, l: Ledger, op: Op, id: Id)
    requires op.Enqueue? || op.Rearm?
    ensures var w, w' := l.w, Apply(cfg, l, op).w;
            && w'.marks == w.marks && w'.sends == w.sends
            && (op.Enqueue? ==>
                && w'.rows.Keys == w.rows.Keys + {op.id} && (id in w.rows && id != op.id ==> w'.rows[id] == w.rows[id])
                && w'.rows[op.id].status == Pending && w'.rows[op.id].attempts == 0
                && w'.rows[op.id].availableAt == op.availableAt && w'.rows[op.id].messageKey == Absent)
            && (op.Rearm? ==>
                && w'.rows.Keys == w.rows.Keys
                && (id in w.rows && w.rows[id].status != Failed ==> w'.rows[id] == w.rows[id])
                && (id in w.rows && w.rows[id].status == Failed ==>
                    w'.rows[id].status == Pending && w'.rows[id].attempts == 0 && w'.rows[id].availableAt == op.now))
  {
  }

  function ApplyAll(cfg: Config, l: Ledger, ops: seq<Op>): Ledger
    decreases |ops|
  {
    if ops == [] then l else ApplyAll(cfg, Apply(cfg, l, ops[0]), ops[1..])
  }

  /** No row that has been sent is overdue by more than one backoff cap. */
  predicate Timely(cfg: Config, w: World, at: Instant) {
    forall id :: id in w.rows && w.rows[id].status == Pending && w.sends[id] > 0
                 ==> at <= w.rows[id].availableAt + cfg.retryMax
  }

  /** The mark of `id` was written no more than a backoff cap before `due`. */
  predicate Young(cfg: Config, w: World, id: Id, due: Instant) { id in w.marks && due <= w.marks[id] + cfg.retryMax }

  /** A dispatch of `id` that raises before the dedup insert may come again in time for its mark, or not at all. */
  predicate RaiseInTime(cfg: Config, w: World, id: Id, now: Instant)
    requires id in w.rows
  {
    var attempts := w.rows[id].attempts + 1;
    w.sends[id] == 0 || attempts >= cfg.maxAttempts || Young(cfg, w, id, now + Backoff(cfg, attempts))
  }

  /** Row ids are fresh, marks carry a clock reading no older than their tick, and what sends a sent row round again
      does so while its mark is young: an early raise, a re-arm, and a prune that is timely. */
  predicate Allowed(cfg: Config, l: Ledger, op: Op) {
    match op
    case Enqueue(id, _) => id !in l.known
    case Relay(t) =>
      forall id :: id in Claimed(cfg, l.w, t) && id in l.w.rows ==>
        if t.env(id).Runs? then t.now <= t.env(id).at else RaiseInTime(cfg, l.w, id, t.now)
    case Prune(at, _, _) => Timely(cfg, l.w, at)
    case Rearm(now) =>
      forall id :: id in l.w.rows && l.w.rows[id].status == Failed && l.w.sends[id] > 0 ==> Young(cfg, l.w, id, now)
  }

  predicate AllowedRun(cfg: Config, l: Ledger, ops: seq<Op>)
    decreases |ops|
  {
    ops != [] ==> Allowed(cfg, l, ops[0]) && AllowedRun(cfg, Apply(cfg, l, ops[0]), ops[1..])
  }

  /** A pending row that has been sent still has its mark, young enough to outlive its next dispatch. */
  predicate Guarded(cfg: Config, w: World, id: Id) {
    id in w.rows && w.rows[id].status == Pending && w.sends[id] > 0 ==> Young(cfg, w, id, w.rows[id].availableAt)
  }

  ghost predicate Inv(cfg: Config, l: Ledger) {
    && l.w.rows.Keys <= l.known
    && (forall id :: id in l.w.rows ==> l.w.rows[id].messageKey == Absent)
    && (forall id :: l.w.sends[id] > 0 ==> id in l.known)
    && (forall id :: l.w.sends[id] <= 1)
    && (forall id :: Guarded(cfg, l.w, id))
  }

  // ── One tick, mark by mark ─────────────────────────────────────────────

  ghost predicate SameMark(a: World, b: World, id: Id) {
    (id in a.marks <==> id in b.marks) && (id in a.marks ==> a.marks[id] == b.marks[id]) && a.sends[id] == b.sends[id]
  }

  /** The rows that dedup on `id`: `id` itself, if it is there, and no other. */
  predicate OwnMark(rows: Table, id: Id) {
    forall x :: x in rows ==> (DedupKey(x, rows[x].messageKey) == Some(id) <==> x == id)
  }

  lemma {:induction false} UntouchedMark(cfg: Config, w: World, snaps: seq<Snapshot>, t: Tick, id: Id)
    requires forall i :: 0 <= i < |snaps| ==>
               snaps[i].id != id && DedupKey(snaps[i].id, snaps[i].row.messageKey) != Some(id)
    ensures SameMark(w, DispatchAll(cfg, w, snaps, t), id)
  {
    if snaps != [] { UntouchedMark(cfg, w, snaps[..|snaps| - 1], t, id); }
  }

  /** What one handler run does to the mark, the sends and the outcome of its own id. */
  ghost predicate HandledOnce(w: World, w': World, id: Id, h: Handling, delivered: bool) {
    if h.RaisesEarly? then SameMark(w, w', id) && !delivered
    else if id in w.marks then SameMark(w, w', id) && delivered
    else
      && id in w'.marks && w'.marks[id] == h.at
      && w'.sends[id] == w.sends[id] + (if h.result.FieldMissing? then 0 else 1)
      && delivered == h.result.Sent?
  }

  lemma DispatchedLast(cfg: Config, w: World, snaps: seq<Snapshot>, t: Tick, id: Id)
    requires snaps != [] && snaps[|snaps| - 1].id == id && id in w.rows && w.rows[id].status == Pending
    requires DedupKey(id, snaps[|snaps| - 1].row.messageKey) == Some(id)
    requires forall i :: 0 <= i < |snaps| - 1 ==>
               snaps[i].id != id && DedupKey(snaps[i].id, snaps[i].row.messageKey) != Some(id)
    ensures var w' := DispatchAll(cfg, w, snaps, t);
            id in w'.rows && HandledOnce(w, w', id, t.env(id), w'.rows[id].status == Delivered)
  {
    var n := |snaps| - 1;
    var w1 := DispatchAll(cfg, w, snaps[..n], t);
    UntouchedRow(cfg, w, snaps[..n], t, id);
    UntouchedMark(cfg, w, snaps[..n], t, id);
    OneHandled(cfg, w1, snaps[n], t.now, t.env(id));
  }

  lemma {:induction false} DispatchedMark(cfg: Config, w: World, snaps: seq<Snapshot>, t: Tick, i: nat, id: Id)
    requires i < |snaps| && snaps[i].id == id && id in w.rows && w.rows[id].status == Pending
    requires DedupKey(id, snaps[i].row.messageKey) == Some(id)
    requires forall j :: 0 <= j < |snaps| && j != i ==>
               snaps[j].id != id && DedupKey(snaps[j].id, snaps[j].row.messageKey) != Some(id)
    ensures var w' := DispatchAll(cfg, w, snaps, t);
            id in w'.rows && HandledOnce(w, w', id, t.env(id), w'.rows[id].status == Delivered)
  {
    var n := |snaps| - 1;
    if i == n {
      DispatchedLast(cfg, w, snaps, t, id);
    } else {
      var first, last := snaps[..n], snaps[n];
      assert forall j :: 0 <= j < n ==> first[j] == snaps[j];
      DispatchedMark(cfg, w, first, t, i, id);
      var w1 := DispatchAll(cfg, w, first, t);
      OtherHandled(cfg, w1, last, t.now, t.env(last.id), id);
      HandledFrame(w, w1, DispatchOne(cfg, w1, last, t.now, t.env(last.id)), id, t.env(id));
    }
  }

  lemma HandledFrame(w: World, w1: World, w2: World, id: Id, h: Handling)
    requires id in w1.rows && id in w2.rows && w2.rows[id] == w1.rows[id] && SameMark(w1, w2, id)
    requires HandledOnce(w, w1, id, h, w1.rows[id].status == Delivered)
    ensures HandledOnce(w, w2, id, h, w2.rows[id].status == Delivered)
  {
  }

  lemma OneHandled(cfg: Config, w: World, snap: Snapshot, now: Instant, h: Handling)
    requires DedupKey(snap.id, snap.row.messageKey) == Some(snap.id)
    requires snap.id in w.rows && w.rows[snap.id].status == Pending
    ensures var w' := DispatchOne(cfg, w, snap, now, h);
            snap.id in w'.rows && HandledOnce(w, w', snap.id, h, w'.rows[snap.id].status == Delivered)
  {}

  lemma OtherHandled(cfg: Config, w: World, snap: Snapshot, now: Instant, h: Handling, id: Id)
    requires DedupKey(snap.id, snap.row.messageKey) != Some(id) && id != snap.id && id in w.rows
    ensures var w' := DispatchOne(cfg, w, snap, now, h);
            SameMark(w, w', id) && id in w'.rows && w'.rows[id] == w.rows[id]
  {}

  lemma ClaimedKeys(cfg: Config, w: World, t: Tick, ids: seq<Id>, snaps: seq<Snapshot>)
    requires ids == Claimed(cfg, w, t) && snaps == ClaimedSnapshots(cfg, w, t)
    ensures |snaps| == |ids| && forall i, j :: 0 <= i < j < |snaps| ==> snaps[i].id != snaps[j].id
    ensures forall i :: 0 <= i < |snaps| ==>
              snaps[i].id == ids[i] && ids[i] in w.rows && w.rows[ids[i]].status == Pending
              && snaps[i].row.messageKey == w.rows[ids[i]].messageKey
  {
    ClaimIdsDistinct(w.rows, t.now, cfg.batchSize);
  }

  lemma ClaimedMark(cfg: Config, w: World, t: Tick, id: Id)
    requires OwnMark(w.rows, id) && id in Claimed(cfg, w, t)
    ensures var w' := RunTick(cfg, w, t);
            id in w'.rows && HandledOnce(w, w', id, t.env(id), w'.rows[id].status == Delivered)
  {
    var ids, snaps := Claimed(cfg, w, t), ClaimedSnapshots(cfg, w, t);
    ClaimedKeys(cfg, w, t, ids, snaps);
    var i :| 0 <= i < |ids| && ids[i] == id;
    DispatchedMark(cfg, w.(rows := Stamp(w.rows, ids, t.now, t.worker)), snaps, t, i, id);
  }

  lemma UnclaimedMark(cfg: Config, w: World, t: Tick, id: Id)
    requires OwnMark(w.rows, id) && id !in Claimed(cfg, w, t)
    ensures SameMark(w, RunTick(cfg, w, t), id)
  {
    var ids, snaps := Claimed(cfg, w, t), ClaimedSnapshots(cfg, w, t);
    ClaimedKeys(cfg, w, t, ids, snaps);
    UntouchedMark(cfg, w.(rows := Stamp(w.rows, ids, t.now, t.worker)), snaps, t, id);
  }

  // ── Every operation keeps the invariant ────────────────────────────────

  /** A dispatched row: what one handler run and its settlement leave still guards it. */
  lemma DispatchKeepsGuard(cfg: Config, w: World, w': World, id: Id, now: Instant, h: Handling)
    requires cfg.Valid() && Guarded(cfg, w, id) && w.sends[id] <= 1
    requires id in w.rows && w.rows[id].status == Pending && id in w'.rows && Settled(cfg, w.rows[id], w'.rows[id], now)
    requires HandledOnce(w, w', id, h, w'.rows[id].status == Delivered)
    requires if h.Runs? then now <= h.at else RaiseInTime(cfg, w, id, now)
    ensures w'.sends[id] <= 1 && Guarded(cfg, w', id)
  {
    BackoffBounds(cfg, w.rows[id].attempts + 1, w.rows[id].attempts + 1);
  }

  lemma TickKeepsId(cfg: Config, l: Ledger, t: Tick, id: Id)
    requires cfg.Valid() && Inv(cfg, l) && Allowed(cfg, l, Relay(t))
    ensures var w' := RunTick(cfg, l.w, t);
            w'.sends[id] <= 1 && Guarded(cfg, w', id) && (w'.sends[id] > 0 ==> id in l.known)
  {
    TickEffect(cfg, l.w, t);
    assert Guarded(cfg, l.w, id);
    if id in Claimed(cfg, l.w, t) {
      ClaimedMark(cfg, l.w, t, id);
      DispatchKeepsGuard(cfg, l.w, RunTick(cfg, l.w, t), id, t.now, t.env(id));
    } else {
      UnclaimedMark(cfg, l.w, t, id);
    }
  }

  lemma TickKeepsInv(cfg: Config, l: Ledger, t: Tick)
    requires cfg.Valid() && Inv(cfg, l) && Allowed(cfg, l, Relay(t))
    ensures Inv(cfg, Apply(cfg, l, Relay(t)))
  {
    TickEffect(cfg, l.w, t);
    forall id
      ensures var w' := RunTick(cfg, l.w, t);
              w'.sends[id] <= 1 && Guarded(cfg, w', id) && (w'.sends[id] > 0 ==> id in l.known)
    {
      TickKeepsId(cfg, l, t, id);
    }
    forall id | id in RunTick(cfg, l.w, t).rows ensures RunTick(cfg, l.w, t).rows[id].messageKey == Absent {
      assert id in l.w.rows;
    }
  }

  lemma PruneKeepsInv(cfg: Config, l: Ledger, at: Instant, dc: Instant, fc: Instant)
    requires cfg.Valid() && Inv(cfg, l) && Timely(cfg, l.w, at)
    ensures Inv(cfg, Apply(cfg, l, Prune(at, dc, fc)))
  {
    var w' := PruneWorld(cfg, l.w, at, dc, fc);
    forall id ensures Guarded(cfg, w', id) {
      assert Guarded(cfg, l.w, id);
    }
  }

  lemma EnqueueKeepsInv(cfg: Config, l: Ledger, id: Id, at: Instant)
    requires Inv(cfg, l) && id !in l.known
    ensures Inv(cfg, Apply(cfg, l, Enqueue(id, at)))
  {
    var w' := Apply(cfg, l, Enqueue(id, at)).w;
    forall x ensures Guarded(cfg, w', x) {
      assert Guarded(cfg, l.w, x);
    }
  }

  lemma RearmKeepsInv(cfg: Config, l: Ledger, now: Instant)
    requires Inv(cfg, l) && Allowed(cfg, l, Rearm(now))
    ensures Inv(cfg, Apply(cfg, l, Rearm(now)))
  {
    var w' := Apply(cfg, l, Rearm(now)).w;
    forall id ensures Guarded(cfg, w', id) {
      assert Guarded(cfg, l.w, id);
    }
  }

  /** The retention of twice the backoff cap suffices: over every run that respects the age of the marks, pruning and
      re-arms included, each row is sent at most once. */
  lemma {:induction false} RetentionSuffices(cfg: Config, l: Ledger, ops: seq<Op>)
    requires cfg.Valid() && Inv(cfg, l) && AllowedRun(cfg, l, ops)
    ensures Inv(cfg, ApplyAll(cfg, l, ops))
    ensures forall id :: ApplyAll(cfg, l, ops).w.sends[id] <= 1
    decreases |ops|
  {
    if ops != [] {
      match ops[0] {
        case Enqueue(id, at) => EnqueueKeepsInv(cfg, l, id, at);
        case Relay(t) => TickKeepsInv(cfg, l, t);
        case Prune(at, dc, fc) => PruneKeepsInv(cfg, l, at, dc, fc);
        case Rearm(now) => RearmKeepsInv(cfg, l, now);
      }
      RetentionSuffices(cfg, Apply(cfg, l, ops[0]), ops[1..]);
    }
  }

  lemma EmptyInv(cfg: Config)
    ensures Inv(cfg, EMPTY_LEDGER)
  {
    forall id ensures Guarded(cfg, EMPTY_LEDGER.w, id) {}
  }

  // ── Without clocks: what must not happen to a mark ─────────────────────

  /** Row ids are fresh, a prune spares the marks of sent rows still pending, and a re-arm revives no sent row without
      its mark. Ticks may do anything at any time. */
  predicate Spares(cfg: Config, l: Ledger, op: Op) {
    match op
    case Enqueue(id, _) => id !in l.known
    case Relay(_) => true
    case Prune(at, _, _) =>
      forall id :: id in l.w.rows && l.w.rows[id].status == Pending && l.w.sends[id] > 0 && id in l.w.marks
                   ==> at <= l.w.marks[id] + cfg.DedupRetention()
    case Rearm(_) =>
      forall id :: id in l.w.rows && l.w.rows[id].status == Failed && l.w.sends[id] > 0 ==> id in l.w.marks
  }

  predicate SparingRun(cfg: Config, l: Ledger, ops: seq<Op>)
    decreases |ops|
  {
    ops != [] ==> Spares(cfg, l, ops[0]) && SparingRun(cfg, Apply(cfg, l, ops[0]), ops[1..])
  }

  /** Nothing has been sent twice, and what is pending after a send still has its mark. */
  ghost predicate Kept(l: Ledger) {
    && l.w.rows.Keys <= l.known
    && (forall id :: id in l.w.rows ==> l.w.rows[id].messageKey == Absent)
    && (forall id :: l.w.sends[id] > 0 ==> id in l.known)
    && (forall id :: l.w.sends[id] <= 1)
    && (forall id :: id in l.w.rows && l.w.rows[id].status == Pending && l.w.sends[id] > 0 ==> id in l.w.marks)
  }

  lemma KeptId(cfg: Config, l: Ledger, t: Tick, id: Id, w': World)
    requires Kept(l) && w' == RunTick(cfg, l.w, t)
    ensures w'.sends[id] <= 1 && (w'.sends[id] > 0 ==> id in l.known)
    ensures id in w'.rows && w'.rows[id].status == Pending && w'.sends[id] > 0 ==> id in w'.marks
  {
    TickEffect(cfg, l.w, t);
    if id in Claimed(cfg, l.w, t) { ClaimedMark(cfg, l.w, t, id); } else { UnclaimedMark(cfg, l.w, t, id); }
  }

  lemma KeptTick(cfg: Config, l: Ledger, t: Tick, w': World)
    requires Kept(l) && w' == RunTick(cfg, l.w, t)
    ensures Kept(l.(w := w'))
  {
    TickEffect(cfg, l.w, t);
    forall id ensures w'.sends[id] <= 1 && (w'.sends[id] > 0 ==> id in l.known)
              ensures id in w'.rows && w'.rows[id].status == Pending && w'.sends[id] > 0 ==> id in w'.marks
    {
      KeptId(cfg, l, t, id, w');
    }
    forall id | id in w'.rows ensures w'.rows[id].messageKey == Absent { assert id in l.w.rows; }
  }

  lemma KeptNext(cfg: Config, l: Ledger, op: Op)
    requires Kept(l) && Spares(cfg, l, op)
    ensures Kept(Apply(cfg, l, op))
  {
    if op.Relay? { KeptTick(cfg, l, op.tick, RunTick(cfg, l.w, op.tick)); }
  }

  /** Over every sparing run each row is sent at most once. */
  lemma {:induction false} SentAtMostOnce(cfg: Config, l: Ledger, ops: seq<Op>)
    requires Kept(l) && SparingRun(cfg, l, ops)
    ensures forall id :: ApplyAll(cfg, l, ops).w.sends[id] <= 1
    decreases |ops|
  {
    if ops != [] {
      KeptNext(cfg, l, ops[0]);
      SentAtMostOnce(cfg, Apply(cfg, l, ops[0]), ops[1..]);
    }
  }

  // ── Exactly when a row is sent twice ───────────────────────────────────

  /** Whatever brought a sent row round again, its next dispatch sends it a second time if and only if its mark is
      gone. */
  lemma ResentIffUnmarked(cfg: Config, w: World, id: Id, t: Tick)
    requires OwnMark(w.rows, id) && id in Claimed(cfg, w, t) && w.sends[id] == 1
    requires t.env(id).Runs? && !t.env(id).result.FieldMissing?
    ensures RunTick(cfg, w, t).sends[id] == 2 <==> id !in w.marks
  {
    ClaimedMark(cfg, w, t, id);
  }

  /**
    A row sent once and waiting for its retry is sent again by its next dispatch exactly when a
    prune in between ran more than `2 * retryMax` after the mark was written.
  */
  lemma ResentIffPrunedLate(cfg: Config, w: World, id: Id, at: Instant, dc: Instant, fc: Instant, t: Tick)
    requires cfg.Valid() && OwnMark(w.rows, id)
    requires id in w.rows && w.rows[id].status == Pending && w.sends[id] == 1 && id in w.marks
    requires id in Claimed(cfg, PruneWorld(cfg, w, at, dc, fc), t)
    requires t.env(id).Runs? && !t.env(id).result.FieldMissing?
    ensures RunTick(cfg, PruneWorld(cfg, w, at, dc, fc), t).sends[id] == 2
            <==> at > w.marks[id] + cfg.DedupRetention()
  {
    ResentIffUnmarked(cfg, PruneWorld(cfg, w, at, dc, fc), id, t);
  }

  /** Every prune of the run comes before the mark is old enough to go. */
  predicate PrunesBy(ops: seq<Op>, deadline: Instant) {
    forall i :: 0 <= i < |ops| && ops[i].Prune? ==> ops[i].at <= deadline
  }

  lemma OwnMarkTick(cfg: Config, w: World, t: Tick, id: Id)
    requires OwnMark(w.rows, id)
    ensures OwnMark(RunTick(cfg, w, t).rows, id)
  {
    TickEffect(cfg, w, t);
    forall x | x in RunTick(cfg, w, t).rows ensures RunTick(cfg, w, t).rows[x].messageKey == w.rows[x].messageKey {
    }
  }

  lemma MarkOutlives(cfg: Config, l: Ledger, op: Op, id: Id)
    requires OwnMark(l.w.rows, id) && id in l.w.marks
    requires op.Prune? ==> op.at <= l.w.marks[id] + cfg.DedupRetention()
    ensures var w' := Apply(cfg, l, op).w;
            OwnMark(w'.rows, id) && id in w'.marks && w'.marks[id] == l.w.marks[id] && w'.sends[id] == l.w.sends[id]
  {
    match op
    case Relay(t) =>
      OwnMarkTick(cfg, l.w, t, id);
      if id in Claimed(cfg, l.w, t) { ClaimedMark(cfg, l.w, t, id); } else { UnclaimedMark(cfg, l.w, t, id); }
    case _ =>
  }

  /** A marked row is never sent again by any run of ticks, early raises, re-arms and inserts, however late, whose
      prunes all come within the retention of its mark. */
  lemma {:induction false} MarkedNeverResent(cfg: Config, l: Ledger, ops: seq<Op>, id: Id)
    requires OwnMark(l.w.rows, id) && id in l.w.marks && PrunesBy(ops, l.w.marks[id] + cfg.DedupRetention())
    ensures ApplyAll(cfg, l, ops).w.sends[id] == l.w.sends[id]
    decreases |ops|
  {
    if ops != [] {
      MarkOutlives(cfg, l, ops[0], id);
      forall i | 0 <= i < |ops[1..]| && ops[1..][i].Prune?
        ensures ops[1..][i].at <= l.w.marks[id] + cfg.DedupRetention()
      {
        assert ops[i + 1].Prune?;
      }
      MarkedNeverResent(cfg, Apply(cfg, l, ops[0]), ops[1..], id);
    }
  }

  // Conversely, one late prune is enough.

  lemma TickSends(cfg: Config, w: World, t: Tick, id: Id, w1: World)
    requires OwnMark(w.rows, id) && id !in w.marks && t.env(id).Runs? && t.env(id).result.Sent?
    requires w1 == RunTick(cfg, w, t)
    ensures OwnMark(w1.rows, id)
    ensures if id in Claimed(cfg, w, t) then w1.sends[id] == w.sends[id] + 1
            else id !in w1.marks && w1.sends[id] == w.sends[id]
  {
    OwnMarkTick(cfg, w, t, id);
    if id in Claimed(cfg, w, t) { ClaimedMark(cfg, w, t, id); } else { UnclaimedMark(cfg, w, t, id); }
  }

  /** A pending, due row without its mark: this tick sends it, or fewer rows are ahead of it. */
  lemma OneTickCloser(cfg: Config, w: World, id: Id, t: Tick) returns (w1: World, sent: bool)
    requires cfg.Valid() && OwnMark(w.rows, id) && id !in w.marks && t.env(id).Runs? && t.env(id).result.Sent?
    requires id in w.rows && w.rows[id].status == Pending && w.rows[id].availableAt <= t.now
    ensures forall rest :: RunTicks(cfg, w, [t] + rest) == RunTicks(cfg, w1, rest)
    ensures sent ==> w1.sends[id] == w.sends[id] + 1
    ensures !sent ==> OwnMark(w1.rows, id) && id !in w1.marks && w1.sends[id] == w.sends[id]
                      && id in w1.rows && w1.rows[id] == w.rows[id]
                      && |F.Ahead(w1.rows, id)| < |F.Ahead(w.rows, id)|
  {
    w1, sent := RunTick(cfg, w, t), id in Claimed(cfg, w, t);
    TickSends(cfg, w, t, id, w1);
    if !sent {
      assert id in Due(w.rows, t.now);
      F.TickPassesOver(cfg, w, t, id, w1.rows);
    }
    forall rest ensures RunTicks(cfg, w, [t] + rest) == RunTicks(cfg, w1, rest) { assert ([t] + rest)[1..] == rest; }
  }

  lemma {:induction false} SentBy(cfg: Config, w: World, id: Id, t: Tick) returns (ticks: seq<Tick>)
    requires cfg.Valid() && OwnMark(w.rows, id) && id !in w.marks && t.env(id).Runs? && t.env(id).result.Sent?
    requires id in w.rows && w.rows[id].status == Pending && w.rows[id].availableAt <= t.now
    ensures RunTicks(cfg, w, ticks).sends[id] == w.sends[id] + 1
    decreases |F.Ahead(w.rows, id)|
  {
    var w1, sent := OneTickCloser(cfg, w, id, t);
    var rest := [];
    if !sent { rest := SentBy(cfg, w1, id, t); }
    ticks := [t] + rest;
  }

  /** A pending row without its mark is sent by some run of ticks, however many rows are ahead of it. */
  lemma EventuallySent(cfg: Config, w: World, id: Id) returns (ticks: seq<Tick>)
    requires cfg.Valid() && OwnMark(w.rows, id) && id in w.rows && w.rows[id].status == Pending && id !in w.marks
    ensures RunTicks(cfg, w, ticks).sends[id] == w.sends[id] + 1
  {
    var at := w.rows[id].availableAt;
    ticks := SentBy(cfg, w, id, Tick(at, "a", _ => Runs(at, Sent)));
  }

  /** After a late prune some run of ticks sends a pending row again. */
  lemma LatePruneResends(cfg: Config, w: World, id: Id, at: Instant, dc: Instant, fc: Instant)
    returns (ticks: seq<Tick>)
    requires cfg.Valid() && OwnMark(w.rows, id) && id in w.rows && w.rows[id].status == Pending
    requires id in w.marks && at > w.marks[id] + cfg.DedupRetention()
    ensures RunTicks(cfg, PruneWorld(cfg, w, at, dc, fc), ticks).sends[id] == w.sends[id] + 1
  {
    ticks := EventuallySent(cfg, PruneWorld(cfg, w, at, dc, fc), id);
  }

  /** So it is for a failed row that outlives the prune and is re-armed. */
  lemma LateRearmResends(cfg: Config, w: World, id: Id, at: Instant, dc: Instant, fc: Instant, now: Instant)
    returns (ticks: seq<Tick>)
    requires cfg.Valid() && OwnMark(w.rows, id) && id in w.rows && w.rows[id].status == Failed
    requires !PrunableRow(w.rows[id], dc, fc) && id in w.marks && at > w.marks[id] + cfg.DedupRetention()
    ensures var p := PruneWorld(cfg, w, at, dc, fc);
            RunTicks(cfg, p.(rows := RetryFailed(p.rows, now)), ticks).sends[id] == w.sends[id] + 1
  {
    var p := PruneWorld(cfg, w, at, dc, fc);
    ticks := EventuallySent(cfg, p.(rows := RetryFailed(p.rows, now)), id);
  }

  /** And for a redelivery that raises before the dedup insert and so comes due after its mark may go, although the
      prune then comes no later than the row's due date. */
  lemma EarlyRaiseResends(cfg: Config, w: World, id: Id, t: Tick, due: Instant, w1: World) returns (ticks: seq<Tick>)
    requires cfg.Valid() && OwnMark(w.rows, id) && id in Claimed(cfg, w, t) && id in w.marks
    requires t.env(id).RaisesEarly? && w1 == RunTick(cfg, w, t)
    requires id in w1.rows && w1.rows[id].status == Pending && w1.rows[id].availableAt == due
    requires due > w.marks[id] + cfg.DedupRetention()
    ensures RunTicks(cfg, PruneWorld(cfg, w1, due, due, due), ticks).sends[id] == w.sends[id] + 1
  {
    RaisedAgain(cfg, w, id, t, w1);
    ticks := LatePruneResends(cfg, w1, id, due, due, due);
  }

  lemma RaisedAgain(cfg: Config, w: World, id: Id, t: Tick, w1: World)
    requires OwnMark(w.rows, id) && id in Claimed(cfg, w, t) && t.env(id).RaisesEarly? && w1 == RunTick(cfg, w, t)
    ensures OwnMark(w1.rows, id) && SameMark(w, w1, id)
  {
    ClaimedMark(cfg, w, t, id);
    OwnMarkTick(cfg, w, t, id);
  }

  lemma SoleDueClaimed(cfg: Config, w: World, t: Tick, id: Id)
    requires cfg.Valid() && Due(w.rows, t.now) == {id}
    ensures id in Claimed(cfg, w, t)
  {
    var ids := Claimed(cfg, w, t);
    ClaimIdsDistinct(w.rows, t.now, cfg.batchSize);
    assert ids[0] in Elements(ids);
  }

  lemma FailureLeavesRetry(cfg: Config, w: World, id: Id, t: Tick)
    requires cfg.Valid() && cfg.maxAttempts > 1
    requires w.rows.Keys == {id} && w.rows[id] == NewRow(Absent, w.rows[id].availableAt)
    requires w.rows[id].availableAt <= t.now && id !in w.marks
    requires t.env(id).Runs? && t.env(id).result.SendError?
    ensures var w' := RunTick(cfg, w, t);
            && w'.rows.Keys == {id} && w'.rows[id].messageKey == Absent
            && w'.rows[id].status == Pending && w'.rows[id].availableAt <= t.now + cfg.retryMax
            && w'.sends[id] == w.sends[id] + 1 && id in w'.marks && w'.marks[id] == t.env(id).at
  {
    assert Due(w.rows, t.now) == {id};
    SoleDueClaimed(cfg, w, t, id);
    TickEffect(cfg, w, t);
    ClaimedMark(cfg, w, t, id);
    BackoffBounds(cfg, 1, 1);
  }

  lemma LoneRetryResent(cfg: Config, w: World, id: Id, at: Instant, t: Tick)
    requires cfg.Valid() && w.rows.Keys == {id} && w.rows[id].messageKey == Absent && w.rows[id].status == Pending
    requires w.rows[id].availableAt <= t.now && w.sends[id] == 1 && id in w.marks
    requires at > w.marks[id] + cfg.DedupRetention() && t.env(id).Runs? && t.env(id).result.Sent?
    ensures RunTick(cfg, PruneWorld(cfg, w, at, at, at), t).sends[id] == 2
  {
    var p := PruneWorld(cfg, w, at, at, at);
    assert Due(p.rows, t.now) == {id};
    SoleDueClaimed(cfg, p, t, id);
    ResentIffPrunedLate(cfg, w, id, at, at, at, t);
  }

  /**
    Under every configuration with a retry, from a table holding one new row: the first send errors,
    a prune runs late, the worker comes back, and the mail port is called a second time.
  */
  lemma LateWorkerSendsTwice(cfg: Config, w: World, id: Id, first: Tick, at: Instant, second: Tick)
    requires cfg.Valid() && cfg.maxAttempts > 1
    requires w.rows.Keys == {id} && w.rows[id] == NewRow(Absent, w.rows[id].availableAt)
    requires w.rows[id].availableAt <= first.now && id !in w.marks && w.sends[id] == 0
    requires first.env(id).Runs? && first.env(id).at == first.now && first.env(id).result.SendError?
    requires second.env(id).Runs? && second.env(id).result.Sent?
    requires second.now >= at > first.now + cfg.DedupRetention()
    ensures RunTick(cfg, PruneWorld(cfg, RunTick(cfg, w, first), at, at, at), second).sends[id] == 2
  {
    FailureLeavesRetry(cfg, w, id, first);
    LoneRetryResent(cfg, RunTick(cfg, w, first), id, at, second);
  }
}
