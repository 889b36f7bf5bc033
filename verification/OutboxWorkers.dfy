/**
  Any number of relay workers over one outbox, interleaved step by step.

  A claim commits before its rows are dispatched and the claim query does not
  look at `locked_at`, so two workers can hold copies of the same row. Each
  worker goes through its batch with separate steps for the dedup insert, the
  mail-port call and the row update, and may crash between any two of them.
*/
module OutboxWorkers {
  import opened Prelude
  import opened OutboxModel
  import OrderedSelect

  /** Where a worker is with the first row of its batch. */
  datatype Phase = Ready | Sending(key: Option<Id>) | Returned | Raised(error: string)

  datatype Worker = Idle | Busy(now: Instant, batch: seq<Snapshot>, phase: Phase)

  /** The tables and the workers, followed by what an observer has seen so far:
      `keys`: every row ever enqueued, with the message key in its payload;
      `calls`: mail-port calls per row; `keyed`: the same per dedup key;
      `accepted`: calls that succeeded; `lost`: handler runs that marked a key and then raised or crashed
      instead of sending; `pruned`: marks removed by pruning. */
  datatype State = State(
    rows: Table, marks: Marks, workers: seq<Worker>,
    keys: map<Id, MessageKey>, calls: multiset<Id>,
    keyed: multiset<Id>, accepted: multiset<Id>, lost: multiset<Id>, pruned: multiset<Id>)

  datatype Step =
    | Produce(id: Id, key: MessageKey, at: Instant)
    | Claim(w: nat, now: Instant, ids: seq<Id>, name: string)
    | RaiseEarly(w: nat, error: string)
    | Dedupe(w: nat, at: Instant)
    | Send(w: nat, result: SendResult)
    | Mark(w: nat)
    | Crash(w: nat)
    | PruneMarksBefore(cutoff: Instant)
    | PruneRowsBefore(deliveredCutoff: Instant, failedCutoff: Instant)
    | Rearm(now: Instant)

  // ── Steps ──────────────────────────────────────────────────────────────

  predicate InPhase(s: State, w: nat, ready: bool, sending: bool, done: bool) {
    && w < |s.workers| && s.workers[w].Busy? && s.workers[w].batch != []
    && match s.workers[w].phase {
      case Ready => ready
      case Sending(_) => sending
      case _ => done
    }
  }

  /** `ids` is an ordered part of the due rows: rows locked by a concurrent claim are skipped. */
  predicate Claimable(cfg: Config, s: State, now: Instant, ids: seq<Id>) {
    && 0 < |ids| <= cfg.batchSize
    && (forall i :: 0 <= i < |ids| ==> ids[i] in Due(s.rows, now))
    && OrderedSelect.Ascending(DueRank(s.rows), ids)
  }

  predicate Enabled(cfg: Config, s: State, step: Step) {
    match step
    case Produce(id, _, _) => id !in s.keys && id !in s.rows
    case Claim(w, now, ids, _) => w < |s.workers| && s.workers[w].Idle? && Claimable(cfg, s, now, ids)
    case RaiseEarly(w, _) => InPhase(s, w, true, false, false)
    case Dedupe(w, _) => InPhase(s, w, true, false, false)
    case Send(w, _) => InPhase(s, w, false, true, false)
    case Mark(w) => InPhase(s, w, false, false, true)
    case Crash(w) => w < |s.workers|
    case _ => true
  }

  function Add(m: multiset<Id>, key: Option<Id>): multiset<Id> {
    match key case None => m case Some(k) => m + multiset{k}
  }

  function Goto(s: State, w: nat, phase: Phase): seq<Worker>
    requires w < |s.workers| && s.workers[w].Busy?
  {
    s.workers[w := s.workers[w].(phase := phase)]
  }

  /** The dedup insert of the worker's current row. */
  function DedupeNext(s: State, w: nat, at: Instant): State
    requires InPhase(s, w, true, false, false)
  {
    var head := s.workers[w].batch[0];
    var key := DedupKey(head.id, head.row.messageKey);
    if key.Some? && key.value in s.marks then s.(workers := Goto(s, w, Returned))
    else s.(workers := Goto(s, w, Sending(key)),
            marks := if key.Some? then s.marks[key.value := at] else s.marks)
  }

  function SendNext(s: State, w: nat, result: SendResult): State
    requires InPhase(s, w, false, true, false)
  {
    var id, key := s.workers[w].batch[0].id, s.workers[w].phase.key;
    match result
    case Sent =>
      s.(workers := Goto(s, w, Returned), calls := s.calls + multiset{id},
         keyed := Add(s.keyed, key), accepted := Add(s.accepted, key))
    case SendError(error) =>
      s.(workers := Goto(s, w, Raised(error)), calls := s.calls + multiset{id},
         keyed := Add(s.keyed, key), lost := Add(s.lost, key))
    case FieldMissing(error) =>
      s.(workers := Goto(s, w, Raised(error)), lost := Add(s.lost, key))
  }

  function Outcome(phase: Phase): Option<string> {
    match phase case Raised(error) => Some(error) case _ => None
  }

  /** Settle the current row from its snapshot and move on. No status guard: the row may have changed. */
  function MarkNext(cfg: Config, s: State, w: nat): State
    requires InPhase(s, w, false, false, true)
  {
    var b := s.workers[w];
    s.(rows := Settle(cfg, s.rows, b.batch[0], b.now, Outcome(b.phase)),
       workers := s.workers[w := if |b.batch| == 1 then Idle else Busy(b.now, b.batch[1..], Ready)])
  }

  function PrunedKeys(marks: Marks, cutoff: Instant): set<Id> {
    set k | k in marks && marks[k] < cutoff
  }

  function InFlightKey(w: Worker): Option<Id> {
    if w.Busy? && w.phase.Sending? then w.phase.key else None
  }

  function Next(cfg: Config, s: State, step: Step): State
    requires Enabled(cfg, s, step)
  {
    match step
    case Produce(id, key, at) => s.(rows := s.rows[id := NewRow(key, at)], keys := s.keys[id := key])
    case Claim(w, now, ids, name) =>
      s.(rows := Stamp(s.rows, ids, now, name),
         workers := s.workers[w := Busy(now, Snapshots(s.rows, ids, now, name), Ready)])
    case RaiseEarly(w, error) => s.(workers := Goto(s, w, Raised(error)))
    case Dedupe(w, at) => DedupeNext(s, w, at)
    case Send(w, result) => SendNext(s, w, result)
    case Mark(w) => MarkNext(cfg, s, w)
    case Crash(w) => s.(workers := s.workers[w := Idle], lost := Add(s.lost, InFlightKey(s.workers[w])))
    case PruneMarksBefore(cutoff) =>
      s.(marks := PruneMarks(s.marks, cutoff), pruned := s.pruned + multiset(PrunedKeys(s.marks, cutoff)))
    case PruneRowsBefore(dc, fc) => s.(rows := PruneRows(s.rows, dc, fc))
    case Rearm(now) => s.(rows := RetryFailed(s.rows, now))
  }

  /** Every sequence of steps is a run; a step that is not enabled does nothing. */
  function Do(cfg: Config, s: State, step: Step): State {
    if Enabled(cfg, s, step) then Next(cfg, s, step) else s
  }

  function Run(cfg: Config, s: State, steps: seq<Step>): State
    decreases |steps|
  {
    if steps == [] then s else Run(cfg, Do(cfg, s, steps[0]), steps[1..])
  }

  lemma {:induction false} RunConcat(cfg: Config, s: State, first: seq<Step>, rest: seq<Step>)
    ensures Run(cfg, s, first + rest) == Run(cfg, Run(cfg, s, first), rest)
    decreases |first|
  {
    if first == [] {
      assert first + rest == rest;
    } else {
      assert (first + rest)[1..] == first[1..] + rest;
      RunConcat(cfg, Do(cfg, s, first[0]), first[1..], rest);
    }
  }

  lemma RunOne(cfg: Config, s: State, step: Step)
    ensures Run(cfg, s, [step]) == Do(cfg, s, step)
  {
    assert [step][1..] == [];
  }

  lemma Extend(cfg: Config, s: State, steps: seq<Step>, t: State, step: Step) returns (steps': seq<Step>, t': State)
    requires t == Run(cfg, s, steps) && Enabled(cfg, t, step)
    ensures steps' == steps + [step] && t' == Next(cfg, t, step) && t' == Run(cfg, s, steps')
  {
    RunConcat(cfg, s, steps, [step]);
    RunOne(cfg, t, step);
    steps', t' := steps + [step], Next(cfg, t, step);
  }

  predicate Initial(s: State) {
    && s.rows == map[] && s.marks == map[] && s.keys == map[]
    && s.calls == s.keyed == s.accepted == s.lost == s.pruned == multiset{}
    && forall i :: 0 <= i < |s.workers| ==> s.workers[i] == Idle
  }

  // ── Sums over workers ──────────────────────────────────────────────────

  function SumOver(ws: seq<Worker>, f: Worker -> int): int {
    if ws == [] then 0 else SumOver(ws[..|ws| - 1], f) + f(ws[|ws| - 1])
  }

  lemma {:induction false} SumUpdate(ws: seq<Worker>, i: nat, w: Worker, f: Worker -> int)
    requires i < |ws|
    ensures SumOver(ws[i := w], f) == SumOver(ws, f) - f(ws[i]) + f(w)
  {
    var n := |ws| - 1;
    if i < n {
      SumUpdate(ws[..n], i, w, f);
      assert ws[i := w][..n] == ws[..n][i := w];
    } else {
      assert ws[i := w][..n] == ws[..n];
    }
  }

  // ── Marks are conserved ────────────────────────────────────────────────

  function Holds(w: Worker, k: Id): nat { if InFlightKey(w) == Some(k) then 1 else 0 }

  /** Workers between the dedup insert of `k` and the call it allows. */
  function InFlight(ws: seq<Worker>, k: Id): nat {
    if ws == [] then 0 else InFlight(ws[..|ws| - 1], k) + Holds(ws[|ws| - 1], k)
  }

  lemma {:induction false} InFlightUpdate(ws: seq<Worker>, i: nat, w: Worker, k: Id)
    requires i < |ws|
    ensures InFlight(ws[i := w], k) == InFlight(ws, k) - Holds(ws[i], k) + Holds(w, k)
  {
    var n := |ws| - 1;
    if i < n {
      InFlightUpdate(ws[..n], i, w, k);
      assert ws[i := w][..n] == ws[..n][i := w];
    } else {
      assert ws[i := w][..n] == ws[..n];
    }
  }

  lemma {:induction false} NoneInFlight(ws: seq<Worker>, k: Id)
    requires forall i :: 0 <= i < |ws| ==> ws[i] == Idle
    ensures InFlight(ws, k) == 0
  {
    if ws != [] { NoneInFlight(ws[..|ws| - 1], k); }
  }

  /** How often the mark of `k` has been inserted. */
  function Inserted(s: State, k: Id): nat { s.pruned[k] + if k in s.marks then 1 else 0 }

  /** Each insert of the mark is accounted for by exactly one accepted send, lost run or send in flight. */
  ghost predicate Accounted(s: State, k: Id) {
    && s.accepted[k] + s.lost[k] + InFlight(s.workers, k) == Inserted(s, k)
    && s.keyed[k] <= s.accepted[k] + s.lost[k]
  }

  lemma DedupeAccounted(s: State, w: nat, at: Instant, k: Id)
    requires InPhase(s, w, true, false, false) && Accounted(s, k)
    ensures Accounted(DedupeNext(s, w, at), k)
  {
    InFlightUpdate(s.workers, w, DedupeNext(s, w, at).workers[w], k);
  }

  lemma SendAccounted(s: State, w: nat, result: SendResult, k: Id)
    requires InPhase(s, w, false, true, false) && Accounted(s, k)
    ensures Accounted(SendNext(s, w, result), k)
  {
    InFlightUpdate(s.workers, w, SendNext(s, w, result).workers[w], k);
  }

  lemma MarkAccounted(cfg: Config, s: State, w: nat, k: Id)
    requires InPhase(s, w, false, false, true) && Accounted(s, k)
    ensures Accounted(MarkNext(cfg, s, w), k)
  {
    InFlightUpdate(s.workers, w, MarkNext(cfg, s, w).workers[w], k);
  }

  lemma AccountedNext(cfg: Config, s: State, step: Step, k: Id)
    requires Enabled(cfg, s, step) && Accounted(s, k)
    ensures Accounted(Next(cfg, s, step), k)
  {
    match step {
      case Dedupe(w, at) => DedupeAccounted(s, w, at, k);
      case Send(w, result) => SendAccounted(s, w, result, k);
      case Mark(w) => MarkAccounted(cfg, s, w, k);
      case Claim(w, now, ids, name) =>
        InFlightUpdate(s.workers, w, Busy(now, Snapshots(s.rows, ids, now, name), Ready), k);
      case RaiseEarly(w, error) => InFlightUpdate(s.workers, w, s.workers[w].(phase := Raised(error)), k);
      case Crash(w) => InFlightUpdate(s.workers, w, Idle, k);
      case _ =>
    }
  }

  lemma InsertedGrows(cfg: Config, s: State, step: Step, k: Id)
    requires Enabled(cfg, s, step)
    ensures Inserted(Next(cfg, s, step), k) >= Inserted(s, k)
  {}

  // ── Rows and snapshots ─────────────────────────────────────────────────

  /** What holds of a row under every interleaving. */
  predicate RowOk(cfg: Config, row: Row) {
    && row.attempts <= cfg.maxAttempts
    && match row.status {
      case Pending => row.attempts < cfg.maxAttempts
      case Delivered => row.deliveredAt.Some?
      case Failed => row.failedAt.Some?
    }
  }

  /** A row or snapshot whose handler has returned normally has had its mark inserted. */
  ghost predicate Marked(s: State, id: Id, key: MessageKey) {
    DedupKey(id, key).Some? ==> Inserted(s, DedupKey(id, key).value) >= 1
  }

  ghost predicate RowInv(cfg: Config, s: State, id: Id) {
    id in s.rows ==>
      && RowOk(cfg, s.rows[id])
      && id in s.keys && s.rows[id].messageKey == s.keys[id]
      && (s.rows[id].status == Delivered ==> Marked(s, id, s.keys[id]))
  }

  predicate SnapshotOk(cfg: Config, keys: map<Id, MessageKey>, snap: Snapshot) {
    snap.row.attempts < cfg.maxAttempts && snap.id in keys && snap.row.messageKey == keys[snap.id]
  }

  ghost predicate WorkerInv(cfg: Config, s: State, w: Worker) {
    w.Busy? ==>
      && w.batch != []
      && (forall i :: 0 <= i < |w.batch| ==> SnapshotOk(cfg, s.keys, w.batch[i]))
      && var head := w.batch[0];
      && (w.phase.Sending? ==> w.phase.key == DedupKey(head.id, head.row.messageKey))
      && (w.phase.Returned? ==> Marked(s, head.id, head.row.messageKey))
  }

  /** Mail-port calls for a row are calls under its dedup key. */
  ghost predicate CallsInv(s: State, id: Id) {
    if id !in s.keys then s.calls[id] == 0
    else DedupKey(id, s.keys[id]).Some? ==> s.calls[id] <= s.keyed[DedupKey(id, s.keys[id]).value]
  }

  ghost predicate Inv(cfg: Config, s: State) {
    && (forall k :: Accounted(s, k))
    && (forall id :: RowInv(cfg, s, id))
    && (forall id :: CallsInv(s, id))
    && (forall i :: 0 <= i < |s.workers| ==> WorkerInv(cfg, s, s.workers[i]))
  }

  lemma InitialInv(cfg: Config, s: State)
    requires Initial(s)
    ensures Inv(cfg, s)
  {
    forall k ensures Accounted(s, k) { NoneInFlight(s.workers, k); }
  }

  lemma MarkedNext(cfg: Config, s: State, step: Step, id: Id, key: MessageKey)
    requires Enabled(cfg, s, step) && Marked(s, id, key)
    ensures Marked(Next(cfg, s, step), id, key)
  {
    if DedupKey(id, key).Some? { InsertedGrows(cfg, s, step, DedupKey(id, key).value); }
  }

  lemma MarkRow(cfg: Config, s: State, w: nat, id: Id)
    requires cfg.Valid() && Inv(cfg, s) && InPhase(s, w, false, false, true)
    ensures RowInv(cfg, MarkNext(cfg, s, w), id)
  {
    assert RowInv(cfg, s, id);
    assert WorkerInv(cfg, s, s.workers[w]);
  }

  lemma RowNext(cfg: Config, s: State, step: Step, id: Id)
    requires cfg.Valid() && Inv(cfg, s) && Enabled(cfg, s, step)
    ensures RowInv(cfg, Next(cfg, s, step), id)
  {
    if step.Mark? {
      MarkRow(cfg, s, step.w, id);
    } else {
      assert RowInv(cfg, s, id);
      if id in s.rows && s.rows[id].status == Delivered { MarkedNext(cfg, s, step, id, s.keys[id]); }
    }
  }

  lemma CallsNext(cfg: Config, s: State, step: Step, id: Id)
    requires Inv(cfg, s) && Enabled(cfg, s, step)
    ensures CallsInv(Next(cfg, s, step), id)
  {
    assert CallsInv(s, id);
    if step.Send? {
      assert WorkerInv(cfg, s, s.workers[step.w]);
    }
  }

  /** A worker the step did not move keeps its invariant. */
  lemma WorkerFrame(cfg: Config, s: State, step: Step, w: Worker)
    requires Enabled(cfg, s, step) && WorkerInv(cfg, s, w)
    ensures WorkerInv(cfg, Next(cfg, s, step), w)
  {
    if w.Busy? && w.phase.Returned? { MarkedNext(cfg, s, step, w.batch[0].id, w.batch[0].row.messageKey); }
  }

  lemma ClaimedWorker(cfg: Config, s: State, now: Instant, ids: seq<Id>, name: string)
    requires Inv(cfg, s) && Claimable(cfg, s, now, ids)
    ensures WorkerInv(cfg, s, Busy(now, Snapshots(s.rows, ids, now, name), Ready))
  {
    forall j | 0 <= j < |ids| ensures SnapshotOk(cfg, s.keys, Snapshots(s.rows, ids, now, name)[j]) {
      assert RowInv(cfg, s, ids[j]);
    }
  }

  /** After an accepted send the key's mark has been inserted. */
  lemma SentWorker(cfg: Config, s: State, w: nat, result: SendResult)
    requires Inv(cfg, s) && InPhase(s, w, false, true, false)
    ensures WorkerInv(cfg, SendNext(s, w, result), SendNext(s, w, result).workers[w])
  {
    assert WorkerInv(cfg, s, s.workers[w]);
    var key := s.workers[w].phase.key;
    if key.Some? {
      assert Accounted(s, key.value);
      SendAccounted(s, w, result, key.value);
    }
  }

  lemma MovedWorker(cfg: Config, s: State, step: Step)
    requires Inv(cfg, s) && Enabled(cfg, s, step) && !step.Claim? && !step.Send?
    requires step.RaiseEarly? || step.Dedupe? || step.Mark? || step.Crash?
    ensures WorkerInv(cfg, Next(cfg, s, step), Next(cfg, s, step).workers[step.w])
  {
    assert WorkerInv(cfg, s, s.workers[step.w]);
  }

  lemma WorkerNext(cfg: Config, s: State, step: Step, i: nat)
    requires Inv(cfg, s) && Enabled(cfg, s, step) && i < |s.workers|
    ensures WorkerInv(cfg, Next(cfg, s, step), Next(cfg, s, step).workers[i])
  {
    var s' := Next(cfg, s, step);
    if s'.workers[i] == s.workers[i] {
      assert WorkerInv(cfg, s, s.workers[i]);
      WorkerFrame(cfg, s, step, s.workers[i]);
      return;
    }
    match step {
      case Claim(w, now, ids, name) =>
        ClaimedWorker(cfg, s, now, ids, name);
        WorkerFrame(cfg, s, step, s'.workers[i]);
      case Send(w, result) => SentWorker(cfg, s, w, result);
      case _ => MovedWorker(cfg, s, step);
    }
  }

  lemma InvNext(cfg: Config, s: State, step: Step)
    requires cfg.Valid() && Inv(cfg, s) && Enabled(cfg, s, step)
    ensures Inv(cfg, Next(cfg, s, step))
  {
    var s' := Next(cfg, s, step);
    forall k ensures Accounted(s', k) { AccountedNext(cfg, s, step, k); }
    forall id ensures RowInv(cfg, s', id) { RowNext(cfg, s, step, id); }
    forall id ensures CallsInv(s', id) { CallsNext(cfg, s, step, id); }
    forall i | 0 <= i < |s'.workers| ensures WorkerInv(cfg, s', s'.workers[i]) { WorkerNext(cfg, s, step, i); }
  }

  lemma {:induction false} InvRun(cfg: Config, s: State, steps: seq<Step>)
    requires cfg.Valid() && Inv(cfg, s)
    ensures Inv(cfg, Run(cfg, s, steps))
    decreases |steps|
  {
    if steps != [] {
      if Enabled(cfg, s, steps[0]) { InvNext(cfg, s, steps[0]); }
      InvRun(cfg, Do(cfg, s, steps[0]), steps[1..]);
    }
  }
}
