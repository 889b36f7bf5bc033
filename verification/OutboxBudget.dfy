/**
  The retry budget with several workers. A stale copy writes back the attempts
  it was claimed with plus one, so the count can fall and a row can be
  dispatched more often than `max_attempts`. This module gives such a run, a
  bound on the dispatches of any run without crashes and re-arms, and the
  documented budget for runs whose claims do not overlap.
*/
module OutboxBudget {
  import opened Prelude
  import opened OutboxModel
  import opened OutboxWorkers
  import opened OutboxTerminal
  import OrderedSelect

  /** Neither a crash nor a re-arm. */
  predicate Clean(steps: seq<Step>) {
    forall i :: 0 <= i < |steps| ==> !steps[i].Crash? && !steps[i].Rearm?
  }

  /** The step starts a dispatch of `id`: the handler call for a worker's first row. */
  predicate Begins(s: State, step: Step, id: Id) {
    (step.RaiseEarly? || step.Dedupe?) && InPhase(s, step.w, true, false, false) && s.workers[step.w].batch[0].id == id
  }

  function One(b: bool): nat { if b then 1 else 0 }

  /** Dispatches of `id` started along the run. */
  function Begun(cfg: Config, s: State, steps: seq<Step>, id: Id): nat
    decreases |steps|
  {
    if steps == [] then 0 else One(Begins(s, steps[0], id)) + Begun(cfg, Do(cfg, s, steps[0]), steps[1..], id)
  }

  lemma {:induction false} BegunConcat(cfg: Config, s: State, first: seq<Step>, rest: seq<Step>, id: Id)
    ensures Begun(cfg, s, first + rest, id) == Begun(cfg, s, first, id) + Begun(cfg, Run(cfg, s, first), rest, id)
    decreases |first|
  {
    if first == [] {
      assert first + rest == rest;
    } else {
      assert (first + rest)[1..] == first[1..] + rest;
      BegunConcat(cfg, Do(cfg, s, first[0]), first[1..], rest, id);
    }
  }

  // ── What a copy is worth ───────────────────────────────────────────────

  /** The most dispatches a copy claimed with `attempts` can lead to among `n` workers: its own, and once it has
      written back `attempts + 1`, those of a copy claimed with that by each of them. */
  function Share(max: int, n: nat, attempts: nat): nat
    decreases max - attempts
  {
    if attempts >= max then 0 else 1 + n * Share(max, n, attempts + 1)
  }

  /** With one worker that is the documented budget. */
  lemma {:induction false} ShareOne(max: int, attempts: nat)
    requires attempts <= max
    ensures Share(max, 1, attempts) == max - attempts
    decreases max - attempts
  {
    if attempts < max { ShareOne(max, attempts + 1); }
  }

  predicate Has(batch: seq<Snapshot>, id: Id) {
    batch != [] && (batch[0].id == id || Has(batch[1..], id))
  }

  function CopySum(max: int, n: nat, batch: seq<Snapshot>, id: Id): nat {
    if batch == [] then 0
    else (if batch[0].id == id then Share(max, n, batch[0].row.attempts) else 0) + CopySum(max, n, batch[1..], id)
  }

  lemma {:induction false} NoCopyNoSum(max: int, n: nat, batch: seq<Snapshot>, id: Id)
    requires !Has(batch, id)
    ensures CopySum(max, n, batch, id) == 0
    decreases |batch|
  {
    if batch != [] { NoCopyNoSum(max, n, batch[1..], id); }
  }

  lemma {:induction false} NotAmong(batch: seq<Snapshot>, id: Id)
    requires forall i :: 0 <= i < |batch| ==> batch[i].id != id
    ensures !Has(batch, id)
    decreases |batch|
  {
    if batch != [] { NotAmong(batch[1..], id); }
  }

  lemma {:induction false} OneCopy(max: int, n: nat, batch: seq<Snapshot>, id: Id, i: nat)
    requires i < |batch| && batch[i].id == id
    requires forall j, k :: 0 <= j < k < |batch| ==> batch[j].id != batch[k].id
    ensures Has(batch, id) && CopySum(max, n, batch, id) == Share(max, n, batch[i].row.attempts)
    decreases |batch|
  {
    if i == 0 {
      NotAmong(batch[1..], id);
      NoCopyNoSum(max, n, batch[1..], id);
    } else {
      OneCopy(max, n, batch[1..], id, i - 1);
    }
  }

  /** What an idle or otherwise busy worker could still get by claiming `id`. */
  function Free(cfg: Config, n: nat, rows: Table, id: Id): nat {
    if id in rows && rows[id].status == Pending then Share(cfg.maxAttempts, n, rows[id].attempts) else 0
  }

  function Weight(max: int, n: nat, id: Id, free: nat): Worker -> int {
    (w: Worker) =>
      if w.Idle? || !Has(w.batch, id) then free
      else CopySum(max, n, w.batch, id) - One(w.batch != [] && w.batch[0].id == id && !w.phase.Ready?)
  }

  /** Everything the workers together can still start. */
  function Total(cfg: Config, s: State, id: Id): int {
    var n := |s.workers|;
    SumOver(s.workers, Weight(cfg.maxAttempts, n, id, Free(cfg, n, s.rows, id)))
  }

  lemma {:induction false} SumRise(ws: seq<Worker>, max: int, n: nat, id: Id, free: nat)
    ensures SumOver(ws, Weight(max, n, id, 0)) <= SumOver(ws, Weight(max, n, id, free))
    ensures SumOver(ws, Weight(max, n, id, free)) <= SumOver(ws, Weight(max, n, id, 0)) + |ws| * free
  {
    if ws != [] {
      SumRise(ws[..|ws| - 1], max, n, id, free);
      assert |ws| * free == (|ws| - 1) * free + free;
    }
  }

  // ── No step adds to it ─────────────────────────────────────────────────

  lemma FreeAfterMark(cfg: Config, rows: Table, snap: Snapshot, now: Instant, raised: Option<string>, n: nat)
    ensures Free(cfg, n, Settle(cfg, rows, snap, now, raised), snap.id)
            <= Share(cfg.maxAttempts, n, snap.row.attempts + 1)
  {
  }

  /** Settling a copy of `id` pays with that copy's share for every claim it opens. */
  lemma MarkOwn(cfg: Config, s: State, w: nat, id: Id, s': State)
    requires InPhase(s, w, false, false, true) && s' == MarkNext(cfg, s, w)
    requires s.workers[w].batch[0].id == id && s.workers[w].batch[0].row.attempts < cfg.maxAttempts
    ensures Total(cfg, s', id) <= Total(cfg, s, id)
  {
    var n, max, b := |s.workers|, cfg.maxAttempts, s.workers[w];
    var f, f', h := Free(cfg, n, s.rows, id), Free(cfg, n, s'.rows, id), b.batch[0].row.attempts;
    FreeAfterMark(cfg, s.rows, b.batch[0], b.now, Outcome(b.phase), n);
    SumRise(s'.workers, max, n, id, f');
    SumRise(s.workers, max, n, id, f);
    SumUpdate(s.workers, w, s'.workers[w], Weight(max, n, id, 0));
    if !Has(b.batch[1..], id) { NoCopyNoSum(max, n, b.batch[1..], id); }
    assert Weight(max, n, id, 0)(b) == n * Share(max, n, h + 1) + CopySum(max, n, b.batch[1..], id);
    assert Weight(max, n, id, 0)(s'.workers[w]) == CopySum(max, n, b.batch[1..], id);
    Product(n, f', Share(max, n, h + 1));
  }

  lemma Product(n: nat, a: nat, b: nat)
    requires a <= b
    ensures n * a <= n * b
  {
    assert n * b == n * a + n * (b - a);
  }

  lemma MarkOther(cfg: Config, s: State, w: nat, id: Id, s': State)
    requires InPhase(s, w, false, false, true) && s' == MarkNext(cfg, s, w) && s.workers[w].batch[0].id != id
    ensures Total(cfg, s', id) == Total(cfg, s, id)
  {
    var n, max, b := |s.workers|, cfg.maxAttempts, s.workers[w];
    var f := Free(cfg, n, s.rows, id);
    assert Free(cfg, n, s'.rows, id) == f;
    assert |b.batch| == 1 ==> b.batch[1..] == [];
    assert Has(b.batch, id) == Has(b.batch[1..], id);
    assert CopySum(max, n, b.batch, id) == CopySum(max, n, b.batch[1..], id);
    assert Weight(max, n, id, f)(s'.workers[w]) == Weight(max, n, id, f)(b);
    SumUpdate(s.workers, w, s'.workers[w], Weight(max, n, id, f));
  }

  lemma ClaimKeeps(cfg: Config, s: State, step: Step, id: Id, s': State)
    requires step.Claim? && Enabled(cfg, s, step) && s' == Next(cfg, s, step)
    ensures Total(cfg, s', id) == Total(cfg, s, id)
  {
    var n, max := |s.workers|, cfg.maxAttempts;
    var f, batch := Free(cfg, n, s.rows, id), s'.workers[step.w].batch;
    assert Free(cfg, n, s'.rows, id) == f;
    OrderedSelect.AscendingDistinct(DueRank(s.rows), step.ids);
    if i :| 0 <= i < |batch| && batch[i].id == id {
      OneCopy(max, n, batch, id, i);
    } else {
      NotAmong(batch, id);
    }
    SumUpdate(s.workers, step.w, s'.workers[step.w], Weight(max, n, id, f));
  }

  lemma StartPays(cfg: Config, s: State, step: Step, id: Id, s': State)
    requires (step.RaiseEarly? || step.Dedupe?) && Enabled(cfg, s, step) && s' == Next(cfg, s, step)
    ensures Total(cfg, s', id) + One(Begins(s, step, id)) == Total(cfg, s, id)
  {
    var n, max := |s.workers|, cfg.maxAttempts;
    SumUpdate(s.workers, step.w, s'.workers[step.w], Weight(max, n, id, Free(cfg, n, s.rows, id)));
  }

  lemma SendShape(cfg: Config, s: State, step: Step, s': State, b: Worker, b': Worker)
    requires step.Send? && Enabled(cfg, s, step) && s' == Next(cfg, s, step)
    requires b == s.workers[step.w] && b' == s'.workers[step.w]
    ensures s'.rows == s.rows && s'.workers == s.workers[step.w := b']
    ensures b'.Busy? && b'.batch == b.batch && !b.phase.Ready? && !b'.phase.Ready?
  {
  }

  lemma SendKeeps(cfg: Config, s: State, step: Step, id: Id, s': State)
    requires step.Send? && Enabled(cfg, s, step) && s' == Next(cfg, s, step)
    ensures Total(cfg, s', id) == Total(cfg, s, id)
  {
    var weight := Weight(cfg.maxAttempts, |s.workers|, id, Free(cfg, |s.workers|, s.rows, id));
    var b, b' := s.workers[step.w], s'.workers[step.w];
    SendShape(cfg, s, step, s', b, b');
    assert weight(b') == weight(b);
    SumUpdate(s.workers, step.w, b', weight);
  }

  lemma TablesKeep(cfg: Config, s: State, step: Step, id: Id, s': State)
    requires step.Produce? || step.PruneMarksBefore? || step.PruneRowsBefore?
    requires Enabled(cfg, s, step) && s' == Next(cfg, s, step) && id in s.keys
    ensures Total(cfg, s', id) == Total(cfg, s, id)
  {
    assert s'.workers == s.workers;
    assert Free(cfg, |s.workers|, s'.rows, id) == Free(cfg, |s.workers|, s.rows, id);
  }

  lemma TotalNext(cfg: Config, s: State, step: Step, id: Id, s': State)
    requires Inv(cfg, s) && Enabled(cfg, s, step) && s' == Next(cfg, s, step) && id in s.keys
    requires !step.Crash? && !step.Rearm?
    ensures Total(cfg, s', id) + One(Begins(s, step, id)) <= Total(cfg, s, id)
  {
    match step
    case Claim(_, _, _, _) => ClaimKeeps(cfg, s, step, id, s');
    case RaiseEarly(_, _) => StartPays(cfg, s, step, id, s');
    case Dedupe(_, _) => StartPays(cfg, s, step, id, s');
    case Send(_, _) => SendKeeps(cfg, s, step, id, s');
    case Mark(w) =>
      assert WorkerInv(cfg, s, s.workers[w]) && SnapshotOk(cfg, s.keys, s.workers[w].batch[0]);
      if s.workers[w].batch[0].id == id { MarkOwn(cfg, s, w, id, s'); } else { MarkOther(cfg, s, w, id, s'); }
    case _ => if !step.Crash? && !step.Rearm? { TablesKeep(cfg, s, step, id, s'); }
  }

  // ── The bound ──────────────────────────────────────────────────────────

  lemma {:induction false} SharePositive(max: int, n: nat, batch: seq<Snapshot>, id: Id)
    requires Has(batch, id) && forall i :: 0 <= i < |batch| ==> batch[i].row.attempts < max
    ensures CopySum(max, n, batch, id) >= 1
    decreases |batch|
  {
    if batch[0].id != id { SharePositive(max, n, batch[1..], id); }
  }

  lemma {:induction false} TotalNonnegative(cfg: Config, s: State, ws: seq<Worker>, n: nat, id: Id, free: nat)
    requires forall i :: 0 <= i < |ws| ==> WorkerInv(cfg, s, ws[i])
    ensures SumOver(ws, Weight(cfg.maxAttempts, n, id, free)) >= 0
  {
    if ws != [] {
      var w := ws[|ws| - 1];
      TotalNonnegative(cfg, s, ws[..|ws| - 1], n, id, free);
      assert WorkerInv(cfg, s, w);
      if w.Busy? && Has(w.batch, id) {
        forall i | 0 <= i < |w.batch| ensures w.batch[i].row.attempts < cfg.maxAttempts {
          assert SnapshotOk(cfg, s.keys, w.batch[i]);
        }
        SharePositive(cfg.maxAttempts, n, w.batch, id);
      }
    }
  }

  /** Over every run without crashes and re-arms, dispatches started never exceed what the workers could start. */
  lemma {:induction false} DispatchesPaid(cfg: Config, s: State, steps: seq<Step>, id: Id)
    requires cfg.Valid() && Inv(cfg, s) && id in s.keys && Clean(steps)
    ensures Begun(cfg, s, steps, id) <= Total(cfg, s, id)
    decreases |steps|
  {
    if steps == [] {
      TotalNonnegative(cfg, s, s.workers, |s.workers|, id, Free(cfg, |s.workers|, s.rows, id));
    } else {
      var s' := Do(cfg, s, steps[0]);
      if Enabled(cfg, s, steps[0]) {
        TotalNext(cfg, s, steps[0], id, s');
        InvNext(cfg, s, steps[0]);
      }
      DispatchesPaid(cfg, s', steps[1..], id);
    }
  }

  lemma {:induction false} AllFree(ws: seq<Worker>, max: int, n: nat, id: Id, free: nat)
    requires forall i :: 0 <= i < |ws| ==> ws[i].Idle? || !Has(ws[i].batch, id)
    ensures SumOver(ws, Weight(max, n, id, free)) == |ws| * free
  {
    if ws != [] {
      AllFree(ws[..|ws| - 1], max, n, id, free);
      assert |ws| * free == (|ws| - 1) * free + free;
    }
  }

  lemma UnknownUnheld(cfg: Config, s: State, id: Id, i: nat)
    requires Inv(cfg, s) && id !in s.keys && i < |s.workers|
    ensures s.workers[i].Idle? || !Has(s.workers[i].batch, id)
  {
    assert WorkerInv(cfg, s, s.workers[i]);
    if s.workers[i].Busy? {
      forall j | 0 <= j < |s.workers[i].batch| ensures s.workers[i].batch[j].id != id {
        assert SnapshotOk(cfg, s.keys, s.workers[i].batch[j]);
      }
      NotAmong(s.workers[i].batch, id);
    }
  }

  lemma ProducedTotal(cfg: Config, s: State, step: Step, id: Id, s': State)
    requires Inv(cfg, s) && step.Produce? && step.id == id && Enabled(cfg, s, step) && s' == Next(cfg, s, step)
    ensures Total(cfg, s', id) == |s.workers| * Share(cfg.maxAttempts, |s.workers|, 0)
  {
    forall i | 0 <= i < |s'.workers| ensures s'.workers[i].Idle? || !Has(s'.workers[i].batch, id) {
      UnknownUnheld(cfg, s, id, i);
    }
    AllFree(s'.workers, cfg.maxAttempts, |s.workers|, id, Share(cfg.maxAttempts, |s.workers|, 0));
  }

  lemma UnknownNotBegun(cfg: Config, s: State, step: Step, id: Id)
    requires Inv(cfg, s) && id !in s.keys
    ensures !Begins(s, step, id)
  {
    if Begins(s, step, id) { UnknownUnheld(cfg, s, id, step.w); }
  }

  /**
    With n workers, from the empty tables, a run without crashes and re-arms starts at most
    n + n^2 + ... + n^max_attempts dispatches of a row.
  */
  lemma {:induction false} DispatchBound(cfg: Config, s: State, steps: seq<Step>, id: Id)
    requires cfg.Valid() && Inv(cfg, s) && id !in s.keys && Clean(steps)
    ensures Begun(cfg, s, steps, id) <= |s.workers| * Share(cfg.maxAttempts, |s.workers|, 0)
    decreases |steps|
  {
    if steps == [] { return; }
    var s' := Do(cfg, s, steps[0]);
    UnknownNotBegun(cfg, s, steps[0], id);
    if !Enabled(cfg, s, steps[0]) {
      DispatchBound(cfg, s', steps[1..], id);
      return;
    }
    InvNext(cfg, s, steps[0]);
    if id in s'.keys {
      ProducedTotal(cfg, s, steps[0], id, s');
      DispatchesPaid(cfg, s', steps[1..], id);
    } else {
      SameWorkers(cfg, s, steps[0]);
      DispatchBound(cfg, s', steps[1..], id);
    }
  }

  lemma SameWorkers(cfg: Config, s: State, step: Step)
    requires Enabled(cfg, s, step)
    ensures |Next(cfg, s, step).workers| == |s.workers|
  {
  }

  // ── Exclusive claims keep the documented budget ────────────────────────

  /** With claims that do not overlap every failing settlement raises the attempts by one. */
  lemma ExclusiveFailureCounts(cfg: Config, s: State, w: nat)
    requires Disjoint(s) && InPhase(s, w, false, false, true) && s.workers[w].phase.Raised?
    ensures var id := s.workers[w].batch[0].id;
            id in s.rows && MarkNext(cfg, s, w).rows[id].attempts == s.rows[id].attempts + 1
  {
    assert Fresh(s, w, 0);
  }

  function Began(id: Id): Worker -> int {
    (w: Worker) => if w.Busy? && w.batch != [] && w.batch[0].id == id && !w.phase.Ready? then 1 else 0
  }

  /** Attempts the row has left, not counting a dispatch under way. */
  function Left(cfg: Config, s: State, id: Id): int {
    if id in s.rows && s.rows[id].status == Pending
    then cfg.maxAttempts - s.rows[id].attempts - SumOver(s.workers, Began(id)) else 0
  }

  lemma {:induction false} NoneBegan(ws: seq<Worker>, id: Id)
    requires forall i :: 0 <= i < |ws| ==> Began(id)(ws[i]) == 0
    ensures SumOver(ws, Began(id)) == 0
  {
    if ws != [] { NoneBegan(ws[..|ws| - 1], id); }
  }

  lemma {:induction false} OneBegan(ws: seq<Worker>, id: Id)
    requires forall i, j :: 0 <= i < j < |ws| ==> Began(id)(ws[i]) + Began(id)(ws[j]) <= 1
    ensures 0 <= SumOver(ws, Began(id)) <= 1
  {
    if ws != [] {
      var n := |ws| - 1;
      if Began(id)(ws[n]) == 1 {
        forall i | 0 <= i < n ensures Began(id)(ws[..n][i]) == 0 { assert Began(id)(ws[i]) + Began(id)(ws[n]) <= 1; }
        NoneBegan(ws[..n], id);
      } else {
        OneBegan(ws[..n], id);
      }
    }
  }

  lemma LeftNonnegative(cfg: Config, s: State, id: Id)
    requires Inv(cfg, s) && Disjoint(s)
    ensures Left(cfg, s, id) >= 0
  {
    forall i, j | 0 <= i < j < |s.workers| ensures Began(id)(s.workers[i]) + Began(id)(s.workers[j]) <= 1 {
    }
    OneBegan(s.workers, id);
    assert RowInv(cfg, s, id);
  }

  lemma LeftMark(cfg: Config, s: State, w: nat, id: Id, s': State)
    requires Inv(cfg, s) && Disjoint(s) && InPhase(s, w, false, false, true) && s' == MarkNext(cfg, s, w)
    ensures Left(cfg, s', id) <= Left(cfg, s, id)
  {
    SumUpdate(s.workers, w, s'.workers[w], Began(id));
    assert Fresh(s, w, 0);
    LeftNonnegative(cfg, s, id);
  }

  lemma LeftStart(cfg: Config, s: State, step: Step, id: Id, s': State)
    requires Disjoint(s) && (step.RaiseEarly? || step.Dedupe?) && Enabled(cfg, s, step) && s' == Next(cfg, s, step)
    ensures Left(cfg, s', id) + One(Begins(s, step, id)) == Left(cfg, s, id)
  {
    SumUpdate(s.workers, step.w, s'.workers[step.w], Began(id));
    assert Fresh(s, step.w, 0);
  }

  lemma LeftOther(cfg: Config, s: State, step: Step, id: Id, s': State)
    requires step.Claim? || step.Send? || step.Produce? || step.PruneMarksBefore? || step.PruneRowsBefore?
    requires Enabled(cfg, s, step) && s' == Next(cfg, s, step) && id in s.keys
    ensures Left(cfg, s', id) == Left(cfg, s, id)
  {
    if step.Claim? || step.Send? { SumUpdate(s.workers, step.w, s'.workers[step.w], Began(id)); }
  }

  lemma LeftNext(cfg: Config, s: State, step: Step, id: Id, s': State)
    requires Inv(cfg, s) && Disjoint(s) && Enabled(cfg, s, step) && s' == Next(cfg, s, step) && id in s.keys
    requires !step.Crash? && !step.Rearm?
    ensures Left(cfg, s', id) + One(Begins(s, step, id)) <= Left(cfg, s, id)
  {
    match step
    case RaiseEarly(_, _) => LeftStart(cfg, s, step, id, s');
    case Dedupe(_, _) => LeftStart(cfg, s, step, id, s');
    case Mark(w) => LeftMark(cfg, s, w, id, s');
    case _ => if !step.Crash? && !step.Rearm? { LeftOther(cfg, s, step, id, s'); }
  }

  /** While claims do not overlap, and without crashes and re-arms, a row is dispatched no more often than it has
      attempts left: `max_attempts` times in all for a row not yet enqueued. */
  lemma {:induction false} ExclusiveBudget(cfg: Config, s: State, steps: seq<Step>, id: Id)
    requires cfg.Valid() && Inv(cfg, s) && Disjoint(s) && ExclusiveRun(cfg, s, steps) && Clean(steps)
    ensures Begun(cfg, s, steps, id) <= if id in s.keys then Left(cfg, s, id) else cfg.maxAttempts
    decreases |steps|
  {
    if id in s.keys { LeftNonnegative(cfg, s, id); }
    if steps == [] { return; }
    var s' := Do(cfg, s, steps[0]);
    if id !in s.keys { UnknownNotBegun(cfg, s, steps[0], id); }
    if Enabled(cfg, s, steps[0]) {
      InvNext(cfg, s, steps[0]);
      DisjointNext(cfg, s, steps[0]);
      if id in s.keys {
        LeftNext(cfg, s, steps[0], id, s');
      } else if id in s'.keys {
        NewLeft(cfg, s, steps[0], id, s');
      }
    }
    ExclusiveBudget(cfg, s', steps[1..], id);
  }

  lemma NewLeft(cfg: Config, s: State, step: Step, id: Id, s': State)
    requires Inv(cfg, s) && id !in s.keys && Enabled(cfg, s, step) && s' == Next(cfg, s, step) && id in s'.keys
    ensures Left(cfg, s', id) == cfg.maxAttempts
  {
    forall i | 0 <= i < |s'.workers| ensures Began(id)(s'.workers[i]) == 0 { UnknownUnheld(cfg, s, id, i); }
    NoneBegan(s'.workers, id);
  }

  // ── Overlapping claims do not ──────────────────────────────────────────

  /** Worker 1 holds a copy of `id` claimed with no attempts, while the row has made `n`. */
  ghost predicate StaleCopy(s: State, id: Id, n: nat) {
    && |s.workers| >= 2 && s.workers[0] == Idle && s.workers[1].Busy? && s.workers[1].phase == Ready
    && |s.workers[1].batch| == 1 && s.workers[1].batch[0].id == id && s.workers[1].batch[0].row.attempts == 0
    && id in s.rows && s.rows[id].status == Pending && s.rows[id].attempts == n
  }

  /** An idle pair of workers and a pending row that has made `n` attempts. */
  ghost predicate Retrying(s: State, id: Id, n: nat) {
    && |s.workers| >= 2 && s.workers[0] == Idle && s.workers[1] == Idle
    && id in s.rows && s.rows[id].status == Pending && s.rows[id].attempts == n
  }

  lemma Counting(cfg: Config, s: State, steps: seq<Step>, t: State, step: Step, id: Id)
    returns (steps': seq<Step>, t': State)
    requires t == Run(cfg, s, steps) && Enabled(cfg, t, step) && Clean(steps) && !step.Crash? && !step.Rearm?
    ensures t' == Next(cfg, t, step) && t' == Run(cfg, s, steps') && Clean(steps')
    ensures Begun(cfg, s, steps', id) == Begun(cfg, s, steps, id) + One(Begins(t, step, id))
  {
    steps', t' := Extend(cfg, s, steps, t, step);
    BegunConcat(cfg, s, steps, [step], id);
    assert [step][1..] == [];
    assert Begun(cfg, t, [step], id) == One(Begins(t, step, id)) + Begun(cfg, Do(cfg, t, step), [], id);
  }

  /** Worker 0 holds just `id`, claimed with `n` attempts, and all else is as in `s`. */
  ghost predicate OnAttempt(s: State, t: State, id: Id, n: nat, ready: bool) {
    && s.workers != [] && t.workers != [] && t.workers == s.workers[0 := t.workers[0]] && t.workers[0].Busy?
    && |t.workers[0].batch| == 1 && t.workers[0].batch[0].id == id && t.workers[0].batch[0].row.attempts == n
    && (if ready then t.workers[0].phase.Ready? else t.workers[0].phase.Raised?)
    && id in t.rows && t.rows[id].status == Pending
  }

  lemma AttemptClaimed(cfg: Config, s: State, id: Id, claim: Step)
    requires cfg.Valid() && s.workers != [] && s.workers[0] == Idle && id in s.rows && s.rows[id].status == Pending
    requires claim == Claim(0, s.rows[id].availableAt, [id], "a")
    ensures Enabled(cfg, s, claim) && OnAttempt(s, Next(cfg, s, claim), id, s.rows[id].attempts, true)
  {
  }

  lemma AttemptFails(cfg: Config, s: State, t: State, id: Id, n: nat, t': State)
    requires OnAttempt(s, t, id, n, false) && s.workers[0] == Idle && t' == MarkNext(cfg, t, 0)
    ensures t'.workers == s.workers && id in t'.rows && t'.rows[id].attempts == n + 1
    ensures t'.rows[id].status == if n + 1 < cfg.maxAttempts then Pending else Failed
  {
  }

  /** Worker 0 claims the row and fails before the dedup insert. */
  lemma FailedAttempt(cfg: Config, s: State, id: Id) returns (steps: seq<Step>)
    requires cfg.Valid() && s.workers != [] && s.workers[0] == Idle
    requires id in s.rows && s.rows[id].status == Pending && s.rows[id].attempts < cfg.maxAttempts
    ensures Clean(steps) && Begun(cfg, s, steps, id) == 1
    ensures var t := Run(cfg, s, steps); var n := s.rows[id].attempts + 1;
            && t.workers == s.workers && id in t.rows && t.rows[id].attempts == n
            && t.rows[id].status == if n < cfg.maxAttempts then Pending else Failed
  {
    var claim, raise := Claim(0, s.rows[id].availableAt, [id], "a"), RaiseEarly(0, "queue down");
    AttemptClaimed(cfg, s, id, claim);
    var t, t', t'';
    steps, t := Counting(cfg, s, [], s, claim, id);
    steps, t' := Counting(cfg, s, steps, t, raise, id);
    assert OnAttempt(s, t', id, s.rows[id].attempts, false);
    steps, t'' := Counting(cfg, s, steps, t', Mark(0), id);
    AttemptFails(cfg, s, t', id, s.rows[id].attempts, t'');
  }

  lemma Join(cfg: Config, s: State, a: seq<Step>, b: seq<Step>, id: Id)
    requires Clean(a) && Clean(b)
    ensures Clean(a + b) && Run(cfg, s, a + b) == Run(cfg, Run(cfg, s, a), b)
    ensures Begun(cfg, s, a + b, id) == Begun(cfg, s, a, id) + Begun(cfg, Run(cfg, s, a), b, id)
  {
    RunConcat(cfg, s, a, b);
    BegunConcat(cfg, s, a, b, id);
  }

  lemma {:induction false} FailTo(cfg: Config, s: State, id: Id, m: nat) returns (steps: seq<Step>)
    requires cfg.Valid() && s.workers != [] && s.workers[0] == Idle
    requires id in s.rows && s.rows[id].status == Pending && s.rows[id].attempts <= m <= cfg.maxAttempts
    requires s.rows[id].attempts < cfg.maxAttempts
    ensures Clean(steps) && Begun(cfg, s, steps, id) == m - s.rows[id].attempts
    ensures var t := Run(cfg, s, steps);
            && t.workers == s.workers && id in t.rows && t.rows[id].attempts == m
            && t.rows[id].status == if m < cfg.maxAttempts then Pending else Failed
    decreases m - s.rows[id].attempts
  {
    if s.rows[id].attempts == m { return []; }
    steps := FailedAttempt(cfg, s, id);
    var t := Run(cfg, s, steps);
    if t.rows[id].attempts < m {
      var rest := FailTo(cfg, t, id, m);
      Join(cfg, s, steps, rest, id);
      steps := steps + rest;
    }
  }

  lemma StaleClaim(cfg: Config, s: State, id: Id) returns (steps: seq<Step>)
    requires cfg.Valid() && Retrying(s, id, 0)
    ensures Clean(steps) && Begun(cfg, s, steps, id) == 0 && StaleCopy(Run(cfg, s, steps), id, 0)
  {
    var t;
    steps, t := Counting(cfg, s, [], s, Claim(1, s.rows[id].availableAt, [id], "b"), id);
  }

  lemma StaleSettles(cfg: Config, s: State, id: Id, n: nat) returns (steps: seq<Step>)
    requires cfg.Valid() && cfg.maxAttempts >= 2 && StaleCopy(s, id, n)
    ensures Clean(steps) && Begun(cfg, s, steps, id) == 1 && Retrying(Run(cfg, s, steps), id, 1)
  {
    var t;
    steps, t := Counting(cfg, s, [], s, RaiseEarly(1, "queue down"), id);
    steps, t := Counting(cfg, s, steps, t, Mark(1), id);
  }

  /**
    From the empty tables, under every configuration with a retry and two workers: a stale copy throws a row that has
    made `max_attempts - 1` attempts back to one, and it is dispatched 2 * max_attempts - 1 times before it fails.
  */
  lemma AttemptsFallBack(cfg: Config, s: State, id: Id, at: Instant)
    returns (high: seq<Step>, low: seq<Step>, all: seq<Step>)
    requires cfg.Valid() && cfg.maxAttempts >= 2 && Initial(s) && |s.workers| >= 2
    ensures high <= low <= all && Clean(all)
    ensures Retrying(Run(cfg, s, low), id, 1) && StaleCopy(Run(cfg, s, high), id, cfg.maxAttempts - 1)
    ensures id in Run(cfg, s, all).rows && Run(cfg, s, all).rows[id].status == Failed
    ensures Begun(cfg, s, all, id) == 2 * cfg.maxAttempts - 1
  {
    var start, t0 := Counting(cfg, s, [], s, Produce(id, Absent, at), id);
    var claim := StaleClaim(cfg, t0, id);
    Join(cfg, s, start, claim, id);
    var t1 := Run(cfg, t0, claim);
    var up := FailTo(cfg, t1, id, cfg.maxAttempts - 1);
    high := start + claim + up;
    Join(cfg, s, start + claim, up, id);
    var t2 := Run(cfg, t1, up);
    var back := StaleSettles(cfg, t2, id, cfg.maxAttempts - 1);
    low := high + back;
    Join(cfg, s, high, back, id);
    var t3 := Run(cfg, t2, back);
    var rest := FailTo(cfg, t3, id, cfg.maxAttempts);
    all := low + rest;
    Join(cfg, s, low, rest, id);
  }
}
