/**
  The documented row machine, in which delivered and failed are final, and
  exactly when the interleaved relay keeps to it.
*/
module OutboxTerminal {
  import opened Prelude
  import opened OutboxModel
  import opened OutboxWorkers
  import OrderedSelect

  ghost predicate Rearms(steps: seq<Step>) { exists i :: 0 <= i < |steps| && steps[i].Rearm? }

  lemma RearmsSplit(first: seq<Step>, rest: seq<Step>)
    requires !Rearms(first) && !Rearms(rest)
    ensures !Rearms(first + rest)
  {
    forall i | 0 <= i < |first + rest| ensures !(first + rest)[i].Rearm? {
      if i < |first| { assert !first[i].Rearm?; } else { assert !rest[i - |first|].Rearm?; }
    }
  }

  lemma RearmsTail(steps: seq<Step>)
    requires steps != [] && !Rearms(steps)
    ensures !steps[0].Rearm? && !Rearms(steps[1..])
  {
    forall i | 0 <= i < |steps[1..]| ensures !steps[1..][i].Rearm? { assert !steps[i + 1].Rearm?; }
  }

  // ── Which held copies can undo a terminal row ──────────────────────────

  /** Worker `i` holds a copy of `id` at place `p` of its batch. */
  ghost predicate Held(s: State, id: Id, i: nat, p: nat) {
    i < |s.workers| && s.workers[i].Busy? && p < |s.workers[i].batch| && s.workers[i].batch[p].id == id
  }

  /** That copy can still settle to something other than `st`: for a delivered row, by failing on its last attempt
      unless its handler has already returned; for a failed row, by succeeding unless its handler has already raised. */
  ghost predicate CanFlip(cfg: Config, s: State, st: Status, i: nat, p: nat)
    requires i < |s.workers| && s.workers[i].Busy? && p < |s.workers[i].batch|
  {
    var b := s.workers[i];
    if st == Delivered then b.batch[p].row.attempts + 1 >= cfg.maxAttempts && !(p == 0 && b.phase.Returned?)
    else !(p == 0 && b.phase.Raised?)
  }

  ghost predicate Flippable(cfg: Config, s: State, st: Status, id: Id) {
    exists i: nat, p: nat :: Held(s, id, i, p) && CanFlip(cfg, s, st, i, p)
  }

  // ── Nothing else does ──────────────────────────────────────────────────

  /** `id` is terminal with status `st`, or pruned, and no held copy can change that. */
  ghost predicate Still(cfg: Config, s: State, st: Status, id: Id) {
    && st != Pending && id in s.keys && (id in s.rows ==> s.rows[id].status == st)
    && !Flippable(cfg, s, st, id)
  }

  /** A copy that can flip the row after a step could do so before it. */
  lemma FlippableBefore(cfg: Config, s: State, step: Step, st: Status, id: Id, s': State, i: nat, p: nat)
    requires Enabled(cfg, s, step) && s' == Next(cfg, s, step)
    requires step.Claim? ==> id !in step.ids
    requires Held(s', id, i, p) && CanFlip(cfg, s', st, i, p)
    ensures Flippable(cfg, s, st, id)
  {
    if step.Mark? && step.w == i {
      assert s'.workers[i].batch[p] == s.workers[i].batch[p + 1];
      assert Held(s, id, i, p + 1) && CanFlip(cfg, s, st, i, p + 1);
    } else if !(step.Claim? && step.w == i) {
      KeptBatch(cfg, s, step, s', i);
      assert Held(s, id, i, p) && CanFlip(cfg, s, st, i, p);
    }
  }

  /** A step that neither claims nor settles for worker `i` keeps its batch, and ends no handler run twice. */
  lemma KeptBatch(cfg: Config, s: State, step: Step, s': State, i: nat)
    requires Enabled(cfg, s, step) && s' == Next(cfg, s, step) && i < |s'.workers| && s'.workers[i].Busy?
    requires !((step.Mark? || step.Claim?) && step.w == i)
    ensures |s.workers| == |s'.workers| && s.workers[i].Busy? && s.workers[i].batch == s'.workers[i].batch
    ensures s.workers[i].phase.Returned? || s.workers[i].phase.Raised? ==> s'.workers[i].phase == s.workers[i].phase
  {
  }

  /** The settling write of a copy that cannot flip the row leaves its status. */
  lemma HarmlessMark(cfg: Config, s: State, w: nat, st: Status, id: Id)
    requires Still(cfg, s, st, id) && InPhase(s, w, false, false, true)
    ensures var rows' := MarkNext(cfg, s, w).rows; id in rows' ==> rows'[id].status == st
  {
    if s.workers[w].batch[0].id == id {
      assert Held(s, id, w, 0);
      assert !CanFlip(cfg, s, st, w, 0);
    }
  }

  lemma StillNext(cfg: Config, s: State, step: Step, st: Status, id: Id)
    requires Still(cfg, s, st, id) && Enabled(cfg, s, step) && !step.Rearm?
    ensures Still(cfg, Next(cfg, s, step), st, id)
  {
    var s' := Next(cfg, s, step);
    if step.Mark? { HarmlessMark(cfg, s, step.w, st, id); }
    if i: nat, p: nat :| Held(s', id, i, p) && CanFlip(cfg, s', st, i, p) {
      FlippableBefore(cfg, s, step, st, id, s', i, p);
    }
  }

  lemma {:induction false} StillRun(cfg: Config, s: State, steps: seq<Step>, st: Status, id: Id)
    requires Still(cfg, s, st, id) && !Rearms(steps)
    ensures Still(cfg, Run(cfg, s, steps), st, id)
    decreases |steps|
  {
    if steps != [] {
      RearmsTail(steps);
      if Enabled(cfg, s, steps[0]) { StillNext(cfg, s, steps[0], st, id); }
      StillRun(cfg, Do(cfg, s, steps[0]), steps[1..], st, id);
    }
  }

  // ── Such a copy does ───────────────────────────────────────────────────

  /** The worker's current handler run has ended, well or not, with nothing settled yet. */
  ghost predicate RunEnded(s: State, s': State, i: nat, well: bool) {
    && i < |s.workers| && i < |s'.workers| && s.workers[i].Busy? && s'.workers[i].Busy? && s'.rows == s.rows
    && s'.workers[i].batch == s.workers[i].batch && s'.workers[i].now == s.workers[i].now
    && if well then s'.workers[i].phase.Returned? else s'.workers[i].phase.Raised?
  }

  lemma SendEnds(cfg: Config, s: State, i: nat, well: bool) returns (step: Step)
    requires InPhase(s, i, false, true, false)
    ensures !step.Rearm? && RunEnded(s, Do(cfg, s, step), i, well)
  {
    step := Send(i, if well then Sent else SendError("refused"));
  }

  lemma DedupeGoesOn(cfg: Config, s: State, i: nat)
    requires InPhase(s, i, true, false, false)
    ensures var s' := Do(cfg, s, Dedupe(i, 0));
            && i < |s'.workers| && s'.workers[i].Busy? && s'.rows == s.rows
            && s'.workers[i].batch == s.workers[i].batch && s'.workers[i].now == s.workers[i].now
            && (s'.workers[i].phase.Returned? || s'.workers[i].phase.Sending?)
  {
  }

  lemma ReadyEndsWell(cfg: Config, s: State, i: nat) returns (steps: seq<Step>)
    requires InPhase(s, i, true, false, false)
    ensures !Rearms(steps) && RunEnded(s, Run(cfg, s, steps), i, true)
  {
    var dedupe := Dedupe(i, 0);
    DedupeGoesOn(cfg, s, i);
    RunOne(cfg, s, dedupe);
    var s1 := Do(cfg, s, dedupe);
    if s1.workers[i].phase.Returned? { return [dedupe]; }
    var send := SendEnds(cfg, s1, i, true);
    RunOne(cfg, s1, send);
    RunConcat(cfg, s, [dedupe], [send]);
    return [dedupe] + [send];
  }

  /** The worker's current handler run can be brought to either end it has not ruled out. */
  lemma FinishHandler(cfg: Config, s: State, i: nat, well: bool) returns (steps: seq<Step>)
    requires i < |s.workers| && s.workers[i].Busy? && s.workers[i].batch != []
    requires if well then !s.workers[i].phase.Raised? else !s.workers[i].phase.Returned?
    ensures !Rearms(steps) && RunEnded(s, Run(cfg, s, steps), i, well)
  {
    var phase := s.workers[i].phase;
    if phase.Returned? || phase.Raised? { return []; }
    if phase.Ready? && well {
      steps := ReadyEndsWell(cfg, s, i);
      return;
    }
    var step := RaiseEarly(i, "queue down");
    if phase.Sending? { step := SendEnds(cfg, s, i, well); }
    RunOne(cfg, s, step);
    return [step];
  }

  /** Settle the worker's first row, its handler ending well or not. */
  lemma SettleHead(cfg: Config, s: State, i: nat, well: bool) returns (steps: seq<Step>, error: string)
    requires i < |s.workers| && s.workers[i].Busy? && s.workers[i].batch != []
    requires if well then !s.workers[i].phase.Raised? else !s.workers[i].phase.Returned?
    ensures !Rearms(steps)
    ensures var s', b := Run(cfg, s, steps), s.workers[i];
            && s'.rows == Settle(cfg, s.rows, b.batch[0], b.now, if well then None else Some(error))
            && i < |s'.workers| && (|b.batch| > 1 ==> s'.workers[i] == Busy(b.now, b.batch[1..], Ready))
  {
    steps := FinishHandler(cfg, s, i, well);
    var s1 := Run(cfg, s, steps);
    error := if well then "" else s1.workers[i].phase.error;
    RunConcat(cfg, s, steps, [Mark(i)]);
    RunOne(cfg, s1, Mark(i));
    RearmsSplit(steps, [Mark(i)]);
    steps := steps + [Mark(i)];
  }

  /** The run settles the worker's rows one by one until the status of `id` has changed. */
  lemma {:induction false} FlipRun(cfg: Config, s: State, st: Status, id: Id, i: nat, p: nat) returns (steps: seq<Step>)
    requires st != Pending && id in s.rows && s.rows[id].status == st
    requires Held(s, id, i, p) && CanFlip(cfg, s, st, i, p)
    ensures !Rearms(steps) && id in Run(cfg, s, steps).rows && Run(cfg, s, steps).rows[id].status != st
    decreases p
  {
    var error: string;
    if p == 0 {
      steps, error := SettleHead(cfg, s, i, st == Failed);
      return;
    }
    steps, error := SettleHead(cfg, s, i, s.workers[i].phase.Returned?);
    var s1 := Run(cfg, s, steps);
    if s1.rows[id].status != st { return; }
    assert s1.workers[i].batch[p - 1] == s.workers[i].batch[p];
    var rest := FlipRun(cfg, s1, st, id, i, p - 1);
    RunConcat(cfg, s, steps, rest);
    RearmsSplit(steps, rest);
    steps := steps + rest;
  }

  /** A run without re-arm that changes the status of `id`. */
  ghost predicate Changes(cfg: Config, s: State, steps: seq<Step>, id: Id)
    requires id in s.rows
  {
    var rows' := Run(cfg, s, steps).rows;
    !Rearms(steps) && id in rows' && rows'[id].status != s.rows[id].status
  }

  /** Exactly when the strict machine can be broken: some continuation without re-arm changes the status of a terminal
      row if and only if a worker holds a copy of it that can still settle the other way. */
  lemma TerminalChangesIff(cfg: Config, s: State, id: Id)
    requires id in s.keys && id in s.rows && s.rows[id].status != Pending
    ensures (exists steps :: Changes(cfg, s, steps, id)) <==> Flippable(cfg, s, s.rows[id].status, id)
  {
    var st := s.rows[id].status;
    if i: nat, p: nat :| Held(s, id, i, p) && CanFlip(cfg, s, st, i, p) {
      var steps := FlipRun(cfg, s, st, id, i, p);
      assert Changes(cfg, s, steps, id);
    } else {
      forall steps ensures !Changes(cfg, s, steps, id) {
        if !Rearms(steps) { StillRun(cfg, s, steps, st, id); }
      }
    }
  }

  // ── Rows nobody holds ──────────────────────────────────────────────────

  ghost predicate Unheld(s: State, id: Id) { forall i: nat, p: nat :: !Held(s, id, i, p) }

  lemma UnheldNext(cfg: Config, s: State, step: Step, id: Id)
    requires Unheld(s, id) && id in s.keys && (id in s.rows ==> s.rows[id].status != Pending)
    requires Enabled(cfg, s, step) && !step.Rearm?
    ensures var s' := Next(cfg, s, step);
            Unheld(s', id) && id in s'.keys && (id in s'.rows ==> id in s.rows && s'.rows[id] == s.rows[id])
  {
    var s' := Next(cfg, s, step);
    if step.Mark? { assert !Held(s, id, step.w, 0); }
    forall i: nat, p: nat ensures !Held(s', id, i, p) {
      if Held(s', id, i, p) {
        if step.Mark? && step.w == i {
          assert Held(s, id, i, p + 1);
        } else if !(step.Claim? && step.w == i) {
          KeptBatch(cfg, s, step, s', i);
          assert Held(s, id, i, p);
        }
      }
    }
  }

  /** A terminal row that no worker holds is final: whatever is claimed and however claims of other rows overlap,
      without a re-arm it is pruned or stays exactly as it is. */
  lemma {:induction false} TerminalAbsorbing(cfg: Config, s: State, steps: seq<Step>, id: Id)
    requires Unheld(s, id) && !Rearms(steps) && id in s.keys
    requires id in s.rows ==> s.rows[id].status != Pending
    ensures var rows' := Run(cfg, s, steps).rows; id in rows' ==> id in s.rows && rows'[id] == s.rows[id]
    decreases |steps|
  {
    if steps != [] {
      RearmsTail(steps);
      if Enabled(cfg, s, steps[0]) { UnheldNext(cfg, s, steps[0], id); }
      TerminalAbsorbing(cfg, Do(cfg, s, steps[0]), steps[1..], id);
    }
  }

  // ── Exclusive claims ───────────────────────────────────────────────────

  /** No row is claimed while another worker still holds it. */
  ghost predicate ExclusiveStep(s: State, step: Step) {
    step.Claim? ==> forall i, p :: 0 <= i < |s.workers| && s.workers[i].Busy? && 0 <= p < |s.workers[i].batch|
                                   ==> s.workers[i].batch[p].id !in step.ids
  }

  ghost predicate ExclusiveRun(cfg: Config, s: State, steps: seq<Step>)
    decreases |steps|
  {
    steps != [] ==> ExclusiveStep(s, steps[0]) && ExclusiveRun(cfg, Do(cfg, s, steps[0]), steps[1..])
  }

  ghost predicate Fresh(s: State, i: nat, p: nat)
    requires i < |s.workers| && s.workers[i].Busy? && p < |s.workers[i].batch|
  {
    var snap := s.workers[i].batch[p];
    snap.id in s.rows && s.rows[snap.id].status == Pending && s.rows[snap.id].attempts == snap.row.attempts
  }

  /** Every held snapshot is up to date and held once. */
  ghost predicate Disjoint(s: State) {
    && (forall i, p :: 0 <= i < |s.workers| && s.workers[i].Busy? && 0 <= p < |s.workers[i].batch| ==> Fresh(s, i, p))
    && (forall i, p, j, q |
          && 0 <= i < |s.workers| && s.workers[i].Busy? && 0 <= p < |s.workers[i].batch|
          && 0 <= j < |s.workers| && s.workers[j].Busy? && 0 <= q < |s.workers[j].batch|
          && s.workers[i].batch[p].id == s.workers[j].batch[q].id :: i == j && p == q)
  }

  lemma DisjointClaim(cfg: Config, s: State, step: Step)
    requires step.Claim? && Disjoint(s) && Enabled(cfg, s, step) && ExclusiveStep(s, step)
    ensures Disjoint(Next(cfg, s, step))
  {
    OrderedSelect.AscendingDistinct(DueRank(s.rows), step.ids);
    var s' := Next(cfg, s, step);
    forall i, p | 0 <= i < |s'.workers| && s'.workers[i].Busy? && 0 <= p < |s'.workers[i].batch|
      ensures Fresh(s', i, p)
    {
      if i != step.w { assert Fresh(s, i, p); }
    }
  }

  lemma DisjointMark(cfg: Config, s: State, step: Step)
    requires step.Mark? && Disjoint(s) && Enabled(cfg, s, step)
    ensures Disjoint(Next(cfg, s, step))
  {
    var s' := Next(cfg, s, step);
    forall i, p | 0 <= i < |s'.workers| && s'.workers[i].Busy? && 0 <= p < |s'.workers[i].batch|
      ensures Fresh(s', i, p)
    {
      var p' := if i == step.w then p + 1 else p;
      assert Fresh(s, i, p') && s'.workers[i].batch[p] == s.workers[i].batch[p'];
      assert s.workers[step.w].batch[0].id != s'.workers[i].batch[p].id;
    }
  }

  lemma PendingKept(cfg: Config, s: State, step: Step, id: Id)
    requires !step.Claim? && !step.Mark? && Enabled(cfg, s, step)
    requires id in s.rows && s.rows[id].status == Pending
    ensures id in Next(cfg, s, step).rows && Next(cfg, s, step).rows[id] == s.rows[id]
  {}

  lemma DisjointOther(cfg: Config, s: State, step: Step)
    requires !step.Claim? && !step.Mark? && Disjoint(s) && Enabled(cfg, s, step)
    ensures Disjoint(Next(cfg, s, step))
  {
    var s' := Next(cfg, s, step);
    forall i | 0 <= i < |s'.workers| && s'.workers[i].Busy?
      ensures |s.workers| == |s'.workers| && s.workers[i].Busy? && s.workers[i].batch == s'.workers[i].batch
    {
      KeptBatch(cfg, s, step, s', i);
    }
    forall i, p | 0 <= i < |s'.workers| && s'.workers[i].Busy? && 0 <= p < |s'.workers[i].batch|
      ensures Fresh(s', i, p)
    {
      assert Fresh(s, i, p);
      PendingKept(cfg, s, step, s.workers[i].batch[p].id);
    }
  }

  lemma DisjointNext(cfg: Config, s: State, step: Step)
    requires Disjoint(s) && Enabled(cfg, s, step) && ExclusiveStep(s, step)
    ensures Disjoint(Next(cfg, s, step))
  {
    match step {
      case Claim(_, _, _, _) => DisjointClaim(cfg, s, step);
      case Mark(_) => DisjointMark(cfg, s, step);
      case _ => DisjointOther(cfg, s, step);
    }
  }

  /** One exclusive step: a terminal row leaves its state only by re-arm or by being pruned. */
  lemma StrictStep(cfg: Config, s: State, step: Step, id: Id)
    requires Disjoint(s) && Enabled(cfg, s, step)
    requires id in s.rows && s.rows[id].status != Pending
    requires !(step.Rearm? && s.rows[id].status == Failed)
    ensures var rows' := Next(cfg, s, step).rows; id in rows' ==> rows'[id] == s.rows[id]
    ensures id !in Next(cfg, s, step).rows ==> step.PruneRowsBefore?
  {
    if step.Mark? { assert Fresh(s, step.w, 0); }
  }

  /** Along a run of exclusive claims no terminal row is ever held, so every one of them is final from the moment it
      becomes terminal. */
  lemma {:induction false} ExclusiveRunIsStrict(cfg: Config, s: State, steps: seq<Step>, id: Id)
    requires Disjoint(s) && ExclusiveRun(cfg, s, steps)
    ensures Disjoint(Run(cfg, s, steps))
    ensures id in Run(cfg, s, steps).rows && Run(cfg, s, steps).rows[id].status != Pending
            ==> Unheld(Run(cfg, s, steps), id)
    decreases |steps|
  {
    if steps != [] {
      if Enabled(cfg, s, steps[0]) { DisjointNext(cfg, s, steps[0]); }
      ExclusiveRunIsStrict(cfg, Do(cfg, s, steps[0]), steps[1..], id);
    } else {
      forall i: nat, p: nat | Held(s, id, i, p) ensures id in s.rows && s.rows[id].status == Pending {
        assert Fresh(s, i, p);
      }
    }
  }

  // ── The race is reachable ──────────────────────────────────────────────

  lemma Quietly(cfg: Config, s: State, steps: seq<Step>, t: State, step: Step) returns (steps': seq<Step>, t': State)
    requires t == Run(cfg, s, steps) && Enabled(cfg, t, step) && !Rearms(steps) && !step.Rearm?
    ensures steps <= steps' && !Rearms(steps') && t' == Next(cfg, t, step) && t' == Run(cfg, s, steps')
  {
    steps', t' := Extend(cfg, s, steps, t, step);
    RearmsSplit(steps, [step]);
  }

  /** Worker `w` holds just `id`, claimed on its last attempt. */
  ghost predicate HoldsLast(cfg: Config, s: State, w: nat, id: Id, phase: Phase) {
    && w < |s.workers| && s.workers[w].Busy? && s.workers[w].phase == phase
    && |s.workers[w].batch| == 1 && s.workers[w].batch[0].id == id
    && s.workers[w].batch[0].row.attempts + 1 == cfg.maxAttempts
    && s.workers[w].batch[0].row.messageKey == Absent
  }

  /** A row on its last attempt that two idle workers can both claim. */
  ghost predicate Contended(cfg: Config, s: State, id: Id) {
    && |s.workers| >= 2 && s.workers[0] == Idle && s.workers[1] == Idle
    && id in s.rows && s.rows[id].status == Pending && s.rows[id].messageKey == Absent
    && s.rows[id].attempts + 1 == cfg.maxAttempts && id !in s.marks
  }

  lemma BothClaim(cfg: Config, s: State, id: Id) returns (steps: seq<Step>, t: State)
    requires cfg.Valid() && Contended(cfg, s, id)
    ensures t == Run(cfg, s, steps) && !Rearms(steps)
    ensures id in t.rows && t.rows[id].status == Pending && id !in t.marks
    ensures HoldsLast(cfg, t, 0, id, Ready) && HoldsLast(cfg, t, 1, id, Ready)
  {
    var now := s.rows[id].availableAt;
    steps, t := Quietly(cfg, s, [], s, Claim(0, now, [id], "a"));
    steps, t := Quietly(cfg, s, steps, t, Claim(1, now, [id], "b"));
  }

  /** One worker delivers a row; the other, still holding its copy, then flips it to failed. */
  lemma StaleWorkerUndoesDelivery(cfg: Config, s: State, id: Id)
    returns (upTo: seq<Step>, all: seq<Step>)
    requires cfg.Valid() && Contended(cfg, s, id)
    ensures upTo <= all && !Rearms(all)
    ensures id in Run(cfg, s, upTo).rows && Run(cfg, s, upTo).rows[id].status == Delivered
    ensures id in Run(cfg, s, all).rows && Run(cfg, s, all).rows[id].status == Failed
  {
    var t;
    upTo, t := BothClaim(cfg, s, id);
    upTo, t := Quietly(cfg, s, upTo, t, Dedupe(0, 0));
    upTo, t := Quietly(cfg, s, upTo, t, Send(0, Sent));
    assert HoldsLast(cfg, t, 1, id, Ready) && id in t.rows;
    upTo, t := Quietly(cfg, s, upTo, t, Mark(0));
    assert HoldsLast(cfg, t, 1, id, Ready) && id in t.rows && t.rows[id].status == Delivered;
    all, t := Quietly(cfg, s, upTo, t, RaiseEarly(1, "queue down"));
    all, t := Quietly(cfg, s, all, t, Mark(1));
  }

  /** A row on its n-th attempt, never past the dedup insert, with two idle workers. */
  ghost predicate Waiting(s: State, id: Id, n: nat) {
    && |s.workers| >= 2 && s.workers[0] == Idle && s.workers[1] == Idle
    && id in s.rows && s.rows[id].status == Pending && s.rows[id].messageKey == Absent
    && s.rows[id].attempts == n && id !in s.marks
  }

  lemma OneMoreAttempt(cfg: Config, s: State, id: Id, n: nat) returns (steps: seq<Step>)
    requires cfg.Valid() && Waiting(s, id, n) && n + 1 < cfg.maxAttempts
    ensures Waiting(Run(cfg, s, steps), id, n + 1) && !Rearms(steps)
  {
    var t;
    steps, t := Quietly(cfg, s, [], s, Claim(0, s.rows[id].availableAt, [id], "a"));
    assert t.workers[0].batch[0].id == id && t.workers[0].batch[0].row.attempts == n;
    steps, t := Quietly(cfg, s, steps, t, RaiseEarly(0, "queue down"));
    assert t.rows[id].status == Pending && t.rows[id].messageKey == Absent && id !in t.marks;
    steps, t := Quietly(cfg, s, steps, t, Mark(0));
  }

  lemma {:induction false} LastAttempt(cfg: Config, s: State, id: Id, n: nat) returns (steps: seq<Step>)
    requires cfg.Valid() && Waiting(s, id, n) && n < cfg.maxAttempts
    ensures Contended(cfg, Run(cfg, s, steps), id) && !Rearms(steps)
    decreases cfg.maxAttempts - n
  {
    if n + 1 == cfg.maxAttempts { return []; }
    steps := OneMoreAttempt(cfg, s, id, n);
    var rest := LastAttempt(cfg, Run(cfg, s, steps), id, n + 1);
    RunConcat(cfg, s, steps, rest);
    RearmsSplit(steps, rest);
    steps := steps + rest;
  }

  /** From the empty tables, under every configuration with two workers, a delivered row can become failed. */
  lemma DeliveryUndone(cfg: Config, s: State, id: Id, at: Instant) returns (upTo: seq<Step>, all: seq<Step>)
    requires cfg.Valid() && Initial(s) && |s.workers| >= 2
    ensures upTo <= all && !Rearms(all)
    ensures id in Run(cfg, s, upTo).rows && Run(cfg, s, upTo).rows[id].status == Delivered
    ensures id in Run(cfg, s, all).rows && Run(cfg, s, all).rows[id].status == Failed
  {
    var produce := Produce(id, Absent, at);
    RunOne(cfg, s, produce);
    var s1 := Run(cfg, s, [produce]);
    var wait := LastAttempt(cfg, s1, id, 0);
    RunConcat(cfg, s, [produce], wait);
    var s2 := Run(cfg, s1, wait);
    var u, a := StaleWorkerUndoesDelivery(cfg, s2, id);
    RunConcat(cfg, s, [produce] + wait, u);
    RunConcat(cfg, s, [produce] + wait, a);
    RearmsSplit([produce], wait);
    RearmsSplit([produce] + wait, a);
    upTo, all := [produce] + wait + u, [produce] + wait + a;
  }
}
