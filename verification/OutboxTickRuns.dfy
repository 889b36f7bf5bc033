/**
  A tick that runs alone is a run of the interleaved machine: what is proved
  for every interleaving holds for it.
*/
module OutboxTickRuns {
  import opened Prelude
  import opened OutboxModel
  import OutboxRelay
  import opened OutboxWorkers

  /** What one worker's ticks read and write. */
  function View(s: State): OutboxRelay.World { OutboxRelay.World(s.rows, s.marks, s.calls) }

  ghost predicate At(s: State, w: nat, now: Instant, batch: seq<Snapshot>) {
    w < |s.workers| && s.workers[w] == if batch == [] then Idle else Busy(now, batch, Ready)
  }

  /** From `s` to `s'` the worker's first row has been handled, with result `r`, and awaits its settling write. */
  ghost predicate HandledBy(s: State, s': State, w: nat, now: Instant, batch: seq<Snapshot>, r: Handled) {
    && w < |s'.workers| && s'.workers[w].Busy? && s'.workers[w].now == now && s'.workers[w].batch == batch
    && (s'.workers[w].phase.Returned? || s'.workers[w].phase.Raised?)
    && Outcome(s'.workers[w].phase) == r.raised
    && s'.rows == s.rows && s'.marks == r.marks && s'.calls == r.sends
  }

  /** The dedup insert went through and the send is still to come. */
  ghost predicate Marked(s: State, s': State, w: nat, now: Instant, batch: seq<Snapshot>, at: Instant)
    requires batch != []
  {
    var key := DedupKey(batch[0].id, batch[0].row.messageKey);
    && w < |s'.workers| && s'.workers[w] == Busy(now, batch, Sending(key))
    && s'.rows == s.rows && s'.calls == s.calls
    && s'.marks == if key.Some? then s.marks[key.value := at] else s.marks
  }

  lemma DedupeFirst(cfg: Config, s: State, w: nat, now: Instant, batch: seq<Snapshot>, at: Instant)
    requires batch != [] && At(s, w, now, batch)
    ensures var key := DedupKey(batch[0].id, batch[0].row.messageKey); var s' := Do(cfg, s, Dedupe(w, at));
            if key.Some? && key.value in s.marks
            then HandledBy(s, s', w, now, batch, Handled(s.marks, s.calls, None))
            else Marked(s, s', w, now, batch, at)
  {
  }

  lemma SendAfter(cfg: Config, s: State, s1: State, w: nat, now: Instant, batch: seq<Snapshot>, at: Instant,
                  result: SendResult)
    requires batch != [] && Marked(s, s1, w, now, batch, at)
    requires var key := DedupKey(batch[0].id, batch[0].row.messageKey); !(key.Some? && key.value in s.marks)
    ensures HandledBy(s, Do(cfg, s1, Send(w, result)), w, now, batch,
                      Handle(s.marks, s.calls, batch[0], Runs(at, result)))
  {
  }

  /** The handler call of the worker's first row, up to the settling write. */
  lemma HandlerSteps(cfg: Config, s: State, w: nat, now: Instant, batch: seq<Snapshot>, h: Handling)
    returns (steps: seq<Step>)
    requires batch != [] && At(s, w, now, batch)
    ensures HandledBy(s, Run(cfg, s, steps), w, now, batch, Handle(s.marks, s.calls, batch[0], h))
  {
    if h.RaisesEarly? {
      RunOne(cfg, s, RaiseEarly(w, h.error));
      return [RaiseEarly(w, h.error)];
    }
    var key := DedupKey(batch[0].id, batch[0].row.messageKey);
    var dedupe, send := Dedupe(w, h.at), Send(w, h.result);
    RunOne(cfg, s, dedupe);
    DedupeFirst(cfg, s, w, now, batch, h.at);
    if key.Some? && key.value in s.marks {
      return [dedupe];
    }
    var s1 := Run(cfg, s, [dedupe]);
    SendAfter(cfg, s, s1, w, now, batch, h.at, h.result);
    RunOne(cfg, s1, send);
    RunConcat(cfg, s, [dedupe], [send]);
    return [dedupe] + [send];
  }

  lemma RowSteps(cfg: Config, s: State, w: nat, now: Instant, batch: seq<Snapshot>, h: Handling)
    returns (steps: seq<Step>)
    requires batch != [] && At(s, w, now, batch)
    ensures View(Run(cfg, s, steps)) == OutboxRelay.DispatchOne(cfg, View(s), batch[0], now, h)
    ensures At(Run(cfg, s, steps), w, now, batch[1..])
  {
    steps := HandlerSteps(cfg, s, w, now, batch, h);
    var s1 := Run(cfg, s, steps);
    RunConcat(cfg, s, steps, [Mark(w)]);
    RunOne(cfg, s1, Mark(w));
    steps := steps + [Mark(w)];
  }

  lemma {:induction false} DispatchFirst(cfg: Config, v: OutboxRelay.World, snaps: seq<Snapshot>, t: OutboxRelay.Tick)
    requires snaps != []
    ensures OutboxRelay.DispatchAll(cfg, v, snaps, t)
            == OutboxRelay.DispatchAll(cfg, OutboxRelay.DispatchOne(cfg, v, snaps[0], t.now, t.env(snaps[0].id)),
                                       snaps[1..], t)
  {
    if |snaps| > 1 {
      var n := |snaps| - 1;
      DispatchFirst(cfg, v, snaps[..n], t);
      assert snaps[..n][1..] == snaps[1..][..n - 1];
      assert snaps[1..][n - 1] == snaps[n];
    }
  }

  lemma {:induction false} BatchSteps(cfg: Config, s: State, w: nat, batch: seq<Snapshot>, t: OutboxRelay.Tick)
    returns (steps: seq<Step>)
    requires At(s, w, t.now, batch)
    ensures View(Run(cfg, s, steps)) == OutboxRelay.DispatchAll(cfg, View(s), batch, t)
    ensures At(Run(cfg, s, steps), w, t.now, [])
    decreases |batch|
  {
    if batch == [] {
      steps := [];
    } else {
      var first := RowSteps(cfg, s, w, t.now, batch, t.env(batch[0].id));
      DispatchFirst(cfg, View(s), batch, t);
      var rest := BatchSteps(cfg, Run(cfg, s, first), w, batch[1..], t);
      RunConcat(cfg, s, first, rest);
      steps := first + rest;
    }
  }

  lemma ClaimStep(cfg: Config, s: State, w: nat, t: OutboxRelay.Tick, ids: seq<Id>, snaps: seq<Snapshot>)
    requires w < |s.workers| && s.workers[w] == Idle
    requires ids == OutboxRelay.Claimed(cfg, View(s), t) && ids != []
    requires snaps == OutboxRelay.ClaimedSnapshots(cfg, View(s), t)
    ensures var s' := Do(cfg, s, Claim(w, t.now, ids, t.worker));
            At(s', w, t.now, snaps) && View(s') == View(s).(rows := Stamp(s.rows, ids, t.now, t.worker))
  {
    ClaimIdsDistinct(s.rows, t.now, cfg.batchSize);
    assert Claimable(cfg, s, t.now, ids);
  }

  /** Every tick of an idle worker, whatever its handler does, is reached by a sequence of interleaved steps that
      leaves the same rows, marks and mail-port calls, with the worker idle again. */
  lemma TickIsRun(cfg: Config, s: State, w: nat, t: OutboxRelay.Tick) returns (steps: seq<Step>)
    requires w < |s.workers| && s.workers[w] == Idle
    ensures View(Run(cfg, s, steps)) == OutboxRelay.RunTick(cfg, View(s), t)
    ensures At(Run(cfg, s, steps), w, t.now, [])
  {
    var ids, snaps := OutboxRelay.Claimed(cfg, View(s), t), OutboxRelay.ClaimedSnapshots(cfg, View(s), t);
    if ids == [] {
      assert Stamp(s.rows, ids, t.now, t.worker) == s.rows;
      return [];
    }
    var claim := Claim(w, t.now, ids, t.worker);
    ClaimStep(cfg, s, w, t, ids, snaps);
    RunOne(cfg, s, claim);
    var rest := BatchSteps(cfg, Run(cfg, s, [claim]), w, snaps, t);
    RunConcat(cfg, s, [claim], rest);
    return [claim] + rest;
  }
}
