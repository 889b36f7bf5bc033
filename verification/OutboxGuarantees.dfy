/**
  What the interleaved relay guarantees over every run, and where its
  documentation promises more than the code keeps.
*/
module OutboxGuarantees {
  import opened Prelude
  import opened OutboxModel
  import opened OutboxWorkers
  import OrderedSelect

  /**
    Whatever the interleaving and the crashes, the mail port is called for a row at most once per
    insert of its dedup mark: once in all while the mark is kept, and once more per prune of it.
  */
  lemma AtMostOncePerMark(cfg: Config, s: State, steps: seq<Step>, id: Id)
    requires cfg.Valid() && Initial(s) && id in Run(cfg, s, steps).keys
    requires DedupKey(id, Run(cfg, s, steps).keys[id]).Some?
    ensures var s' := Run(cfg, s, steps);
            var k := DedupKey(id, s'.keys[id]).value;
            && s'.calls[id] <= s'.keyed[k] <= s'.pruned[k] + 1
            && (s'.keyed[k] > 0 && s'.pruned[k] == 0 ==> k in s'.marks)
  {
    InitialInv(cfg, s);
    InvRun(cfg, s, steps);
    var s' := Run(cfg, s, steps);
    assert CallsInv(s', id) && Accounted(s', DedupKey(id, s'.keys[id]).value);
  }

  /** Stale snapshots never push a row past its budget or leave a terminal row without its timestamp. */
  lemma RowsAlwaysOk(cfg: Config, s: State, steps: seq<Step>, id: Id)
    requires cfg.Valid() && Initial(s) && id in Run(cfg, s, steps).rows
    ensures RowOk(cfg, Run(cfg, s, steps).rows[id])
  {
    InitialInv(cfg, s);
    InvRun(cfg, s, steps);
    assert RowInv(cfg, Run(cfg, s, steps), id);
  }

  /** Only the operator's re-arm brings a row back to pending, and only from failed. */
  lemma BackToPending(cfg: Config, s: State, step: Step, id: Id)
    requires Enabled(cfg, s, step)
    requires id in s.rows && s.rows[id].status != Pending
    requires id in Next(cfg, s, step).rows && Next(cfg, s, step).rows[id].status == Pending
    ensures step.Rearm? && s.rows[id].status == Failed
  {}

  /** The operator's and the pruner's steps touch the tables only: a re-arm revives every failed row and no other, a row
      prune removes exactly the terminal rows older than the cutoff of their status, a mark prune the older marks. */
  lemma MaintenanceMeaning(cfg: Config, s: State, step: Step, id: Id)
    requires step.Rearm? || step.PruneRowsBefore? || step.PruneMarksBefore?
    ensures var s' := Next(cfg, s, step);
            && s'.workers == s.workers && s'.calls == s.calls
            && (step.Rearm? && id in s.rows ==>
                id in s'.rows
                && if s.rows[id].status == Failed
                   then s'.rows[id].status == Pending && s'.rows[id].attempts == 0
                        && s'.rows[id].availableAt == step.now
                   else s'.rows[id] == s.rows[id])
            && (step.PruneRowsBefore? && id in s.rows ==>
                var row := s.rows[id];
                && (id !in s'.rows <==>
                    || (row.status == Delivered && row.deliveredAt.Some?
                        && row.deliveredAt.value < step.deliveredCutoff)
                    || (row.status == Failed && row.failedAt.Some? && row.failedAt.value < step.failedCutoff))
                && (id in s'.rows ==> s'.rows[id] == row))
            && (step.PruneMarksBefore? && id in s.marks ==>
                && (id in s'.marks <==> s.marks[id] >= step.cutoff) && (id in s'.marks ==> s'.marks[id] == s.marks[id]))
  {
  }

  // ── A failed send is not retried ───────────────────────────────────────

  /** A new row and an idle worker. */
  ghost predicate Untried(cfg: Config, s: State, id: Id) {
    && s.workers != [] && s.workers[0] == Idle && cfg.maxAttempts > 1
    && id in s.rows && s.rows[id] == NewRow(Absent, s.rows[id].availableAt)
    && id !in s.marks && s.accepted[id] == 0
  }

  lemma SendFails(cfg: Config, s: State, id: Id) returns (steps: seq<Step>, t: State)
    requires cfg.Valid() && Untried(cfg, s, id)
    ensures t == Run(cfg, s, steps)
    ensures t.workers != [] && t.workers[0] == Idle && t.accepted[id] == 0
    ensures id in t.rows && t.rows[id].status == Pending && t.rows[id].messageKey == Absent && id in t.marks
  {
    steps, t := Extend(cfg, s, [], s, Claim(0, s.rows[id].availableAt, [id], "a"));
    steps, t := Extend(cfg, s, steps, t, Dedupe(0, 0));
    assert t.workers[0].phase == Sending(Some(id)) && t.workers[0].batch[0].row.attempts == 0 && id in t.marks;
    steps, t := Extend(cfg, s, steps, t, Send(0, SendError("timeout")));
    assert t.accepted[id] == 0 && id in t.marks && t.rows[id].status == Pending;
    steps, t := Extend(cfg, s, steps, t, Mark(0));
  }

  /**
    The mark is written before the send and never withdrawn, so a send that errors is not retried: the
    retry finds the mark, skips the send, and the row ends delivered although no mail was ever accepted.
  */
  lemma FailedSendEndsDelivered(cfg: Config, s: State, id: Id) returns (steps: seq<Step>)
    requires cfg.Valid() && Untried(cfg, s, id)
    ensures var t := Run(cfg, s, steps);
            id in t.rows && t.rows[id].status == Delivered && t.rows[id].messageKey == Absent && t.accepted[id] == 0
  {
    var t;
    steps, t := SendFails(cfg, s, id);
    steps, t := Extend(cfg, s, steps, t, Claim(0, t.rows[id].availableAt, [id], "a"));
    steps, t := Extend(cfg, s, steps, t, Dedupe(0, 0));
    assert t.accepted[id] == 0 && id in t.rows;
    steps, t := Extend(cfg, s, steps, t, Mark(0));
  }
}
