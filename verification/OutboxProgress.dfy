/**
  Runs of one worker's ticks over a fixed set of rows: what one tick does to
  every row, the retry budget it spends, termination, and the retry schedule
  of a row that never gets through.
*/
module OutboxProgress {
  import opened Prelude
  import opened OutboxModel
  import opened OutboxRelay

  // ── What a tick does to each row ───────────────────────────────────────

  /** The three ways a claimed row can leave a tick. */
  predicate Settled(cfg: Config, row: Row, row': Row, now: Instant) {
    && row'.messageKey == row.messageKey
    && match row'.status {
      case Delivered => row'.attempts == row.attempts && row'.deliveredAt == Some(now)
      case Pending => row.attempts + 1 < cfg.maxAttempts && row'.attempts == row.attempts + 1
                      && row'.availableAt == now + Backoff(cfg, row.attempts + 1)
      case Failed => row.attempts + 1 >= cfg.maxAttempts && row'.attempts == row.attempts + 1
                     && row'.failedAt == Some(now)
    }
  }

  lemma {:induction false} DispatchedRow(cfg: Config, w: World, snaps: seq<Snapshot>, t: Tick, i: nat)
    requires forall i, j :: 0 <= i < j < |snaps| ==> snaps[i].id != snaps[j].id
    requires i < |snaps| && snaps[i].id in w.rows
    requires w.rows[snaps[i].id].attempts == snaps[i].row.attempts
    requires w.rows[snaps[i].id].status == Pending
    ensures var rows' := DispatchAll(cfg, w, snaps, t).rows;
            snaps[i].id in rows' && Settled(cfg, w.rows[snaps[i].id], rows'[snaps[i].id], t.now)
  {
    var n := |snaps| - 1;
    if i < n {
      DispatchedRow(cfg, w, snaps[..n], t, i);
    } else {
      UntouchedRow(cfg, w, snaps[..n], t, snaps[n].id);
    }
  }

  /** `rows'` differs from `rows` only in that the rows `ids`, all due, have been settled. */
  ghost predicate TickStep(cfg: Config, rows: Table, now: Instant, ids: seq<Id>, rows': Table) {
    && rows'.Keys == rows.Keys
    && (forall id :: id in ids ==> id in Due(rows, now) && Settled(cfg, rows[id], rows'[id], now))
    && (forall id :: id in rows && id !in ids ==> rows'[id] == rows[id])
  }

  lemma ClaimedRowEffect(cfg: Config, w: World, t: Tick, i: nat)
    requires i < |Claimed(cfg, w, t)|
    ensures var id, rows' := Claimed(cfg, w, t)[i], RunTick(cfg, w, t).rows;
            id in rows' && id in Due(w.rows, t.now) && Settled(cfg, w.rows[id], rows'[id], t.now)
  {
    var ids := Claimed(cfg, w, t);
    ClaimIdsDistinct(w.rows, t.now, cfg.batchSize);
    DispatchedRow(cfg, w.(rows := Stamp(w.rows, ids, t.now, t.worker)), ClaimedSnapshots(cfg, w, t), t, i);
  }

  lemma OtherRowEffect(cfg: Config, w: World, t: Tick, id: Id)
    requires id !in Claimed(cfg, w, t)
    ensures var rows' := RunTick(cfg, w, t).rows;
            (id in rows' <==> id in w.rows) && (id in w.rows ==> rows'[id] == w.rows[id])
  {
    var ids, snaps := Claimed(cfg, w, t), ClaimedSnapshots(cfg, w, t);
    assert forall i :: 0 <= i < |snaps| ==> snaps[i].id == ids[i];
    UntouchedRow(cfg, w.(rows := Stamp(w.rows, ids, t.now, t.worker)), snaps, t, id);
  }

  /** A tick settles exactly the rows it claimed and leaves every other row as it was. */
  lemma TickEffect(cfg: Config, w: World, t: Tick)
    ensures TickStep(cfg, w.rows, t.now, Claimed(cfg, w, t), RunTick(cfg, w, t).rows)
  {
    var ids := Claimed(cfg, w, t);
    forall id | id in ids
      ensures id in RunTick(cfg, w, t).rows && id in Due(w.rows, t.now)
              && Settled(cfg, w.rows[id], RunTick(cfg, w, t).rows[id], t.now)
    {
      var i :| 0 <= i < |ids| && ids[i] == id;
      ClaimedRowEffect(cfg, w, t, i);
    }
    forall id | id !in ids
      ensures (id in RunTick(cfg, w, t).rows <==> id in w.rows)
              && (id in w.rows ==> RunTick(cfg, w, t).rows[id] == w.rows[id])
    {
      OtherRowEffect(cfg, w, t, id);
    }
  }

  // ── The retry budget ───────────────────────────────────────────────────

  /** Every pending row has at least one attempt left. */
  predicate Healthy(cfg: Config, rows: Table) {
    forall id :: id in rows && rows[id].status == Pending ==> rows[id].attempts < cfg.maxAttempts
  }

  /** One element per attempt a pending row may still make: its size is the sum of `maxAttempts - attempts`. */
  function Budget(cfg: Config, rows: Table): set<(Id, int)> {
    set id, k | id in rows && rows[id].status == Pending && rows[id].attempts <= k < cfg.maxAttempts :: (id, k)
  }

  function Spent(rows: Table, ids: set<Id>): set<(Id, int)>
    requires ids <= rows.Keys
  {
    set id | id in ids :: (id, rows[id].attempts)
  }

  lemma {:induction false} SpentSize(rows: Table, ids: set<Id>)
    requires ids <= rows.Keys
    ensures |Spent(rows, ids)| == |ids|
  {
    if ids != {} {
      var id :| id in ids;
      SpentSize(rows, ids - {id});
      assert Spent(rows, ids) == Spent(rows, ids - {id}) + {(id, rows[id].attempts)};
    } else {
      assert Spent(rows, ids) == {};
    }
  }

  lemma StepSpendsBudget(cfg: Config, rows: Table, now: Instant, ids: seq<Id>, rows': Table)
    requires Healthy(cfg, rows) && TickStep(cfg, rows, now, ids, rows') && |Elements(ids)| == |ids|
    ensures Healthy(cfg, rows')
    ensures |Budget(cfg, rows')| + |ids| <= |Budget(cfg, rows)|
  {
    var S := Elements(ids);
    SpentSize(rows, S);
    forall p | p in Budget(cfg, rows') ensures p in Budget(cfg, rows) && p !in Spent(rows, S) {
      assert p.0 in ids <==> p.0 in S;
    }
    assert Spent(rows, S) <= Budget(cfg, rows);
    SubsetSize(Budget(cfg, rows') + Spent(rows, S), Budget(cfg, rows));
  }

  /** Every tick spends at least one attempt of budget per claimed row. */
  lemma TickSpendsBudget(cfg: Config, w: World, t: Tick)
    requires Healthy(cfg, w.rows)
    ensures Healthy(cfg, RunTick(cfg, w, t).rows)
    ensures |Budget(cfg, RunTick(cfg, w, t).rows)| + |Claimed(cfg, w, t)| <= |Budget(cfg, w.rows)|
  {
    TickEffect(cfg, w, t);
    ClaimIdsDistinct(w.rows, t.now, cfg.batchSize);
    StepSpendsBudget(cfg, w.rows, t.now, Claimed(cfg, w, t), RunTick(cfg, w, t).rows);
  }

  // ── Runs ───────────────────────────────────────────────────────────────

  function RunTicks(cfg: Config, w: World, ticks: seq<Tick>): World
    decreases |ticks|
  {
    if ticks == [] then w else RunTicks(cfg, RunTick(cfg, w, ticks[0]), ticks[1..])
  }

  function TotalClaimed(cfg: Config, w: World, ticks: seq<Tick>): nat
    decreases |ticks|
  {
    if ticks == [] then 0
    else |Claimed(cfg, w, ticks[0])| + TotalClaimed(cfg, RunTick(cfg, w, ticks[0]), ticks[1..])
  }

  /** Over a whole run, dispatches never exceed the attempts the rows had left at the start. */
  lemma {:induction false} RunSpendsBudget(cfg: Config, w: World, ticks: seq<Tick>)
    requires Healthy(cfg, w.rows)
    ensures Healthy(cfg, RunTicks(cfg, w, ticks).rows)
    ensures |Budget(cfg, RunTicks(cfg, w, ticks).rows)| + TotalClaimed(cfg, w, ticks) <= |Budget(cfg, w.rows)|
    decreases |ticks|
  {
    if ticks != [] {
      TickSpendsBudget(cfg, w, ticks[0]);
      RunSpendsBudget(cfg, RunTick(cfg, w, ticks[0]), ticks[1..]);
    }
  }

  /** With one worker a delivered or failed row is never touched again. */
  lemma {:induction false} TerminalUntouched(cfg: Config, w: World, ticks: seq<Tick>, id: Id)
    requires id in w.rows && w.rows[id].status != Pending
    ensures id in RunTicks(cfg, w, ticks).rows && RunTicks(cfg, w, ticks).rows[id] == w.rows[id]
    decreases |ticks|
  {
    if ticks != [] {
      TickEffect(cfg, w, ticks[0]);
      assert id !in Claimed(cfg, w, ticks[0]);
      TerminalUntouched(cfg, RunTick(cfg, w, ticks[0]), ticks[1..], id);
    }
  }

  predicate AllTerminal(rows: Table) {
    forall id :: id in rows ==> rows[id].status != Pending
  }

  predicate DueBy(rows: Table, horizon: Instant) {
    forall id :: id in rows && rows[id].status == Pending ==> rows[id].availableAt <= horizon
  }

  /** Ticks that find every row due, counted greedily: the first at or after `from`, then each one at least a
      backoff cap after the one counted before it. Any number of other ticks may lie in between. */
  function Rounds(cap: Instant, ticks: seq<Tick>, from: Instant): nat
    decreases |ticks|
  {
    if ticks == [] then 0
    else if ticks[0].now >= from then 1 + Rounds(cap, ticks[1..], ticks[0].now + cap)
    else Rounds(cap, ticks[1..], from)
  }

  /** A later start counts no more rounds, and at most one less when it is later by no more than a cap. */
  lemma {:induction false} RoundsLater(cap: Instant, ticks: seq<Tick>, from: Instant, later: Instant)
    requires cap >= 0 && from <= later
    ensures Rounds(cap, ticks, later) <= Rounds(cap, ticks, from)
    ensures later <= from + cap ==> Rounds(cap, ticks, from) <= Rounds(cap, ticks, later) + 1
    decreases |ticks|
  {
    if ticks != [] {
      var now, rest := ticks[0].now, ticks[1..];
      if now < from {
        RoundsLater(cap, rest, from, later);
      } else if now < later {
        if later <= now + cap {
          RoundsLater(cap, rest, later, now + cap);
        } else {
          RoundsLater(cap, rest, now + cap, later);
        }
      }
    }
  }

  lemma StepKeepsDue(cfg: Config, rows: Table, now: Instant, ids: seq<Id>, rows': Table, from: Instant)
    requires cfg.Valid() && TickStep(cfg, rows, now, ids, rows') && DueBy(rows, from)
    ensures DueBy(rows', Horizon(cfg.retryMax, from, now, ids != []))
    ensures AllTerminal(rows) ==> AllTerminal(rows')
  {
    forall id | id in rows' && rows'[id].status == Pending
      ensures rows'[id].availableAt <= if id in ids then now + cfg.retryMax else from
    {
      if id in ids { BackoffBounds(cfg, rows[id].attempts + 1, rows[id].attempts + 1); }
    }
  }

  lemma EmptyBudgetTerminal(cfg: Config, rows: Table)
    requires Healthy(cfg, rows) && |Budget(cfg, rows)| == 0
    ensures AllTerminal(rows)
  {
    assert Budget(cfg, rows) == {};
    forall id | id in rows ensures rows[id].status != Pending {
      assert (id, rows[id].attempts) !in Budget(cfg, rows);
    }
  }

  lemma DueTickClaims(cfg: Config, w: World, t: Tick)
    requires cfg.Valid() && DueBy(w.rows, t.now) && !AllTerminal(w.rows)
    ensures |Claimed(cfg, w, t)| >= 1
  {
    var id :| id in w.rows && w.rows[id].status == Pending;
    assert id in Due(w.rows, t.now);
  }

  /** Where the horizon of the rows is after a tick at `now` that claimed or not. */
  function Horizon(cap: Instant, from: Instant, now: Instant, claimed: bool): Instant {
    if !claimed || now + cap <= from then from else now + cap
  }

  /** A tick that claims costs at most one round, and so does one that finds every row due. */
  lemma RoundsTick(cap: Instant, ticks: seq<Tick>, from: Instant, claimed: bool)
    requires cap >= 0 && ticks != [] && (ticks[0].now >= from ==> claimed)
    ensures Rounds(cap, ticks, from) <= Rounds(cap, ticks[1..], Horizon(cap, from, ticks[0].now, claimed))
                                        + if claimed then 1 else 0
  {
    RoundsLater(cap, ticks[1..], from, Horizon(cap, from, ticks[0].now, claimed));
  }

  /** What a tick at `now` does to due dates and budget. */
  lemma TickProgress(cfg: Config, w: World, t: Tick, from: Instant, w': World, claimed: bool)
    requires cfg.Valid() && Healthy(cfg, w.rows) && DueBy(w.rows, from)
    requires w' == RunTick(cfg, w, t) && claimed == (Claimed(cfg, w, t) != [])
    ensures Healthy(cfg, w'.rows) && DueBy(w'.rows, Horizon(cfg.retryMax, from, t.now, claimed))
    ensures |Budget(cfg, w'.rows)| <= |Budget(cfg, w.rows)| - if claimed then 1 else 0
    ensures AllTerminal(w.rows) ==> AllTerminal(w'.rows)
    ensures !AllTerminal(w.rows) && t.now >= from ==> claimed
  {
    TickEffect(cfg, w, t);
    StepKeepsDue(cfg, w.rows, t.now, Claimed(cfg, w, t), w'.rows, from);
    TickSpendsBudget(cfg, w, t);
    if !AllTerminal(w.rows) && t.now >= from { DueTickClaims(cfg, w, t); }
  }

  /** However the ticks are spaced, a run with as many rounds as attempts left ends with every row delivered or
      failed, whatever the handlers do. */
  lemma {:induction false} RunDrains(cfg: Config, w: World, ticks: seq<Tick>, from: Instant)
    requires cfg.Valid() && Healthy(cfg, w.rows) && DueBy(w.rows, from)
    requires AllTerminal(w.rows) || Rounds(cfg.retryMax, ticks, from) >= |Budget(cfg, w.rows)|
    ensures AllTerminal(RunTicks(cfg, w, ticks).rows)
    decreases |ticks|
  {
    if ticks == [] {
      if !AllTerminal(w.rows) { EmptyBudgetTerminal(cfg, w.rows); }
    } else {
      var w', claimed := RunTick(cfg, w, ticks[0]), Claimed(cfg, w, ticks[0]) != [];
      TickProgress(cfg, w, ticks[0], from, w', claimed);
      if !AllTerminal(w.rows) { RoundsTick(cfg.retryMax, ticks, from, claimed); }
      RunDrains(cfg, w', ticks[1..], Horizon(cfg.retryMax, from, ticks[0].now, claimed));
    }
  }

  // ── A row that never gets through ──────────────────────────────────────

  /** When row `id` was dispatched. */
  function ClaimTimes(cfg: Config, w: World, ticks: seq<Tick>, id: Id): seq<Instant>
    decreases |ticks|
  {
    if ticks == [] then [] else
      (if id in Claimed(cfg, w, ticks[0]) then [ticks[0].now] else [])
      + ClaimTimes(cfg, RunTick(cfg, w, ticks[0]), ticks[1..], id)
  }

  /** Sum of the backoffs that follow attempts m+1 .. n. */
  function BackoffSum(cfg: Config, m: nat, n: nat): int
    requires m <= n
    decreases n - m
  {
    if m == n then 0 else Backoff(cfg, m + 1) + BackoffSum(cfg, m + 1, n)
  }

  /** `row0` has become `row` after being dispatched at `times`. */
  ghost predicate Schedule(cfg: Config, row0: Row, times: seq<Instant>, row: Row) {
    var a := row0.attempts;
    && row.attempts == a + |times| <= cfg.maxAttempts
    && (row.status == Failed <==> a + |times| == cfg.maxAttempts)
    && (times == [] ==> row == row0)
    && (times != [] ==> times[0] >= row0.availableAt)
    && (forall k :: 0 < k < |times| ==> times[k] >= times[k - 1] + Backoff(cfg, a + k))
  }

  lemma ScheduleGrows(cfg: Config, row0: Row, now: Instant, row1: Row, times: seq<Instant>, row: Row)
    requires row0.status == Pending && row0.attempts < cfg.maxAttempts && row0.availableAt <= now
    requires Settled(cfg, row0, row1, now)
    requires if row1.status == Pending then Schedule(cfg, row1, times, row)
             else row1.status == Failed && row == row1 && times == []
    ensures Schedule(cfg, row0, [now] + times, row)
  {
    var times' := [now] + times;
    forall k | 0 < k < |times'| ensures times'[k] >= times'[k - 1] + Backoff(cfg, row0.attempts + k) {
      assert times'[k] == times[k - 1];
      if k > 1 { assert times'[k - 1] == times[k - 2]; }
    }
  }

  lemma {:induction false} TerminalNeverClaimed(cfg: Config, w: World, ticks: seq<Tick>, id: Id)
    requires id in w.rows && w.rows[id].status != Pending
    ensures ClaimTimes(cfg, w, ticks, id) == []
    decreases |ticks|
  {
    if ticks != [] {
      TickEffect(cfg, w, ticks[0]);
      assert id !in Claimed(cfg, w, ticks[0]);
      TerminalNeverClaimed(cfg, RunTick(cfg, w, ticks[0]), ticks[1..], id);
    }
  }

  /**
    A row that is never delivered is dispatched once per attempt, each time no sooner than the
    previous dispatch plus its backoff, and is failed exactly when its budget is used up.
  */
  lemma {:induction false} FailingRowSchedule(cfg: Config, w: World, ticks: seq<Tick>, id: Id)
    requires cfg.Valid() && Healthy(cfg, w.rows) && id in w.rows && w.rows[id].status == Pending
    requires id in RunTicks(cfg, w, ticks).rows ==> RunTicks(cfg, w, ticks).rows[id].status != Delivered
    ensures id in RunTicks(cfg, w, ticks).rows
    ensures Schedule(cfg, w.rows[id], ClaimTimes(cfg, w, ticks, id), RunTicks(cfg, w, ticks).rows[id])
    decreases |ticks|
  {
    if ticks != [] {
      var t := ticks[0];
      var w1 := RunTick(cfg, w, t);
      TickEffect(cfg, w, t);
      TickSpendsBudget(cfg, w, t);
      if w1.rows[id].status == Pending {
        FailingRowSchedule(cfg, w1, ticks[1..], id);
      } else {
        TerminalUntouched(cfg, w1, ticks[1..], id);
        TerminalNeverClaimed(cfg, w1, ticks[1..], id);
      }
      var times := ClaimTimes(cfg, w1, ticks[1..], id);
      if id in Claimed(cfg, w, t) {
        ScheduleGrows(cfg, w.rows[id], t.now, w1.rows[id], times, RunTicks(cfg, w1, ticks[1..]).rows[id]);
      } else {
        assert [] + times == times;
      }
    }
  }

  lemma {:induction false} SpacedApart(cfg: Config, a: nat, times: seq<Instant>)
    requires times != []
    requires forall k :: 0 < k < |times| ==> times[k] >= times[k - 1] + Backoff(cfg, a + k)
    ensures times[|times| - 1] - times[0] >= BackoffSum(cfg, a, a + |times| - 1)
    decreases |times|
  {
    if |times| > 1 {
      var rest := times[1..];
      forall k | 0 < k < |rest| ensures rest[k] >= rest[k - 1] + Backoff(cfg, a + 1 + k) {
        assert rest[k] == times[k + 1] && rest[k - 1] == times[k];
      }
      SpacedApart(cfg, a + 1, rest);
    }
  }

  lemma ScheduleSpread(cfg: Config, row0: Row, times: seq<Instant>, row: Row)
    requires Schedule(cfg, row0, times, row) && times != []
    ensures times[|times| - 1] - times[0] >= BackoffSum(cfg, row0.attempts, row.attempts - 1)
  {
    SpacedApart(cfg, row0.attempts, times);
  }

  /** In every run that leaves a row undelivered, its first and last dispatch lie at least the sum of the backoffs in
      between apart; for a row that ends failed those are all the backoffs it had left. */
  lemma FailingRowSpread(cfg: Config, w: World, ticks: seq<Tick>, id: Id, row: Row, times: seq<Instant>)
    requires cfg.Valid() && Healthy(cfg, w.rows) && id in w.rows && w.rows[id].status == Pending
    requires id in RunTicks(cfg, w, ticks).rows && RunTicks(cfg, w, ticks).rows[id] == row && row.status != Delivered
    requires times == ClaimTimes(cfg, w, ticks, id) && times != []
    ensures row.attempts == w.rows[id].attempts + |times|
    ensures row.status == Failed <==> row.attempts == cfg.maxAttempts
    ensures times[|times| - 1] - times[0] >= BackoffSum(cfg, w.rows[id].attempts, row.attempts - 1)
  {
    FailingRowSchedule(cfg, w, ticks, id);
    ScheduleSpread(cfg, w.rows[id], times, row);
  }
}
