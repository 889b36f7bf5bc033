/**
  No starvation: with one worker, a due row waits for no more ticks than the
  rows ahead of it fill, because a retried row always re-enters behind it.
*/
module OutboxFairness {
  import opened Prelude
  import opened OutboxModel
  import opened OutboxRelay
  import opened OutboxProgress
  import OrderedSelect

  /** Rows inserted by producers since the previous tick, then one tick. */
  datatype Round = Round(arrivals: Table, tick: Tick)

  function Arrive(w: World, round: Round): World {
    w.(rows := w.rows + round.arrivals)
  }

  predicate Before(rows: Table, x: Id, id: Id)
    requires x in rows && id in rows
  {
    OrderedSelect.Less((rows[x].availableAt, x), (rows[id].availableAt, id))
  }

  /** The pending rows the claim query puts in front of `id`. */
  function Ahead(rows: Table, id: Id): set<Id>
    requires id in rows
  {
    set x | x in rows && rows[x].status == Pending && Before(rows, x, id)
  }

  /** The tick comes when a row of rank `(at, id)` is due, and producers enqueued nothing in front of it. */
  predicate Calm(r: Round, ids: set<Id>, at: Instant, id: Id) {
    && at <= r.tick.now
    && r.arrivals.Keys !! ids
    && (forall x :: x in r.arrivals ==> !OrderedSelect.Less((r.arrivals[x].availableAt, x), (at, id)))
  }

  predicate Undisturbed(rounds: seq<Round>, ids: set<Id>, at: Instant, id: Id) {
    rounds != [] ==>
      Calm(rounds[0], ids, at, id) && Undisturbed(rounds[1..], ids + rounds[0].arrivals.Keys, at, id)
  }

  /** `id` is claimed by one of the rounds. */
  ghost predicate Served(cfg: Config, w: World, rounds: seq<Round>, id: Id)
    decreases |rounds|
  {
    rounds != [] &&
    var w1 := Arrive(w, rounds[0]);
    id in Claimed(cfg, w1, rounds[0].tick) || Served(cfg, RunTick(cfg, w1, rounds[0].tick), rounds[1..], id)
  }

  /** A tick that passes `id` over is full, and everything it took was ahead of `id`. */
  lemma PassedOver(cfg: Config, w: World, t: Tick, id: Id)
    requires cfg.Valid() && id in Due(w.rows, t.now) && id !in Claimed(cfg, w, t)
    ensures |Claimed(cfg, w, t)| == cfg.batchSize
    ensures |Elements(Claimed(cfg, w, t))| == cfg.batchSize
    ensures Elements(Claimed(cfg, w, t)) <= Ahead(w.rows, id)
  {
    var ids := Claimed(cfg, w, t);
    ClaimIdsDistinct(w.rows, t.now, cfg.batchSize);
    SubsetSize(Elements(ids) + {id}, Due(w.rows, t.now));
    forall x | x in Elements(ids) ensures x in Ahead(w.rows, id) {
      assert x in ids && x in Due(w.rows, t.now);
      assert OrderedSelect.Less(DueRank(w.rows)(x), DueRank(w.rows)(id));
    }
  }

  /** What a tick retries lands behind a row that was already due. */
  lemma RetriedFallBehind(cfg: Config, rows: Table, now: Instant, ids: seq<Id>, rows': Table, id: Id)
    requires cfg.Valid() && TickStep(cfg, rows, now, ids, rows')
    requires id in Due(rows, now) && id !in ids
    ensures Ahead(rows', id) <= Ahead(rows, id) - Elements(ids)
  {
    forall x | x in Ahead(rows', id) ensures x in Ahead(rows, id) && x !in ids {
      if x in ids { BackoffBounds(cfg, rows[x].attempts + 1, rows[x].attempts + 1); }
    }
  }

  lemma ArrivalsStayBehind(rows: Table, r: Round, id: Id)
    requires id in rows && Calm(r, rows.Keys, rows[id].availableAt, id)
    ensures Ahead(rows + r.arrivals, id) == Ahead(rows, id)
  {
  }

  lemma TickPassesOver(cfg: Config, w: World, t: Tick, id: Id, rows': Table)
    requires cfg.Valid() && id in Due(w.rows, t.now) && id !in Claimed(cfg, w, t)
    requires rows' == RunTick(cfg, w, t).rows
    ensures rows'.Keys == w.rows.Keys && id in rows' && rows'[id] == w.rows[id]
    ensures |Ahead(rows', id)| + cfg.batchSize <= |Ahead(w.rows, id)|
  {
    var ids := Claimed(cfg, w, t);
    PassedOver(cfg, w, t, id);
    TickEffect(cfg, w, t);
    RetriedFallBehind(cfg, w.rows, t.now, ids, rows', id);
    SubsetSize(Ahead(rows', id), Ahead(w.rows, id) - Elements(ids));
  }

  /** One round: `id` is claimed, or `batchSize` fewer rows are ahead of it. */
  lemma RoundProgress(cfg: Config, w: World, r: Round, id: Id, rows': Table)
    requires cfg.Valid() && id in w.rows && w.rows[id].status == Pending
    requires Calm(r, w.rows.Keys, w.rows[id].availableAt, id)
    requires id !in Claimed(cfg, Arrive(w, r), r.tick)
    requires rows' == RunTick(cfg, Arrive(w, r), r.tick).rows
    ensures rows'.Keys == w.rows.Keys + r.arrivals.Keys && id in rows' && rows'[id] == w.rows[id]
    ensures |Ahead(rows', id)| + cfg.batchSize <= |Ahead(w.rows, id)|
  {
    ArrivalsStayBehind(w.rows, r, id);
    assert id in Due(Arrive(w, r).rows, r.tick.now);
    TickPassesOver(cfg, Arrive(w, r), r.tick, id, rows');
  }

  /** Rows taken by n full batches. */
  function Capacity(n: nat, batch: int): int { if n == 0 then 0 else Capacity(n - 1, batch) + batch }

  /** `id` waits in front of `rounds`, which between them take more rows than are ahead of it. */
  ghost predicate Waits(cfg: Config, w: World, rounds: seq<Round>, id: Id) {
    && id in w.rows && w.rows[id].status == Pending
    && Undisturbed(rounds, w.rows.Keys, w.rows[id].availableAt, id)
    && |Ahead(w.rows, id)| < Capacity(|rounds|, cfg.batchSize)
  }

  lemma WaitsOneLess(cfg: Config, w: World, rounds: seq<Round>, id: Id, w': World)
    requires cfg.Valid() && rounds != [] && Waits(cfg, w, rounds, id)
    requires id !in Claimed(cfg, Arrive(w, rounds[0]), rounds[0].tick)
    requires w' == RunTick(cfg, Arrive(w, rounds[0]), rounds[0].tick)
    ensures Waits(cfg, w', rounds[1..], id)
  {
    RoundProgress(cfg, w, rounds[0], id, w'.rows);
  }

  lemma ServedNow(cfg: Config, w: World, rounds: seq<Round>, id: Id)
    requires rounds != [] && id in Claimed(cfg, Arrive(w, rounds[0]), rounds[0].tick)
    ensures Served(cfg, w, rounds, id)
  {
  }

  lemma ServedLater(cfg: Config, w: World, rounds: seq<Round>, id: Id, w': World)
    requires rounds != [] && w' == RunTick(cfg, Arrive(w, rounds[0]), rounds[0].tick)
    requires Served(cfg, w', rounds[1..], id)
    ensures Served(cfg, w, rounds, id)
  {
  }

  /** With k rows ahead, n rounds suffice as soon as n batches cover k + 1 rows. */
  lemma {:induction false} ServedWithin(cfg: Config, w: World, rounds: seq<Round>, id: Id)
    requires cfg.Valid() && Waits(cfg, w, rounds, id)
    ensures Served(cfg, w, rounds, id)
    decreases |rounds|
  {
    assert rounds != [];
    if id in Claimed(cfg, Arrive(w, rounds[0]), rounds[0].tick) {
      ServedNow(cfg, w, rounds, id);
    } else {
      var w' := RunTick(cfg, Arrive(w, rounds[0]), rounds[0].tick);
      WaitsOneLess(cfg, w, rounds, id, w');
      ServedWithin(cfg, w', rounds[1..], id);
      ServedLater(cfg, w, rounds, id, w');
    }
  }

  /** A due row with k rows ahead of it is claimed within k / batchSize + 1 ticks, whatever fails. */
  lemma NoStarvation(cfg: Config, w: World, rounds: seq<Round>, id: Id)
    requires cfg.Valid() && id in w.rows && w.rows[id].status == Pending
    requires Undisturbed(rounds, w.rows.Keys, w.rows[id].availableAt, id)
    requires |rounds| == |Ahead(w.rows, id)| / cfg.batchSize + 1
    ensures Served(cfg, w, rounds, id)
  {
    BatchesCover(|Ahead(w.rows, id)|, cfg.batchSize);
    ServedWithin(cfg, w, rounds, id);
  }

  lemma {:induction false} CapacityIsProduct(n: nat, batch: int)
    ensures Capacity(n, batch) == n * batch
  {
    if n > 0 { CapacityIsProduct(n - 1, batch); }
  }

  lemma BatchesCover(k: nat, batch: int)
    requires batch > 0
    ensures k < Capacity(k / batch + 1, batch)
  {
    assert k == batch * (k / batch) + k % batch;
    CapacityIsProduct(k / batch, batch);
  }
}
