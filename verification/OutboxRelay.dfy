/**
  One relay worker: the repository, the in-process job queue with the deduping
  handler, and the tick that drains up to `batchSize` due rows.
*/
module OutboxRelay {
  import opened Prelude
  import opened OutboxModel

  /** Everything one worker's ticks read and write. */
  datatype World = World(rows: Table, marks: Marks, sends: multiset<Id>)

  /** One tick: its clock reading, and how each handler invocation behaves. */
  datatype Tick = Tick(now: Instant, worker: string, env: Id -> Handling)

  datatype Report = Report(claimed: nat, dispatched: nat, retried: nat, failed: nat)

  // ── Specification of a tick ────────────────────────────────────────────

  function DispatchOne(cfg: Config, w: World, snap: Snapshot, now: Instant, h: Handling): World {
    var r := Handle(w.marks, w.sends, snap, h);
    World(Settle(cfg, w.rows, snap, now, r.raised), r.marks, r.sends)
  }

  function DispatchAll(cfg: Config, w: World, snaps: seq<Snapshot>, t: Tick): World {
    if snaps == [] then w else
      var last := snaps[|snaps| - 1];
      DispatchOne(cfg, DispatchAll(cfg, w, snaps[..|snaps| - 1], t), last, t.now, t.env(last.id))
  }

  /** What the tick reports for one dispatch, from the snapshot it claimed. */
  function Reported(cfg: Config, w: World, snap: Snapshot, h: Handling): Status {
    if Handle(w.marks, w.sends, snap, h).raised.None? then Delivered
    else if snap.row.attempts + 1 >= cfg.maxAttempts then Failed else Pending
  }

  /** How many dispatches of a batch are reported as `status`. */
  function Counted(cfg: Config, w: World, snaps: seq<Snapshot>, t: Tick, status: Status): nat {
    if snaps == [] then 0 else
      var n := |snaps| - 1;
      var before := DispatchAll(cfg, w, snaps[..n], t);
      Counted(cfg, w, snaps[..n], t, status)
      + if Reported(cfg, before, snaps[n], t.env(snaps[n].id)) == status then 1 else 0
  }

  function Claimed(cfg: Config, w: World, t: Tick): seq<Id> {
    ClaimIds(w.rows, t.now, cfg.batchSize)
  }

  function ClaimedSnapshots(cfg: Config, w: World, t: Tick): seq<Snapshot> {
    ClaimIdsDistinct(w.rows, t.now, cfg.batchSize);
    Snapshots(w.rows, Claimed(cfg, w, t), t.now, t.worker)
  }

  function RunTick(cfg: Config, w: World, t: Tick): World {
    DispatchAll(cfg, w.(rows := Stamp(w.rows, Claimed(cfg, w, t), t.now, t.worker)),
                ClaimedSnapshots(cfg, w, t), t)
  }

  /** How many of the claimed rows ended the tick with `status`. */
  function Ended(rows: Table, ids: seq<Id>, status: Status): nat {
    if ids == [] then 0 else
      var last := ids[|ids| - 1];
      Ended(rows, ids[..|ids| - 1], status) + if last in rows && rows[last].status == status then 1 else 0
  }

  // ── The classes ────────────────────────────────────────────────────────

  class OutboxRepository {
    var rows: Table

    method ClaimBatch(now: Instant, batchSize: int, worker: string) returns (claimed: seq<Snapshot>)
      modifies this
      ensures forall id :: id in ClaimIds(old(rows), now, batchSize) ==> id in old(rows)
      ensures claimed == Snapshots(old(rows), ClaimIds(old(rows), now, batchSize), now, worker)
      ensures rows == Stamp(old(rows), ClaimIds(old(rows), now, batchSize), now, worker)
      ensures IsClaim(old(rows), now, batchSize, Ids(claimed)) && rows.Keys == old(rows).Keys
      ensures forall id :: id in old(rows) && id !in Ids(claimed) ==> rows[id] == old(rows)[id]
      ensures forall i :: 0 <= i < |claimed| ==>
                && claimed[i].id in old(rows) && claimed[i].row == rows[claimed[i].id]
                && rows[claimed[i].id] == old(rows)[claimed[i].id].(lockedAt := Some(now), lockedBy := Some(worker))
    {
      ClaimIdsDistinct(rows, now, batchSize);
      var ids := ClaimIds(rows, now, batchSize);
      ClaimMeaning(rows, now, batchSize, ids);
      if ids == [] {
        assert rows == Stamp(rows, ids, now, worker);
        assert Ids([]) == [];
        return [];
      }
      claimed := Snapshots(rows, ids, now, worker);
      assert Ids(claimed) == ids;
      rows := Stamp(rows, ids, now, worker);
    }

    method SetDelivered(id: Id, at: Instant)
      modifies this
      ensures id !in old(rows) ==> rows == old(rows)
      ensures id in old(rows) ==>
                rows == old(rows)[id := old(rows)[id].(status := Delivered, deliveredAt := Some(at),
                                                       lockedAt := None, lockedBy := None)]
    {
      if id in rows { rows := rows[id := MarkDelivered(rows[id], at)]; }
    }

    method SetRetry(id: Id, attempts: nat, error: string, availableAt: Instant)
      modifies this
      ensures id !in old(rows) ==> rows == old(rows)
      ensures id in old(rows) ==>
                rows == old(rows)[id := old(rows)[id].(attempts := attempts, lastError := Some(error),
                                                       availableAt := availableAt, lockedAt := None, lockedBy := None)]
    {
      if id in rows { rows := rows[id := MarkRetry(rows[id], attempts, error, availableAt)]; }
    }

    method SetFailed(id: Id, attempts: nat, error: string, at: Instant)
      modifies this
      ensures id !in old(rows) ==> rows == old(rows)
      ensures id in old(rows) ==>
                rows == old(rows)[id := old(rows)[id].(status := Failed, attempts := attempts, lastError := Some(error),
                                                       failedAt := Some(at), lockedAt := None, lockedBy := None)]
    {
      if id in rows { rows := rows[id := MarkFailed(rows[id], attempts, error, at)]; }
    }
  }

  /** The in-process queue: the send-email handler runs inside `Enqueue`. */
  class InProcessQueue {
    var marks: Marks
    var sends: multiset<Id>

    /** Insert the dedup mark; false on a primary-key collision. */
    method Dedupe(key: Id, at: Instant) returns (first: bool)
      modifies this`marks
      ensures first <==> key !in old(marks)
      ensures marks == if first then old(marks)[key := at] else old(marks)
    {
      first := key !in marks;
      if first { marks := marks[key := at]; }
    }

    method Enqueue(snap: Snapshot, h: Handling) returns (raised: Option<string>)
      modifies this
      ensures Handled(marks, sends, raised) == Handle(old(marks), old(sends), snap, h)
    {
      if h.RaisesEarly? { return Some(h.error); }
      var key := DedupKey(snap.id, snap.row.messageKey);
      if key.Some? {
        var first := Dedupe(key.value, h.at);
        if !first { return None; }
      }
      match h.result {
        case FieldMissing(error) => return Some(error);
        case Sent =>
          sends := sends + multiset{snap.id};
          return None;
        case SendError(error) =>
          sends := sends + multiset{snap.id};
          return Some(error);
      }
    }
  }

  class DispatchPending {
    const repository: OutboxRepository
    const queue: InProcessQueue
    const cfg: Config
    const worker: string

    constructor (repository: OutboxRepository, queue: InProcessQueue, cfg: Config, worker: string)
      ensures this.repository == repository && this.queue == queue && this.cfg == cfg && this.worker == worker
    {
      this.repository := repository;
      this.queue := queue;
      this.cfg := cfg;
      this.worker := worker;
    }

    ghost function State(): World
      reads repository, queue
    {
      World(repository.rows, queue.marks, queue.sends)
    }

    /** Hand one claimed row to the queue and write back what came of it. Nothing is asked of the row: another
        worker may have settled it or a prune removed it since it was claimed. */
    method DispatchRow(snap: Snapshot, now: Instant, h: Handling) returns (outcome: Status)
      modifies repository, queue
      ensures State() == DispatchOne(cfg, old(State()), snap, now, h)
      ensures outcome == Reported(cfg, old(State()), snap, h)
      ensures repository.rows.Keys == old(repository.rows.Keys)
      ensures forall id :: id in old(repository.rows) && id != snap.id
                           ==> repository.rows[id] == old(repository.rows)[id]
      ensures snap.id in repository.rows ==>
                repository.rows[snap.id].status
                == if outcome == Pending then old(repository.rows)[snap.id].status else outcome
    {
      var raised := queue.Enqueue(snap, h);
      if raised.None? {
        repository.SetDelivered(snap.id, now);
        return Delivered;
      }
      var next := snap.row.attempts + 1;
      if next >= cfg.maxAttempts {
        repository.SetFailed(snap.id, next, raised.value, now);
        return Failed;
      }
      repository.SetRetry(snap.id, next, raised.value, now + Backoff(cfg, next));
      return Pending;
    }

    /** Dispatch a batch, whatever has become of its rows, counting what each dispatch came to. */
    method DispatchBatch(claimed: seq<Snapshot>, now: Instant, env: Id -> Handling)
      returns (dispatched: nat, retried: nat, failed: nat)
      modifies repository, queue
      ensures State() == DispatchAll(cfg, old(State()), claimed, Tick(now, worker, env))
      ensures dispatched == Counted(cfg, old(State()), claimed, Tick(now, worker, env), Delivered)
      ensures retried == Counted(cfg, old(State()), claimed, Tick(now, worker, env), Pending)
      ensures failed == Counted(cfg, old(State()), claimed, Tick(now, worker, env), Failed)
      ensures dispatched + retried + failed == |claimed|
    {
      dispatched, retried, failed := 0, 0, 0;
      ghost var w, t := State(), Tick(now, worker, env);
      for i := 0 to |claimed|
        invariant State() == DispatchAll(cfg, w, claimed[..i], t)
        invariant dispatched == Counted(cfg, w, claimed[..i], t, Delivered)
        invariant retried == Counted(cfg, w, claimed[..i], t, Pending)
        invariant failed == Counted(cfg, w, claimed[..i], t, Failed)
        invariant dispatched + retried + failed == i
      {
        assert claimed[..i + 1][..i] == claimed[..i];
        var outcome := DispatchRow(claimed[i], now, env(claimed[i].id));
        match outcome {
          case Delivered => dispatched := dispatched + 1;
          case Pending => retried := retried + 1;
          case Failed => failed := failed + 1;
        }
      }
      assert claimed[..|claimed|] == claimed;
    }

    /** One relay tick. The report counts the claimed rows by the status they ended in. */
    method Execute(now: Instant, env: Id -> Handling) returns (report: Report)
      modifies repository, queue
      ensures State() == RunTick(cfg, old(State()), Tick(now, worker, env))
      ensures var ids := Claimed(cfg, old(State()), Tick(now, worker, env));
              && report.claimed == |ids|
              && report.dispatched == Ended(repository.rows, ids, Delivered)
              && report.retried == Ended(repository.rows, ids, Pending)
              && report.failed == Ended(repository.rows, ids, Failed)
              && report.claimed == report.dispatched + report.retried + report.failed
    {
      ghost var ids := Claimed(cfg, State(), Tick(now, worker, env));
      ClaimIdsDistinct(repository.rows, now, cfg.batchSize);
      var claimed := repository.ClaimBatch(now, cfg.batchSize, worker);
      assert Ids(claimed) == ids;
      if claimed == [] {
        return Report(0, 0, 0, 0);
      }
      ghost var w := State();
      var dispatched, retried, failed := DispatchBatch(claimed, now, env);
      CountedIsEnded(cfg, w, claimed, Tick(now, worker, env), Delivered);
      CountedIsEnded(cfg, w, claimed, Tick(now, worker, env), Pending);
      CountedIsEnded(cfg, w, claimed, Tick(now, worker, env), Failed);
      report := Report(|claimed|, dispatched, retried, failed);
    }
  }

  ghost function Ids(snaps: seq<Snapshot>): seq<Id> {
    seq(|snaps|, i requires 0 <= i < |snaps| => snaps[i].id)
  }

  lemma {:induction false} EndedFrame(before: Table, after: Table, ids: seq<Id>, st: Status)
    requires forall j :: 0 <= j < |ids| ==>
               (ids[j] in before <==> ids[j] in after) && (ids[j] in before ==> before[ids[j]] == after[ids[j]])
    ensures Ended(before, ids, st) == Ended(after, ids, st)
  {
    if ids != [] { EndedFrame(before, after, ids[..|ids| - 1], st); }
  }

  lemma {:induction false} UntouchedRow(cfg: Config, w: World, snaps: seq<Snapshot>, t: Tick, id: Id)
    requires forall i :: 0 <= i < |snaps| ==> snaps[i].id != id
    ensures var rows' := DispatchAll(cfg, w, snaps, t).rows;
            (id in rows' <==> id in w.rows) && (id in w.rows ==> rows'[id] == w.rows[id])
  {
    if snaps != [] { UntouchedRow(cfg, w, snaps[..|snaps| - 1], t, id); }
  }

  /** For rows still pending, each dispatched once, what the dispatches came to is the status the rows end in. */
  lemma {:induction false} CountedIsEnded(cfg: Config, w: World, snaps: seq<Snapshot>, t: Tick, st: Status)
    requires forall i :: 0 <= i < |snaps| ==> snaps[i].id in w.rows && w.rows[snaps[i].id].status == Pending
    requires forall i, j :: 0 <= i < j < |snaps| ==> snaps[i].id != snaps[j].id
    ensures Counted(cfg, w, snaps, t, st) == Ended(DispatchAll(cfg, w, snaps, t).rows, Ids(snaps), st)
  {
    if snaps != [] {
      var n := |snaps| - 1;
      var w1 := DispatchAll(cfg, w, snaps[..n], t);
      CountedIsEnded(cfg, w, snaps[..n], t, st);
      UntouchedRow(cfg, w, snaps[..n], t, snaps[n].id);
      assert Ids(snaps)[..n] == Ids(snaps[..n]);
      EndedFrame(w1.rows, DispatchOne(cfg, w1, snaps[n], t.now, t.env(snaps[n].id)).rows, Ids(snaps[..n]), st);
    }
  }
}
