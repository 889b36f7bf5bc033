/**
  When a delivered row's mail was accepted: for every delivered row of every
  reachable state, with or without a dedup key, its mark kept or pruned.
*/
module OutboxDelivery {
  import opened Prelude
  import opened OutboxModel
  import opened OutboxWorkers
  import opened OutboxMail

  function SendsNow(id: Id): Worker -> int {
    (w: Worker) => if w.Busy? && w.phase.Sending? && w.batch != [] && w.batch[0].id == id then 1 else 0
  }

  /** Runs of `id` between the dedup insert and the end of the send. */
  function SendingNow(s: State, id: Id): int { SumOver(s.workers, SendsNow(id)) }

  /** Every run that entered has been accepted, dropped, or is on its way. */
  ghost predicate EnterInv(s: State, v: Watch, id: Id) {
    v.entered[id] == v.posted[id] + v.dropped[id] + SendingNow(s, id)
  }

  predicate Keyless(id: Id, key: MessageKey) { DedupKey(id, key).None? }

  /** A keyless row is delivered only after its mail was accepted. */
  ghost predicate KeylessInv(s: State, v: Watch, id: Id) {
    id in s.rows && s.rows[id].status == Delivered && Keyless(id, s.rows[id].messageKey) ==> v.posted[id] >= 1
  }

  ghost predicate KeylessWorker(v: Watch, w: Worker) {
    w.Busy? && w.batch != [] && w.phase.Returned? && Keyless(w.batch[0].id, w.batch[0].row.messageKey) ==>
      v.posted[w.batch[0].id] >= 1
  }

  ghost predicate DeliveryInv(s: State, v: Watch) {
    && (forall id :: EnterInv(s, v, id))
    && (forall k :: k in v.winner ==> v.entered[v.winner[k]] >= 1)
    && (forall id :: KeylessInv(s, v, id))
    && (forall i :: 0 <= i < |s.workers| ==> KeylessWorker(v, s.workers[i]))
  }

  lemma EnterDedupe(cfg: Config, s: State, v: Watch, w: nat, at: Instant, s': State, v': Watch, id: Id)
    requires EnterInv(s, v, id) && InPhase(s, w, true, false, false)
    requires s' == DedupeNext(s, w, at) && v' == WatchNext(cfg, s, v, Dedupe(w, at))
    ensures EnterInv(s', v', id)
  {
    SumUpdate(s.workers, w, s'.workers[w], SendsNow(id));
  }

  lemma EnterSend(cfg: Config, s: State, v: Watch, w: nat, result: SendResult, s': State, v': Watch, id: Id)
    requires EnterInv(s, v, id) && InPhase(s, w, false, true, false)
    requires s' == SendNext(s, w, result) && v' == WatchNext(cfg, s, v, Send(w, result))
    ensures EnterInv(s', v', id)
  {
    SumUpdate(s.workers, w, s'.workers[w], SendsNow(id));
  }

  lemma EnterNext(cfg: Config, s: State, v: Watch, step: Step, s': State, v': Watch, id: Id)
    requires EnterInv(s, v, id) && Enabled(cfg, s, step)
    requires s' == Next(cfg, s, step) && v' == WatchNext(cfg, s, v, step)
    ensures EnterInv(s', v', id)
  {
    match step
    case Dedupe(w, at) => EnterDedupe(cfg, s, v, w, at, s', v', id);
    case Send(w, result) => EnterSend(cfg, s, v, w, result, s', v', id);
    case Claim(w, _, _, _) => SumUpdate(s.workers, w, s'.workers[w], SendsNow(id));
    case RaiseEarly(w, _) => SumUpdate(s.workers, w, s'.workers[w], SendsNow(id));
    case Mark(w) => SumUpdate(s.workers, w, s'.workers[w], SendsNow(id));
    case Crash(w) => SumUpdate(s.workers, w, s'.workers[w], SendsNow(id));
    case _ =>
  }

  lemma WinnerNext(cfg: Config, s: State, v: Watch, step: Step, v': Watch, k: Id)
    requires Enabled(cfg, s, step) && v' == WatchNext(cfg, s, v, step)
    requires k in v.winner ==> v.entered[v.winner[k]] >= 1
    ensures k in v'.winner ==> v'.entered[v'.winner[k]] >= 1
  {
  }

  /** The row a settling write touches: a keyless one that ends delivered had its handler return after a send. */
  lemma KeylessNext(cfg: Config, s: State, v: Watch, step: Step, s': State, v': Watch, id: Id)
    requires Inv(cfg, s) && DeliveryInv(s, v) && Enabled(cfg, s, step)
    requires s' == Next(cfg, s, step) && v' == WatchNext(cfg, s, v, step)
    ensures KeylessInv(s', v', id)
  {
    assert KeylessInv(s, v, id) && RowInv(cfg, s, id);
    if step.Mark? {
      assert KeylessWorker(v, s.workers[step.w]) && WorkerInv(cfg, s, s.workers[step.w]);
      assert SnapshotOk(cfg, s.keys, s.workers[step.w].batch[0]);
    }
  }

  lemma DedupedWorker(s: State, v: Watch, w: nat, at: Instant)
    requires InPhase(s, w, true, false, false)
    ensures KeylessWorker(v, DedupeNext(s, w, at).workers[w])
  {
  }

  lemma SentWorker(s: State, v: Watch, w: nat, result: SendResult, v': Watch)
    requires InPhase(s, w, false, true, false)
    requires v'.posted == if result.Sent? then v.posted + multiset{s.workers[w].batch[0].id} else v.posted
    ensures KeylessWorker(v', SendNext(s, w, result).workers[w])
  {
  }

  lemma PostedGrows(cfg: Config, s: State, v: Watch, step: Step, v': Watch, id: Id)
    requires Enabled(cfg, s, step) && v' == WatchNext(cfg, s, v, step)
    ensures v.posted[id] <= v'.posted[id]
  {
  }

  /** Only a dedup or a send makes a handler run return. */
  lemma ReturnedBefore(cfg: Config, s: State, step: Step, s': State, i: nat)
    requires Enabled(cfg, s, step) && s' == Next(cfg, s, step) && i < |s.workers|
    requires (step.Dedupe? || step.Send?) ==> step.w != i
    ensures |s'.workers| == |s.workers|
    ensures s'.workers[i].Busy? && s'.workers[i].phase.Returned? ==> s'.workers[i] == s.workers[i]
  {
  }

  lemma KeylessWorkerNext(cfg: Config, s: State, v: Watch, step: Step, s': State, v': Watch, i: nat)
    requires Enabled(cfg, s, step) && i < |s.workers| && KeylessWorker(v, s.workers[i])
    requires s' == Next(cfg, s, step) && v' == WatchNext(cfg, s, v, step)
    ensures |s'.workers| == |s.workers| && KeylessWorker(v', s'.workers[i])
  {
    if step.Dedupe? && step.w == i {
      DedupedWorker(s, v', i, step.at);
    } else if step.Send? && step.w == i {
      SentWorker(s, v, i, step.result, v');
    } else {
      ReturnedBefore(cfg, s, step, s', i);
      if s.workers[i].Busy? && s.workers[i].batch != [] { PostedGrows(cfg, s, v, step, v', s.workers[i].batch[0].id); }
    }
  }

  lemma DeliveryNext(cfg: Config, s: State, v: Watch, step: Step)
    requires Inv(cfg, s) && DeliveryInv(s, v) && Enabled(cfg, s, step)
    ensures DeliveryInv(Next(cfg, s, step), WatchNext(cfg, s, v, step))
  {
    var s', v' := Next(cfg, s, step), WatchNext(cfg, s, v, step);
    forall id ensures EnterInv(s', v', id) {
      assert EnterInv(s, v, id);
      EnterNext(cfg, s, v, step, s', v', id);
    }
    forall k ensures k in v'.winner ==> v'.entered[v'.winner[k]] >= 1 { WinnerNext(cfg, s, v, step, v', k); }
    forall id ensures KeylessInv(s', v', id) { KeylessNext(cfg, s, v, step, s', v', id); }
    forall i | 0 <= i < |s'.workers| ensures KeylessWorker(v', s'.workers[i]) {
      KeylessWorkerNext(cfg, s, v, step, s', v', i);
    }
  }

  lemma {:induction false} DeliveryRun(cfg: Config, s: State, v: Watch, steps: seq<Step>)
    requires cfg.Valid() && Inv(cfg, s) && DeliveryInv(s, v)
    ensures DeliveryInv(Run(cfg, s, steps), WatchRun(cfg, s, v, steps))
    decreases |steps|
  {
    if steps != [] {
      var s1, v1 := Do(cfg, s, steps[0]), if Enabled(cfg, s, steps[0]) then WatchNext(cfg, s, v, steps[0]) else v;
      if Enabled(cfg, s, steps[0]) {
        DeliveryNext(cfg, s, v, steps[0]);
        InvNext(cfg, s, steps[0]);
      }
      DeliveryRun(cfg, s1, v1, steps[1..]);
    }
  }

  lemma {:induction false} NobodySends(ws: seq<Worker>, id: Id)
    requires forall i :: 0 <= i < |ws| ==> ws[i] == Idle
    ensures SumOver(ws, SendsNow(id)) == 0
  {
    if ws != [] { NobodySends(ws[..|ws| - 1], id); }
  }

  /**
    For every delivered row of every reachable state. Its own mail was accepted if and only if more of its handler
    runs got past dedup than were dropped or are still on their way. A row without a dedup key was always accepted.
    With a key, some row carrying it got past dedup, and that is this row if no other row carries the key; a row that
    never did was delivered on another row's run.
  */
  lemma DeliveredMeansAccepted(cfg: Config, s: State, steps: seq<Step>, id: Id, s': State, v: Watch)
    requires cfg.Valid() && Initial(s) && s' == Run(cfg, s, steps) && v == WatchRun(cfg, s, NOTHING_SEEN, steps)
    requires id in s'.rows && s'.rows[id].status == Delivered
    ensures v.posted[id] >= 1 <==> v.entered[id] > v.dropped[id] + SendingNow(s', id)
    ensures DedupKey(id, s'.rows[id].messageKey).None? ==> v.posted[id] >= 1
    ensures forall k :: DedupKey(id, s'.rows[id].messageKey) == Some(k) ==>
              && k in v.winner && Carries(s', v.winner[k], k) && v.entered[v.winner[k]] >= 1
              && (SoleCarrier(s', id, k) ==> v.winner[k] == id)
  {
    InitialMail(cfg, s);
    forall x ensures EnterInv(s, NOTHING_SEEN, x) { NobodySends(s.workers, x); }
    assert DeliveryInv(s, NOTHING_SEEN);
    MailRun(cfg, s, NOTHING_SEEN, steps);
    DeliveryRun(cfg, s, NOTHING_SEEN, steps);
    assert EnterInv(s', v, id) && KeylessInv(s', v, id) && RowInv(cfg, s', id);
    forall k | DedupKey(id, s'.rows[id].messageKey) == Some(k)
      ensures k in v.winner && Carries(s', v.winner[k], k) && v.entered[v.winner[k]] >= 1
      ensures SoleCarrier(s', id, k) ==> v.winner[k] == id
    {
      assert KeyInv(s', v, k) && Inserted(s', k) >= 1;
    }
  }
}
