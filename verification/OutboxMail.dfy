/**
  Whose mail went out. Dedup marks are keyed by the message id in the payload,
  which two rows may share, so what an observer must record beside the run is
  which row inserted each mark and which rows' mails the port accepted.
*/
module OutboxMail {
  import opened Prelude
  import opened OutboxModel
  import opened OutboxWorkers
  import OutboxGuarantees

  /** Per row: `entered`, the handler runs that got past dedup; `posted`, those whose mail the port accepted; and
      `dropped`, those that ended with a send error, a missing field or a crash instead. `winner`: the row whose run
      last inserted each mark. */
  datatype Watch = Watch(entered: multiset<Id>, posted: multiset<Id>, dropped: multiset<Id>, winner: map<Id, Id>)

  const NOTHING_SEEN := Watch(multiset{}, multiset{}, multiset{}, map[])

  /** The key a dedup step inserts, if it inserts one. */
  function InsertedKey(s: State, w: nat): Option<Id>
    requires InPhase(s, w, true, false, false)
  {
    var head := s.workers[w].batch[0];
    var key := DedupKey(head.id, head.row.messageKey);
    if key.Some? && key.value in s.marks then None else key
  }

  /** The dedup step lets the handler go on to its send. */
  predicate GoesOn(s: State, w: nat)
    requires InPhase(s, w, true, false, false)
  {
    var head := s.workers[w].batch[0];
    var key := DedupKey(head.id, head.row.messageKey);
    !(key.Some? && key.value in s.marks)
  }

  function WatchNext(cfg: Config, s: State, v: Watch, step: Step): Watch
    requires Enabled(cfg, s, step)
  {
    match step
    case Dedupe(w, _) =>
      var id, key := s.workers[w].batch[0].id, InsertedKey(s, w);
      if !GoesOn(s, w) then v
      else v.(entered := v.entered + multiset{id}, winner := if key.Some? then v.winner[key.value := id] else v.winner)
    case Send(w, result) =>
      var id := s.workers[w].batch[0].id;
      if result.Sent? then v.(posted := v.posted + multiset{id}) else v.(dropped := v.dropped + multiset{id})
    case Crash(w) =>
      if InPhase(s, w, false, true, false) then v.(dropped := v.dropped + multiset{s.workers[w].batch[0].id}) else v
    case _ => v
  }

  function WatchRun(cfg: Config, s: State, v: Watch, steps: seq<Step>): Watch
    decreases |steps|
  {
    if steps == [] then v else
      WatchRun(cfg, Do(cfg, s, steps[0]), if Enabled(cfg, s, steps[0]) then WatchNext(cfg, s, v, steps[0]) else v,
               steps[1..])
  }

  // ── Invariant ──────────────────────────────────────────────────────────

  ghost predicate Carries(s: State, id: Id, k: Id) { id in s.keys && DedupKey(id, s.keys[id]) == Some(k) }

  /** A mark has a winner exactly when it has been inserted, and the winner carries its key. */
  ghost predicate KeyInv(s: State, v: Watch, k: Id) {
    (k in v.winner <==> Inserted(s, k) >= 1) && (k in v.winner ==> Carries(s, v.winner[k], k))
  }

  /** A worker about to send under a mark never pruned is the one that won it. */
  ghost predicate SenderInv(s: State, v: Watch, w: Worker) {
    w.Busy? && w.batch != [] && InFlightKey(w).Some? && s.pruned[InFlightKey(w).value] == 0 ==>
      InFlightKey(w).value in v.winner && v.winner[InFlightKey(w).value] == w.batch[0].id
  }

  /** While a mark was never pruned, all that was accepted under it was the winner's mail. */
  ghost predicate PostInv(s: State, v: Watch, id: Id, k: Id) {
    Carries(s, id, k) ==>
      && v.posted[id] <= s.accepted[k]
      && (s.pruned[k] == 0 ==> v.posted[id] == if k in v.winner && v.winner[k] == id then s.accepted[k] else 0)
  }

  ghost predicate MailInv(s: State, v: Watch) {
    && (forall k :: KeyInv(s, v, k))
    && (forall i :: 0 <= i < |s.workers| ==> SenderInv(s, v, s.workers[i]))
    && (forall id :: id !in s.keys ==> v.posted[id] == 0)
    && (forall id, k :: PostInv(s, v, id, k))
  }

  lemma {:induction false} SenderIsInFlight(ws: seq<Worker>, i: nat, k: Id)
    requires i < |ws| && InFlightKey(ws[i]) == Some(k)
    ensures InFlight(ws, k) >= 1
  {
    if i < |ws| - 1 { SenderIsInFlight(ws[..|ws| - 1], i, k); }
  }

  // ── The dedup insert ───────────────────────────────────────────────────

  lemma DedupeKeys(cfg: Config, s: State, v: Watch, w: nat, at: Instant, s': State, v': Watch, k: Id)
    requires Inv(cfg, s) && KeyInv(s, v, k) && InPhase(s, w, true, false, false)
    requires s' == DedupeNext(s, w, at) && v' == WatchNext(cfg, s, v, Dedupe(w, at))
    ensures KeyInv(s', v', k)
  {
    assert WorkerInv(cfg, s, s.workers[w]);
  }

  lemma DedupeSenders(cfg: Config, s: State, v: Watch, w: nat, at: Instant, s': State, v': Watch, i: nat)
    requires Inv(cfg, s) && InPhase(s, w, true, false, false) && i < |s.workers| && SenderInv(s, v, s.workers[i])
    requires s' == DedupeNext(s, w, at) && v' == WatchNext(cfg, s, v, Dedupe(w, at))
    ensures SenderInv(s', v', s'.workers[i])
  {
    var key := InsertedKey(s, w);
    if i != w && key.Some? && InFlightKey(s.workers[i]) == key {
      SenderIsInFlight(s.workers, i, key.value);
      assert Accounted(s, key.value);
    }
  }

  lemma DedupePosts(cfg: Config, s: State, v: Watch, w: nat, at: Instant, s': State, v': Watch, id: Id, k: Id)
    requires Inv(cfg, s) && KeyInv(s, v, k) && PostInv(s, v, id, k) && InPhase(s, w, true, false, false)
    requires s' == DedupeNext(s, w, at) && v' == WatchNext(cfg, s, v, Dedupe(w, at))
    ensures PostInv(s', v', id, k)
  {
    assert Accounted(s, k);
    if InsertedKey(s, w) == Some(k) && s.pruned[k] == 0 {
      assert Inserted(s, k) == 0;
      assert s.accepted[k] == 0;
    }
  }

  // ── The send ───────────────────────────────────────────────────────────

  lemma SendPosts(cfg: Config, s: State, v: Watch, w: nat, result: SendResult, s': State, v': Watch, id: Id, k: Id)
    requires Inv(cfg, s) && InPhase(s, w, false, true, false) && SenderInv(s, v, s.workers[w]) && PostInv(s, v, id, k)
    requires s' == SendNext(s, w, result) && v' == WatchNext(cfg, s, v, Send(w, result))
    ensures PostInv(s', v', id, k)
  {
    assert WorkerInv(cfg, s, s.workers[w]);
  }

  lemma SendSenders(cfg: Config, s: State, v: Watch, w: nat, result: SendResult, s': State, v': Watch, i: nat)
    requires InPhase(s, w, false, true, false) && i < |s.workers| && SenderInv(s, v, s.workers[i])
    requires s' == SendNext(s, w, result) && v' == WatchNext(cfg, s, v, Send(w, result))
    ensures SenderInv(s', v', s'.workers[i])
  {
  }

  // ── Every other step ───────────────────────────────────────────────────

  lemma OtherKeys(cfg: Config, s: State, v: Watch, step: Step, s': State, v': Watch, k: Id)
    requires KeyInv(s, v, k) && Enabled(cfg, s, step) && !step.Dedupe? && s' == Next(cfg, s, step)
    requires v'.winner == v.winner
    ensures KeyInv(s', v', k)
  {
  }

  lemma OtherSenders(cfg: Config, s: State, v: Watch, step: Step, s': State, v': Watch, i: nat)
    requires Enabled(cfg, s, step) && !step.Dedupe? && !step.Send? && s' == Next(cfg, s, step)
    requires i < |s.workers| && SenderInv(s, v, s.workers[i]) && v'.winner == v.winner
    ensures |s'.workers| == |s.workers| && SenderInv(s', v', s'.workers[i])
  {
  }

  lemma OtherPosts(cfg: Config, s: State, v: Watch, step: Step, s': State, v': Watch, id: Id, k: Id)
    requires PostInv(s, v, id, k) && KeyInv(s, v, k) && (id !in s.keys ==> v.posted[id] == 0)
    requires Enabled(cfg, s, step) && !step.Dedupe? && !step.Send? && s' == Next(cfg, s, step)
    requires v'.posted == v.posted && v'.winner == v.winner
    ensures PostInv(s', v', id, k)
  {
  }

  lemma SendersNext(cfg: Config, s: State, v: Watch, step: Step, s': State, v': Watch, i: nat)
    requires Inv(cfg, s) && MailInv(s, v) && Enabled(cfg, s, step) && i < |s.workers|
    requires s' == Next(cfg, s, step) && v' == WatchNext(cfg, s, v, step)
    ensures |s'.workers| == |s.workers| && SenderInv(s', v', s'.workers[i])
  {
    assert SenderInv(s, v, s.workers[i]);
    match step
    case Dedupe(w, at) => DedupeSenders(cfg, s, v, w, at, s', v', i);
    case Send(w, result) => SendSenders(cfg, s, v, w, result, s', v', i);
    case _ => OtherSenders(cfg, s, v, step, s', v', i);
  }

  lemma PostsNext(cfg: Config, s: State, v: Watch, step: Step, s': State, v': Watch, id: Id, k: Id)
    requires Inv(cfg, s) && MailInv(s, v) && Enabled(cfg, s, step)
    requires s' == Next(cfg, s, step) && v' == WatchNext(cfg, s, v, step)
    ensures PostInv(s', v', id, k)
  {
    assert PostInv(s, v, id, k) && KeyInv(s, v, k);
    match step
    case Dedupe(w, at) => DedupePosts(cfg, s, v, w, at, s', v', id, k);
    case Send(w, result) =>
      assert SenderInv(s, v, s.workers[w]);
      SendPosts(cfg, s, v, w, result, s', v', id, k);
    case _ => OtherPosts(cfg, s, v, step, s', v', id, k);
  }

  lemma StrangersUnposted(cfg: Config, s: State, v: Watch, step: Step, s': State, v': Watch, id: Id)
    requires Inv(cfg, s) && MailInv(s, v) && Enabled(cfg, s, step)
    requires s' == Next(cfg, s, step) && v' == WatchNext(cfg, s, v, step)
    ensures id !in s'.keys ==> v'.posted[id] == 0
  {
    if step.Send? { assert WorkerInv(cfg, s, s.workers[step.w]); }
  }

  lemma MailNext(cfg: Config, s: State, v: Watch, step: Step)
    requires Inv(cfg, s) && MailInv(s, v) && Enabled(cfg, s, step)
    ensures MailInv(Next(cfg, s, step), WatchNext(cfg, s, v, step))
  {
    var s', v' := Next(cfg, s, step), WatchNext(cfg, s, v, step);
    forall k ensures KeyInv(s', v', k) {
      assert KeyInv(s, v, k);
      if step.Dedupe? {
        DedupeKeys(cfg, s, v, step.w, step.at, s', v', k);
      } else {
        OtherKeys(cfg, s, v, step, s', v', k);
      }
    }
    forall i | 0 <= i < |s'.workers| ensures SenderInv(s', v', s'.workers[i]) {
      SendersNext(cfg, s, v, step, s', v', i);
    }
    forall id ensures id !in s'.keys ==> v'.posted[id] == 0 { StrangersUnposted(cfg, s, v, step, s', v', id); }
    forall id, k ensures PostInv(s', v', id, k) { PostsNext(cfg, s, v, step, s', v', id, k); }
  }

  lemma {:induction false} MailRun(cfg: Config, s: State, v: Watch, steps: seq<Step>)
    requires cfg.Valid() && Inv(cfg, s) && MailInv(s, v)
    ensures Inv(cfg, Run(cfg, s, steps)) && MailInv(Run(cfg, s, steps), WatchRun(cfg, s, v, steps))
    decreases |steps|
  {
    if steps != [] {
      var s1, v1 := Do(cfg, s, steps[0]), if Enabled(cfg, s, steps[0]) then WatchNext(cfg, s, v, steps[0]) else v;
      if Enabled(cfg, s, steps[0]) {
        MailNext(cfg, s, v, steps[0]);
        InvNext(cfg, s, steps[0]);
      }
      MailRun(cfg, s1, v1, steps[1..]);
    }
  }

  lemma InitialMail(cfg: Config, s: State)
    requires Initial(s)
    ensures Inv(cfg, s) && MailInv(s, NOTHING_SEEN)
  {
    InitialInv(cfg, s);
  }

  // ── Guarantees ─────────────────────────────────────────────────────────

  /** No other row ever enqueued carries the dedup key of `id`. */
  ghost predicate SoleCarrier(s: State, id: Id, k: Id) { forall other :: Carries(s, other, k) ==> other == id }

  /** While its mark is never pruned, a delivered row's own mail was accepted at most once, and it was if and only if
      the one run past the dedup insert was this row's and neither raised, crashed nor is still on its way. */
  lemma AcceptedOnceUnderMark(cfg: Config, s: State, steps: seq<Step>, id: Id, k: Id, s': State, v: Watch)
    requires cfg.Valid() && Initial(s) && s' == Run(cfg, s, steps) && v == WatchRun(cfg, s, NOTHING_SEEN, steps)
    requires id in s'.rows && s'.rows[id].status == Delivered
    requires DedupKey(id, s'.rows[id].messageKey) == Some(k) && s'.pruned[k] == 0
    ensures s'.accepted[k] + s'.lost[k] + InFlight(s'.workers, k) == 1
    ensures k in v.winner && v.posted[id] <= 1
    ensures v.posted[id] == 1 <==> v.winner[k] == id && s'.lost[k] == 0 && InFlight(s'.workers, k) == 0
  {
    InitialMail(cfg, s);
    MailRun(cfg, s, NOTHING_SEEN, steps);
    assert RowInv(cfg, s', id) && Accounted(s', k) && KeyInv(s', v, k) && PostInv(s', v, id, k);
  }

  /** From the empty tables, under every configuration with a retry, a row can end delivered although its mail was
      never accepted. */
  lemma DeliveredUnposted(cfg: Config, s: State, id: Id, at: Instant) returns (steps: seq<Step>)
    requires cfg.Valid() && cfg.maxAttempts > 1 && Initial(s) && s.workers != []
    ensures id in Run(cfg, s, steps).rows && Run(cfg, s, steps).rows[id].status == Delivered
    ensures WatchRun(cfg, s, NOTHING_SEEN, steps).posted[id] == 0
  {
    var produce := Produce(id, Absent, at);
    RunOne(cfg, s, produce);
    var rest := OutboxGuarantees.FailedSendEndsDelivered(cfg, Run(cfg, s, [produce]), id);
    steps := [produce] + rest;
    RunConcat(cfg, s, [produce], rest);
    InitialMail(cfg, s);
    MailRun(cfg, s, NOTHING_SEEN, steps);
    var s' := Run(cfg, s, steps);
    assert RowInv(cfg, s', id);
    assert PostInv(s', WatchRun(cfg, s, NOTHING_SEEN, steps), id, id);
  }

  /** `first` has been sent under its own id, and `second`, still to be tried, carries that id as its message key. */
  ghost predicate KeyUsedUp(s: State, first: Id, second: Id) {
    && s.workers != [] && s.workers[0] == Idle && first in s.marks && s.accepted[first] == 1 && s.lost[first] == 0
    && second in s.rows && s.rows[second].status == Pending && s.rows[second].messageKey == Uuid(first)
    && s.calls[second] == 0
  }

  /** Both rows are new and nothing has been sent. */
  ghost predicate BothNew(s: State, first: Id, second: Id, at: Instant) {
    && s.workers != [] && s.workers[0] == Idle && first != second && s.marks == map[]
    && s.calls == s.accepted == s.lost == multiset{}
    && first in s.rows && s.rows[first] == NewRow(Absent, at)
    && second in s.rows && s.rows[second] == NewRow(Uuid(first), at)
  }

  lemma ProduceBoth(cfg: Config, s: State, first: Id, second: Id, at: Instant) returns (steps: seq<Step>)
    requires Initial(s) && s.workers != [] && first != second
    ensures BothNew(Run(cfg, s, steps), first, second, at)
  {
    var t;
    steps, t := Extend(cfg, s, [], s, Produce(first, Absent, at));
    steps, t := Extend(cfg, s, steps, t, Produce(second, Uuid(first), at));
  }

  lemma FirstUsesKey(cfg: Config, s: State, first: Id, second: Id, at: Instant) returns (steps: seq<Step>)
    requires cfg.Valid() && BothNew(s, first, second, at)
    ensures KeyUsedUp(Run(cfg, s, steps), first, second)
  {
    var t;
    steps, t := Extend(cfg, s, [], s, Claim(0, at, [first], "a"));
    assert t.rows[second] == NewRow(Uuid(first), at);
    steps, t := Extend(cfg, s, steps, t, Dedupe(0, 0));
    assert t.workers[0].phase == Sending(Some(first)) && t.marks == map[first := 0];
    steps, t := Extend(cfg, s, steps, t, Send(0, Sent));
    assert t.accepted == multiset{first} && t.calls == multiset{first} && t.lost == multiset{};
    steps, t := Extend(cfg, s, steps, t, Mark(0));
  }

  /** The worker holds just `second` and the counts are those of `s`. */
  ghost predicate OnlySecond(s: State, t: State, first: Id, second: Id, phase: Phase) {
    && t.workers != [] && t.workers[0].Busy? && t.workers[0].phase == phase && |t.workers[0].batch| == 1
    && t.workers[0].batch[0].id == second && t.workers[0].batch[0].row.messageKey == Uuid(first)
    && first in t.marks && second in t.rows
    && t.calls == s.calls && t.accepted == s.accepted && t.lost == s.lost
  }

  lemma SecondClaimed(cfg: Config, s: State, first: Id, second: Id, claim: Step)
    requires cfg.Valid() && KeyUsedUp(s, first, second) && claim == Claim(0, s.rows[second].availableAt, [second], "a")
    ensures Enabled(cfg, s, claim) && OnlySecond(s, Next(cfg, s, claim), first, second, Ready)
  {
  }

  lemma SecondReturns(cfg: Config, s: State, t: State, first: Id, second: Id)
    requires OnlySecond(s, t, first, second, Ready)
    ensures Enabled(cfg, t, Dedupe(0, 0)) && OnlySecond(s, Next(cfg, t, Dedupe(0, 0)), first, second, Returned)
  {
  }

  lemma SecondSkipsSend(cfg: Config, s: State, first: Id, second: Id) returns (steps: seq<Step>)
    requires cfg.Valid() && KeyUsedUp(s, first, second)
    ensures var s' := Run(cfg, s, steps);
            && second in s'.rows && s'.rows[second].status == Delivered && s'.calls[second] == 0
            && s'.accepted[first] == 1 && s'.lost[first] == 0
  {
    var claim := Claim(0, s.rows[second].availableAt, [second], "a");
    SecondClaimed(cfg, s, first, second, claim);
    var t;
    steps, t := Extend(cfg, s, [], s, claim);
    SecondReturns(cfg, s, t, first, second);
    steps, t := Extend(cfg, s, steps, t, Dedupe(0, 0));
    steps, t := Extend(cfg, s, steps, t, Mark(0));
  }

  /** The ownership condition is needed: a row whose key another row has used up is delivered without a single call,
      although the one run under that key was accepted. */
  lemma SharedKeyLosesMail(cfg: Config, s: State, first: Id, second: Id, at: Instant) returns (steps: seq<Step>)
    requires cfg.Valid() && Initial(s) && s.workers != [] && first != second
    ensures var s' := Run(cfg, s, steps);
            && second in s'.rows && s'.rows[second].status == Delivered && s'.calls[second] == 0
            && s'.accepted[first] == 1 && s'.lost[first] == 0
  {
    var made := ProduceBoth(cfg, s, first, second, at);
    var used := FirstUsesKey(cfg, Run(cfg, s, made), first, second, at);
    RunConcat(cfg, s, made, used);
    var rest := SecondSkipsSend(cfg, Run(cfg, s, made + used), first, second);
    RunConcat(cfg, s, made + used, rest);
    steps := made + used + rest;
  }
}
