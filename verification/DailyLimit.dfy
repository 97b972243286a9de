/** The daily limit under any number of concurrent confirms, and the one settle that can break it. */
module DailyLimit {
  import opened Wrappers
  import opened Sums
  import opened Ledger
  import opened LedgerSafety
  import opened Payments
  import opened Frames
  import opened ExactlyOnce
  import opened ExactlyOnceRuns

  ghost predicate WithinLimit(s: State) {
    forall sender, day :: DaySum(s.transfers, sender, day) <= s.cfg.dailyLimit
  }

  /** The advisory lock is held by at most one confirm per sender and day. */
  ghost predicate LocksExclusive(ks: map<nat, Confirm>) {
    forall c, d :: c in ks && d in ks && c != d && ks[c].HasLock() && ks[d].HasLock() ==>
      ks[c].sender != ks[d].sender || ks[c].day != ks[d].day
  }

  /** The confirm has passed the limit check, and its insert will not be refused. */
  ghost predicate Pending(k: Confirm, ts: Rows) {
    k.phase.Summed? && !IntentUsed(ts, k.token) && !HasKey(ts, k.sender, k.key)
  }

  /** The amount a confirm past its check is about to insert. */
  function Ahead(k: Confirm): int { if k.phase.Summed? then k.phase.intent.amount else 0 }

  /** The row it is about to insert still fits the sender's day. */
  ghost predicate StillFits(k: Confirm, ts: Rows, limit: int) {
    Pending(k, ts) ==> DaySum(ts, k.sender, k.day) + Ahead(k) <= limit
  }

  ghost predicate PendingFit(ks: map<nat, Confirm>, ts: Rows, limit: int) {
    forall c :: c in ks ==> StillFits(ks[c], ts, limit)
  }

  ghost predicate LimitInv(s: State) {
    WithinLimit(s) && LocksExclusive(s.confirms) && PendingFit(s.confirms, s.transfers, s.cfg.dailyLimit)
  }

  /** The client learns of a success and writes it over a row that was FAILED. */
  predicate Resurrects(s: State, step: Step)
  {
    step.ClientReceive? && step.a in s.attempts && s.attempts[step.a].server.Replied?
    && s.attempts[step.a].server.answer.Success? && s.attempts[step.a].transfer in s.transfers
    && s.transfers[s.attempts[step.a].transfer].status == Failed
  }

  // ---------- how the day's sum moves ----------

  lemma DaySumPut(ts: Rows, id: string, row: Transfer, sender: string, day: int)
    ensures DaySum(ts[id := row], sender, day)
         == DaySum(ts, sender, day) + Weight(row, sender, day) - if id in ts then Weight(ts[id], sender, day) else 0
  {
    var ts' := ts[id := row];
    var f: string -> int := jd => if jd in ts then Weight(ts[jd], sender, day) else 0;
    var g: string -> int := jd => if jd in ts' then Weight(ts'[jd], sender, day) else 0;
    var others := ts.Keys - {id};
    SumSame(others, f, g);
    SumTake(ts'.Keys, g, id);
    assert ts'.Keys - {id} == others;
    if id in ts { SumTake(ts.Keys, f, id); } else { assert ts.Keys == others; }
  }

  /** The aggregate the confirm reads covers the day: it counts later days too, and no amount is negative. */
  lemma ReservedCoversDay(ts: Rows, sender: string, day: int)
    requires forall id :: id in ts ==> ts[id].amount > 0
    ensures DaySum(ts, sender, day) <= ReservedSince(ts, sender, day)
  {
    SumAtMost(ts.Keys, id => if id in ts then Weight(ts[id], sender, day) else 0,
              id => if id in ts then WeightSince(ts[id], sender, day) else 0);
  }

  /** Overwriting a FAILED row with a success raises the day's sum by the row's amount, and does nothing else to any sum. */
  lemma ResurrectionAdds(s: State, a: nat, sender: string, day: int)
    requires Enabled(s, ClientReceive(a)) && Resurrects(s, ClientReceive(a))
    ensures
      var row := s.transfers[s.attempts[a].transfer];
      DaySum(Do(s, ClientReceive(a)).transfers, sender, day)
      == DaySum(s.transfers, sender, day) + if (sender, day) == (row.sender, row.day) then row.amount else 0
  {
    var id := s.attempts[a].transfer;
    DaySumPut(s.transfers, id, SettledRow(s.transfers[id], s.attempts[a].server.answer), sender, day);
  }

  /**
   * What such a settle needs: the row's amount fits the sender's day, and so does it together with the amount of a
   * confirm of that sender and day whose limit check is already behind it.
   */
  ghost predicate RoomFor(s: State, a: nat)
    requires a in s.attempts && s.attempts[a].transfer in s.transfers
  {
    var row := s.transfers[s.attempts[a].transfer];
    var sum := DaySum(s.transfers, row.sender, row.day) + row.amount;
    && sum <= s.cfg.dailyLimit
    && forall c :: c in s.confirms && Pending(s.confirms[c], s.transfers)
         && s.confirms[c].sender == row.sender && s.confirms[c].day == row.day
         ==> sum + Ahead(s.confirms[c]) <= s.cfg.dailyLimit
  }

  /** The invariant survives such a settle exactly when there is room for it. */
  lemma ResurrectionKeepsLimitIff(s: State, a: nat)
    requires LimitInv(s) && Enabled(s, ClientReceive(a)) && Resurrects(s, ClientReceive(a))
    ensures LimitInv(Do(s, ClientReceive(a))) <==> RoomFor(s, a)
  {
    hide DaySum, Do, Enabled, Pending;
    var row, s' := s.transfers[s.attempts[a].transfer], Do(s, ClientReceive(a));
    ReceivedRow(s, a);
    forall sender, day
      ensures DaySum(s'.transfers, sender, day)
           == DaySum(s.transfers, sender, day) + if (sender, day) == (row.sender, row.day) then row.amount else 0
    {
      ResurrectionAdds(s, a, sender, day);
    }
    assert DaySum(s'.transfers, row.sender, row.day) == DaySum(s.transfers, row.sender, row.day) + row.amount;
    if RoomFor(s, a) {
      forall c | c in s'.confirms ensures StillFits(s'.confirms[c], s'.transfers, s.cfg.dailyLimit) {
        assert StillFits(s.confirms[c], s.transfers, s.cfg.dailyLimit);
      }
    }
    if LimitInv(s') {
      forall c | c in s.confirms && Pending(s.confirms[c], s.transfers)
        && s.confirms[c].sender == row.sender && s.confirms[c].day == row.day
        ensures DaySum(s.transfers, row.sender, row.day) + row.amount + Ahead(s.confirms[c]) <= s.cfg.dailyLimit
      {
        assert StillFits(s'.confirms[c], s'.transfers, s.cfg.dailyLimit);
      }
    }
  }

  /** Writing an answer over a row neither uses nor frees an intent or a key. */
  lemma ReceivedRow(s: State, a: nat)
    requires Enabled(s, ClientReceive(a))
    ensures a in s.attempts && s.attempts[a].transfer in s.transfers && Do(s, ClientReceive(a)).cfg == s.cfg
    ensures Do(s, ClientReceive(a)).confirms == s.confirms && Do(s, ClientReceive(a)).intents == s.intents
    ensures forall k :: Pending(k, Do(s, ClientReceive(a)).transfers) <==> Pending(k, s.transfers)
  {
    var id := s.attempts[a].transfer;
    var row := SettledRow(s.transfers[id], s.attempts[a].server.answer);
    forall k ensures Pending(k, s.transfers[id := row]) <==> Pending(k, s.transfers) { SamePending(k, s.transfers, id, row); }
  }

  lemma SamePending(k: Confirm, ts: Rows, id: string, row: Transfer)
    requires id in ts && row.intentId == ts[id].intentId && row.sender == ts[id].sender && row.key == ts[id].key
    ensures Pending(k, ts[id := row]) <==> Pending(k, ts)
  {
    var ts' := ts[id := row];
    UseCarries(ts, ts', k.token);
    if HasKey(ts, k.sender, k.key) {
      var jd :| jd in ts && ts[jd].sender == k.sender && ts[jd].key == k.key;
      assert ts'[jd].sender == k.sender && ts'[jd].key == k.key;
    }
    if HasKey(ts', k.sender, k.key) {
      var jd :| jd in ts' && ts'[jd].sender == k.sender && ts'[jd].key == k.key;
      assert ts[jd].sender == k.sender && ts[jd].key == k.key;
    }
  }

  // ---------- every other step keeps it ----------

  /** Writing a row that weighs no more than before. */
  lemma LighterRow(s: State, id: string, row: Transfer)
    requires LimitInv(s) && id in s.transfers
    requires row.intentId == s.transfers[id].intentId && row.sender == s.transfers[id].sender && row.key == s.transfers[id].key
    requires forall sender, day :: Weight(row, sender, day) <= Weight(s.transfers[id], sender, day)
    ensures LimitInv(SetRow(s, id, row))
  {
    hide DaySum, Weight, Pending;
    var s' := SetRow(s, id, row);
    forall sender, day ensures DaySum(s'.transfers, sender, day) <= DaySum(s.transfers, sender, day) {
      DaySumPut(s.transfers, id, row, sender, day);
    }
    forall c | c in s'.confirms ensures StillFits(s'.confirms[c], s'.transfers, s.cfg.dailyLimit) {
      assert StillFits(s.confirms[c], s.transfers, s.cfg.dailyLimit);
      SamePending(s.confirms[c], s.transfers, id, row);
    }
  }

  lemma RowStepKeepsLimit(s: State, step: Step)
    requires Inv(s) && LimitInv(s) && Enabled(s, step) && !Resurrects(s, step)
    requires TouchesRows(step) && !step.ConfirmCommit?
    ensures LimitInv(Do(s, step))
  {
    hide LimitInv, Safe, WalletsOk, RecordsOk, AttemptsOk, CompletedOk, ConfirmsOk, RowsOk, IntentsOk;
    var id := if step.ClientReceive? then s.attempts[step.a].transfer else step.id;
    hide Do, Enabled;
    RowFrame(s, step);
    OwnRow(s, step);
    var row := Do(s, step).transfers[id];
    RowAt(s.transfers, s.intents, s.wallets, id);
    hide RowOfIntent, Inv;
    LighterRow(s, id, row);
    SameLimit(SetRow(s, id, row), Do(s, step));
  }

  lemma SameLimit(s: State, s': State)
    requires LimitInv(s) && s'.transfers == s.transfers && s'.confirms == s.confirms && s'.cfg == s.cfg
    ensures LimitInv(s')
  {
  }

  lemma ConfirmStepKeepsLimit(s: State, step: Step)
    requires Inv(s) && LimitInv(s) && Enabled(s, step)
    requires MovesConfirm(step)
    ensures LimitInv(Do(s, step))
  {
    hide LimitInv, Safe, WalletsOk, RecordsOk, AttemptsOk, CompletedOk, ConfirmsOk, RowsOk, IntentsOk;
    var s' := Do(s, step);
    ConfirmMoveOk(s, step);
    if step.ConfirmSum? {
      SumStepFits(s, step.c);
    } else if step.ConfirmCheck? {
      CheckOver(s, s.confirms[step.c]);
    } else if step.ConfirmPreflight? {
      PreflightOver(s, step.sender, step.key, step.token);
    }
    hide CheckPhase, PreflightPhase, Inv;
    PutConfirmLimit(s, step.c, s'.confirms[step.c]);
  }

  lemma SumStepFits(s: State, c: nat)
    requires Inv(s) && Enabled(s, ConfirmSum(c))
    ensures StillFits(Do(s, ConfirmSum(c)).confirms[c], s.transfers, s.cfg.dailyLimit)
  {
    hide Safe, WalletsOk, RecordsOk, AttemptsOk, CompletedOk, ConfirmsOk, RowsOk, IntentsOk, DaySum, ReservedSince;
    ConfirmAt(s.confirms, s.intents, c);
    forall id | id in s.transfers ensures s.transfers[id].amount > 0 {
      RowAt(s.transfers, s.intents, s.wallets, id);
    }
    ReservedCoversDay(s.transfers, s.confirms[c].sender, s.confirms[c].day);
  }

  lemma PutConfirmLimit(s: State, c: nat, k: Confirm)
    requires LimitInv(s) && StillFits(k, s.transfers, s.cfg.dailyLimit)
    requires k.HasLock() ==>
      || (c in s.confirms && s.confirms[c].HasLock() && k.sender == s.confirms[c].sender && k.day == s.confirms[c].day)
      || (forall d :: d in s.confirms && d != c && s.confirms[d].HasLock() ==>
          s.confirms[d].sender != k.sender || s.confirms[d].day != k.day)
    ensures LimitInv(s.(confirms := s.confirms[c := k]))
  {
    hide DaySum;
  }

  /** A commit fits its row into the sender's day; nobody else's check for that day is behind it. */
  lemma CommitKeepsLimit(s: State, c: nat, id: string, reference: string)
    requires Inv(s) && LimitInv(s) && Enabled(s, ConfirmCommit(c, id, reference))
    ensures LimitInv(Do(s, ConfirmCommit(c, id, reference)))
  {
    hide Inv, DaySum, IntentUsed, HasKey, StillFits, NewRow, Pending;
    hide WorldEnabled, AttemptEnabled, ConfirmEnabled, DoWorld, DoAttempt, DoConfirm;
    var s' := Do(s, ConfirmCommit(c, id, reference));
    IntentIsSenders(s, c);
    if Pending(s.confirms[c], s.transfers) {
      CommitSums(s, c, id, reference);
    } else {
      NotPendingRefused(s, c, id, reference);
    }
    AnsweredFits(s'.confirms[c], s'.transfers, s.cfg.dailyLimit);
  }

  lemma NotPendingRefused(s: State, c: nat, id: string, reference: string)
    requires Enabled(s, ConfirmCommit(c, id, reference)) && !Pending(s.confirms[c], s.transfers)
    ensures Do(s, ConfirmCommit(c, id, reference)) == ConfirmTo(s, c, Over(Some(Refusal(UniqueViolation))))
  {
    hide IntentUsed, HasKey, NewRow;
  }

  lemma IntentIsSenders(s: State, c: nat)
    requires Inv(s) && c in s.confirms && s.confirms[c].phase.Summed?
    ensures s.confirms[c].phase.intent.sender == s.confirms[c].sender && s.confirms[c].token in s.intents
  {
    hide Safe, WalletsOk, RecordsOk, AttemptsOk, CompletedOk, ConfirmsOk, RowsOk, IntentsOk;
    ConfirmAt(s.confirms, s.intents, c);
  }

  lemma AnsweredFits(k: Confirm, ts: Rows, limit: int)
    requires k.phase.Over?
    ensures StillFits(k, ts, limit)
  {
  }

  /** Inserting a pending confirm's row adds its amount to its own day only. */
  lemma CommitAdds(ts: Rows, k: Confirm, id: string, reference: string, sender: string, day: int)
    requires k.phase.Summed? && k.phase.intent.sender == k.sender && id !in ts
    ensures DaySum(ts[id := NewRow(k, reference)], sender, day)
         == DaySum(ts, sender, day) + if (sender, day) == (k.sender, k.day) then Ahead(k) else 0
  {
    DaySumPut(ts, id, NewRow(k, reference), sender, day);
  }

  /** What is pending after an insert was pending before it. */
  lemma StillPending(k: Confirm, ts: Rows, id: string, row: Transfer)
    requires id !in ts && Pending(k, ts[id := row])
    ensures Pending(k, ts)
  {
    var ts' := ts[id := row];
    assert forall jd :: jd in ts ==> jd in ts' && ts'[jd] == ts[jd];
  }

  lemma CommitSums(s: State, c: nat, id: string, reference: string)
    requires LimitInv(s) && c in s.confirms && Pending(s.confirms[c], s.transfers) && id !in s.transfers
    requires s.confirms[c].phase.Summed? && s.confirms[c].phase.intent.sender == s.confirms[c].sender
    ensures
      var ts' := s.transfers[id := NewRow(s.confirms[c], reference)];
      && (forall sender, day :: DaySum(ts', sender, day) <= s.cfg.dailyLimit)
      && (forall d :: d in s.confirms && d != c ==> StillFits(s.confirms[d], ts', s.cfg.dailyLimit))
  {
    hide DaySum, Pending, NewRow;
    var k := s.confirms[c];
    var row := NewRow(k, reference);
    var ts' := s.transfers[id := row];
    assert StillFits(k, s.transfers, s.cfg.dailyLimit);
    forall sender, day
      ensures DaySum(ts', sender, day)
           == DaySum(s.transfers, sender, day) + if (sender, day) == (k.sender, k.day) then Ahead(k) else 0
    {
      CommitAdds(s.transfers, k, id, reference, sender, day);
    }
    forall d | d in s.confirms && d != c && Pending(s.confirms[d], ts')
      ensures StillFits(s.confirms[d], ts', s.cfg.dailyLimit)
    {
      StillPending(s.confirms[d], s.transfers, id, row);
      PendingHasLock(s.confirms[d], ts');
      PendingHasLock(k, s.transfers);
      assert StillFits(s.confirms[d], s.transfers, s.cfg.dailyLimit);
    }
  }

  lemma PendingHasLock(k: Confirm, ts: Rows)
    requires Pending(k, ts)
    ensures k.HasLock() && k.phase.Summed?
  {
  }

  lemma StepKeepsLimit(s: State, step: Step)
    requires Inv(s) && LimitInv(s) && Enabled(s, step) && !Resurrects(s, step)
    ensures LimitInv(Do(s, step))
  {
    hide Inv, LimitInv, Exec, Precheck, CheckPhase, PreflightPhase, ReservedSince, AnswerOf, PreviewOk, LockFree;
    hide IntentUsed, HasKey, Apply;
    if step.ConfirmCommit? {
      CommitKeepsLimit(s, step.c, step.id, step.reference);
    } else if TouchesRows(step) {
      RowStepKeepsLimit(s, step);
    } else if MovesConfirm(step) {
      ConfirmStepKeepsLimit(s, step);
    } else {
      SameLimit(s, Do(s, step));
    }
  }

  /** Every settle that turns FAILED into COMPLETED finds room. */
  ghost predicate RoomAlways(run: seq<State>, steps: seq<Step>)
    requires IsRun(run, steps)
  {
    forall i :: 0 <= i < |steps| && Resurrects(run[i], steps[i]) ==> RoomFor(run[i], steps[i].a)
  }

  lemma {:induction false} RunKeepsLimit(run: seq<State>, steps: seq<Step>, i: nat)
    requires IsRun(run, steps) && RoomAlways(run, steps) && i < |run|
    ensures LimitInv(run[i])
  {
    hide Inv, LimitInv, Do, Enabled, RoomFor;
    if i > 0 {
      RunKeepsLimit(run, steps, i - 1);
      RunKeepsInv(run, steps, i - 1);
      if Resurrects(run[i - 1], steps[i - 1]) {
        ResurrectionKeepsLimitIff(run[i - 1], steps[i - 1].a);
      } else {
        StepKeepsLimit(run[i - 1], steps[i - 1]);
      }
    } else {
      StartWithinLimit(run[0].cfg);
    }
  }

  lemma StartWithinLimit(cfg: Config)
    requires GoodConfig(cfg)
    ensures LimitInv(Start(cfg))
  {
    forall sender, day ensures DaySum(map[], sender, day) == 0 {}
  }

  /** The limit holds, and any one insert that can come next leaves it holding. */
  ghost predicate Secure(s: State) {
    && WithinLimit(s)
    && forall c, id, reference :: Enabled(s, ConfirmCommit(c, id, reference)) ==>
         WithinLimit(Do(s, ConfirmCommit(c, id, reference)))
  }

  /** For any number of concurrent confirms, settles and recoveries: with room for every resurrection the limit holds. */
  lemma LimitHolds(run: seq<State>, steps: seq<Step>, i: nat, sender: string, day: int)
    requires IsRun(run, steps) && RoomAlways(run, steps) && i < |run|
    ensures DaySum(run[i].transfers, sender, day) <= run[i].cfg.dailyLimit
  {
    hide RoomAlways;
    RunKeepsLimit(run, steps, i);
  }

  /**
   * And no less will do: a run keeps the limit in every state, and keeps it safe from the next insert, exactly when
   * every settle that turns FAILED into COMPLETED finds room.
   */
  lemma LimitHoldsIff(run: seq<State>, steps: seq<Step>)
    requires IsRun(run, steps)
    ensures RoomAlways(run, steps) <==> forall i :: 0 <= i < |run| ==> Secure(run[i])
  {
    hide Inv, Do, Enabled, RoomFor, LimitInv, Secure;
    if RoomAlways(run, steps) {
      forall i | 0 <= i < |run| ensures Secure(run[i]) {
        RunKeepsLimit(run, steps, i);
        RunKeepsInv(run, steps, i);
        InvIsSecure(run[i]);
      }
    }
    if forall i :: 0 <= i < |run| ==> Secure(run[i]) {
      forall i | 0 <= i < |steps| && Resurrects(run[i], steps[i]) ensures RoomFor(run[i], steps[i].a) {
        RunKeepsInv(run, steps, i);
        assert Secure(run[i + 1]);
        SecureHadRoom(run[i], steps[i].a);
      }
    }
  }

  lemma InvIsSecure(s: State)
    requires Inv(s) && LimitInv(s)
    ensures Secure(s)
  {
    hide Inv, Do, Enabled;
    forall c, id, reference | Enabled(s, ConfirmCommit(c, id, reference))
      ensures WithinLimit(Do(s, ConfirmCommit(c, id, reference)))
    {
      CommitKeepsLimit(s, c, id, reference);
    }
  }

  /** Without room, either the limit is broken at once or the pending confirm's insert breaks it. */
  lemma SecureHadRoom(s: State, a: nat)
    requires Inv(s) && Enabled(s, ClientReceive(a)) && Resurrects(s, ClientReceive(a)) && Secure(Do(s, ClientReceive(a)))
    ensures RoomFor(s, a)
  {
    hide DaySum, Do, Enabled, Pending, Inv;
    var row, s' := s.transfers[s.attempts[a].transfer], Do(s, ClientReceive(a));
    ReceivedRow(s, a);
    ResurrectionAdds(s, a, row.sender, row.day);
    forall c | c in s.confirms && Pending(s.confirms[c], s.transfers)
      && s.confirms[c].sender == row.sender && s.confirms[c].day == row.day
      ensures DaySum(s'.transfers, row.sender, row.day) + Ahead(s.confirms[c]) <= s.cfg.dailyLimit
    {
      PendingHasLock(s.confirms[c], s.transfers);
      IntentIsSenders(s, c);
      var id := FreshId(s'.transfers.Keys);
      PendingInserts(s', c, id, "");
      CommitAdds(s'.transfers, s'.confirms[c], id, "", row.sender, row.day);
      assert Enabled(s', ConfirmCommit(c, id, ""));
    }
  }

  lemma PendingInserts(s: State, c: nat, id: string, reference: string)
    requires c in s.confirms && Pending(s.confirms[c], s.transfers) && id !in s.transfers && s.confirms[c].token in s.intents
    ensures s.confirms[c].phase.Summed? && Enabled(s, ConfirmCommit(c, id, reference))
    ensures Do(s, ConfirmCommit(c, id, reference)).transfers == s.transfers[id := NewRow(s.confirms[c], reference)]
    ensures Do(s, ConfirmCommit(c, id, reference)).cfg == s.cfg
  {
    hide IntentUsed, HasKey, NewRow;
  }

  /** There is always an unused identifier: one longer than all in use. */
  lemma {:induction false} LongerThanAll(ids: set<string>) returns (n: nat)
    ensures forall id :: id in ids ==> |id| < n
    decreases |ids|
  {
    n := 0;
    if ids != {} {
      var id :| id in ids;
      var m := LongerThanAll(ids - {id});
      n := if |id| < m then m else |id| + 1;
    }
  }

  lemma FreshId(ids: set<string>) returns (id: string)
    ensures id !in ids
  {
    var n := LongerThanAll(ids);
    id := seq(n, _ => 'x');
  }

  // ---------- settles of one transfer that do not overlap ----------

  predicate Outstanding(s: State, id: string) {
    (id in s.transfers && s.transfers[id].owed > 0)
    || exists a :: a in s.attempts && s.attempts[a].waiting && s.attempts[a].transfer == id
  }

  /** Recovery claims a row, to retry it or to pass it to review, only when no settle of it is owed or awaits its answer. */
  ghost predicate NoOverlap(run: seq<State>, steps: seq<Step>)
    requires IsRun(run, steps)
  {
    forall i :: 0 <= i < |steps| && (steps[i].ClaimRetry? || steps[i].ClaimReview?) ==> !Outstanding(run[i], steps[i].id)
  }

  type Attempts = map<nat, Attempt>

  predicate WaitsFor(xs: Attempts, a: nat, id: string) {
    a in xs && xs[a].waiting && xs[a].transfer == id
  }

  /** One settle at a time, and only while the row is PROCESSING. */
  ghost predicate RowQueue(id: string, row: Transfer, xs: Attempts) {
    && row.owed <= 1 && (row.owed == 1 ==> row.status == Processing)
    && (forall a :: WaitsFor(xs, a, id) ==> row.status == Processing && row.owed == 0)
    && (forall a, b :: WaitsFor(xs, a, id) && WaitsFor(xs, b, id) ==> a == b)
  }

  ghost predicate Queued(ts: Rows, xs: Attempts) {
    && (forall id :: id in ts ==> RowQueue(id, ts[id], xs))
    && (forall a :: a in xs ==> xs[a].transfer in ts)
  }

  lemma OtherStepsKeepWaiting(s: State, step: Step)
    requires Enabled(s, step) && !TouchesRows(step)
    ensures Do(s, step).attempts.Keys == s.attempts.Keys
    ensures forall a :: a in s.attempts ==>
      Do(s, step).attempts[a].transfer == s.attempts[a].transfer && (Do(s, step).attempts[a].waiting ==> s.attempts[a].waiting)
  {
    hide Do, Enabled;
    if MovesConfirm(step) {
      ConfirmFrame(s, step);
    } else if MovesAttempt(step) {
      AttemptFrame(s, step);
    } else {
      WorldFrame(s, step);
    }
  }

  /** Fewer settles owed or waiting, the status unchanged. */
  lemma FewerKeepQueue(id: string, row: Transfer, row': Transfer, xs: Attempts, xs': Attempts)
    requires RowQueue(id, row, xs) && row'.owed <= row.owed && row'.status == row.status
    requires forall a :: WaitsFor(xs', a, id) ==> WaitsFor(xs, a, id)
    ensures RowQueue(id, row', xs')
  {
  }

  lemma SendKeepsQueue(id: string, row: Transfer, xs: Attempts, a: nat)
    requires RowQueue(id, row, xs) && row.owed > 0 && a !in xs
    ensures RowQueue(id, row.(owed := row.owed - 1, calls := row.calls + 1), xs[a := Attempt(id, true, Sent, false)])
  {
    var xs' := xs[a := Attempt(id, true, Sent, false)];
    forall b | WaitsFor(xs', b, id) ensures b == a {
      if b != a { assert WaitsFor(xs, b, id); }
    }
  }

  lemma ReceiveKeepsQueue(id: string, row: Transfer, row': Transfer, xs: Attempts, a: nat)
    requires RowQueue(id, row, xs) && WaitsFor(xs, a, id) && row'.owed == row.owed
    ensures RowQueue(id, row', xs[a := xs[a].(waiting := false)])
  {
    var xs' := xs[a := xs[a].(waiting := false)];
    forall b ensures !WaitsFor(xs', b, id) {
      if WaitsFor(xs', b, id) { assert WaitsFor(xs, b, id); }
    }
  }

  lemma StepKeepsQueued(s: State, step: Step)
    requires Queued(s.transfers, s.attempts) && Enabled(s, step)
    requires (step.ClaimRetry? || step.ClaimReview?) ==> !Outstanding(s, step.id)
    ensures Queued(Do(s, step).transfers, Do(s, step).attempts)
  {
    hide Do, Enabled, RowQueue;
    var s' := Do(s, step);
    if TouchesRows(step) {
      RowFrame(s, step);
      RowAttempts(s, step);
      forall id | id in s'.transfers ensures RowQueue(id, s'.transfers[id], s'.attempts) {
        RowStepKeepsQueue(s, step, id);
      }
    } else {
      OtherStepsKeepRows(s, step);
      OtherStepsKeepWaiting(s, step);
      forall id | id in s'.transfers ensures RowQueue(id, s'.transfers[id], s'.attempts) {
        FewerKeepQueue(id, s.transfers[id], s'.transfers[id], s.attempts, s'.attempts);
      }
    }
  }

  lemma RowStepKeepsQueue(s: State, step: Step, id: string)
    requires Queued(s.transfers, s.attempts) && Enabled(s, step) && TouchesRows(step)
    requires (step.ClaimRetry? || step.ClaimReview?) ==> !Outstanding(s, step.id)
    requires id in Do(s, step).transfers
    ensures RowQueue(id, Do(s, step).transfers[id], Do(s, step).attempts)
  {
    hide RowQueue, Do, Enabled;
    if id == RowOf(s, step) {
      OwnRowKeepsQueue(s, step);
    } else {
      OthersKept(s, step, id);
      FewerKeepQueue(id, s.transfers[id], s.transfers[id], s.attempts, Do(s, step).attempts);
    }
  }

  lemma OthersKept(s: State, step: Step, id: string)
    requires Enabled(s, step) && TouchesRows(step) && id in Do(s, step).transfers && id != RowOf(s, step)
    ensures id in s.transfers && Do(s, step).transfers[id] == s.transfers[id]
    ensures forall a :: WaitsFor(Do(s, step).attempts, a, id) ==> WaitsFor(s.attempts, a, id)
  {
    hide Do, Enabled;
    RowFrame(s, step);
    RowAttempts(s, step);
  }

  lemma OwnRowKeepsQueue(s: State, step: Step)
    requires Queued(s.transfers, s.attempts) && Enabled(s, step) && TouchesRows(step)
    requires (step.ClaimRetry? || step.ClaimReview?) ==> !Outstanding(s, step.id)
    requires RowOf(s, step) in Do(s, step).transfers
    ensures RowQueue(RowOf(s, step), Do(s, step).transfers[RowOf(s, step)], Do(s, step).attempts)
  {
    hide Do, Enabled, RowQueue;
    RowAttempts(s, step);
    if step.ConfirmCommit? {
      CommittedRow(s, step.c, step.id, step.reference);
      NewRowQueue(s, step.id, Do(s, step).transfers[step.id]);
    } else {
      OwnRow(s, step);
      var id := RowOf(s, step);
      var row, row' := s.transfers[id], Do(s, step).transfers[id];
      match step
      case SettleSend(a, _) => SendKeepsQueue(id, row, s.attempts, a);
      case SettleDropped(_) => FewerKeepQueue(id, row, row', s.attempts, s.attempts);
      case ClientReceive(a) => ReceiveKeepsQueue(id, row, row', s.attempts, a);
      case _ => ClaimKeepsQueue(s, id, row');
    }
  }

  lemma ClaimKeepsQueue(s: State, id: string, row: Transfer)
    requires id in s.transfers && !Outstanding(s, id)
    requires row.owed <= 1 && (row.owed == 1 ==> row.status == Processing)
    ensures RowQueue(id, row, s.attempts)
  {
    forall a ensures !WaitsFor(s.attempts, a, id) {}
  }

  lemma NewRowQueue(s: State, id: string, row: Transfer)
    requires Queued(s.transfers, s.attempts) && id !in s.transfers && row.owed == 1 && row.status == Processing
    ensures RowQueue(id, row, s.attempts)
  {
    forall a ensures !WaitsFor(s.attempts, a, id) {}
  }

  lemma {:induction false} RunKeepsQueued(run: seq<State>, steps: seq<Step>, i: nat)
    requires IsRun(run, steps) && NoOverlap(run, steps) && i < |run|
    ensures Queued(run[i].transfers, run[i].attempts)
  {
    if i > 0 {
      RunKeepsQueued(run, steps, i - 1);
      StepKeepsQueued(run[i - 1], steps[i - 1]);
    }
  }

  /** When no claim is made while a settle is outstanding, COMPLETED, FAILED and REQUIRES_REVIEW are final. */
  lemma TerminalIsFinal(run: seq<State>, steps: seq<Step>, i: nat, id: string)
    requires IsRun(run, steps) && NoOverlap(run, steps) && i < |steps|
    requires id in run[i].transfers && run[i].transfers[id].status != Processing
    ensures id in run[i + 1].transfers && run[i + 1].transfers[id] == run[i].transfers[id]
  {
    RunKeepsQueued(run, steps, i);
    var s, step := run[i], steps[i];
    assert RowQueue(id, s.transfers[id], s.attempts);
    if TouchesRows(step) {
      TerminalRowUntouched(s, step, id);
    } else {
      OtherStepsKeepRows(s, step);
    }
  }

  lemma TerminalRowUntouched(s: State, step: Step, id: string)
    requires Enabled(s, step) && TouchesRows(step) && id in s.transfers
    requires s.transfers[id].status != Processing && RowQueue(id, s.transfers[id], s.attempts)
    ensures id in Do(s, step).transfers && Do(s, step).transfers[id] == s.transfers[id]
  {
    hide Do, Enabled;
    RowFrame(s, step);
    RowAttempts(s, step);
    if step.ConfirmCommit? { CommittedRow(s, step.c, step.id, step.reference); } else { OwnRow(s, step); }
    if step.ClientReceive? { assert WaitsFor(s.attempts, step.a, s.attempts[step.a].transfer); }
  }

  /** So claims that wait for outstanding settles keep every sender within the limit on every day. */
  lemma NoOverlapKeepsLimit(run: seq<State>, steps: seq<Step>, i: nat, sender: string, day: int)
    requires IsRun(run, steps) && NoOverlap(run, steps) && i < |run|
    ensures DaySum(run[i].transfers, sender, day) <= run[i].cfg.dailyLimit
  {
    forall j | 0 <= j < |steps| ensures !Resurrects(run[j], steps[j]) {
      RunKeepsQueued(run, steps, j);
      NoWaitingOnFailed(run[j], steps[j]);
    }
    hide RoomAlways;
    assert RoomAlways(run, steps) by { NoneNeedsRoom(run, steps); }
    LimitHolds(run, steps, i, sender, day);
  }

  lemma NoneNeedsRoom(run: seq<State>, steps: seq<Step>)
    requires IsRun(run, steps) && forall j :: 0 <= j < |steps| ==> !Resurrects(run[j], steps[j])
    ensures RoomAlways(run, steps)
  {
  }

  lemma NoWaitingOnFailed(s: State, step: Step)
    requires Queued(s.transfers, s.attempts) && Enabled(s, step)
    ensures !Resurrects(s, step)
  {
    if step.ClientReceive? {
      var id := s.attempts[step.a].transfer;
      assert WaitsFor(s.attempts, step.a, id);
      assert RowQueue(id, s.transfers[id], s.attempts);
    }
  }
}
