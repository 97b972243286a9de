/** What later steps can do to a row's outcome: when a final status stays, and when FAILED means that nothing was posted. */
module Outcomes {
  import opened Wrappers
  import opened Postings
  import opened Ledger
  import opened LedgerSafety
  import opened Payments
  import opened Frames
  import opened ExactlyOnce
  import opened ExactlyOnceRuns
  import opened Settlement

  // ---------- final statuses ----------

  /** The client writes an answer over the row that says something else than its status. */
  predicate Overwrites(s: State, step: Step, id: string) {
    && step.ClientReceive? && step.a in s.attempts && s.attempts[step.a].transfer == id && id in s.transfers
    && s.attempts[step.a].server.Replied?
    && match s.attempts[step.a].server.answer
       case Success(_) => s.transfers[id].status != Status.Completed
       case Failure(status, _) => status < 500 && s.transfers[id].status != Failed
  }

  /** The status of a row that is not PROCESSING changes in exactly the steps that write a different answer over it. */
  lemma StatusChangesIff(s: State, step: Step, id: string)
    requires Enabled(s, step) && id in s.transfers && s.transfers[id].status != Processing
    ensures id in Do(s, step).transfers
    ensures Do(s, step).transfers[id].status != s.transfers[id].status <==> Overwrites(s, step, id)
    ensures Do(s, step).transfers[id].status != Processing
  {
    hide Do, Enabled;
    if !TouchesRows(step) {
      OtherStepsKeepRows(s, step);
    } else {
      RowFrame(s, step);
      if step.ConfirmCommit? { CommittedRow(s, step.c, step.id, step.reference); } else { OwnRow(s, step); }
    }
  }

  /** From state i to the end of the run the row keeps the status it has in state i. */
  ghost predicate StaysFrom(run: seq<State>, i: nat, id: string)
    requires i < |run| && id in run[i].transfers
  {
    forall j :: i <= j < |run| ==> id in run[j].transfers && run[j].transfers[id].status == run[i].transfers[id].status
  }

  ghost predicate NeverOverwritten(run: seq<State>, steps: seq<Step>, i: nat, id: string)
    requires IsRun(run, steps)
  {
    forall j :: i <= j < |steps| ==> !Overwrites(run[j], steps[j], id)
  }

  /** COMPLETED, FAILED and REQUIRES_REVIEW stay to the end of a run exactly when no later answer overwrites them. */
  lemma FinalIff(run: seq<State>, steps: seq<Step>, i: nat, id: string)
    requires IsRun(run, steps) && i < |run| && id in run[i].transfers && run[i].transfers[id].status != Processing
    ensures StaysFrom(run, i, id) <==> NeverOverwritten(run, steps, i, id)
  {
    hide Do, Enabled, Overwrites;
    if NeverOverwritten(run, steps, i, id) {
      forall j | i <= j < |run| ensures id in run[j].transfers && run[j].transfers[id].status == run[i].transfers[id].status {
        StatusHeld(run, steps, i, j, id);
      }
    }
    if StaysFrom(run, i, id) {
      forall j | i <= j < |steps| ensures !Overwrites(run[j], steps[j], id) {
        StatusChangesIff(run[j], steps[j], id);
        assert run[j + 1].transfers[id].status == run[i].transfers[id].status;
      }
    }
  }

  lemma {:induction false} StatusHeld(run: seq<State>, steps: seq<Step>, i: nat, j: nat, id: string)
    requires IsRun(run, steps) && i <= j < |run| && id in run[i].transfers && run[i].transfers[id].status != Processing
    requires NeverOverwritten(run, steps, i, id)
    ensures id in run[j].transfers && run[j].transfers[id].status == run[i].transfers[id].status
  {
    hide Do, Enabled, Overwrites;
    if i < j {
      StatusHeld(run, steps, i, j - 1, id);
      StatusChangesIff(run[j - 1], steps[j - 1], id);
    }
  }

  // ---------- FAILED, and yet paid ----------

  ghost predicate HasJournal(s: State, id: string) {
    exists i :: 0 <= i < |s.ledger.journals| && s.ledger.journals[i].key == TransferKey(id)
  }

  ghost predicate FailedButPaid(s: State, id: string) {
    id in s.transfers && s.transfers[id].status == Failed && HasJournal(s, id)
  }

  /** The client writes a refusal: FAILED. */
  predicate RecordsRefusal(s: State, step: Step, id: string) {
    && step.ClientReceive? && step.a in s.attempts && s.attempts[step.a].transfer == id && id in s.transfers
    && s.attempts[step.a].server.Replied? && s.attempts[step.a].server.answer.Failure?
    && s.attempts[step.a].server.answer.status < 500
  }

  /** The Ledger accepts the transfer's call for the first time. */
  predicate FirstPost(s: State, step: Step, id: string) {
    && step.LedgerPost? && step.a in s.attempts && s.attempts[step.a].transfer == id && s.attempts[step.a].server.Prechecked?
    && TransferKey(id) !in s.ledger.records && Exec(s.ledger, s.attempts[step.a].server.call).1.Posted?
  }

  lemma JournalIffRecord(s: State, id: string)
    requires Inv(s)
    ensures HasJournal(s, id) <==> TransferKey(id) in s.ledger.records
  {
    hide WalletsOk, IntentsOk, RowsOk, RecordsOk, AttemptsOk, CompletedOk, ConfirmsOk;
  }

  /** Only the transfer's own first accepted call brings a record under its key. */
  lemma RecordAppearsIff(s: State, step: Step, id: string)
    requires Inv(s) && Enabled(s, step)
    ensures TransferKey(id) in Do(s, step).ledger.records <==>
      TransferKey(id) in s.ledger.records || FirstPost(s, step, id)
  {
    hide Do, Enabled, Exec, Inv;
    if MovesConfirm(step) {
      ConfirmFrame(s, step);
    } else if TouchesRows(step) {
      RowFrame(s, step);
    } else if MovesAttempt(step) {
      AttemptFrame(s, step);
      if step.LedgerPost? { PostRecordsIff(s, step.a, step.clashStatus, id); }
    } else {
      WorldFrame(s, step);
      if step.ForeignCall? { ForeignKeepsRecord(s, step.call, id); }
    }
  }

  lemma PostRecordsIff(s: State, a: nat, clashStatus: nat, id: string)
    requires Inv(s) && Enabled(s, LedgerPost(a, clashStatus))
    ensures TransferKey(id) in Do(s, LedgerPost(a, clashStatus)).ledger.records <==>
      TransferKey(id) in s.ledger.records || FirstPost(s, LedgerPost(a, clashStatus), id)
  {
    hide Inv, Balanced, DistinctIds, Exec;
    PendingCallBalanced(s, a);
    var call := s.attempts[a].server.call;
    ExecGrows(s.ledger, call);
    TransferKeyInjective(id, s.attempts[a].transfer);
    PostedIffRecorded(s.ledger, call);
  }

  lemma PostedIffRecorded(db: Db, call: Call)
    ensures call.key !in db.records ==> (call.key in Exec(db, call).0.records <==> Exec(db, call).1.Posted?)
  {
  }

  lemma ForeignKeepsRecord(s: State, call: Call, id: string)
    requires Enabled(s, ForeignCall(call))
    ensures TransferKey(id) in Do(s, ForeignCall(call)).ledger.records <==> TransferKey(id) in s.ledger.records
  {
    hide Exec;
    ExecGrows(s.ledger, call);
    assert "transfer:" <= TransferKey(id);
  }

  /** A row becomes FAILED exactly when a refusal is written to it. */
  lemma BecomesFailedIff(s: State, step: Step, id: string)
    requires Enabled(s, step)
    ensures id in s.transfers ==> id in Do(s, step).transfers
    ensures id in Do(s, step).transfers && Do(s, step).transfers[id].status == Failed ==>
      id in s.transfers && (s.transfers[id].status == Failed || RecordsRefusal(s, step, id))
    ensures RecordsRefusal(s, step, id) ==> Do(s, step).transfers[id].status == Failed
    ensures id in s.transfers && s.transfers[id].status == Failed && !step.ClientReceive? ==>
      Do(s, step).transfers[id].status == Failed
  {
    hide Do, Enabled;
    if !TouchesRows(step) {
      OtherStepsKeepRows(s, step);
    } else {
      RowFrame(s, step);
      if step.ConfirmCommit? { CommittedRow(s, step.c, step.id, step.reference); } else { OwnRow(s, step); }
    }
  }

  /** The two ways in which FAILED and a journal come together. */
  ghost predicate PaysFailed(s: State, step: Step, id: string) {
    || (RecordsRefusal(s, step, id) && HasJournal(s, id))
    || (FirstPost(s, step, id) && id in s.transfers && s.transfers[id].status == Failed)
  }

  /**
   * A step makes a row FAILED though its journal exists exactly when it writes a refusal while the journal is there,
   * or posts the journal while the row is already FAILED.
   */
  lemma FailedButPaidIff(s: State, step: Step, id: string)
    requires Inv(s) && Enabled(s, step) && !FailedButPaid(s, id)
    ensures FailedButPaid(Do(s, step), id) <==> PaysFailed(s, step, id)
  {
    hide Do, Enabled, Inv, HasJournal, Exec;
    StepKeepsInv(s, step);
    JournalIffRecord(s, id);
    JournalIffRecord(Do(s, step), id);
    RecordAppearsIff(s, step, id);
    BecomesFailedIff(s, step, id);
  }

  /** Over a whole run: FAILED means that no journal exists, in every state, exactly when no step is of those two kinds. */
  lemma FailedMeansUnpaidIff(run: seq<State>, steps: seq<Step>, id: string)
    requires IsRun(run, steps)
    ensures (forall j :: 0 <= j < |run| ==> !FailedButPaid(run[j], id))
      <==> forall j :: 0 <= j < |steps| ==> !PaysFailed(run[j], steps[j], id)
  {
    hide Do, Enabled, Inv, FailedButPaid, PaysFailed;
    if forall j :: 0 <= j < |run| ==> !FailedButPaid(run[j], id) {
      forall j | 0 <= j < |steps| ensures !PaysFailed(run[j], steps[j], id) {
        RunKeepsInv(run, steps, j);
        assert !FailedButPaid(run[j + 1], id);
        FailedButPaidIff(run[j], steps[j], id);
      }
    }
    if forall j :: 0 <= j < |steps| ==> !PaysFailed(run[j], steps[j], id) {
      forall j | 0 <= j < |run| ensures !FailedButPaid(run[j], id) {
        StaysUnpaid(run, steps, j, id);
      }
    }
  }

  lemma {:induction false} StaysUnpaid(run: seq<State>, steps: seq<Step>, i: nat, id: string)
    requires IsRun(run, steps) && i < |run|
    requires forall j :: 0 <= j < |steps| ==> !PaysFailed(run[j], steps[j], id)
    ensures !FailedButPaid(run[i], id)
  {
    hide Do, Enabled, Inv, PaysFailed;
    if i > 0 {
      StaysUnpaid(run, steps, i - 1, id);
      RunKeepsInv(run, steps, i - 1);
      FailedButPaidIff(run[i - 1], steps[i - 1], id);
    }
  }

  // ---------- a guard at the moment FAILED is written ----------

  /** Nothing can post the transfer any more, and nothing has: no record, no settle owed, no call still at the Ledger. */
  ghost predicate Quiet(s: State, id: string) {
    && id in s.transfers && s.transfers[id].owed == 0 && TransferKey(id) !in s.ledger.records
    && forall a :: a in s.attempts && s.attempts[a].transfer == id ==> s.attempts[a].server.Replied?
  }

  ghost predicate Guarded(run: seq<State>, steps: seq<Step>, id: string)
    requires IsRun(run, steps)
  {
    forall j :: 0 <= j < |steps| && RecordsRefusal(run[j], steps[j], id) ==> Quiet(run[j], id)
  }

  /** Quiet stays, for as long as the row is not PROCESSING. */
  lemma QuietStays(s: State, step: Step, id: string)
    requires Inv(s) && Enabled(s, step) && Quiet(s, id)
    requires s.transfers[id].status != Processing || RecordsRefusal(s, step, id)
    ensures Quiet(Do(s, step), id)
  {
    hide Do, Enabled, Inv, Exec;
    var s' := Do(s, step);
    RecordAppearsIff(s, step, id);
    if MovesConfirm(step) {
      ConfirmFrame(s, step);
    } else if TouchesRows(step) {
      RowFrame(s, step);
      RowAttempts(s, step);
      if step.ConfirmCommit? { CommittedRow(s, step.c, step.id, step.reference); } else { OwnRow(s, step); }
    } else if MovesAttempt(step) {
      AttemptFrame(s, step);
    } else {
      WorldFrame(s, step);
    }
  }

  lemma {:induction false} GuardedIsQuiet(run: seq<State>, steps: seq<Step>, i: nat, id: string)
    requires IsRun(run, steps) && Guarded(run, steps, id) && i < |run|
    ensures id in run[i].transfers && run[i].transfers[id].status == Failed ==> Quiet(run[i], id)
  {
    hide Do, Enabled, Inv, Quiet, RecordsRefusal;
    if i > 0 && id in run[i].transfers && run[i].transfers[id].status == Failed {
      GuardedIsQuiet(run, steps, i - 1, id);
      RunKeepsInv(run, steps, i - 1);
      BecomesFailedIff(run[i - 1], steps[i - 1], id);
      assert RecordsRefusal(run[i - 1], steps[i - 1], id) ==> Quiet(run[i - 1], id);
      QuietStays(run[i - 1], steps[i - 1], id);
    }
  }

  /**
   * If FAILED is only ever written when the transfer is quiet at the Ledger - no record under its key, no settle of it
   * owed, none of its calls sent or prechecked and still unanswered - then FAILED means that no journal exists.
   */
  lemma GuardedFailedIsUnpaid(run: seq<State>, steps: seq<Step>, i: nat, id: string)
    requires IsRun(run, steps) && Guarded(run, steps, id) && i < |run|
    ensures !FailedButPaid(run[i], id)
  {
    hide Do, Enabled, Inv, HasJournal, Guarded;
    GuardedIsQuiet(run, steps, i, id);
    RunKeepsInv(run, steps, i);
    JournalIffRecord(run[i], id);
  }

  // ---------- the guard is exact ----------

  /** A continuation: steps that lead from one state to another. */
  ghost predicate Leads(s: State, steps: seq<Step>, s': State)
    decreases |steps|
  {
    if |steps| == 0 then s' == s else Enabled(s, steps[0]) && Leads(Do(s, steps[0]), steps[1..], s')
  }

  /** The transfer's wallets still resolve and the Ledger would accept its call now. */
  ghost predicate CanPay(s: State, id: string)
    requires id in s.transfers
  {
    && Precheck(s, id, s.transfers[id], "").Ok?
    && Exec(s.ledger, Precheck(s, id, s.transfers[id], "").value).1.Posted?
  }

  lemma {:induction false} QuietForever(s: State, steps: seq<Step>, s': State, id: string)
    requires Inv(s) && Leads(s, steps, s') && Quiet(s, id) && s.transfers[id].status != Processing
    ensures Inv(s') && Quiet(s', id)
    decreases |steps|
  {
    hide Do, Enabled, Inv, Quiet;
    if |steps| > 0 {
      assert id in s.transfers by { QuietRow(s, id); }
      StepKeepsInv(s, steps[0]);
      StatusChangesIff(s, steps[0], id);
      QuietStays(s, steps[0], id);
      QuietForever(Do(s, steps[0]), steps[1..], s', id);
    }
  }

  lemma QuietRow(s: State, id: string)
    requires Quiet(s, id)
    ensures id in s.transfers && TransferKey(id) !in s.ledger.records
  {
  }

  /** The drawn journal identifier does not decide whether a call is accepted. */
  lemma DrawnIdIsFree(db: Db, call: Call, newId: string)
    requires call.reference.Some?
    ensures Exec(db, call.(newId := newId)).1.Posted? <==> Exec(db, call).1.Posted?
  {
    var other := call.(newId := newId);
    assert other.Hash() == call.Hash() && other.Accounts() == call.Accounts() && other.ReferenceUsed() == call.ReferenceUsed();
    var locked := Locked(db.accounts, call.Accounts());
    assert Verdict(locked, other) == Verdict(locked, call);
  }

  /** A prechecked call of a FAILED row that the Ledger accepts pays the FAILED row. */
  lemma PayPrechecked(s: State, a: nat, id: string)
    requires Inv(s) && id in s.transfers && s.transfers[id].status == Failed && !HasJournal(s, id) && CanPay(s, id)
    requires a in s.attempts && s.attempts[a].transfer == id && s.attempts[a].server.Prechecked?
    ensures Enabled(s, LedgerPost(a, 409)) && FailedButPaid(Do(s, LedgerPost(a, 409)), id)
  {
    hide Inv, Exec, Precheck, CanPay, HasJournal, Do, Enabled, FirstPost;
    JournalIffRecord(s, id);
    AttemptCallIs(s, a, id);
    PostsFirst(s, a, id);
    FailedButPaidIff(s, LedgerPost(a, 409), id);
  }

  lemma PostsFirst(s: State, a: nat, id: string)
    requires a in s.attempts && s.attempts[a].transfer == id && s.attempts[a].server.Prechecked?
    requires TransferKey(id) !in s.ledger.records && Exec(s.ledger, s.attempts[a].server.call).1.Posted?
    ensures Enabled(s, LedgerPost(a, 409)) && FirstPost(s, LedgerPost(a, 409), id)
  {
    hide Exec;
  }

  lemma AttemptCallIs(s: State, a: nat, id: string)
    requires Inv(s) && id in s.transfers && CanPay(s, id)
    requires a in s.attempts && s.attempts[a].transfer == id && s.attempts[a].server.Prechecked?
    ensures Exec(s.ledger, s.attempts[a].server.call).1.Posted?
  {
    hide Safe, WalletsOk, IntentsOk, RowsOk, RecordsOk, AttemptsOk, CompletedOk, ConfirmsOk, Exec, Precheck;
    PendingCallBalanced(s, a);
    RowAt(s.transfers, s.intents, s.wallets, id);
    ResolveIsStable(s, id, "");
    hide RowOfIntent, PartiesOk, Balanced, DistinctIds;
    var call := Precheck(s, id, s.transfers[id], "").value;
    PrecheckDraws(s, id, "");
    assert s.attempts[a].server.call == call.(newId := s.attempts[a].server.call.newId);
    DrawnIdIsFree(s.ledger, call, s.attempts[a].server.call.newId);
  }

  lemma PrecheckDraws(s: State, id: string, newId: string)
    requires id in s.transfers && Precheck(s, id, s.transfers[id], newId).Ok?
    ensures Precheck(s, id, s.transfers[id], newId).value.reference.Some?
    ensures Precheck(s, id, s.transfers[id], newId).value.newId == newId
  {
  }

  /** A sent call of a FAILED row that can pay is prechecked and posted. */
  lemma PaySent(s: State, a: nat, id: string)
    requires Inv(s) && id in s.transfers && s.transfers[id].status == Failed && !HasJournal(s, id) && CanPay(s, id)
    requires a in s.attempts && s.attempts[a].transfer == id && s.attempts[a].server.Sent?
    ensures Enabled(s, LedgerResolve(a, ""))
    ensures
      var s1 := Do(s, LedgerResolve(a, ""));
      Enabled(s1, LedgerPost(a, 409)) && FailedButPaid(Do(s1, LedgerPost(a, 409)), id)
  {
    SentCanResolve(s, a);
    hide Do, Enabled, Inv, Exec, Precheck;
    StepKeepsInv(s, LedgerResolve(a, ""));
    ResolveStep(s, a, "");
    var s1 := Do(s, LedgerResolve(a, ""));
    SameTables(s, s1, id);
    PayPrechecked(s1, a, id);
  }

  lemma SentCanResolve(s: State, a: nat)
    requires a in s.attempts && s.attempts[a].server.Sent? && s.attempts[a].transfer in s.transfers
    ensures Enabled(s, LedgerResolve(a, ""))
  {
  }

  /** Whether a transfer can be paid depends on the wallets, the ledger and the fixed part of its row. */
  lemma SameTables(s: State, t: State, id: string)
    requires id in s.transfers && id in t.transfers && Core(s.transfers[id]) == Core(t.transfers[id])
    requires s.wallets == t.wallets && s.byReference == t.byReference && s.ledger == t.ledger
    ensures CanPay(s, id) <==> CanPay(t, id)
    ensures HasJournal(s, id) <==> HasJournal(t, id)
  {
    SameCore(s.transfers[id], t.transfers[id]);
    hide Exec;
    assert Precheck(s, id, s.transfers[id], "") == Precheck(t, id, t.transfers[id], "");
  }

  lemma {:induction false} AboveAll(ns: set<nat>) returns (n: nat)
    ensures forall m :: m in ns ==> m < n
    decreases |ns|
  {
    n := 0;
    if ns != {} {
      var m :| m in ns;
      var k := AboveAll(ns - {m});
      n := if m < k then k else m + 1;
      assert forall x :: x in ns ==> x == m || x in ns - {m};
    }
  }

  /** A settle owed for a FAILED row can still be sent. */
  lemma SendsOwed(s: State, a: nat, id: string)
    requires a !in s.attempts && id in s.transfers && s.transfers[id].owed > 0
    ensures Enabled(s, SettleSend(a, id))
    ensures
      var row := s.transfers[id];
      Do(s, SettleSend(a, id)) == s.(
        transfers := s.transfers[id := row.(owed := row.owed - 1, calls := row.calls + 1)],
        attempts := s.attempts[a := Attempt(id, true, Sent, false)])
  {
  }

  /** Where the guard fails and the transfer could be paid, a continuation of at most three steps pays the FAILED row. */
  lemma UnguardedIsPaid(s: State, id: string) returns (steps: seq<Step>, s': State)
    requires Inv(s) && id in s.transfers && s.transfers[id].status == Failed && CanPay(s, id) && !Quiet(s, id)
    ensures Leads(s, steps, s') && FailedButPaid(s', id)
  {
    hide Do, Enabled, Inv, CanPay, HasJournal;
    JournalIffRecord(s, id);
    if HasJournal(s, id) {
      steps, s' := [], s;
    } else if s.transfers[id].owed > 0 {
      var a := AboveAll(s.attempts.Keys);
      SendsOwed(s, a, id);
      var s1 := Do(s, SettleSend(a, id));
      StepKeepsInv(s, SettleSend(a, id));
      SameTables(s, s1, id);
      PaySent(s1, a, id);
      var s2 := Do(s1, LedgerResolve(a, ""));
      steps, s' := [SettleSend(a, id), LedgerResolve(a, ""), LedgerPost(a, 409)], Do(s2, LedgerPost(a, 409));
      LeadsBy(s2, LedgerPost(a, 409), [], s');
      LeadsBy(s1, LedgerResolve(a, ""), [LedgerPost(a, 409)], s');
      LeadsBy(s, SettleSend(a, id), [LedgerResolve(a, ""), LedgerPost(a, 409)], s');
    } else {
      var a :| a in s.attempts && s.attempts[a].transfer == id && !s.attempts[a].server.Replied?;
      if s.attempts[a].server.Prechecked? {
        PayPrechecked(s, a, id);
        steps, s' := [LedgerPost(a, 409)], Do(s, LedgerPost(a, 409));
        LeadsBy(s, LedgerPost(a, 409), [], s');
      } else {
        PaySent(s, a, id);
        var s1 := Do(s, LedgerResolve(a, ""));
        steps, s' := [LedgerResolve(a, ""), LedgerPost(a, 409)], Do(s1, LedgerPost(a, 409));
        LeadsBy(s1, LedgerPost(a, 409), [], s');
        LeadsBy(s, LedgerResolve(a, ""), [LedgerPost(a, 409)], s');
      }
    }
  }

  lemma LeadsBy(s: State, step: Step, steps: seq<Step>, s': State)
    requires Enabled(s, step) && Leads(Do(s, step), steps, s')
    ensures Leads(s, [step] + steps, s')
  {
    assert ([step] + steps)[1..] == steps;
  }

  /**
   * For a FAILED row that could be paid, in any reachable state: no continuation whatever ends with it FAILED and paid
   * exactly when the guard holds.
   */
  lemma QuietIffNeverPaid(s: State, id: string)
    requires Reachable(s) && id in s.transfers && s.transfers[id].status == Failed && CanPay(s, id)
    ensures Quiet(s, id) <==> forall steps, s' :: Leads(s, steps, s') ==> !FailedButPaid(s', id)
  {
    hide Inv, CanPay, Leads, HasJournal;
    ReachableInv(s);
    if Quiet(s, id) {
      forall steps, s' | Leads(s, steps, s') ensures !FailedButPaid(s', id) {
        QuietForever(s, steps, s', id);
        JournalIffRecord(s', id);
      }
    } else {
      var steps, s' := UnguardedIsPaid(s, id);
    }
  }
}
