/** What each group of protocol steps leaves alone. */
module Frames {
  import opened Wrappers
  import opened Ledger
  import opened Payments

  /** Steps of the world touch no row, no confirm and no settle; only foreign calls post. */
  lemma WorldFrame(s: State, step: Step)
    requires Enabled(s, step) && MovesWorld(step)
    ensures Do(s, step).cfg == s.cfg && Do(s, step).transfers == s.transfers
    ensures Do(s, step).confirms == s.confirms && Do(s, step).attempts == s.attempts
    ensures !step.ForeignCall? ==>
      Do(s, step).ledger.records == s.ledger.records && Do(s, step).ledger.journals == s.ledger.journals
  {
    hide ConfirmEnabled, RowEnabled, AttemptEnabled, DoConfirm, DoRow, DoAttempt, PreviewOk, Exec;
  }

  /** Steps of a confirm change that confirm only. */
  lemma ConfirmFrame(s: State, step: Step)
    requires Enabled(s, step) && MovesConfirm(step)
    ensures Do(s, step) == s.(confirms := Do(s, step).confirms)
  {
    hide WorldEnabled, RowEnabled, AttemptEnabled, DoWorld, DoRow, DoAttempt, LockFree, CheckPhase, PreflightPhase, ReservedSince;
  }

  /** Steps of a Ledger call change that settle and the ledger only. */
  lemma AttemptFrame(s: State, step: Step)
    requires Enabled(s, step) && MovesAttempt(step)
    ensures step.a in s.attempts && step.a in Do(s, step).attempts
    ensures Do(s, step) == s.(attempts := s.attempts[step.a := Do(s, step).attempts[step.a]], ledger := Do(s, step).ledger)
    ensures Do(s, step).attempts[step.a].transfer == s.attempts[step.a].transfer
    ensures Do(s, step).attempts[step.a].waiting ==> s.attempts[step.a].waiting
    ensures s.attempts[step.a].server.Replied? ==> Do(s, step).attempts[step.a].server.Replied?
    ensures !step.LedgerPost? ==>
      Do(s, step).ledger == s.ledger && Do(s, step).attempts[step.a].posted == s.attempts[step.a].posted
  {
    hide WorldEnabled, RowEnabled, ConfirmEnabled, DoWorld, DoRow, DoConfirm, Precheck, Exec, AnswerOf;
  }

  /** The row a step writes. */
  function RowOf(s: State, step: Step): string
    requires TouchesRows(step)
  {
    if !step.ClientReceive? then step.id else if step.a in s.attempts then s.attempts[step.a].transfer else ""
  }

  /** Steps that write rows write one row, and leave wallets and ledger alone. */
  lemma RowFrame(s: State, step: Step)
    requires Enabled(s, step) && TouchesRows(step)
    ensures Do(s, step).cfg == s.cfg && Do(s, step).wallets == s.wallets && Do(s, step).ledger == s.ledger
    ensures !step.ConfirmCommit? ==> RowOf(s, step) in s.transfers && Do(s, step).confirms == s.confirms
    ensures Do(s, step).transfers == s.transfers
      || (RowOf(s, step) in Do(s, step).transfers
          && Do(s, step).transfers == s.transfers[RowOf(s, step) := Do(s, step).transfers[RowOf(s, step)]])
  {
    hide Do, Enabled;
    if step.ConfirmCommit? { CommitFrame(s, step); } else { SettleFrame(s, step); }
  }

  lemma SettleFrame(s: State, step: Step)
    requires Enabled(s, step) && TouchesRows(step) && !step.ConfirmCommit?
    ensures Do(s, step) == s.(transfers := Do(s, step).transfers, attempts := Do(s, step).attempts)
    ensures RowOf(s, step) in s.transfers && RowOf(s, step) in Do(s, step).transfers
    ensures Do(s, step).transfers == s.transfers[RowOf(s, step) := Do(s, step).transfers[RowOf(s, step)]]
  {
    hide WorldEnabled, AttemptEnabled, ConfirmEnabled, DoWorld, DoAttempt, DoConfirm, SettledRow;
  }

  lemma CommitFrame(s: State, step: Step)
    requires Enabled(s, step) && step.ConfirmCommit?
    ensures Do(s, step) ==
      s.(transfers := Do(s, step).transfers, intents := Do(s, step).intents, confirms := Do(s, step).confirms)
    ensures Do(s, step).transfers == s.transfers || step.id in Do(s, step).transfers
    ensures Do(s, step).transfers == s.transfers
      || Do(s, step).transfers == s.transfers[step.id := Do(s, step).transfers[step.id]]
  {
    hide WorldEnabled, AttemptEnabled, ConfirmEnabled, DoWorld, DoAttempt, DoConfirm, IntentUsed, HasKey, NewRow;
  }

  /** Of the settles, a send begins one, a received answer ends one, and nothing else changes any. */
  lemma RowAttempts(s: State, step: Step)
    requires Enabled(s, step) && TouchesRows(step)
    ensures step.SettleSend? ==> step.a !in s.attempts && step.id in s.transfers
    ensures step.SettleSend? ==> Do(s, step).attempts == s.attempts[step.a := Attempt(step.id, true, Sent, false)]
    ensures step.ClientReceive? ==> step.a in s.attempts && s.attempts[step.a].waiting && s.attempts[step.a].server.Replied?
    ensures step.ClientReceive? ==> Do(s, step).attempts == s.attempts[step.a := s.attempts[step.a].(waiting := false)]
    ensures !step.SettleSend? && !step.ClientReceive? ==> Do(s, step).attempts == s.attempts
  {
    hide WorldEnabled, AttemptEnabled, ConfirmEnabled, DoWorld, DoAttempt, DoConfirm, IntentUsed, HasKey, NewRow, SettledRow;
  }

  /** The row a step leaves behind. */
  lemma OwnRow(s: State, step: Step)
    requires Enabled(s, step) && TouchesRows(step) && !step.ConfirmCommit?
    ensures RowOf(s, step) in s.transfers && RowOf(s, step) in Do(s, step).transfers
    ensures
      var row, row' := s.transfers[RowOf(s, step)], Do(s, step).transfers[RowOf(s, step)];
      && (step.SettleSend? ==> row.owed > 0 && row' == row.(owed := row.owed - 1, calls := row.calls + 1))
      && (step.SettleDropped? ==> row.owed > 0 && row' == row.(owed := row.owed - 1))
      && (step.ClientReceive? ==>
          step.a in s.attempts && s.attempts[step.a].server.Replied? && row' == SettledRow(row, s.attempts[step.a].server.answer))
      && (step.ClaimRetry? ==> row.status == Processing && row.attempts + 1 < s.cfg.maxAttempts)
      && (step.ClaimRetry? ==> row' == row.(attempts := row.attempts + 1, owed := row.owed + 1))
      && (step.ClaimReview? ==> row.status == Processing && row.attempts + 1 >= s.cfg.maxAttempts)
      && (step.ClaimReview? ==> row' == row.(status := RequiresReview, attempts := row.attempts + 1))
  {
    hide WorldEnabled, AttemptEnabled, ConfirmEnabled, DoWorld, DoAttempt, DoConfirm, SettledRow;
  }

  /** A commit inserts the confirmed row, or nothing. */
  lemma CommittedRow(s: State, c: nat, id: string, reference: string)
    requires Enabled(s, ConfirmCommit(c, id, reference))
    ensures
      var s' := Do(s, ConfirmCommit(c, id, reference));
      && s'.attempts == s.attempts && id !in s.transfers
      && (s'.transfers == s.transfers || s'.transfers == s.transfers[id := NewRow(s.confirms[c], reference)])
  {
    hide IntentUsed, HasKey, NewRow;
  }

  lemma OtherStepsKeepRows(s: State, step: Step)
    requires Enabled(s, step) && !TouchesRows(step)
    ensures Do(s, step).transfers == s.transfers && Do(s, step).cfg == s.cfg
  {
    hide Do, Enabled;
    if MovesConfirm(step) {
      ConfirmFrame(s, step);
    } else if MovesAttempt(step) {
      AttemptFrame(s, step);
    } else {
      WorldFrame(s, step);
    }
  }
}
