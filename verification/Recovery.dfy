/** Recovery makes progress: bounded claims, bounded Ledger calls, and no way back into PROCESSING. */
module Recovery {
  import opened Wrappers
  import opened Ledger
  import opened Payments
  import opened Frames

  /** m attempts in all; a settle that is owed or was made is one of the confirm's own or of a retry claim's. */
  ghost predicate RowBounded(row: Transfer, m: nat) {
    && row.attempts <= m && (row.status == Processing ==> row.attempts < m)
    && row.calls + row.owed <= 1 + row.attempts && row.calls + row.owed <= m
  }

  ghost predicate Bounded(s: State) {
    GoodConfig(s.cfg) && forall id :: id in s.transfers ==> RowBounded(s.transfers[id], s.cfg.maxAttempts)
  }

  lemma StepKeepsBounded(s: State, step: Step)
    requires Bounded(s) && Enabled(s, step)
    ensures Bounded(Do(s, step))
  {
    hide Do, Enabled, RowBounded;
    if !TouchesRows(step) {
      OtherStepsKeepRows(s, step);
    } else {
      RowFrame(s, step);
      if Do(s, step).transfers != s.transfers { RowStepBounded(s, step); }
    }
  }

  /** The row a step writes stays within its bounds. */
  lemma RowStepBounded(s: State, step: Step)
    requires Bounded(s) && Enabled(s, step) && TouchesRows(step) && Do(s, step).transfers != s.transfers
    ensures RowOf(s, step) in Do(s, step).transfers
    ensures RowBounded(Do(s, step).transfers[RowOf(s, step)], s.cfg.maxAttempts)
  {
    hide Do, Enabled;
    RowFrame(s, step);
    if step.ConfirmCommit? {
      CommittedRow(s, step.c, step.id, step.reference);
    } else {
      OwnRow(s, step);
      assert RowBounded(s.transfers[RowOf(s, step)], s.cfg.maxAttempts);
    }
  }

  lemma {:induction false} RunKeepsBounded(run: seq<State>, steps: seq<Step>, i: nat)
    requires IsRun(run, steps) && i < |run|
    ensures Bounded(run[i])
  {
    if i > 0 {
      RunKeepsBounded(run, steps, i - 1);
      StepKeepsBounded(run[i - 1], steps[i - 1]);
    }
  }

  /** In any run, no transfer is claimed more than m times or makes more than m Ledger calls. */
  lemma CallsNeverExceedAttempts(s: State, id: string)
    requires Reachable(s) && id in s.transfers
    ensures s.transfers[id].calls <= s.cfg.maxAttempts && s.transfers[id].attempts <= s.cfg.maxAttempts
  {
    var run, steps :| IsRun(run, steps) && run[|run| - 1] == s;
    RunKeepsBounded(run, steps, |run| - 1);
    assert RowBounded(s.transfers[id], s.cfg.maxAttempts);
  }

  /**
   * No step takes an existing row back to PROCESSING or lowers its attempt count, and each recovery claim
   * uses up one of its m attempts: a retry leaves it claimable with fewer left, a review ends its claims.
   */
  lemma ClaimsRunOut(s: State, step: Step, id: string)
    requires Reachable(s) && Enabled(s, step) && id in s.transfers
    ensures
      id in Do(s, step).transfers &&
      var row, row', m := s.transfers[id], Do(s, step).transfers[id], s.cfg.maxAttempts;
      && (row'.status == Processing ==> row.status == Processing)
      && row'.attempts >= row.attempts
      && (step == ClaimRetry(id) ==> 0 < m - row'.attempts < m - row.attempts && row'.status == Processing)
      && (step == ClaimReview(id) ==> 0 == m - row'.attempts < m - row.attempts && row'.status == RequiresReview)
      && (step != ClaimRetry(id) && step != ClaimReview(id) ==> row'.attempts == row.attempts)
  {
    hide Do, Enabled;
    var run, steps :| IsRun(run, steps) && run[|run| - 1] == s;
    RunKeepsBounded(run, steps, |run| - 1);
    assert RowBounded(s.transfers[id], s.cfg.maxAttempts);
    RowMoves(s, step, id);
    if step == ClaimRetry(id) || step == ClaimReview(id) { OwnRow(s, step); }
  }

  /** Every step leaves the row's attempts alone but for its own claims, and never resurrects it. */
  lemma RowMoves(s: State, step: Step, id: string)
    requires Enabled(s, step) && id in s.transfers
    ensures id in Do(s, step).transfers
    ensures Do(s, step).transfers[id].status == Processing ==> s.transfers[id].status == Processing
    ensures Do(s, step).transfers[id].attempts ==
      s.transfers[id].attempts + if step == ClaimRetry(id) || step == ClaimReview(id) then 1 else 0
    ensures step == ClaimReview(id) ==> Do(s, step).transfers[id].status == RequiresReview
    ensures step == ClaimRetry(id) ==> Do(s, step).transfers[id].status == Processing
  {
    hide Do, Enabled;
    if !TouchesRows(step) {
      OtherStepsKeepRows(s, step);
    } else {
      RowFrame(s, step);
      if step.ConfirmCommit? { CommittedRow(s, step.c, step.id, step.reference); } else { OwnRow(s, step); }
    }
  }
}
