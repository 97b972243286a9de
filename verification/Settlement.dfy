/** What exactly-once means for a transfer, its intent and its retries, in every reachable state. */
module Settlement {
  import opened Wrappers
  import opened Postings
  import opened Ledger
  import opened LedgerSafety
  import opened Payments
  import opened Frames
  import opened ExactlyOnce
  import opened ExactlyOnceRuns

  /** Journal i is the transfer's: posted under its key and reference, debiting the sender and crediting the recipient. */
  ghost predicate JournalFor(s: State, id: string, i: nat)
    requires id in s.transfers && HasWallets(s.transfers[id], s.wallets)
  {
    && i < |s.ledger.journals| && s.ledger.journals[i].key == TransferKey(id)
    && s.ledger.journals[i].currency == s.transfers[id].currency && s.ledger.journals[i].entryType == "CUSTOMER_TRANSFER"
    && s.ledger.journals[i].reference == s.transfers[id].reference
    && s.ledger.journals[i].metadata == map["transferId" := id, "transferReference" := s.transfers[id].reference]
    && s.ledger.journals[i].postings ==
         [Posting(s.wallets[s.transfers[id].senderAccount].ledgerAccount, Debit, s.transfers[id].amount),
          Posting(s.wallets[s.transfers[id].recipientAccount].ledgerAccount, Credit, s.transfers[id].amount)]
  }

  /**
   * Exactly once: at most one journal carries a transfer's key; any that does moves the row's amount from the
   * sender's ledger account to the recipient's; and a COMPLETED row has one and points at it.
   */
  lemma TransferPostsAtMostOnce(s: State, id: string)
    requires Reachable(s) && id in s.transfers
    ensures HasWallets(s.transfers[id], s.wallets)
    ensures s.wallets[s.transfers[id].senderAccount].ledgerAccount != s.wallets[s.transfers[id].recipientAccount].ledgerAccount
    ensures forall i, j :: 0 <= i < j < |s.ledger.journals| && s.ledger.journals[i].key == TransferKey(id) ==>
      s.ledger.journals[j].key != TransferKey(id)
    ensures forall i: nat :: i < |s.ledger.journals| && s.ledger.journals[i].key == TransferKey(id) ==> JournalFor(s, id, i)
    ensures s.transfers[id].status == Status.Completed ==>
      exists i: nat :: JournalFor(s, id, i) && s.transfers[id].journalId == Some(s.ledger.journals[i].id)
  {
    ReachableInv(s);
    RowAt(s.transfers, s.intents, s.wallets, id);
    forall i: nat | i < |s.ledger.journals| && s.ledger.journals[i].key == TransferKey(id) ensures JournalFor(s, id, i) {
      JournalIsTransfers(s, id, i);
    }
    if s.transfers[id].status == Status.Completed {
      SettledAt(s.transfers, s.ledger.records, id);
      var i: nat :| i < |s.ledger.journals| && s.ledger.journals[i].key == TransferKey(id);
      assert RecordMatches(TransferKey(id), s.ledger.records[TransferKey(id)], s.ledger.journals[i]);
      assert JournalFor(s, id, i);
    }
  }

  lemma JournalIsTransfers(s: State, id: string, i: nat)
    requires Inv(s) && id in s.transfers && HasWallets(s.transfers[id], s.wallets)
    requires i < |s.ledger.journals| && s.ledger.journals[i].key == TransferKey(id)
    ensures JournalFor(s, id, i)
  {
    hide WalletsOk, IntentsOk, RowsOk, AttemptsOk, CompletedOk, ConfirmsOk, JournalsGood, ProjectionsExact, AllSolvent;
    var k, rs := TransferKey(id), s.ledger.records;
    assert k in rs && RecordMatches(k, rs[k], s.ledger.journals[i]);
    assert "transfer:" <= k;
    var jd, newId :| LeftBy(rs, k, s.transfers, s.wallets, jd, newId);
    TransferKeyInjective(id, jd);
  }

  // ---------- intents ----------

  /** An intent is consumed exactly when one transfer uses it, and no intent is used by two. */
  lemma IntentUsedOnce(s: State, token: string)
    requires Reachable(s) && token in s.intents
    ensures s.intents[token].consumed <==> exists id :: id in s.transfers && s.transfers[id].intentId == token
    ensures forall id, jd ::
      (id in s.transfers && jd in s.transfers && s.transfers[id].intentId == token == s.transfers[jd].intentId)
      ==> id == jd
  {
    ReachableInv(s);
    hide Safe, WalletsOk, IntentsOk, RecordsOk, AttemptsOk, CompletedOk, ConfirmsOk;
    assert s.intents[token].consumed <==> IntentUsed(s.transfers, token);
  }

  /** Every transfer carries the terms of an intent that was authorized, and unexpired when it was checked. */
  lemma TransferHadLiveIntent(s: State, id: string)
    requires Reachable(s) && id in s.transfers
    ensures
      var row := s.transfers[id];
      row.intentId in s.intents &&
      var i := s.intents[row.intentId];
      && i.authorized && i.consumed && row.checkedAt < i.expiresAt
      && row.sender == i.sender && row.senderAccount == i.sourceAccount && row.recipientAccount == i.recipientAccount
      && row.amount == i.amount && row.currency == i.currency
  {
    ReachableInv(s);
    RowAt(s.transfers, s.intents, s.wallets, id);
    assert IntentUsed(s.transfers, s.transfers[id].intentId);
    IntentUsedOnce(s, s.transfers[id].intentId);
  }

  /**
   * Confirming again with a key already used: the same intent is answered with the same transfer, any other
   * intent of that sender with a conflict, both before the transaction and inside it, and no row changes.
   */
  lemma ConfirmAgain(s: State, c: nat, id: string, token: string, day: int)
    requires Reachable(s) && id in s.transfers && c !in s.confirms
    requires token in s.intents && s.intents[token].sender == s.transfers[id].sender && s.intents[token].authorized
    ensures
      var row := s.transfers[id];
      var step := ConfirmPreflight(c, row.sender, row.key, token, day);
      && Enabled(s, step) && Do(s, step).transfers == s.transfers && Do(s, step).intents == s.intents
      && Do(s, step).confirms[c].phase ==
           Over(Some(if token == row.intentId then Existing(id) else Refusal(ConfirmConflict)))
    ensures forall k: Confirm {:trigger CheckPhase(s, k)} ::
      k.phase.HavingLock? && k.sender == s.transfers[id].sender && k.key == s.transfers[id].key && k.token == token
      && Carried(k, k.phase.intent, s.intents) ==>
        CheckPhase(s, k) == Over(Some(if token == s.transfers[id].intentId then Existing(id) else Refusal(ConfirmConflict)))
  {
    ReachableInv(s);
    hide Safe, WalletsOk, IntentsOk, RecordsOk, AttemptsOk, CompletedOk, ConfirmsOk;
    var row := s.transfers[id];
    assert RowOfIntent(row, s.intents[row.intentId]);
    assert HasKey(s.transfers, row.sender, row.key);
    assert WithKey(s.transfers, row.sender, row.key) == id;
    forall k: Confirm | k.phase.HavingLock? && k.sender == row.sender && k.key == row.key && k.token == token
      && Carried(k, k.phase.intent, s.intents)
      ensures HashOf(k.token, k.phase.intent) == HashOf(token, s.intents[token])
    {
      assert Terms(k.phase.intent).sourceAccount == k.phase.intent.sourceAccount
          && Terms(k.phase.intent).recipientAccount == k.phase.intent.recipientAccount
          && Terms(k.phase.intent).amount == k.phase.intent.amount
          && Terms(k.phase.intent).currency == k.phase.intent.currency;
    }
  }

  // ---------- a FAILED row may have a journal, but not after a single call ----------

  type Attempts = map<nat, Attempt>

  ghost predicate OnTransfer(xs: Attempts, a: nat, id: string) {
    a in xs && xs[a].transfer == id
  }

  /** Two different settles of one transfer mean two Ledger calls. */
  ghost predicate CallsCounted(xs: Attempts, ts: Rows) {
    && (forall id, a :: OnTransfer(xs, a, id) && id in ts ==> ts[id].calls >= 1)
    && (forall id, a, b :: OnTransfer(xs, a, id) && OnTransfer(xs, b, id) && a != b && id in ts ==> ts[id].calls >= 2)
    && (forall a :: a in xs ==> xs[a].transfer in ts)
  }

  /** A record under a transfer's key means one of its settles posted. */
  ghost predicate RecordsPosted(xs: Attempts, ts: Rows, rs: Records) {
    forall id :: id in ts && TransferKey(id) in rs ==> exists a :: OnTransfer(xs, a, id) && xs[a].posted
  }

  /** The settle's Ledger call was answered, it posted nothing, and it can post nothing any more. */
  predicate Refused(a: Attempt) {
    !a.posted && a.server.Replied?
  }

  ghost predicate FailuresRefused(xs: Attempts, ts: Rows) {
    forall id :: id in ts && ts[id].status == Failed ==> exists a :: OnTransfer(xs, a, id) && Refused(xs[a])
  }

  ghost predicate History(s: State) {
    && CallsCounted(s.attempts, s.transfers)
    && RecordsPosted(s.attempts, s.transfers, s.ledger.records)
    && FailuresRefused(s.attempts, s.transfers)
  }

  /** Attempts keep their transfer, and keep having posted or having been refused. */
  ghost predicate AttemptsWorn(xs: Attempts, xs': Attempts) {
    && xs'.Keys == xs.Keys
    && forall a :: a in xs ==>
      xs'[a].transfer == xs[a].transfer && (xs[a].posted ==> xs'[a].posted) && (Refused(xs[a]) ==> Refused(xs'[a]))
  }

  lemma WearKeepsCalls(xs: Attempts, xs': Attempts, ts: Rows, ts': Rows)
    requires CallsCounted(xs, ts) && AttemptsWorn(xs, xs')
    requires ts'.Keys >= ts.Keys && forall id :: id in ts ==> ts'[id].calls == ts[id].calls
    ensures CallsCounted(xs', ts')
  {
    forall id, a | OnTransfer(xs', a, id) ensures OnTransfer(xs, a, id) && id in ts {}
  }

  lemma WearKeepsPosted(xs: Attempts, xs': Attempts, ts: Rows, ts': Rows, rs: Records, rs': Records)
    requires RecordsPosted(xs, ts, rs) && AttemptsWorn(xs, xs')
    requires forall id :: id in ts' && TransferKey(id) in rs' ==> id in ts && TransferKey(id) in rs
    ensures RecordsPosted(xs', ts', rs')
  {
    forall id | id in ts' && TransferKey(id) in rs' ensures exists a :: OnTransfer(xs', a, id) && xs'[a].posted {
      var a :| OnTransfer(xs, a, id) && xs[a].posted;
      assert OnTransfer(xs', a, id);
    }
  }

  lemma WearKeepsRefused(xs: Attempts, xs': Attempts, ts: Rows, ts': Rows)
    requires FailuresRefused(xs, ts) && AttemptsWorn(xs, xs')
    requires forall id :: id in ts' && ts'[id].status == Failed ==> id in ts && ts[id].status == Failed
    ensures FailuresRefused(xs', ts')
  {
    forall id | id in ts' && ts'[id].status == Failed ensures exists a :: OnTransfer(xs', a, id) && Refused(xs'[a]) {
      var a :| OnTransfer(xs, a, id) && Refused(xs[a]);
      assert OnTransfer(xs', a, id);
    }
  }

  /** Steps that start no settle, post nothing and fail no row. */
  lemma QuietKeepsHistory(s: State, s': State)
    requires History(s) && AttemptsWorn(s.attempts, s'.attempts)
    requires s'.transfers.Keys >= s.transfers.Keys
    requires forall id :: id in s.transfers ==> s'.transfers[id].calls == s.transfers[id].calls
    requires forall id :: id in s'.transfers && TransferKey(id) in s'.ledger.records ==>
      id in s.transfers && TransferKey(id) in s.ledger.records
    requires forall id :: id in s'.transfers && s'.transfers[id].status == Failed ==>
      id in s.transfers && s.transfers[id].status == Failed
    ensures History(s')
  {
    hide CallsCounted, RecordsPosted, FailuresRefused, AttemptsWorn;
    WearKeepsCalls(s.attempts, s'.attempts, s.transfers, s'.transfers);
    WearKeepsPosted(s.attempts, s'.attempts, s.transfers, s'.transfers, s.ledger.records, s'.ledger.records);
    WearKeepsRefused(s.attempts, s'.attempts, s.transfers, s'.transfers);
  }

  lemma NoRecordForNewId(s: State, id: string)
    requires RecordsOk(s.ledger.records, s.transfers, s.wallets) && id !in s.transfers
    ensures TransferKey(id) !in s.ledger.records
  {
    assert "transfer:" <= TransferKey(id);
    if TransferKey(id) in s.ledger.records {
      var jd, newId :| LeftBy(s.ledger.records, TransferKey(id), s.transfers, s.wallets, jd, newId);
      TransferKeyInjective(id, jd);
    }
  }

  lemma SendKeepsHistory(s: State, a: nat, id: string)
    requires History(s) && Enabled(s, SettleSend(a, id))
    ensures History(Do(s, SettleSend(a, id)))
  {
    hide Do, Enabled;
    RowFrame(s, SettleSend(a, id));
    RowAttempts(s, SettleSend(a, id));
    OwnRow(s, SettleSend(a, id));
    var s' := Do(s, SettleSend(a, id));
    forall jd, b | OnTransfer(s'.attempts, b, jd) && b != a ensures OnTransfer(s.attempts, b, jd) {}
    forall jd | jd in s'.transfers && TransferKey(jd) in s'.ledger.records
      ensures exists b :: OnTransfer(s'.attempts, b, jd) && s'.attempts[b].posted
    {
      var b :| OnTransfer(s.attempts, b, jd) && s.attempts[b].posted;
      assert OnTransfer(s'.attempts, b, jd);
    }
    forall jd | jd in s'.transfers && s'.transfers[jd].status == Failed
      ensures exists b :: OnTransfer(s'.attempts, b, jd) && Refused(s'.attempts[b])
    {
      var b :| OnTransfer(s.attempts, b, jd) && Refused(s.attempts[b]);
      assert OnTransfer(s'.attempts, b, jd);
    }
  }

  lemma PostKeepsHistory(s: State, a: nat, clashStatus: nat)
    requires Inv(s) && History(s) && Enabled(s, LedgerPost(a, clashStatus))
    ensures History(Do(s, LedgerPost(a, clashStatus)))
  {
    hide Inv, CallsCounted, FailuresRefused, Exec, Balanced, DistinctIds;
    hide WorldEnabled, RowEnabled, ConfirmEnabled, DoWorld, DoRow, DoConfirm;
    PendingCallBalanced(s, a);
    var at, s' := s.attempts[a], Do(s, LedgerPost(a, clashStatus));
    ExecGrows(s.ledger, at.server.call);
    PostedOnlyWhenNew(s.ledger, at.server.call);
    assert AttemptsWorn(s.attempts, s'.attempts);
    WearKeepsCalls(s.attempts, s'.attempts, s.transfers, s'.transfers);
    WearKeepsRefused(s.attempts, s'.attempts, s.transfers, s'.transfers);
    forall id | id in s'.transfers && TransferKey(id) in s'.ledger.records
      ensures exists b :: OnTransfer(s'.attempts, b, id) && s'.attempts[b].posted
    {
      if TransferKey(id) in s.ledger.records {
        var b :| OnTransfer(s.attempts, b, id) && s.attempts[b].posted;
        assert OnTransfer(s'.attempts, b, id);
      } else {
        TransferKeyInjective(id, at.transfer);
        assert OnTransfer(s'.attempts, a, id);
      }
    }
  }

  lemma PostedOnlyWhenNew(db: Db, call: Call)
    ensures call.key in Exec(db, call).0.records && call.key !in db.records ==> Exec(db, call).1.Posted?
  {
  }

  lemma ReceiveKeepsHistory(s: State, a: nat)
    requires Inv(s) && History(s) && Enabled(s, ClientReceive(a))
    ensures History(Do(s, ClientReceive(a)))
  {
    hide Inv, CallsCounted, RecordsPosted, Do, Enabled;
    RowFrame(s, ClientReceive(a));
    RowAttempts(s, ClientReceive(a));
    OwnRow(s, ClientReceive(a));
    var at, s' := s.attempts[a], Do(s, ClientReceive(a));
    AnsweredAttempt(s, a);
    WearKeepsCalls(s.attempts, s'.attempts, s.transfers, s'.transfers);
    WearKeepsPosted(s.attempts, s'.attempts, s.transfers, s'.transfers, s.ledger.records, s'.ledger.records);
    forall id | id in s'.transfers && s'.transfers[id].status == Failed
      ensures exists b :: OnTransfer(s'.attempts, b, id) && Refused(s'.attempts[b])
    {
      if s.transfers[id].status == Failed {
        var b :| OnTransfer(s.attempts, b, id) && Refused(s.attempts[b]);
        assert OnTransfer(s'.attempts, b, id);
      } else {
        assert OnTransfer(s'.attempts, a, id);
      }
    }
  }

  /** A client-visible refusal comes from a call that posted nothing. */
  lemma AnsweredAttempt(s: State, a: nat)
    requires Inv(s) && a in s.attempts && s.attempts[a].server.Replied?
    ensures s.attempts[a].server.answer.Failure? && s.attempts[a].server.answer.status < 500 ==> !s.attempts[a].posted
  {
    hide Safe, WalletsOk, IntentsOk, RowsOk, RecordsOk, AttemptsOk, CompletedOk, ConfirmsOk;
    AttemptAt(s.attempts, s.transfers, s.wallets, s.ledger.records, a);
  }

  lemma StepKeepsHistory(s: State, step: Step)
    requires Inv(s) && History(s) && Enabled(s, step)
    ensures History(Do(s, step))
  {
    hide Inv, History, Do, Enabled;
    match step
    case SettleSend(a, id) => SendKeepsHistory(s, a, id);
    case LedgerPost(a, clashStatus) => PostKeepsHistory(s, a, clashStatus);
    case ClientReceive(a) => ReceiveKeepsHistory(s, a);
    case ForeignCall(call) => ForeignKeepsHistory(s, call);
    case ConfirmCommit(c, id, reference) => CommitKeepsHistory(s, c, id, reference);
    case _ =>
      if TouchesRows(step) {
        RowQuiet(s, step);
      } else if MovesAttempt(step) {
        AttemptQuiet(s, step);
      } else {
        OtherStepKeepsHistory(s, step);
      }
  }

  /** A dropped settle or a recovery claim neither calls the Ledger nor fails a row. */
  lemma RowQuiet(s: State, step: Step)
    requires History(s) && Enabled(s, step) && (step.SettleDropped? || step.ClaimRetry? || step.ClaimReview?)
    ensures History(Do(s, step))
  {
    hide History, Do, Enabled;
    RowFrame(s, step);
    RowAttempts(s, step);
    OwnRow(s, step);
    QuietKeepsHistory(s, Do(s, step));
  }

  /** A call that resolves, fails or times out posts nothing and stays refused if it was. */
  lemma AttemptQuiet(s: State, step: Step)
    requires History(s) && Enabled(s, step) && (step.LedgerResolve? || step.ServerError? || step.ClientTimeout?)
    ensures History(Do(s, step))
  {
    hide History, Do, Enabled;
    AttemptFrame(s, step);
    QuietKeepsHistory(s, Do(s, step));
  }

  /** Steps on wallets, intents and confirms. */
  lemma OtherStepKeepsHistory(s: State, step: Step)
    requires History(s) && Enabled(s, step)
    requires MovesConfirm(step) || (MovesWorld(step) && !step.ForeignCall?)
    ensures History(Do(s, step))
  {
    hide History, Do, Enabled;
    if MovesConfirm(step) { ConfirmFrame(s, step); } else { WorldFrame(s, step); }
    QuietKeepsHistory(s, Do(s, step));
  }

  lemma ForeignKeepsHistory(s: State, call: Call)
    requires History(s) && Enabled(s, ForeignCall(call))
    ensures History(Do(s, ForeignCall(call)))
  {
    hide History, Exec;
    ExecGrows(s.ledger, call);
    forall id ensures TransferKey(id) != call.key { assert "transfer:" <= TransferKey(id); }
    QuietKeepsHistory(s, Do(s, ForeignCall(call)));
  }

  lemma CommitKeepsHistory(s: State, c: nat, id: string, reference: string)
    requires Inv(s) && History(s) && Enabled(s, ConfirmCommit(c, id, reference))
    ensures History(Do(s, ConfirmCommit(c, id, reference)))
  {
    hide History, Safe, WalletsOk, IntentsOk, RowsOk, RecordsOk, AttemptsOk, CompletedOk, ConfirmsOk, IntentUsed, HasKey;
    hide Do, Enabled;
    CommittedRow(s, c, id, reference);
    RowFrame(s, ConfirmCommit(c, id, reference));
    NoRecordForNewId(s, id);
    QuietKeepsHistory(s, Do(s, ConfirmCommit(c, id, reference)));
  }

  lemma {:induction false} RunKeepsHistory(run: seq<State>, steps: seq<Step>, i: nat)
    requires IsRun(run, steps) && i < |run|
    ensures History(run[i])
  {
    hide Inv;
    if i > 0 {
      RunKeepsHistory(run, steps, i - 1);
      RunKeepsInv(run, steps, i - 1);
      StepKeepsHistory(run[i - 1], steps[i - 1]);
    }
  }

  /** A FAILED row whose money nevertheless moved has made at least two Ledger calls. */
  lemma FailedButPostedCalledTwice(s: State, id: string)
    requires Reachable(s) && id in s.transfers && s.transfers[id].status == Failed
    requires TransferKey(id) in s.ledger.records
    ensures s.transfers[id].calls >= 2
  {
    var run, steps :| IsRun(run, steps) && run[|run| - 1] == s;
    RunKeepsHistory(run, steps, |run| - 1);
    var a :| OnTransfer(s.attempts, a, id) && Refused(s.attempts[a]);
    var b :| OnTransfer(s.attempts, b, id) && s.attempts[b].posted;
    assert a != b;
  }

  /**
   * When the Ledger already holds a transfer's journal, a retry is answered with the stored result exactly when
   * the precheck that runs before the replay still passes; otherwise it is refused, and the row that has been
   * paid becomes FAILED. Neither way does the ledger change.
   */
  lemma RetryReplaysIff(s: State, a: nat, newId: string, clashStatus: nat)
    requires Reachable(s) && Enabled(s, LedgerResolve(a, newId))
    requires a in s.attempts && s.attempts[a].transfer in s.transfers
    requires TransferKey(s.attempts[a].transfer) in s.ledger.records
    ensures
      var id := s.attempts[a].transfer;
      var s1 := Do(s, LedgerResolve(a, newId));
      var stored := s.ledger.records[TransferKey(id)].response;
      && s1.ledger == s.ledger && a in s1.attempts && stored.Some?
      && if Precheck(s, id, s.transfers[id], newId).Ok? then
           && Enabled(s1, LedgerPost(a, clashStatus))
           && var s2 := Do(s1, LedgerPost(a, clashStatus));
              s2.ledger == s.ledger && s2.attempts[a].server == Replied(Success(stored.value))
         else
           s1.attempts[a].server.Replied? && s1.attempts[a].server.answer.Failure? && s1.attempts[a].server.answer.status < 500
  {
    hide Do, Enabled, Precheck, Inv, Exec, Reachable;
    ReachableInv(s);
    StepKeepsInv(s, LedgerResolve(a, newId));
    ResolveStep(s, a, newId);
    RecordIsSettled(s, s.attempts[a].transfer);
    if Precheck(s, s.attempts[a].transfer, s.transfers[s.attempts[a].transfer], newId).Ok? {
      var s1 := Do(s, LedgerResolve(a, newId));
      SettleNeverConflicts(s1, a);
      PendingCallBalanced(s1, a);
      hide Balanced, DistinctIds, CallOf, HasWallets;
      RetryPosts(s1, a, clashStatus);
    }
  }

  lemma ResolveStep(s: State, a: nat, newId: string)
    requires Enabled(s, LedgerResolve(a, newId))
    ensures a in s.attempts && s.attempts[a].transfer in s.transfers
    ensures
      var at := s.attempts[a];
      var p := Precheck(s, at.transfer, s.transfers[at.transfer], newId);
      && Do(s, LedgerResolve(a, newId)) ==
           AttemptTo(s, a, at.(server := match p { case Ok(call) => Prechecked(call) case Err(answer) => Replied(answer) }))
      && (p.Ok? ==> p.value.key == TransferKey(at.transfer))
      && (p.Err? ==> p.error.Failure? && p.error.status < 500)
  {
    hide WorldEnabled, RowEnabled, ConfirmEnabled, DoWorld, DoRow, DoConfirm;
  }

  lemma RecordIsSettled(s: State, id: string)
    requires Inv(s) && TransferKey(id) in s.ledger.records
    ensures s.ledger.records[TransferKey(id)].response.Some?
  {
    hide WalletsOk, IntentsOk, RowsOk, AttemptsOk, CompletedOk, ConfirmsOk, Safe;
    assert "transfer:" <= TransferKey(id);
    var jd, newId :| LeftBy(s.ledger.records, TransferKey(id), s.transfers, s.wallets, jd, newId);
  }

  lemma RetryPosts(s: State, a: nat, clashStatus: nat)
    requires a in s.attempts && s.attempts[a].server.Prechecked? && Balanced(s.attempts[a].server.call.postings)
    requires s.attempts[a].server.call.key in s.ledger.records
    requires match Exec(s.ledger, s.attempts[a].server.call).1
      case Posted(_, _) => true
      case Refused(error) => error != IdempotencyConflict && error != IdempotencyInProgress
    ensures Enabled(s, LedgerPost(a, clashStatus))
    ensures s.ledger.records[s.attempts[a].server.call.key].response.Some?
    ensures
      var s2 := Do(s, LedgerPost(a, clashStatus));
      && s2.ledger == s.ledger
      && s2.attempts[a].server == Replied(Success(s.ledger.records[s.attempts[a].server.call.key].response.value))
  {
    hide WorldEnabled, RowEnabled, ConfirmEnabled, DoWorld, DoRow, DoConfirm, Balanced, Verdict;
  }
}
