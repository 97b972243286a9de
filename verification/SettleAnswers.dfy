/** What a settle is answered and what becomes of its row, said in the terms of the wallets and the ledger. */
module SettleAnswers {
  import opened Wrappers
  import opened Postings
  import opened Sums
  import opened Ledger
  import opened LedgerSafety
  import opened LedgerAnswers
  import opened Payments
  import opened Frames
  import opened ExactlyOnce
  import opened ExactlyOnceRuns
  import opened Settlement
  import opened DailyLimit

  // ---------- wallets and intents ----------

  /** A wallet's ledger account is a liability in the wallet's currency that may not be overdrawn. */
  ghost predicate WalletAccount(w: Wallet, accounts: map<string, Account>) {
    && w.ledgerAccount in accounts && accounts[w.ledgerAccount].cls == Liability
    && accounts[w.ledgerAccount].currency == w.currency && !accounts[w.ledgerAccount].allowNegative
  }

  ghost predicate WalletAccounts(ws: Wallets, accounts: map<string, Account>) {
    forall w :: w in ws ==> WalletAccount(ws[w], accounts)
  }

  /** The sender owns the source, the parties differ, both hold rupees, and the amount is within the policy. */
  ghost predicate WithinPolicy(i: Intent, ws: Wallets, cfg: Config) {
    && cfg.minTransfer <= i.amount <= cfg.maxTransfer && i.currency == "LKR"
    && i.sourceAccount in ws && i.recipientAccount in ws && i.sourceAccount != i.recipientAccount
    && ws[i.sourceAccount].customer == i.sender && ws[i.recipientAccount].reference == i.recipientReference
    && ws[i.sourceAccount].currency == "LKR" == ws[i.recipientAccount].currency
  }

  ghost predicate IntentsWithin(ints: Intents, ws: Wallets, cfg: Config) {
    forall t :: t in ints ==> WithinPolicy(ints[t], ws, cfg)
  }

  ghost predicate PolicyKept(s: State) {
    WalletAccounts(s.wallets, s.ledger.accounts) && IntentsWithin(s.intents, s.wallets, s.cfg)
  }

  /** Accounts may be added and their totals may move; what they are stays. */
  ghost predicate AccountsKept(a: map<string, Account>, b: map<string, Account>) {
    forall id :: id in a ==>
      id in b && b[id].cls == a[id].cls && b[id].currency == a[id].currency && b[id].allowNegative == a[id].allowNegative
  }

  lemma ExecKeepsAccounts(db: Db, call: Call)
    ensures AccountsKept(db.accounts, Exec(db, call).0.accounts)
  {
  }

  lemma TermsCarry(s: State, s': State)
    requires PolicyKept(s) && s'.cfg == s.cfg && s'.intents == s.intents && s'.wallets == s.wallets
    requires AccountsKept(s.ledger.accounts, s'.ledger.accounts)
    ensures PolicyKept(s')
  {
  }

  lemma WorldKeepsTerms(s: State, step: Step)
    requires Inv(s) && PolicyKept(s) && Enabled(s, step) && MovesWorld(step)
    ensures PolicyKept(Do(s, step))
  {
    hide Inv, Do, Enabled, PolicyKept, Exec;
    match step
    case OpenWallet(id, w) => OpenKeepsTerms(s, id, w);
    case SetStatus(id, status) => StatusKeepsTerms(s, id, status);
    case CreateIntent(_, _, _, _, _, _) => CreateKeepsTerms(s, step);
    case AuthorizeWrite(token) => AuthorizeKeepsTerms(s, token);
    case ForeignCall(call) => ForeignKeepsTerms(s, call);
    case OpenLedgerAccount(e) => OpenLedgerKeepsTerms(s, e);
    case _ => IdleKeepsTerms(s, step);
  }

  lemma AuthorizeKeepsTerms(s: State, token: string)
    requires PolicyKept(s) && Enabled(s, AuthorizeWrite(token))
    ensures PolicyKept(Do(s, AuthorizeWrite(token)))
  {
    hide PolicyKept;
    FlagKeepsTerms(s, token, s.intents[token].(authorized := true));
  }

  lemma ForeignKeepsTerms(s: State, call: Call)
    requires PolicyKept(s) && Enabled(s, ForeignCall(call))
    ensures PolicyKept(Do(s, ForeignCall(call)))
  {
    hide PolicyKept, Exec;
    ExecKeepsAccounts(s.ledger, call);
    TermsCarry(s, Do(s, ForeignCall(call)));
  }

  lemma OpenLedgerKeepsTerms(s: State, e: Entry)
    requires PolicyKept(s) && Enabled(s, OpenLedgerAccount(e))
    ensures PolicyKept(Do(s, OpenLedgerAccount(e)))
  {
    hide PolicyKept;
    TermsCarry(s, Do(s, OpenLedgerAccount(e)));
  }

  lemma IdleKeepsTerms(s: State, step: Step)
    requires PolicyKept(s) && Enabled(s, step) && (step.Tick? || step.AuthorizeRead?)
    ensures PolicyKept(Do(s, step))
  {
    hide PolicyKept;
    SameAccountsKept(s.ledger.accounts);
    TermsCarry(s, Do(s, step));
  }

  lemma OpenKeepsTerms(s: State, id: string, w: Wallet)
    requires PolicyKept(s) && Enabled(s, OpenWallet(id, w))
    ensures PolicyKept(Do(s, OpenWallet(id, w)))
  {
    var s' := Do(s, OpenWallet(id, w));
    forall jd | jd in s'.wallets ensures WalletAccount(s'.wallets[jd], s'.ledger.accounts) {
      if jd != id { assert WalletAccount(s.wallets[jd], s.ledger.accounts); }
    }
    forall t | t in s'.intents ensures WithinPolicy(s'.intents[t], s'.wallets, s'.cfg) {
      assert WithinPolicy(s.intents[t], s.wallets, s.cfg);
    }
  }

  lemma StatusKeepsTerms(s: State, id: string, status: WalletStatus)
    requires PolicyKept(s) && Enabled(s, SetStatus(id, status))
    ensures PolicyKept(Do(s, SetStatus(id, status)))
  {
    var s' := Do(s, SetStatus(id, status));
    forall jd | jd in s'.wallets ensures WalletAccount(s'.wallets[jd], s'.ledger.accounts) {
      assert WalletAccount(s.wallets[jd], s.ledger.accounts);
    }
    forall t | t in s'.intents ensures WithinPolicy(s'.intents[t], s'.wallets, s'.cfg) {
      assert WithinPolicy(s.intents[t], s.wallets, s.cfg);
    }
  }

  lemma CreateKeepsTerms(s: State, step: Step)
    requires Inv(s) && PolicyKept(s) && Enabled(s, step) && step.CreateIntent?
    ensures PolicyKept(Do(s, step))
  {
    hide Safe, IntentsOk, RowsOk, RecordsOk, AttemptsOk, CompletedOk, ConfirmsOk;
    var s' := Do(s, step);
    assert s.wallets[s.byReference[step.recipientReference]].reference == step.recipientReference;
    forall t | t in s'.intents ensures WithinPolicy(s'.intents[t], s'.wallets, s'.cfg) {
      if t != step.token { assert WithinPolicy(s.intents[t], s.wallets, s.cfg); }
    }
  }

  lemma FlagKeepsTerms(s: State, token: string, i: Intent)
    requires PolicyKept(s) && token in s.intents
    requires i == s.intents[token].(authorized := i.authorized, consumed := i.consumed)
    ensures PolicyKept(s.(intents := s.intents[token := i]))
  {
    assert WithinPolicy(s.intents[token], s.wallets, s.cfg);
  }

  lemma StepKeepsTerms(s: State, step: Step)
    requires Inv(s) && PolicyKept(s) && Enabled(s, step)
    ensures PolicyKept(Do(s, step))
  {
    hide Inv, Do, Enabled, PolicyKept, Exec;
    if MovesWorld(step) {
      WorldKeepsTerms(s, step);
    } else if MovesConfirm(step) {
      ConfirmFrame(s, step);
      SameAccountsKept(s.ledger.accounts);
      TermsCarry(s, Do(s, step));
    } else if MovesAttempt(step) {
      AttemptFrame(s, step);
      SameAccountsKept(s.ledger.accounts);
      if step.LedgerPost? { PostKeepsAccounts(s, step.a, step.clashStatus); }
      TermsCarry(s, Do(s, step));
    } else if step.ConfirmCommit? {
      CommitKeepsTerms(s, step);
    } else {
      SettleFrame(s, step);
      SameAccountsKept(s.ledger.accounts);
      TermsCarry(s, Do(s, step));
    }
  }

  lemma SameAccountsKept(accounts: map<string, Account>)
    ensures AccountsKept(accounts, accounts)
  {
  }

  lemma PostKeepsAccounts(s: State, a: nat, clashStatus: nat)
    requires Enabled(s, LedgerPost(a, clashStatus))
    ensures AccountsKept(s.ledger.accounts, Do(s, LedgerPost(a, clashStatus)).ledger.accounts)
  {
    hide Exec;
    ExecKeepsAccounts(s.ledger, s.attempts[a].server.call);
  }

  lemma CommitKeepsTerms(s: State, step: Step)
    requires PolicyKept(s) && Enabled(s, step) && step.ConfirmCommit?
    ensures PolicyKept(Do(s, step))
  {
    hide IntentUsed, HasKey, NewRow, PolicyKept;
    SameAccountsKept(s.ledger.accounts);
    var k, s' := s.confirms[step.c], Do(s, step);
    if s'.intents == s.intents {
      TermsCarry(s, s');
    } else {
      var flagged := s.(intents := s'.intents);
      FlagKeepsTerms(s, k.token, s.intents[k.token].(consumed := true));
      TermsCarry(flagged, s');
    }
  }

  lemma {:induction false} RunKeepsTerms(run: seq<State>, steps: seq<Step>, i: nat)
    requires IsRun(run, steps) && i < |run|
    ensures PolicyKept(run[i])
  {
    hide Inv, Do, Enabled;
    if i > 0 {
      RunKeepsTerms(run, steps, i - 1);
      RunKeepsInv(run, steps, i - 1);
      StepKeepsTerms(run[i - 1], steps[i - 1]);
    }
  }

  lemma ReachableTerms(s: State)
    requires Reachable(s)
    ensures PolicyKept(s)
  {
    hide PolicyKept;
    var run, steps :| IsRun(run, steps) && run[|run| - 1] == s;
    RunKeepsTerms(run, steps, |run| - 1);
  }

  /** Every transfer moves an amount within the policy, in rupees, from a wallet of its sender to a different one. */
  lemma TransferWithinPolicy(s: State, id: string)
    requires Reachable(s) && id in s.transfers
    ensures
      var row := s.transfers[id];
      && s.cfg.minTransfer <= row.amount <= s.cfg.maxTransfer && row.currency == "LKR"
      && row.senderAccount in s.wallets && row.recipientAccount in s.wallets && row.senderAccount != row.recipientAccount
      && s.wallets[row.senderAccount].customer == row.sender
      && s.wallets[row.recipientAccount].reference == row.recipientReference
      && s.wallets[row.senderAccount].currency == "LKR" == s.wallets[row.recipientAccount].currency
  {
    ReachableInv(s);
    ReachableTerms(s);
    hide Safe, WalletsOk, RecordsOk, AttemptsOk, CompletedOk, ConfirmsOk, RowsOk, IntentsOk;
    RowAt(s.transfers, s.intents, s.wallets, id);
    assert WithinPolicy(s.intents[s.transfers[id].intentId], s.wallets, s.cfg);
  }

  // ---------- when the Ledger goes on with a settle ----------

  /** The wallet that a public reference names. */
  ghost predicate Named(ws: Wallets, reference: string, w: string) {
    w in ws && ws[w].reference == reference
  }

  /** What the Ledger makes of a settle, read off the wallets and the ledger; w is the recipient's wallet, if there is one. */
  ghost function Due(s: State, id: string, newId: string, w: Option<string>): ServerPhase
    requires id in s.transfers && WalletAccounts(s.wallets, s.ledger.accounts) && (w.Some? ==> w.value in s.wallets)
  {
    var row := s.transfers[id];
    if row.senderAccount !in s.wallets || s.wallets[row.senderAccount].customer != row.sender
      then Replied(Failure(404, ACCOUNT_NOT_FOUND))
    else if w.None? then Replied(Failure(409, ACCOUNT_NOT_FOUND))
    else
      var source, recipient := s.wallets[row.senderAccount], s.wallets[w.value];
      assert WalletAccount(source, s.ledger.accounts);
      var account := s.ledger.accounts[source.ledgerAccount];
      if !(source.status == Active && recipient.status == Active) then Replied(Failure(409, ACCOUNT_NOT_ACTIVE))
      else if row.senderAccount == w.value then Replied(Failure(409, SELF_TRANSFER))
      else if !(source.currency == recipient.currency == row.currency) then Replied(Failure(400, CURRENCY_MISMATCH))
      else if row.amount <= 0 then Replied(Failure(400, OTHER_CODE))
      else if account.credit - account.debit < row.amount then Replied(Failure(409, INSUFFICIENT_FUNDS))
      else Prechecked(Call("transfer:" + id, "CUSTOMER_TRANSFER", row.currency, Some(row.reference), "Customer transfer", None,
        map["transferId" := id, "transferReference" := row.reference],
        [Posting(source.ledgerAccount, Debit, row.amount), Posting(recipient.ledgerAccount, Credit, row.amount)],
        newId, row.reference))
  }

  /**
   * Whatever the state of the wallets, the Ledger goes on with a settle exactly when the sender owns the source, the
   * reference names a wallet, both are active and distinct, the currencies agree and the source's credits cover the
   * amount; each failing condition has its own code and status, in that order.
   */
  lemma ResolvedAs(s: State, a: nat, newId: string, w: Option<string>)
    requires WalletsOk(s.wallets, s.byReference, s.ledger.accounts) && WalletAccounts(s.wallets, s.ledger.accounts)
    requires Enabled(s, LedgerResolve(a, newId))
    requires a in s.attempts && s.attempts[a].transfer in s.transfers
    requires
      var reference := s.transfers[s.attempts[a].transfer].recipientReference;
      match w case Some(x) => Named(s.wallets, reference, x) case None => forall x :: !Named(s.wallets, reference, x)
    ensures a in Do(s, LedgerResolve(a, newId)).attempts
    ensures Do(s, LedgerResolve(a, newId)).attempts[a].server == Due(s, s.attempts[a].transfer, newId, w)
  {
    hide Do, Enabled, Precheck;
    ResolveStep(s, a, newId);
    PrecheckIsDue(s, s.attempts[a].transfer, newId, w);
  }

  lemma PrecheckIsDue(s: State, id: string, newId: string, w: Option<string>)
    requires WalletsOk(s.wallets, s.byReference, s.ledger.accounts) && WalletAccounts(s.wallets, s.ledger.accounts)
    requires id in s.transfers
    requires match w case Some(x) => Named(s.wallets, s.transfers[id].recipientReference, x)
                     case None => forall x :: !Named(s.wallets, s.transfers[id].recipientReference, x)
    ensures Due(s, id, newId, w) ==
      match Precheck(s, id, s.transfers[id], newId) case Ok(call) => Prechecked(call) case Err(answer) => Replied(answer)
  {
    var row := s.transfers[id];
    if row.recipientReference in s.byReference {
      assert Named(s.wallets, row.recipientReference, s.byReference[row.recipientReference]);
    }
    if row.senderAccount in s.wallets { assert WalletAccount(s.wallets[row.senderAccount], s.ledger.accounts); }
  }

  /** In every reachable state what is left to decide is the two wallets' status and the sender's balance. */
  lemma SettleGoesOnIff(s: State, a: nat, newId: string)
    requires Reachable(s) && Enabled(s, LedgerResolve(a, newId))
    requires a in s.attempts && s.attempts[a].transfer in s.transfers
    ensures
      var row := s.transfers[s.attempts[a].transfer];
      && row.senderAccount in s.wallets && row.recipientAccount in s.wallets && a in Do(s, LedgerResolve(a, newId)).attempts
      && var source, recipient := s.wallets[row.senderAccount], s.wallets[row.recipientAccount];
         var server := Do(s, LedgerResolve(a, newId)).attempts[a].server;
         && source.ledgerAccount in s.ledger.accounts
         && var account := s.ledger.accounts[source.ledgerAccount];
            && (server.Prechecked? <==>
                source.status == Active && recipient.status == Active && account.credit - account.debit >= row.amount)
            && (!(source.status == Active && recipient.status == Active) ==> server == Replied(Failure(409, ACCOUNT_NOT_ACTIVE)))
            && (source.status == Active && recipient.status == Active && account.credit - account.debit < row.amount ==>
                server == Replied(Failure(409, INSUFFICIENT_FUNDS)))
  {
    var id := s.attempts[a].transfer;
    ReachableInv(s);
    ReachableTerms(s);
    TransferWithinPolicy(s, id);
    PolicyPositive(s);
    hide Do, Enabled, Reachable, Safe, WalletsOk, RecordsOk, AttemptsOk, CompletedOk, ConfirmsOk, RowsOk, IntentsOk;
    assert WalletAccount(s.wallets[s.transfers[id].senderAccount], s.ledger.accounts);
    hide PolicyKept, WalletAccounts;
    WalletAccountsOf(s);
    ResolvedAs(s, a, newId, Some(s.transfers[id].recipientAccount));
  }

  lemma PolicyPositive(s: State)
    requires Inv(s)
    ensures s.cfg.minTransfer > 0
  {
    hide Safe, WalletsOk, RecordsOk, AttemptsOk, CompletedOk, ConfirmsOk, RowsOk, IntentsOk;
  }

  lemma WalletAccountsOf(s: State)
    requires PolicyKept(s)
    ensures WalletAccounts(s.wallets, s.ledger.accounts)
  {
  }

  // ---------- what the post answers, and what is written to the row ----------

  /** The answer to a settle's call, read off the ledger. */
  lemma PostedAs(s: State, a: nat, clashStatus: nat)
    requires Reachable(s) && Enabled(s, LedgerPost(a, clashStatus))
    requires a in s.attempts && s.attempts[a].server.Prechecked?
    ensures a in Do(s, LedgerPost(a, clashStatus)).attempts
    ensures TransferKey(s.attempts[a].transfer) in s.ledger.records ==>
      s.ledger.records[TransferKey(s.attempts[a].transfer)].response.Some?
    ensures
      var id, call := s.attempts[a].transfer, s.attempts[a].server.call;
      Do(s, LedgerPost(a, clashStatus)).attempts[a].server == Replied(
        if TransferKey(id) in s.ledger.records then Success(s.ledger.records[TransferKey(id)].response.value)
        else if Missing(s.ledger, call) then Failure(404, ACCOUNT_NOT_FOUND)
        else if Foreign(s.ledger, call) then Failure(400, CURRENCY_MISMATCH)
        else if Overdrawn(s.ledger, call) then Failure(409, INSUFFICIENT_FUNDS)
        else if Taken(s.ledger, call) then Failure(clashStatus, OTHER_CODE)
        else Success(ResultOf(call)))
  {
    hide Do, Enabled, Reachable, Inv, Exec, Missing, Foreign, Overdrawn, Taken, Balanced, DistinctIds, CallOf, HasWallets;
    ReachableInv(s);
    PendingCallBalanced(s, a);
    SettleNeverConflicts(s, a);
    PostStep(s, a, clashStatus);
    var call := s.attempts[a].server.call;
    CallKey(s, a);
    if call.key in s.ledger.records {
      RecordIsSettled(s, s.attempts[a].transfer);
      StoredAnswer(s.ledger, call);
    } else {
      FreshAnswerIff(s.ledger, call);
    }
  }

  lemma CallKey(s: State, a: nat)
    requires Inv(s) && a in s.attempts && s.attempts[a].server.Prechecked?
    ensures s.attempts[a].server.call.key == TransferKey(s.attempts[a].transfer)
  {
    hide Inv;
    PendingCallBalanced(s, a);
  }

  lemma StoredAnswer(db: Db, call: Call)
    requires Balanced(call.postings) && call.key in db.records && db.records[call.key].response.Some?
    requires match Exec(db, call).1
      case Posted(_, _) => true
      case Refused(error) => error != IdempotencyConflict && error != IdempotencyInProgress
    ensures Exec(db, call).1 == Posted(db.records[call.key].response.value, true)
  {
    hide Balanced, Verdict;
  }

  lemma PostStep(s: State, a: nat, clashStatus: nat)
    requires Enabled(s, LedgerPost(a, clashStatus))
    ensures a in s.attempts && s.attempts[a].server.Prechecked? && a in Do(s, LedgerPost(a, clashStatus)).attempts
    ensures Do(s, LedgerPost(a, clashStatus)).attempts[a].server ==
      Replied(AnswerOf(Exec(s.ledger, s.attempts[a].server.call).1, clashStatus))
  {
    hide Exec, AnswerOf;
  }

  /** What the client writes: an unknown code and a failed channel read as the Ledger being unavailable. */
  lemma WrittenAs(s: State, a: nat)
    requires Enabled(s, ClientReceive(a))
    requires a in s.attempts && s.attempts[a].server.Replied? && s.attempts[a].transfer in s.transfers
    ensures s.attempts[a].transfer in Do(s, ClientReceive(a)).transfers
    ensures
      var row, row' := s.transfers[s.attempts[a].transfer], Do(s, ClientReceive(a)).transfers[s.attempts[a].transfer];
      match s.attempts[a].server.answer
      case Success(result) => row' == row.(status := Status.Completed, journalId := Some(result.journalId))
      case Failure(status, code) =>
        if status >= 500 then row' == row
        else row' == row.(status := Failed, failure := Some(
          if code in {INSUFFICIENT_FUNDS, ACCOUNT_NOT_FOUND, ACCOUNT_NOT_ACTIVE, CURRENCY_MISMATCH, SELF_TRANSFER, IDEMPOTENCY_CONFLICT}
          then code else LEDGER_UNAVAILABLE))
  {
    OwnRow(s, ClientReceive(a));
    hide Do, Enabled;
  }

  // ---------- the daily limit in so many words ----------

  /** PROCESSING, COMPLETED and REQUIRES_REVIEW. */
  predicate IsLive(row: Transfer) {
    row.status == Processing || row.status == Status.Completed || row.status == RequiresReview
  }

  ghost function Amounts(ts: Rows, ids: set<string>): int {
    SumOver(ids, id => if id in ts then ts[id].amount else 0)
  }

  /** The limit check refuses exactly when the live transfers of the sender since the day, and this amount, exceed the limit. */
  lemma LimitRefusesIff(s: State, c: nat)
    requires Enabled(s, ConfirmSum(c)) && c in s.confirms && s.confirms[c].phase.Checked?
    ensures c in Do(s, ConfirmSum(c)).confirms
    ensures
      var k, phase' := s.confirms[c], Do(s, ConfirmSum(c)).confirms[c].phase;
      var live := set id | id in s.transfers && s.transfers[id].sender == k.sender && s.transfers[id].day >= k.day
                           && IsLive(s.transfers[id]);
      && (phase' == Over(Some(Refusal(LimitExceeded))) <==> Amounts(s.transfers, live) + k.phase.intent.amount > s.cfg.dailyLimit)
      && (phase'.Summed? <==> Amounts(s.transfers, live) + k.phase.intent.amount <= s.cfg.dailyLimit)
  {
    var k := s.confirms[c];
    var live := set id | id in s.transfers && s.transfers[id].sender == k.sender && s.transfers[id].day >= k.day
                         && IsLive(s.transfers[id]);
    ReservedIs(s.transfers, k.sender, k.day, live);
    hide ReservedSince, WorldEnabled, RowEnabled, AttemptEnabled, DoWorld, DoRow, DoAttempt;
  }

  lemma ReservedIs(ts: Rows, sender: string, day: int, live: set<string>)
    requires live == set id | id in ts && ts[id].sender == sender && ts[id].day >= day && IsLive(ts[id])
    ensures ReservedSince(ts, sender, day) == Amounts(ts, live)
  {
    var f: string -> int := id => if id in ts then WeightSince(ts[id], sender, day) else 0;
    SumSame(ts.Keys, f, id => if id in ts then WeightSince(ts[id], sender, day) else 0);
    SumRestrict(ts.Keys, live, f);
    SumSame(live, f, id => if id in ts then ts[id].amount else 0);
  }

  /** Any live transfers of one sender and one day together stay within the limit, in every state of such a run. */
  lemma LiveWithinLimit(run: seq<State>, steps: seq<Step>, i: nat, sender: string, day: int, ids: set<string>)
    requires IsRun(run, steps) && RoomAlways(run, steps) && i < |run|
    requires forall id :: id in ids ==>
      id in run[i].transfers && run[i].transfers[id].sender == sender && run[i].transfers[id].day == day
      && IsLive(run[i].transfers[id])
    ensures Amounts(run[i].transfers, ids) <= run[i].cfg.dailyLimit
  {
    hide RoomAlways, IsRun, Inv, DaySum;
    LimitHolds(run, steps, i, sender, day);
    RunKeepsInv(run, steps, i);
    forall id | id in run[i].transfers ensures run[i].transfers[id].amount > 0 { RowAmount(run[i], id); }
    LivePart(run[i].transfers, sender, day, ids);
  }

  lemma LivePart(ts: Rows, sender: string, day: int, ids: set<string>)
    requires forall id :: id in ts ==> ts[id].amount > 0
    requires forall id :: id in ids ==> id in ts && ts[id].sender == sender && ts[id].day == day && IsLive(ts[id])
    ensures Amounts(ts, ids) <= DaySum(ts, sender, day)
  {
    var f: string -> int := id => if id in ts then Weight(ts[id], sender, day) else 0;
    SumSame(ts.Keys, f, id => if id in ts then Weight(ts[id], sender, day) else 0);
    SumPart(ts.Keys, ids, f);
    SumSame(ids, f, id => if id in ts then ts[id].amount else 0);
  }

  lemma RowAmount(s: State, id: string)
    requires Inv(s) && id in s.transfers
    ensures s.transfers[id].amount > 0
  {
    hide Safe, WalletsOk, RecordsOk, AttemptsOk, CompletedOk, ConfirmsOk, RowsOk, IntentsOk;
    RowAt(s.transfers, s.intents, s.wallets, id);
  }
}
