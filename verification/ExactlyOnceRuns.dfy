/** Every step, and so every run, keeps the exactly-once invariant; what follows for each transfer. */
module ExactlyOnceRuns {
  import opened Wrappers
  import opened Postings
  import opened Ledger
  import opened LedgerSafety
  import opened Payments
  import opened ExactlyOnce

  lemma AttemptAt(xs: map<nat, Attempt>, ts: Rows, ws: Wallets, rs: Records, a: nat)
    requires AttemptsOk(xs, ts, ws, rs) && a in xs
    ensures AttemptOk(xs[a], ts, ws, rs)
  {
  }

  lemma RowAt(ts: Rows, ints: Intents, ws: Wallets, id: string)
    requires RowsOk(ts, ints) && IntentsOk(ints, ws) && id in ts
    ensures ts[id].intentId in ints && RowOfIntent(ts[id], ints[ts[id].intentId])
    ensures PartiesOk(ws, ints[ts[id].intentId])
  {
  }

  lemma SettledAt(ts: Rows, rs: Records, id: string)
    requires CompletedOk(ts, rs) && id in ts
    ensures RowSettled(id, ts[id], rs)
  {
  }

  lemma ConfirmMoveKeepsInv(s: State, step: Step)
    requires Inv(s) && Enabled(s, step)
    requires MovesConfirm(step)
    ensures Inv(Do(s, step))
  {
    ConfirmMoveOk(s, step);
    PutConfirm(s, step.c, Do(s, step).confirms[step.c]);
  }

  lemma PutConfirm(s: State, c: nat, k: Confirm)
    requires Inv(s) && ConfirmOk(k, s.intents)
    ensures Inv(s.(confirms := s.confirms[c := k]))
  {
    hide Safe, WalletsOk, IntentsOk, RowsOk, RecordsOk, AttemptsOk, CompletedOk, ConfirmsOk, ConfirmOk;
    ConfirmPut(s.confirms, s.intents, c, k);
  }

  /** Wallets, references and the ledger's accounts may grow; the ledger may gain foreign records. */
  lemma GrowthKeepsInv(s: State, s': State)
    requires Inv(s) && Safe(s'.ledger) && WalletsOk(s'.wallets, s'.byReference, s'.ledger.accounts)
    requires s'.cfg == s.cfg && s'.intents == s.intents && s'.transfers == s.transfers
    requires s'.confirms == s.confirms && s'.attempts == s.attempts
    requires WalletsGrew(s.wallets, s'.wallets) && RecordsGrew(s.ledger.records, s'.ledger.records)
    requires forall k :: k in s'.ledger.records && k !in s.ledger.records ==> !("transfer:" <= k)
    ensures Inv(s')
  {
    assert RowsKept(s.transfers, s'.transfers);
    hide Safe, WalletsOk, IntentsOk, RowsOk, RecordsOk, AttemptsOk, CompletedOk, ConfirmsOk;
    IntentsCarry(s.intents, s.wallets, s'.wallets);
    RecordsCarry(s.ledger.records, s'.ledger.records, s.transfers, s'.transfers, s.wallets, s'.wallets);
    AttemptsCarry(s.attempts, s.transfers, s'.transfers, s.wallets, s'.wallets, s.ledger.records, s'.ledger.records);
    CompletedCarries(s.transfers, s.ledger.records, s'.ledger.records);
  }

  lemma NewWallet(ws: Wallets, byReference: map<string, string>, accounts: map<string, Account>, id: string, w: Wallet,
                  accounts': map<string, Account>)
    requires WalletsOk(ws, byReference, accounts) && id !in ws && w.reference !in byReference
    requires w.ledgerAccount !in accounts && accounts'.Keys == accounts.Keys + {w.ledgerAccount}
    ensures WalletsOk(ws[id := w], byReference[w.reference := id], accounts') && WalletsGrew(ws, ws[id := w])
  {
    forall a ensures a in accounts' <==> a in accounts || a == w.ledgerAccount { assert a in accounts'.Keys <==> a in accounts'; }
  }

  lemma OpenWalletKeepsInv(s: State, id: string, w: Wallet)
    requires Inv(s) && Enabled(s, OpenWallet(id, w))
    ensures Inv(Do(s, OpenWallet(id, w)))
  {
    hide Safe, WalletsOk, IntentsOk, RowsOk, RecordsOk, AttemptsOk, CompletedOk, ConfirmsOk, WalletsGrew;
    var s' := Do(s, OpenWallet(id, w));
    OpenedSafe(s.ledger, Opened(w.ledgerAccount, w.currency, Liability, false));
    NewWallet(s.wallets, s.byReference, s.ledger.accounts, id, w, s'.ledger.accounts);
    GrowthKeepsInv(s, s');
  }

  lemma StatusOnly(ws: Wallets, byReference: map<string, string>, accounts: map<string, Account>, id: string, w: Wallet)
    requires WalletsOk(ws, byReference, accounts) && id in ws && w.(status := Active) == ws[id].(status := Active)
    ensures WalletsOk(ws[id := w], byReference, accounts) && WalletsGrew(ws, ws[id := w])
  {
    assert w.(status := Active).reference == w.reference && w.(status := Active).ledgerAccount == w.ledgerAccount;
    assert ws[id].(status := Active).reference == ws[id].reference;
    assert ws[id].(status := Active).ledgerAccount == ws[id].ledgerAccount;
  }

  lemma SetStatusKeepsInv(s: State, id: string, status: WalletStatus)
    requires Inv(s) && Enabled(s, SetStatus(id, status))
    ensures Inv(Do(s, SetStatus(id, status)))
  {
    hide Safe, WalletsOk, IntentsOk, RowsOk, RecordsOk, AttemptsOk, CompletedOk, ConfirmsOk, WalletsGrew;
    StatusOnly(s.wallets, s.byReference, s.ledger.accounts, id, s.wallets[id].(status := status));
    GrowthKeepsInv(s, Do(s, SetStatus(id, status)));
  }

  lemma OpenLedgerAccountKeepsInv(s: State, e: Entry)
    requires Inv(s) && Enabled(s, OpenLedgerAccount(e))
    ensures Inv(Do(s, OpenLedgerAccount(e)))
  {
    hide Safe, IntentsOk, RowsOk, RecordsOk, AttemptsOk, CompletedOk, ConfirmsOk;
    OpenedSafe(s.ledger, e);
    GrowthKeepsInv(s, Do(s, OpenLedgerAccount(e)));
  }

  lemma ForeignCallKeepsInv(s: State, call: Call)
    requires Inv(s) && Enabled(s, ForeignCall(call))
    ensures Inv(Do(s, ForeignCall(call)))
  {
    hide Safe, IntentsOk, RowsOk, RecordsOk, AttemptsOk, CompletedOk, ConfirmsOk, Exec;
    ExecSafe(s.ledger, call);
    ExecGrows(s.ledger, call);
    GrowthKeepsInv(s, Do(s, ForeignCall(call)));
  }

  lemma CreateIntentKeepsInv(s: State, step: Step)
    requires Inv(s) && step.CreateIntent? && Enabled(s, step)
    ensures Inv(Do(s, step))
  {
    hide Safe, RowsOk, IntentsOk, RecordsOk, AttemptsOk, CompletedOk, ConfirmsOk;
    var s' := Do(s, step);
    var i := s'.intents[step.token];
    ConfirmsCarry(s.confirms, s.intents, s'.intents);
    NewIntentRows(s.transfers, s.intents, step.token, i);
    assert PartiesOk(s.wallets, i);
    hide WalletsOk;
    IntentPut(s.intents, s.wallets, step.token, i);
  }

  lemma IntentPut(ints: Intents, ws: Wallets, token: string, i: Intent)
    requires IntentsOk(ints, ws) && PartiesOk(ws, i)
    ensures IntentsOk(ints[token := i], ws)
  {
  }

  lemma NewIntentRows(ts: Rows, ints: Intents, token: string, i: Intent)
    requires RowsOk(ts, ints) && token !in ints && !i.consumed
    ensures RowsOk(ts, ints[token := i])
  {
    assert !IntentUsed(ts, token);
  }

  lemma AuthorizeWriteKeepsInv(s: State, token: string)
    requires Inv(s) && Enabled(s, AuthorizeWrite(token))
    ensures Inv(Do(s, AuthorizeWrite(token)))
  {
    hide Safe, WalletsOk, RowsOk, IntentsOk, RecordsOk, AttemptsOk, CompletedOk, ConfirmsOk;
    AuthorizedConfirms(s.confirms, s.intents, token);
    AuthorizedRows(s.transfers, s.intents, token);
    AuthorizedParties(s.intents, s.wallets, token);
  }

  lemma AuthorizedParties(ints: Intents, ws: Wallets, token: string)
    requires IntentsOk(ints, ws) && token in ints
    ensures IntentsOk(ints[token := ints[token].(authorized := true)], ws)
  {
    assert PartiesOk(ws, ints[token]);
  }

  lemma AuthorizedConfirms(ks: map<nat, Confirm>, ints: Intents, token: string)
    requires ConfirmsOk(ks, ints) && token in ints
    ensures ConfirmsOk(ks, ints[token := ints[token].(authorized := true)])
  {
    assert Terms(ints[token].(authorized := true)) == Terms(ints[token]);
    ConfirmsCarry(ks, ints, ints[token := ints[token].(authorized := true)]);
  }

  lemma AuthorizedRows(ts: Rows, ints: Intents, token: string)
    requires RowsOk(ts, ints) && token in ints
    ensures RowsOk(ts, ints[token := ints[token].(authorized := true)])
  {
    var ints' := ints[token := ints[token].(authorized := true)];
    forall id | id in ts ensures RowOfIntent(ts[id], ints'[ts[id].intentId]) {
      assert RowOfIntent(ts[id], ints[ts[id].intentId]);
    }
  }

  lemma ConfirmCommitKeepsInv(s: State, c: nat, id: string, reference: string)
    requires Inv(s) && Enabled(s, ConfirmCommit(c, id, reference))
    ensures Inv(Do(s, ConfirmCommit(c, id, reference)))
  {
    hide Safe, WalletsOk, RecordsOk, AttemptsOk, CompletedOk, RowsOk, ConfirmsOk, IntentsOk, IntentUsed, HasKey;
    var k, s' := s.confirms[c], Do(s, ConfirmCommit(c, id, reference));
    ConfirmAt(s.confirms, s.intents, c);
    if IntentUsed(s.transfers, k.token) || HasKey(s.transfers, k.sender, k.key) || k.token !in s.intents {
      PutConfirm(s, c, s'.confirms[c]);
    } else {
      CommitCreates(s, c, id, reference);
    }
  }

  lemma ConfirmAt(ks: map<nat, Confirm>, ints: Intents, c: nat)
    requires ConfirmsOk(ks, ints) && c in ks
    ensures ConfirmOk(ks[c], ints)
  {
  }

  lemma ConsumedParties(ints: Intents, ws: Wallets, token: string)
    requires IntentsOk(ints, ws) && token in ints
    ensures IntentsOk(ints[token := ints[token].(consumed := true)], ws)
  {
    assert PartiesOk(ws, ints[token]);
  }

  lemma ConsumedConfirms(ks: map<nat, Confirm>, ints: Intents, token: string)
    requires ConfirmsOk(ks, ints) && token in ints
    ensures ConfirmsOk(ks, ints[token := ints[token].(consumed := true)])
  {
    assert Terms(ints[token].(consumed := true)) == Terms(ints[token]);
    ConfirmsCarry(ks, ints, ints[token := ints[token].(consumed := true)]);
  }

  lemma NewRowKept(ts: Rows, id: string, row: Transfer)
    requires id !in ts
    ensures RowsKept(ts, ts[id := row])
  {
  }

  lemma CommitCreates(s: State, c: nat, id: string, reference: string)
    requires Inv(s) && Enabled(s, ConfirmCommit(c, id, reference)) && ConfirmOk(s.confirms[c], s.intents)
    requires !IntentUsed(s.transfers, s.confirms[c].token)
    requires !HasKey(s.transfers, s.confirms[c].sender, s.confirms[c].key) && s.confirms[c].token in s.intents
    ensures Inv(Do(s, ConfirmCommit(c, id, reference)))
  {
    hide Safe, WalletsOk, RecordsOk, AttemptsOk, CompletedOk, RowsOk, ConfirmsOk, IntentsOk, IntentUsed, HasKey, ConfirmOk;
    hide WalletsGrew, RecordsGrew, RowsKept, RowSettled;
    var k := s.confirms[c];
    var row := NewRow(k, reference);
    CommitRows(s.transfers, s.intents, k, id, reference);
    ConfirmPut(s.confirms, s.intents, c, k.(phase := Over(Some(Created(id))))) by {
      OverIsOk(k, Over(Some(Created(id))), s.intents);
    }
    ConsumedConfirms(s.confirms[c := k.(phase := Over(Some(Created(id))))], s.intents, k.token);
    ConsumedParties(s.intents, s.wallets, k.token);
    NewRowKept(s.transfers, id, row);
    NothingLost(s.wallets, s.ledger.records);
    RecordsCarry(s.ledger.records, s.ledger.records, s.transfers, s.transfers[id := row], s.wallets, s.wallets);
    AttemptsCarry(s.attempts, s.transfers, s.transfers[id := row], s.wallets, s.wallets, s.ledger.records, s.ledger.records);
    CompletedPut(s.transfers, s.ledger.records, id, row) by { ProcessingIsSettled(id, row, s.ledger.records); }
  }

  lemma OverIsOk(k: Confirm, phase: ConfirmPhase, ints: Intents)
    requires phase.Over?
    ensures ConfirmOk(k.(phase := phase), ints)
  {
  }

  lemma NothingLost(ws: Wallets, rs: Records)
    ensures WalletsGrew(ws, ws) && RecordsGrew(rs, rs)
  {
  }

  lemma ProcessingIsSettled(id: string, row: Transfer, rs: Records)
    requires row.status == Processing
    ensures RowSettled(id, row, rs)
  {
  }

  /** A row changes only outside its core, and is settled only as the records allow. */
  lemma SetRowKeepsInv(s: State, id: string, row: Transfer)
    requires Inv(s) && id in s.transfers && Core(row) == Core(s.transfers[id])
    requires RowSettled(id, row, s.ledger.records)
    ensures Inv(SetRow(s, id, row))
  {
    hide Safe, WalletsOk, IntentsOk, RowsOk, RecordsOk, AttemptsOk, CompletedOk, ConfirmsOk, RowSettled;
    RowsCarry(s.transfers, s.intents, id, row);
    RecordsCarry(s.ledger.records, s.ledger.records, s.transfers, s.transfers[id := row], s.wallets, s.wallets);
    AttemptsCarry(s.attempts, s.transfers, s.transfers[id := row], s.wallets, s.wallets, s.ledger.records, s.ledger.records);
    CompletedPut(s.transfers, s.ledger.records, id, row);
  }

  lemma AttemptToKeepsInv(s: State, a: nat, x: Attempt)
    requires Inv(s) && AttemptOk(x, s.transfers, s.wallets, s.ledger.records)
    ensures Inv(AttemptTo(s, a, x))
  {
    hide Safe, WalletsOk, IntentsOk, RowsOk, RecordsOk, AttemptsOk, CompletedOk, ConfirmsOk, AttemptOk;
    AttemptPut(s.attempts, s.transfers, s.wallets, s.ledger.records, a, x);
  }

  lemma SettleSendKeepsInv(s: State, a: nat, id: string)
    requires Inv(s) && Enabled(s, SettleSend(a, id))
    ensures Inv(Do(s, SettleSend(a, id)))
  {
    hide Safe, WalletsOk, IntentsOk, RowsOk, RecordsOk, AttemptsOk, CompletedOk, ConfirmsOk;
    var row := s.transfers[id].(owed := s.transfers[id].owed - 1, calls := s.transfers[id].calls + 1);
    RowStepKeepsInv(s, id, row);
    AttemptToKeepsInv(SetRow(s, id, row), a, Attempt(id, true, Sent, false));
  }

  lemma RowStepKeepsInv(s: State, id: string, row: Transfer)
    requires Inv(s) && id in s.transfers && Core(row) == Core(s.transfers[id])
    requires row.status == s.transfers[id].status || row.status == RequiresReview
    requires row.journalId == s.transfers[id].journalId
    ensures Inv(SetRow(s, id, row))
  {
    hide Safe, WalletsOk, IntentsOk, RowsOk, RecordsOk, AttemptsOk, CompletedOk, ConfirmsOk;
    SettledAt(s.transfers, s.ledger.records, id);
    SetRowKeepsInv(s, id, row);
  }

  lemma LedgerResolveKeepsInv(s: State, a: nat, newId: string)
    requires Inv(s) && Enabled(s, LedgerResolve(a, newId))
    ensures Inv(Do(s, LedgerResolve(a, newId)))
  {
    hide Safe, WalletsOk, IntentsOk, RowsOk, RecordsOk, AttemptsOk, CompletedOk, ConfirmsOk, Precheck;
    var at := s.attempts[a];
    AttemptAt(s.attempts, s.transfers, s.wallets, s.ledger.records, a);
    RowAt(s.transfers, s.intents, s.wallets, at.transfer);
    ResolveIsStable(s, at.transfer, newId);
    hide RowOfIntent, PartiesOk;
    AttemptToKeepsInv(s, a, Do(s, LedgerResolve(a, newId)).attempts[a]);
  }

  /** A call waiting to be posted is its transfer's own, and well formed. */
  lemma PendingCallBalanced(s: State, a: nat)
    requires Inv(s) && a in s.attempts && s.attempts[a].server.Prechecked?
    ensures
      var at, call := s.attempts[a], s.attempts[a].server.call;
      && at.transfer in s.transfers && HasWallets(s.transfers[at.transfer], s.wallets)
      && call == CallOf(at.transfer, s.transfers[at.transfer], s.wallets, call.newId)
      && Balanced(call.postings) && DistinctIds(call.postings) && !at.posted
  {
    hide Safe, WalletsOk, IntentsOk, RowsOk, RecordsOk, AttemptsOk, CompletedOk, ConfirmsOk;
    var at := s.attempts[a];
    AttemptAt(s.attempts, s.transfers, s.wallets, s.ledger.records, a);
    RowAt(s.transfers, s.intents, s.wallets, at.transfer);
    CallBalanced(at.transfer, s.transfers[at.transfer], s.intents, s.wallets, s.byReference, s.ledger.accounts,
      at.server.call);
  }

  /**
   * The heart of exactly-once: whatever the Ledger holds under a transfer's key was left by the same call,
   * so no settle of any transfer, in any reachable state, is ever answered with an idempotency conflict.
   */
  lemma SettleNeverConflicts(s: State, a: nat)
    requires Inv(s) && a in s.attempts && s.attempts[a].server.Prechecked?
    ensures
      match Exec(s.ledger, s.attempts[a].server.call).1
      case Posted(result, _) =>
        var rs := Exec(s.ledger, s.attempts[a].server.call).0.records;
        TransferKey(s.attempts[a].transfer) in rs && rs[TransferKey(s.attempts[a].transfer)].response == Some(result)
      case Refused(error) =>
        error != IdempotencyConflict && error != IdempotencyInProgress && error != UnbalancedJournal
  {
    hide Safe, WalletsOk, IntentsOk, RowsOk, RecordsOk, AttemptsOk, CompletedOk, ConfirmsOk, Exec;
    PendingCallBalanced(s, a);
    PostNeverConflicts(s.ledger, s.attempts[a].transfer, s.transfers, s.wallets, s.attempts[a].server.call);
  }

  lemma LedgerPostKeepsInv(s: State, a: nat, clashStatus: nat)
    requires Inv(s) && Enabled(s, LedgerPost(a, clashStatus))
    ensures Inv(Do(s, LedgerPost(a, clashStatus)))
  {
    hide Safe, WalletsOk, IntentsOk, RowsOk, RecordsOk, AttemptsOk, CompletedOk, ConfirmsOk, Exec, Balanced, DistinctIds;
    hide WalletsGrew, RecordsGrew, RowsKept;
    var at, s' := s.attempts[a], Do(s, LedgerPost(a, clashStatus));
    var call := at.server.call;
    PendingCallBalanced(s, a);
    SettleNeverConflicts(s, a);
    ExecSafe(s.ledger, call);
    ExecGrows(s.ledger, call);
    SameAccounts(s.wallets, s.byReference, s.ledger.accounts, s'.ledger.accounts);
    PostRecords(s.ledger, at.transfer, s.transfers, s.wallets, call);
    NothingLost(s.wallets, s.ledger.records);
    SameRowsKept(s.transfers);
    AttemptsCarry(s.attempts, s.transfers, s.transfers, s.wallets, s.wallets, s.ledger.records, s'.ledger.records);
    CompletedCarries(s.transfers, s.ledger.records, s'.ledger.records);
    AttemptPut(s.attempts, s.transfers, s.wallets, s'.ledger.records, a, s'.attempts[a]);
  }

  lemma RowSetKept(ts: Rows, id: string, row: Transfer)
    requires id in ts && Core(row) == Core(ts[id])
    ensures RowsKept(ts, ts[id := row])
  {
  }

  lemma SameRowsKept(ts: Rows)
    ensures RowsKept(ts, ts)
  {
  }

  lemma SameAccounts(ws: Wallets, byReference: map<string, string>, accounts: map<string, Account>, accounts': map<string, Account>)
    requires WalletsOk(ws, byReference, accounts) && accounts'.Keys == accounts.Keys
    ensures WalletsOk(ws, byReference, accounts')
  {
    assert forall id :: id in accounts ==> id in accounts';
  }

  lemma AttemptStepKeepsInv(s: State, step: Step)
    requires Inv(s) && Enabled(s, step) && (step.ServerError? || step.ClientTimeout?)
    ensures Inv(Do(s, step))
  {
    hide Safe, WalletsOk, IntentsOk, RowsOk, RecordsOk, AttemptsOk, CompletedOk, ConfirmsOk;
    AttemptAt(s.attempts, s.transfers, s.wallets, s.ledger.records, step.a);
    AttemptToKeepsInv(s, step.a, Do(s, step).attempts[step.a]);
  }

  lemma ClientReceiveKeepsInv(s: State, a: nat)
    requires Inv(s) && Enabled(s, ClientReceive(a))
    ensures Inv(Do(s, ClientReceive(a)))
  {
    hide Safe, WalletsOk, IntentsOk, RowsOk, RecordsOk, AttemptsOk, CompletedOk, ConfirmsOk;
    var at := s.attempts[a];
    var row := SettledRow(s.transfers[at.transfer], at.server.answer);
    AttemptAt(s.attempts, s.transfers, s.wallets, s.ledger.records, a);
    SettledAt(s.transfers, s.ledger.records, at.transfer);
    hide RowsKept, WalletsGrew, RecordsGrew;
    SetRowKeepsInv(s, at.transfer, row);
    NothingLost(s.wallets, s.ledger.records);
    RowSetKept(s.transfers, at.transfer, row);
    var s1 := SetRow(s, at.transfer, row);
    AttemptCarries(at, s.transfers, s1.transfers, s.wallets, s.wallets, s.ledger.records, s.ledger.records);
    AttemptToKeepsInv(s1, a, at.(waiting := false));
  }

  lemma StepKeepsInv(s: State, step: Step)
    requires Inv(s) && Enabled(s, step)
    ensures Inv(Do(s, step))
  {
    hide Safe, WalletsOk, IntentsOk, RowsOk, RecordsOk, AttemptsOk, CompletedOk, ConfirmsOk, Exec, Precheck;
    match step
    case Tick(now) => assert Inv(s.(now := now));
    case AuthorizeRead(_, _) => assert Inv(Do(s, step));
    case OpenWallet(id, w) => OpenWalletKeepsInv(s, id, w);
    case SetStatus(id, status) => SetStatusKeepsInv(s, id, status);
    case OpenLedgerAccount(e) => OpenLedgerAccountKeepsInv(s, e);
    case ForeignCall(call) => ForeignCallKeepsInv(s, call);
    case CreateIntent(_, _, _, _, _, _) => CreateIntentKeepsInv(s, step);
    case AuthorizeWrite(token) => AuthorizeWriteKeepsInv(s, token);
    case ConfirmCommit(c, id, reference) => ConfirmCommitKeepsInv(s, c, id, reference);
    case SettleSend(a, id) => SettleSendKeepsInv(s, a, id);
    case SettleDropped(id) => RowStepKeepsInv(s, id, s.transfers[id].(owed := s.transfers[id].owed - 1));
    case LedgerResolve(a, newId) => LedgerResolveKeepsInv(s, a, newId);
    case LedgerPost(a, clashStatus) => LedgerPostKeepsInv(s, a, clashStatus);
    case ServerError(_, _) => AttemptStepKeepsInv(s, step);
    case ClientTimeout(_) => AttemptStepKeepsInv(s, step);
    case ClientReceive(a) => ClientReceiveKeepsInv(s, a);
    case ClaimRetry(id) =>
      RowStepKeepsInv(s, id, s.transfers[id].(attempts := s.transfers[id].attempts + 1, owed := s.transfers[id].owed + 1));
    case ClaimReview(id) =>
      RowStepKeepsInv(s, id, s.transfers[id].(status := RequiresReview, attempts := s.transfers[id].attempts + 1));
    case _ => ConfirmMoveKeepsInv(s, step);
  }

  lemma StartInv(cfg: Config)
    requires GoodConfig(cfg)
    ensures Inv(Start(cfg))
  {
  }

  lemma {:induction false} RunKeepsInv(run: seq<State>, steps: seq<Step>, i: nat)
    requires IsRun(run, steps) && i < |run|
    ensures Inv(run[i])
  {
    hide Do, Enabled, Inv;
    if i > 0 {
      RunKeepsInv(run, steps, i - 1);
      StepKeepsInv(run[i - 1], steps[i - 1]);
    } else {
      StartInv(run[0].cfg);
    }
  }

  lemma ReachableInv(s: State)
    requires Reachable(s)
    ensures Inv(s)
  {
    var run, steps :| IsRun(run, steps) && run[|run| - 1] == s;
    RunKeepsInv(run, steps, |run| - 1);
  }
}
