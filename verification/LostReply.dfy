/**
 * A run in which a reply is lost and the retry is refused: the row is FAILED although its journal exists,
 * and the late reply then takes the sender over the daily limit.
 */
module LostReply {
  import opened Wrappers
  import opened Sums
  import opened Postings
  import opened Ledger
  import opened Payments
  import opened DailyLimit
  import opened Frames
  import opened ExactlyOnce
  import opened ExactlyOnceRuns
  import opened Outcomes

  const CFG := Config(1, 100, 100, 5)
  const SOURCE := Wallet("ann", "RA", "LKR", "la", Active)
  const TARGET := Wallet("bob", "RB", "LKR", "lb", Active)
  const TERMS := Intent("ann", "a", "RB", "b", "LKR", 100, 10, false, false)

  lemma Next(s: State, step: Step)
    requires Reachable(s) && Enabled(s, step)
    ensures Reachable(Do(s, step))
  {
    hide Do, Enabled;
    var run, steps :| IsRun(run, steps) && run[|run| - 1] == s;
    var run', steps' := run + [Do(s, step)], steps + [step];
    assert IsRun(run', steps');
    assert run'[|run'| - 1] == Do(s, step);
  }

  // ---------- a posting of two legs that the Ledger accepts ----------

  lemma TwoLegs(x: string, y: string, amount: int)
    requires x != y && amount > 0
    ensures
      var ps := TransferPostings(x, y, amount);
      && Balanced(ps) && (forall id :: id in AccountOrder(ps) <==> id == x || id == y)
      && Total(ps, x, Debit) == amount && Total(ps, x, Credit) == 0
      && Total(ps, y, Debit) == 0 && Total(ps, y, Credit) == amount
  {
    var ps := TransferPostings(x, y, amount);
    var p, q := ps[0], ps[1];
    assert ps == [] + [p] + [q];
    forall id, d ensures Total(ps, id, d) ==
      (if p.Id() == (id, d) then p.amount else 0) + if q.Id() == (id, d) then q.amount else 0
    {
      TotalAppend([], p, id, d);
      TotalAppend([] + [p], q, id, d);
    }
    forall d ensures Sum(ps, d) == amount {
      SumAppend([], p, d);
      SumAppend([] + [p], q, d);
    }
    AccountOrderAscends(ps);
    assert ps[0].account == x && ps[1].account == y;
  }

  lemma TwoLegPost(db: Db, call: Call, x: string, y: string, amount: int)
    requires call.postings == TransferPostings(x, y, amount) && x != y && amount > 0
    requires x in db.accounts && y in db.accounts && call.key !in db.records
    requires db.accounts[x].currency == call.currency == db.accounts[y].currency
    requires db.accounts[x].allowNegative || (db.accounts[x].cls.Liability? && db.accounts[x].Balance() >= amount)
    requires db.accounts[y].cls.Liability? && db.accounts[y].Balance() >= 0
    requires !ReferenceExists(db.journals, call.ReferenceUsed())
    ensures Exec(db, call).1 == Posted(ResultOf(call), false)
    ensures Exec(db, call).0 == Credited(db, call)
    ensures var out := Credited(db, call).accounts;
      && out.Keys == db.accounts.Keys
      && out[x] == db.accounts[x].(debit := db.accounts[x].debit + amount, version := db.accounts[x].version + 1)
      && out[y] == db.accounts[y].(credit := db.accounts[y].credit + amount, version := db.accounts[y].version + 1)
      && forall id :: id in out && id != x && id != y ==> out[id] == db.accounts[id]
  {
    TwoLegs(x, y, amount);
    hide Balanced, Total, AccountOrder;
    TwoLegsPass(db, call, x, y, amount);
    hide Verdict, Locked, ReferenceExists;
    assert call.Accounts() == AccountOrder(call.postings);
  }

  lemma TwoLegsPass(db: Db, call: Call, x: string, y: string, amount: int)
    requires x in db.accounts && y in db.accounts
    requires db.accounts[x].currency == call.currency == db.accounts[y].currency
    requires db.accounts[x].allowNegative || (db.accounts[x].cls.Liability? && db.accounts[x].Balance() >= amount)
    requires db.accounts[y].cls.Liability? && db.accounts[y].Balance() >= 0 && amount > 0 && x != y
    requires forall id :: id in AccountOrder(call.postings) <==> id == x || id == y
    requires Total(call.postings, x, Debit) == amount && Total(call.postings, x, Credit) == 0
    requires Total(call.postings, y, Debit) == 0 && Total(call.postings, y, Credit) == amount
    ensures Verdict(Locked(db.accounts, call.Accounts()), call).None?
  {
    hide Total, AccountOrder;
    var locked := Locked(db.accounts, call.Accounts());
    assert forall id :: id in locked <==> id == x || id == y;
    hide Locked;
    assert Solvent(Projected(locked[x], x, call.postings)) && Solvent(Projected(locked[y], y, call.postings));
  }

  // ---------- opening two wallets and funding one ----------

  const FUNDING := Call("fund", "CASH_IN", "LKR", Some("F1"), "Funding", None, map[], TransferPostings("s", "la", 100), "j0", "F1")

  /** The state in which ann's wallet holds 100 and nothing else has happened. */
  ghost predicate Funded(s: State) {
    && s.cfg == CFG && s.now == 0 && s.wallets == map["a" := SOURCE, "b" := TARGET]
    && s.byReference == map["RA" := "a", "RB" := "b"]
    && s.intents == map[] && s.transfers == map[] && s.confirms == map[] && s.attempts == map[]
    && Holds(s.ledger, 100) && s.ledger.records.Keys == {"fund"}
    && (forall i :: 0 <= i < |s.ledger.journals| ==> s.ledger.journals[i].reference == "F1")
  }

  /** ann's ledger account holds this much, bob's can be credited. */
  ghost predicate Holds(db: Db, amount: int) {
    && "la" in db.accounts && "lb" in db.accounts
    && db.accounts["la"].cls == Liability && db.accounts["la"].currency == "LKR" && db.accounts["la"].Balance() == amount
    && db.accounts["lb"].cls == Liability && db.accounts["lb"].currency == "LKR" && db.accounts["lb"].Balance() >= 0
  }

  lemma CanFund() returns (s: State)
    ensures Reachable(s) && Funded(s)
  {
    hide IsRun, Reachable, Do, Enabled, Exec, CreditedAccounts;
    var s3 := CanOpen();
    TwoLegPost(s3.ledger, FUNDING, "s", "la", 100);
    FundingIsForeign();
    ForeignPosts(s3, FUNDING);
    Next(s3, ForeignCall(FUNDING));
    s := Do(s3, ForeignCall(FUNDING));
  }

  lemma ForeignPosts(s: State, call: Call)
    requires DistinctIds(call.postings) && !("transfer:" <= call.key)
    ensures Enabled(s, ForeignCall(call)) && Do(s, ForeignCall(call)) == s.(ledger := Exec(s.ledger, call).0)
  {
    hide Exec;
  }

  const CASH := Opened("s", "LKR", Asset, true)
  const ANN := Opened("la", "LKR", Liability, false)
  const BOB := Opened("lb", "LKR", Liability, false)

  lemma CanOpen() returns (s: State)
    ensures Reachable(s)
    ensures s == Start(CFG).(wallets := map["a" := SOURCE, "b" := TARGET], byReference := map["RA" := "a", "RB" := "b"],
      ledger := Db(map["s" := Opening(CASH), "la" := Opening(ANN), "lb" := Opening(BOB)], [], map[]))
  {
    hide IsRun, Reachable;
    var s0 := Start(CFG);
    StartReachable();
    var s1 := Do(s0, OpenLedgerAccount(CASH));
    Next(s0, OpenLedgerAccount(CASH));
    assert s1 == s0.(ledger := Db(map["s" := Opening(CASH)], [], map[]));
    var s2 := OpenOne(s1, "a", SOURCE);
    assert s2.wallets == map["a" := SOURCE] && s2.byReference == map["RA" := "a"];
    assert s2.ledger == Db(map["s" := Opening(CASH), "la" := Opening(ANN)], [], map[]);
    s := OpenOne(s2, "b", TARGET);
    assert s.wallets == map["a" := SOURCE, "b" := TARGET] && s.byReference == map["RA" := "a", "RB" := "b"];
    assert s.ledger == Db(map["s" := Opening(CASH), "la" := Opening(ANN), "lb" := Opening(BOB)], [], map[]);
  }

  lemma StartReachable()
    ensures Reachable(Start(CFG))
  {
    assert IsRun([Start(CFG)], []) && [Start(CFG)][|[Start(CFG)]| - 1] == Start(CFG);
  }

  lemma OpenOne(s: State, id: string, w: Wallet) returns (s': State)
    requires Reachable(s) && id !in s.wallets && w.reference !in s.byReference && w.ledgerAccount !in s.ledger.accounts
    ensures Reachable(s')
    ensures s' == s.(wallets := s.wallets[id := w], byReference := s.byReference[w.reference := id],
      ledger := s.ledger.(accounts := s.ledger.accounts[w.ledgerAccount := Account(w.currency, Liability, false, 0, 0, 0)]))
  {
    hide IsRun, Reachable;
    s' := Do(s, OpenWallet(id, w));
    Next(s, OpenWallet(id, w));
  }

  lemma FundingIsForeign()
    ensures DistinctIds(FUNDING.postings) && !("transfer:" <= FUNDING.key)
  {
  }

  // ---------- one intent, prepared and confirmed with nobody else about ----------

  lemma Prepare(s: State, token: string) returns (s': State)
    requires Reachable(s) && s.cfg == CFG && s.now == 0 && token !in s.intents
    requires s.wallets == map["a" := SOURCE, "b" := TARGET] && s.byReference == map["RA" := "a", "RB" := "b"]
    ensures Reachable(s')
    ensures s' == s.(intents := s.intents[token := TERMS.(authorized := true)], authorizing := s.authorizing + {token})
  {
    hide Do, Enabled, Reachable;
    var step := CreateIntent(token, "ann", "a", "RB", 100, 10);
    CreatesTerms(s, token);
    Next(s, step);
    var s1 := Do(s, step);
    ReadsIntent(s1, token);
    Next(s1, AuthorizeRead(token, "ann"));
    var s2 := Do(s1, AuthorizeRead(token, "ann"));
    WritesIntent(s2, token);
    Next(s2, AuthorizeWrite(token));
    s' := Do(s2, AuthorizeWrite(token));
    assert s'.intents == s.intents[token := TERMS.(authorized := true)];
  }

  lemma CreatesTerms(s: State, token: string)
    requires s.cfg == CFG && token !in s.intents
    requires s.wallets == map["a" := SOURCE, "b" := TARGET] && s.byReference == map["RA" := "a", "RB" := "b"]
    ensures
      var step := CreateIntent(token, "ann", "a", "RB", 100, 10);
      Enabled(s, step) && Do(s, step) == s.(intents := s.intents[token := TERMS])
  {
  }

  lemma ReadsIntent(s: State, token: string)
    requires token in s.intents && s.intents[token] == TERMS && s.now == 0
    ensures Enabled(s, AuthorizeRead(token, "ann"))
    ensures Do(s, AuthorizeRead(token, "ann")) == s.(authorizing := s.authorizing + {token})
  {
  }

  lemma WritesIntent(s: State, token: string)
    requires token in s.intents && s.intents[token] == TERMS && token in s.authorizing
    ensures Enabled(s, AuthorizeWrite(token))
    ensures Do(s, AuthorizeWrite(token)) == s.(intents := s.intents[token := TERMS.(authorized := true)])
  {
  }

  /** The row a lone confirm of ann's leaves. */
  function RowFor(key: string, token: string, reference: string): Transfer {
    NewRow(Confirm("ann", key, token, 0, Summed(TERMS.(authorized := true), 0, 0)), reference)
  }

  lemma ConfirmAlone(s: State, c: nat, key: string, token: string, id: string, reference: string) returns (s': State)
    requires Reachable(s) && s.cfg == CFG && s.now == 0 && c !in s.confirms && id !in s.transfers
    requires token in s.intents && s.intents[token] == TERMS.(authorized := true)
    requires !IntentUsed(s.transfers, token) && !HasKey(s.transfers, "ann", key)
    requires ReservedSince(s.transfers, "ann", 0) == 0
    requires forall d :: d in s.confirms ==> s.confirms[d].phase.Over?
    ensures Reachable(s')
    ensures s' == SetRow(s, id, RowFor(key, token, reference)).(
      confirms := s.confirms[c := Confirm("ann", key, token, 0, Over(Some(Created(id))))],
      intents := s.intents[token := TERMS.(authorized := true, consumed := true)])
  {
    hide ReservedSince, IntentUsed, HasKey, Do, Enabled, Reachable;
    var i := TERMS.(authorized := true);
    var k := Confirm("ann", key, token, 0, Gate);
    EntersGate(s, c, k);
    EntersCheck(s, c, k, i);
    ChecksAndSums(s, c, k, i);
    s' := Commits(s, c, k, i, id, reference);
  }

  function At(s: State, c: nat, k: Confirm, phase: ConfirmPhase): State {
    s.(confirms := s.confirms[c := k.(phase := phase)])
  }

  lemma EntersGate(s: State, c: nat, k: Confirm)
    requires Reachable(s) && c !in s.confirms && !HasKey(s.transfers, k.sender, k.key)
    requires k.token in s.intents && s.intents[k.token].sender == k.sender && s.intents[k.token].authorized
    ensures Reachable(At(s, c, k, Gate))
  {
    hide HasKey, Reachable;
    var step := ConfirmPreflight(c, k.sender, k.key, k.token, k.day);
    Next(s, step);
    assert Do(s, step) == At(s, c, k, Gate);
  }

  lemma Moves(s: State, c: nat, k: Confirm, from: ConfirmPhase, step: Step, to: ConfirmPhase)
    requires Reachable(At(s, c, k, from)) && Enabled(At(s, c, k, from), step)
    requires Do(At(s, c, k, from), step) == ConfirmTo(At(s, c, k, from), c, to)
    ensures Reachable(At(s, c, k, to))
  {
    hide Do, Enabled, Reachable;
    Next(At(s, c, k, from), step);
    assert ConfirmTo(At(s, c, k, from), c, to) == At(s, c, k, to);
  }

  lemma EntersCheck(s: State, c: nat, k: Confirm, i: Intent)
    requires Reachable(At(s, c, k, Gate)) && c !in s.confirms
    requires k.token in s.intents && s.intents[k.token] == i && i.sender == k.sender
    requires forall d :: d in s.confirms ==> s.confirms[d].phase.Over?
    ensures Reachable(At(s, c, k, HavingLock(i)))
  {
    hide Reachable;
    Moves(s, c, k, Gate, ConfirmGate(c, true), Reading);
    Moves(s, c, k, Reading, ConfirmRead(c), AwaitingLock(i));
    Moves(s, c, k, AwaitingLock(i), ConfirmLock(c), HavingLock(i));
  }

  lemma ChecksAndSums(s: State, c: nat, k: Confirm, i: Intent)
    requires Reachable(At(s, c, k, HavingLock(i))) && c !in s.confirms
    requires !HasKey(s.transfers, k.sender, k.key) && i.expiresAt > s.now && !i.consumed && i.authorized
    requires ReservedSince(s.transfers, k.sender, k.day) + i.amount <= s.cfg.dailyLimit
    ensures Reachable(At(s, c, k, Summed(i, s.now, ReservedSince(s.transfers, k.sender, k.day))))
  {
    hide ReservedSince, HasKey, Reachable;
    Moves(s, c, k, HavingLock(i), ConfirmCheck(c), Checked(i, s.now));
    Moves(s, c, k, Checked(i, s.now), ConfirmSum(c), Summed(i, s.now, ReservedSince(s.transfers, k.sender, k.day)));
  }

  lemma Commits(s: State, c: nat, k: Confirm, i: Intent, id: string, reference: string) returns (s': State)
    requires Reachable(At(s, c, k, Summed(i, 0, 0))) && id !in s.transfers && k.token in s.intents
    requires !IntentUsed(s.transfers, k.token) && !HasKey(s.transfers, k.sender, k.key)
    ensures Reachable(s')
    ensures s' == SetRow(s, id, NewRow(k.(phase := Summed(i, 0, 0)), reference)).(
      confirms := s.confirms[c := k.(phase := Over(Some(Created(id))))],
      intents := s.intents[k.token := s.intents[k.token].(consumed := true)])
  {
    hide IntentUsed, HasKey, Reachable;
    s' := Do(At(s, c, k, Summed(i, 0, 0)), ConfirmCommit(c, id, reference));
    Next(At(s, c, k, Summed(i, 0, 0)), ConfirmCommit(c, id, reference));
    assert s'.confirms == s.confirms[c := k.(phase := Over(Some(Created(id))))];
  }

  // ---------- settling ----------

  const ROW1 := RowFor("k1", "t1", "T1")
  const CALL1 := TransferCall("x1", ROW1, "la", "lb", "j1")

  /** x1 is confirmed, its first settle not yet begun. */
  ghost predicate Confirmed(s: State) {
    && s.cfg == CFG && s.now == 0 && s.wallets == map["a" := SOURCE, "b" := TARGET]
    && s.byReference == map["RA" := "a", "RB" := "b"]
    && s.intents.Keys == {"t1"} && s.transfers == map["x1" := ROW1] && s.attempts == map[]
    && (forall c :: c in s.confirms ==> c == 0 && s.confirms[c].phase.Over?)
    && Holds(s.ledger, 100) && s.ledger.records.Keys == {"fund"}
    && (forall i :: 0 <= i < |s.ledger.journals| ==> s.ledger.journals[i].reference == "F1")
  }

  lemma CanConfirm() returns (s: State)
    ensures Reachable(s) && Confirmed(s)
  {
    hide Reachable, Do, Enabled, ReservedSince, Holds;
    var s0 := CanFund();
    var s1 := Prepare(s0, "t1");
    EmptyReserve(s1.transfers);
    s := ConfirmAlone(s1, 0, "k1", "t1", "x1", "T1");
    assert s.transfers == map["x1" := ROW1];
  }

  lemma EmptyReserve(ts: map<string, Transfer>)
    requires forall id :: id in ts ==> ts[id].status == Failed
    ensures ReservedSince(ts, "ann", 0) == 0
  {
    SumZero(ts.Keys, id => if id in ts then WeightSince(ts[id], "ann", 0) else 0);
  }

  /** A settle begins: the call is sent and the Ledger reads the committed balances. */
  lemma SendAndResolve(s: State, a: nat, server: ServerPhase) returns (s': State)
    requires Reachable(s) && a !in s.attempts && "x1" in s.transfers && s.transfers["x1"].owed > 0
    requires
      var row := s.transfers["x1"].(owed := s.transfers["x1"].owed - 1, calls := s.transfers["x1"].calls + 1);
      server == match Precheck(SetRow(s, "x1", row), "x1", row, "j1") { case Err(e) => Replied(e) case Ok(call) => Prechecked(call) }
    ensures Reachable(s')
    ensures
      var row := s.transfers["x1"].(owed := s.transfers["x1"].owed - 1, calls := s.transfers["x1"].calls + 1);
      s' == SetRow(s, "x1", row).(attempts := s.attempts[a := Attempt("x1", true, server, false)])
  {
    hide Reachable, Resolve;
    var row := s.transfers["x1"].(owed := s.transfers["x1"].owed - 1, calls := s.transfers["x1"].calls + 1);
    var s1 := Do(s, SettleSend(a, "x1"));
    Next(s, SettleSend(a, "x1"));
    assert Precheck(s1, "x1", row, "j1") == Precheck(SetRow(s, "x1", row), "x1", row, "j1") by { PrecheckReads(s1, SetRow(s, "x1", row), row); }
    s' := Do(s1, LedgerResolve(a, "j1"));
    Next(s1, LedgerResolve(a, "j1"));
    assert s'.attempts == s.attempts[a := Attempt("x1", true, server, false)];
  }

  lemma PrecheckReads(s: State, t: State, row: Transfer)
    requires s.wallets == t.wallets && s.byReference == t.byReference && s.ledger == t.ledger
    ensures Precheck(s, "x1", row, "j1") == Precheck(t, "x1", row, "j1")
  {
  }

  /** x1's journal is posted but its reply has not arrived. */
  ghost predicate ReplyPending(s: State) {
    && s.cfg == CFG && s.now == 0 && s.wallets == map["a" := SOURCE, "b" := TARGET]
    && s.byReference == map["RA" := "a", "RB" := "b"]
    && s.intents.Keys == {"t1"} && s.transfers == map["x1" := ROW1.(owed := 0, calls := 1)]
    && s.attempts == map[0 := Attempt("x1", true, Replied(Success(ResultOf(CALL1))), true)]
    && (forall c :: c in s.confirms ==> c == 0 && s.confirms[c].phase.Over?)
    && Holds(s.ledger, 0)
    && |s.ledger.journals| > 0 && s.ledger.journals[|s.ledger.journals| - 1].key == TransferKey("x1")
  }

  /** Whatever ann's ledger balance, the Ledger resolves x1 to its two wallets and then looks at the balance. */
  lemma PrecheckLooksAtBalance(s: State, row: Transfer, amount: int)
    requires s.wallets == map["a" := SOURCE, "b" := TARGET] && s.byReference == map["RA" := "a", "RB" := "b"]
    requires Holds(s.ledger, amount) && row.reference == "T1" && row.amount == 100 && row.currency == "LKR"
    requires row.sender == "ann" && row.senderAccount == "a" && row.recipientReference == "RB"
    ensures Precheck(s, "x1", row, "j1") == if amount < 100 then Err(Failure(409, INSUFFICIENT_FUNDS)) else Ok(CALL1)
  {
  }

  /** x1's first settle, resolved and about to post. */
  ghost predicate AboutToPost(s: State) {
    && s.cfg == CFG && s.now == 0 && s.wallets == map["a" := SOURCE, "b" := TARGET]
    && s.byReference == map["RA" := "a", "RB" := "b"]
    && s.intents.Keys == {"t1"} && s.transfers == map["x1" := ROW1.(owed := 0, calls := 1)]
    && s.attempts == map[0 := Attempt("x1", true, Prechecked(CALL1), false)]
    && (forall c :: c in s.confirms ==> c == 0 && s.confirms[c].phase.Over?)
    && Holds(s.ledger, 100) && s.ledger.records.Keys == {"fund"}
    && (forall i :: 0 <= i < |s.ledger.journals| ==> s.ledger.journals[i].reference == "F1")
  }

  lemma CanSend() returns (s: State)
    ensures Reachable(s) && AboutToPost(s)
  {
    hide Reachable, Precheck, Holds;
    var s0 := CanConfirm();
    PrecheckLooksAtBalance(SetRow(s0, "x1", ROW1.(owed := 0, calls := 1)), ROW1.(owed := 0, calls := 1), 100);
    s := SendAndResolve(s0, 0, Prechecked(CALL1));
    assert s.transfers == map["x1" := ROW1.(owed := 0, calls := 1)];
  }

  /** The Ledger accepts x1's call, and it empties ann's account. */
  lemma MoneyMoves(db: Db)
    requires Holds(db, 100) && db.records.Keys == {"fund"}
    requires forall i :: 0 <= i < |db.journals| ==> db.journals[i].reference == "F1"
    ensures Exec(db, CALL1) == (Credited(db, CALL1), Posted(ResultOf(CALL1), false))
    ensures Holds(Credited(db, CALL1), 0) && |Credited(db, CALL1).journals| == |db.journals| + 1
    ensures Credited(db, CALL1).journals[|db.journals|].key == TransferKey("x1")
  {
    hide Exec;
    assert CALL1.key !in db.records;
    TwoLegPost(db, CALL1, "la", "lb", 100);
    hide CreditedAccounts;
  }

  lemma CanPost() returns (s: State)
    ensures Reachable(s) && ReplyPending(s)
  {
    hide Reachable, Exec, Do, Enabled, Holds, CreditedAccounts, Credited;
    var s1 := CanSend();
    MoneyMoves(s1.ledger);
    PostsOnce(s1);
    Next(s1, LedgerPost(0, 409));
    s := Do(s1, LedgerPost(0, 409));
  }

  lemma PostsOnce(s: State)
    requires 0 in s.attempts && s.attempts[0] == Attempt("x1", true, Prechecked(CALL1), false)
    requires Exec(s.ledger, CALL1) == (Credited(s.ledger, CALL1), Posted(ResultOf(CALL1), false))
    ensures Enabled(s, LedgerPost(0, 409))
    ensures Do(s, LedgerPost(0, 409)) == s.(ledger := Credited(s.ledger, CALL1),
      attempts := s.attempts[0 := Attempt("x1", true, Replied(Success(ResultOf(CALL1))), true)])
  {
    hide Exec, CreditedAccounts;
  }

  /** Recovery retries, the balance check refuses the retry, and the row becomes FAILED although the money moved. */
  ghost predicate FailedAnyway(s: State) {
    && s.cfg == CFG && s.now == 0 && s.wallets == map["a" := SOURCE, "b" := TARGET]
    && s.byReference == map["RA" := "a", "RB" := "b"] && s.intents.Keys == {"t1"}
    && s.transfers == map["x1" := ROW1.(owed := 0, calls := 2, attempts := 1, status := Failed, failure := Some(INSUFFICIENT_FUNDS))]
    && 0 in s.attempts && s.attempts[0] == Attempt("x1", true, Replied(Success(ResultOf(CALL1))), true)
    && (forall c :: c in s.confirms ==> c == 0 && s.confirms[c].phase.Over?)
    && |s.ledger.journals| > 0 && s.ledger.journals[|s.ledger.journals| - 1].key == TransferKey("x1")
  }

  lemma CanClaim() returns (s: State)
    ensures Reachable(s) && ReplyPending(s.(transfers := map["x1" := ROW1.(owed := 0, calls := 1)]))
    ensures s.transfers == map["x1" := ROW1.(owed := 1, calls := 1, attempts := 1)]
  {
    hide Reachable, Do, Enabled;
    var s0 := CanPost();
    Claims(s0);
    Next(s0, ClaimRetry("x1"));
    s := Do(s0, ClaimRetry("x1"));
    assert s.(transfers := map["x1" := ROW1.(owed := 0, calls := 1)]) == s0;
  }

  lemma CanFail() returns (s: State)
    ensures Reachable(s) && FailedAnyway(s)
  {
    hide Reachable, Precheck, Do, Enabled, Holds;
    var s1 := CanClaim();
    var row := ROW1.(owed := 0, calls := 2, attempts := 1);
    PrecheckLooksAtBalance(SetRow(s1, "x1", row), row, 0);
    var s2 := SendAndResolve(s1, 1, Replied(Failure(409, INSUFFICIENT_FUNDS)));
    assert s2.transfers == map["x1" := row];
    Receives(s2, row, INSUFFICIENT_FUNDS);
    Next(s2, ClientReceive(1));
    s := Do(s2, ClientReceive(1));
  }

  lemma Claims(s: State)
    requires s.cfg == CFG && s.transfers == map["x1" := ROW1.(owed := 0, calls := 1)]
    ensures Enabled(s, ClaimRetry("x1"))
    ensures Do(s, ClaimRetry("x1")) == s.(transfers := map["x1" := ROW1.(owed := 1, calls := 1, attempts := 1)])
  {
    assert Do(s, ClaimRetry("x1")).transfers == map["x1" := ROW1.(owed := 1, calls := 1, attempts := 1)];
  }

  lemma Receives(s: State, row: Transfer, code: Code)
    requires s.transfers == map["x1" := row] && !code.OTHER_CODE?
    requires 1 in s.attempts && s.attempts[1] == Attempt("x1", true, Replied(Failure(409, code)), false)
    ensures Enabled(s, ClientReceive(1))
    ensures Do(s, ClientReceive(1)) == s.(
      transfers := map["x1" := row.(status := Failed, failure := Some(code))],
      attempts := s.attempts[1 := s.attempts[1].(waiting := false)])
  {
    assert Do(s, ClientReceive(1)).transfers == map["x1" := row.(status := Failed, failure := Some(code))];
  }

  /** FAILED does not mean that no journal exists: the retry's balance check ran before the replay could answer. */
  lemma FailedDespiteJournal() returns (s: State)
    ensures Reachable(s) && FailedButPaid(s, "x1")
  {
    hide Reachable;
    s := CanFail();
    var i := |s.ledger.journals| - 1;
    assert s.ledger.journals[i].key == TransferKey("x1");
  }

  // ---------- FAILED first, paid later ----------

  /** Recovery claims x1 while its first call waits to be posted, and ann's wallet is frozen. */
  lemma CanFreeze() returns (s: State)
    ensures Reachable(s) && 0 in s.attempts && s.attempts.Keys == {0}
    ensures s.attempts[0] == Attempt("x1", true, Prechecked(CALL1), false)
    ensures s.transfers == map["x1" := ROW1.(owed := 1, calls := 1, attempts := 1)]
    ensures s.wallets == map["a" := SOURCE.(status := Frozen), "b" := TARGET]
    ensures s.byReference == map["RA" := "a", "RB" := "b"] && Holds(s.ledger, 100) && s.ledger.records.Keys == {"fund"}
    ensures forall i :: 0 <= i < |s.ledger.journals| ==> s.ledger.journals[i].reference == "F1"
  {
    hide Reachable, Do, Enabled, Holds;
    var s0 := CanSend();
    Claims(s0);
    Next(s0, ClaimRetry("x1"));
    var s1 := Do(s0, ClaimRetry("x1"));
    Freezes(s1);
    Next(s1, SetStatus("a", Frozen));
    s := Do(s1, SetStatus("a", Frozen));
  }

  lemma Freezes(s: State)
    requires s.wallets == map["a" := SOURCE, "b" := TARGET]
    ensures Enabled(s, SetStatus("a", Frozen))
    ensures Do(s, SetStatus("a", Frozen)) == s.(wallets := map["a" := SOURCE.(status := Frozen), "b" := TARGET])
  {
    assert Do(s, SetStatus("a", Frozen)).wallets == map["a" := SOURCE.(status := Frozen), "b" := TARGET];
  }

  lemma FrozenRefused(s: State, row: Transfer)
    requires s.wallets == map["a" := SOURCE.(status := Frozen), "b" := TARGET] && s.byReference == map["RA" := "a", "RB" := "b"]
    requires row.sender == "ann" && row.senderAccount == "a" && row.recipientReference == "RB"
    ensures Precheck(s, "x1", row, "j1") == Err(Failure(409, ACCOUNT_NOT_ACTIVE))
  {
  }

  /**
   * Nor does it mean that no journal will exist: the second settle is refused while the Ledger has no journal, and the
   * first settle's call, already past its checks, posts one afterwards. No retry ever meets an existing journal.
   */
  lemma PaidAfterFailed() returns (s: State, a: nat)
    ensures Reachable(s) && "x1" in s.transfers && s.transfers["x1"].status == Failed && !HasJournal(s, "x1")
    ensures Enabled(s, LedgerPost(a, 409)) && Reachable(Do(s, LedgerPost(a, 409)))
    ensures FailedButPaid(Do(s, LedgerPost(a, 409)), "x1")
  {
    hide Reachable, Precheck, Do, Enabled, Holds, Exec, Credited, HasJournal;
    var s1 := CanFreeze();
    var row := ROW1.(owed := 0, calls := 2, attempts := 1);
    FrozenRefused(SetRow(s1, "x1", row), row);
    var s2 := SendAndResolve(s1, 1, Replied(Failure(409, ACCOUNT_NOT_ACTIVE)));
    assert s2.transfers == map["x1" := row];
    Receives(s2, row, ACCOUNT_NOT_ACTIVE);
    Next(s2, ClientReceive(1));
    s, a := Do(s2, ClientReceive(1)), 0;
    MoneyMoves(s.ledger);
    PostsOnce(s);
    Next(s, LedgerPost(0, 409));
    NoJournalYet(s);
    JournalAtEnd(s.ledger, Do(s, LedgerPost(0, 409)));
  }

  lemma NoJournalYet(s: State)
    requires Reachable(s) && s.ledger.records.Keys == {"fund"}
    ensures !HasJournal(s, "x1")
  {
    hide Reachable, HasJournal, Inv;
    ReachableInv(s);
    JournalIffRecord(s, "x1");
  }

  lemma JournalAtEnd(db: Db, s: State)
    requires s.ledger == Credited(db, CALL1)
    ensures HasJournal(s, "x1")
  {
    assert s.ledger.journals[|db.journals|].key == TransferKey("x1");
  }

  // ---------- FAILED, and COMPLETED after all ----------

  /**
   * And the late reply, arriving after a second transfer was confirmed into the freed allowance, turns FAILED back
   * into COMPLETED and the day's sum to twice the limit: overlapping settles do break the daily limit.
   */
  lemma LateReplyBreaksLimit() returns (s: State, a: nat)
    ensures Reachable(s) && Enabled(s, ClientReceive(a)) && Resurrects(s, ClientReceive(a))
    ensures DaySum(s.transfers, "ann", 0) == s.cfg.dailyLimit
    ensures Reachable(Do(s, ClientReceive(a)))
    ensures DaySum(Do(s, ClientReceive(a)).transfers, "ann", 0) > s.cfg.dailyLimit
  {
    hide Reachable, ReservedSince, DaySum;
    var s0 := CanFail();
    var s1 := Prepare(s0, "t2");
    EmptyReserve(s1.transfers);
    s := ConfirmAlone(s1, 1, "k2", "t2", "x2", "T2");
    a := 0;
    var none: map<string, Transfer> := map[];
    assert DaySum(none, "ann", 0) == 0 by { assert none.Keys == {}; NoRows(); }
    DaySumPut(none, "x1", s0.transfers["x1"], "ann", 0);
    DaySumPut(s0.transfers, "x2", RowFor("k2", "t2", "T2"), "ann", 0);
    assert s0.transfers == none["x1" := s0.transfers["x1"]];
    ResurrectionAdds(s, 0, "ann", 0);
    Next(s, ClientReceive(0));
  }

  /** ann's second confirm, past its limit check and about to insert, while x1 is FAILED and its reply still on the way. */
  lemma CanBePending() returns (s: State)
    ensures Reachable(s) && s.cfg == CFG && 1 in s.confirms && "t2" in s.intents && s.transfers.Keys == {"x1"}
    ensures s.confirms[1] == Confirm("ann", "k2", "t2", 0, Summed(TERMS.(authorized := true), 0, 0))
    ensures s.transfers["x1"] == ROW1.(owed := 0, calls := 2, attempts := 1, status := Failed, failure := Some(INSUFFICIENT_FUNDS))
    ensures 0 in s.attempts && s.attempts[0] == Attempt("x1", true, Replied(Success(ResultOf(CALL1))), true)
  {
    hide Reachable, ReservedSince, Do, Enabled;
    var s0 := CanFail();
    var s1 := Prepare(s0, "t2");
    var k := Confirm("ann", "k2", "t2", 0, Gate);
    var i := TERMS.(authorized := true);
    EmptyReserve(s1.transfers);
    EntersGate(s1, 1, k);
    EntersCheck(s1, 1, k, i);
    ChecksAndSums(s1, 1, k, i);
    s := At(s1, 1, k, Summed(i, 0, 0));
  }

  /**
   * It is not enough that the late reply's own amount fits the day: here it does, and the limit is kept, until the
   * confirm that summed the day before the reply inserts its row.
   */
  lemma FittingReplyBreaksLimit() returns (s: State, a: nat, c: nat)
    ensures Reachable(s) && Enabled(s, ClientReceive(a)) && Resurrects(s, ClientReceive(a)) && !RoomFor(s, a)
    ensures
      var row := s.transfers[s.attempts[a].transfer];
      DaySum(s.transfers, row.sender, row.day) + row.amount <= s.cfg.dailyLimit
    ensures
      var s' := Do(s, ClientReceive(a));
      && Reachable(s') && DaySum(s'.transfers, "ann", 0) <= s.cfg.dailyLimit
      && Enabled(s', ConfirmCommit(c, "x2", "T2"))
      && Reachable(Do(s', ConfirmCommit(c, "x2", "T2")))
      && DaySum(Do(s', ConfirmCommit(c, "x2", "T2")).transfers, "ann", 0) > s.cfg.dailyLimit
  {
    hide Reachable, DaySum, Do;
    s := CanBePending();
    a, c := 0, 1;
    OneFailedRow(s.transfers);
    assert Enabled(s, ClientReceive(0));
    hide Enabled;
    var k := s.confirms[1];
    assert Pending(k, s.transfers);
    Next(s, ClientReceive(0));
    ReceivedRow(s, 0);
    hide Pending;
    var s' := Do(s, ClientReceive(0));
    ReceivedOne(s);
    ResurrectionAdds(s, 0, "ann", 0);
    PendingInserts(s', 1, "x2", "T2");
    CommitAdds(s'.transfers, k, "x2", "T2", "ann", 0);
    Next(s', ConfirmCommit(1, "x2", "T2"));
  }

  lemma OneFailedRow(ts: map<string, Transfer>)
    requires ts.Keys == {"x1"} && ts["x1"].status == Failed
    ensures DaySum(ts, "ann", 0) == 0
  {
    SumZero(ts.Keys, id => if id in ts then Weight(ts[id], "ann", 0) else 0);
  }

  lemma ReceivedOne(s: State)
    requires Enabled(s, ClientReceive(0)) && s.transfers.Keys == {"x1"}
    ensures "x2" !in Do(s, ClientReceive(0)).transfers
  {
    hide Do, Enabled;
    RowFrame(s, ClientReceive(0));
  }

  lemma NoRows()
    ensures DaySum(map[], "ann", 0) == 0
  {
  }
}
