/** Exactly-once settlement: what every interleaving of confirms, settles, lost replies and recoveries keeps. */
module ExactlyOnce {
  import opened Wrappers
  import opened Postings
  import opened Ledger
  import opened LedgerSafety
  import opened Payments

  type Wallets = map<string, Wallet>
  type Rows = map<string, Transfer>
  type Intents = map<string, Intent>
  type Records = map<string, IdempotencyRecord>

  // ---------- the invariant, part by part ----------

  ghost predicate WalletsOk(ws: Wallets, byReference: map<string, string>, accounts: map<string, Account>) {
    && (forall r :: r in byReference ==> byReference[r] in ws && ws[byReference[r]].reference == r)
    && (forall id :: id in ws ==>
        ws[id].reference in byReference && byReference[ws[id].reference] == id && ws[id].ledgerAccount in accounts)
    && (forall id, jd :: id in ws && jd in ws && id != jd ==> ws[id].ledgerAccount != ws[jd].ledgerAccount)
  }

  /** The two sides of an intent are two different wallets, the recipient's found under its public reference. */
  ghost predicate PartiesOk(ws: Wallets, i: Intent) {
    && i.sourceAccount in ws && i.recipientAccount in ws && i.sourceAccount != i.recipientAccount
    && ws[i.recipientAccount].reference == i.recipientReference && i.amount > 0
  }

  ghost predicate IntentsOk(ints: Intents, ws: Wallets) {
    forall t :: t in ints ==> PartiesOk(ws, ints[t])
  }

  /** The parts of an intent that never change. */
  function Terms(i: Intent): Intent { i.(authorized := false, consumed := false) }

  /** The row carries its intent's terms, and the intent was authorized and unexpired when it was checked. */
  ghost predicate RowOfIntent(row: Transfer, i: Intent) {
    && row.hash == HashOf(row.intentId, i)
    && row.sender == i.sender && row.senderAccount == i.sourceAccount && row.recipientAccount == i.recipientAccount
    && row.recipientReference == i.recipientReference && row.currency == i.currency && row.amount == i.amount
    && i.authorized && row.checkedAt < i.expiresAt
  }

  ghost predicate RowsOk(ts: Rows, ints: Intents) {
    && (forall id :: id in ts ==> ts[id].intentId in ints && RowOfIntent(ts[id], ints[ts[id].intentId]))
    && (forall id, jd :: id in ts && jd in ts && id != jd ==> ts[id].intentId != ts[jd].intentId)
    && (forall id, jd :: id in ts && jd in ts && id != jd ==> ts[id].sender != ts[jd].sender || ts[id].key != ts[jd].key)
    && (forall t :: t in ints ==> (ints[t].consumed <==> IntentUsed(ts, t)))
  }

  /** The intent read before the lock differs from the stored one at most in its two flags. */
  ghost predicate Carried(k: Confirm, i: Intent, ints: Intents) {
    && k.token in ints && i.sender == k.sender && Terms(i) == Terms(ints[k.token])
    && (i.authorized ==> ints[k.token].authorized)
  }

  ghost predicate ConfirmOk(k: Confirm, ints: Intents) {
    match k.phase
    case AwaitingLock(i) => Carried(k, i, ints)
    case HavingLock(i) => Carried(k, i, ints)
    case Checked(i, at) => Carried(k, i, ints) && i.authorized && at < i.expiresAt
    case Summed(i, at, _) => Carried(k, i, ints) && i.authorized && at < i.expiresAt
    case _ => true
  }

  ghost predicate ConfirmsOk(ks: map<nat, Confirm>, ints: Intents) {
    forall c :: c in ks ==> ConfirmOk(ks[c], ints)
  }

  /** The row's two wallets exist; needed to speak of the call its settles make. */
  ghost predicate HasWallets(row: Transfer, ws: Wallets) {
    row.senderAccount in ws && row.recipientAccount in ws
  }

  /** The one call, up to the drawn journal id, that every settle of the row makes. */
  ghost function CallOf(id: string, row: Transfer, ws: Wallets, newId: string): Call
    requires HasWallets(row, ws)
  {
    TransferCall(id, row, ws[row.senderAccount].ledgerAccount, ws[row.recipientAccount].ledgerAccount, newId)
  }

  ghost predicate LeftBy(rs: Records, k: string, ts: Rows, ws: Wallets, id: string, newId: string) {
    && k in rs && k == TransferKey(id) && id in ts && HasWallets(ts[id], ws)
    && var call := CallOf(id, ts[id], ws, newId);
       rs[k] == IdempotencyRecord(call.Hash(), RecordStatus.Completed, Some(ResultOf(call)))
  }

  /** A record under a transfer key was left by that transfer's own call. */
  ghost predicate RecordsOk(rs: Records, ts: Rows, ws: Wallets) {
    forall k :: k in rs && "transfer:" <= k ==> exists id, newId :: LeftBy(rs, k, ts, ws, id, newId)
  }

  ghost predicate AttemptOk(a: Attempt, ts: Rows, ws: Wallets, rs: Records) {
    && a.transfer in ts
    && match a.server {
      case Sent => !a.posted
      case Prechecked(call) =>
        HasWallets(ts[a.transfer], ws) && call == CallOf(a.transfer, ts[a.transfer], ws, call.newId) && !a.posted
      case Replied(Success(result)) =>
        a.posted && TransferKey(a.transfer) in rs && rs[TransferKey(a.transfer)].response == Some(result)
      case Replied(Failure(status, code)) => code != IDEMPOTENCY_CONFLICT && (status < 500 ==> !a.posted)
    }
  }

  ghost predicate AttemptsOk(xs: map<nat, Attempt>, ts: Rows, ws: Wallets, rs: Records) {
    forall a :: a in xs ==> AttemptOk(xs[a], ts, ws, rs)
  }

  /** A completed row points at the journal recorded under its own key. */
  ghost predicate RowSettled(id: string, row: Transfer, rs: Records) {
    row.status == Status.Completed ==>
      TransferKey(id) in rs && rs[TransferKey(id)].response.Some?
      && row.journalId == Some(rs[TransferKey(id)].response.value.journalId)
  }

  ghost predicate CompletedOk(ts: Rows, rs: Records) {
    forall id :: id in ts ==> RowSettled(id, ts[id], rs)
  }

  ghost predicate Inv(s: State) {
    && GoodConfig(s.cfg) && Safe(s.ledger)
    && WalletsOk(s.wallets, s.byReference, s.ledger.accounts)
    && IntentsOk(s.intents, s.wallets)
    && RowsOk(s.transfers, s.intents)
    && ConfirmsOk(s.confirms, s.intents)
    && RecordsOk(s.ledger.records, s.transfers, s.wallets)
    && AttemptsOk(s.attempts, s.transfers, s.wallets, s.ledger.records)
    && CompletedOk(s.transfers, s.ledger.records)
  }

  // ---------- what may change without disturbing a part ----------

  ghost predicate WalletsGrew(ws: Wallets, ws': Wallets) {
    forall id :: id in ws ==> id in ws' && ws'[id].(status := Active) == ws[id].(status := Active)
  }

  /** Row fields that a settle or a claim never touches. */
  function Core(row: Transfer): Transfer {
    row.(status := Processing, failure := None, journalId := None, attempts := 0, owed := 0, calls := 0)
  }

  lemma SameCore(row: Transfer, row': Transfer)
    requires Core(row) == Core(row')
    ensures row'.sender == row.sender && row'.key == row.key && row'.hash == row.hash && row'.intentId == row.intentId
    ensures row'.reference == row.reference && row'.senderAccount == row.senderAccount
    ensures row'.recipientAccount == row.recipientAccount && row'.recipientReference == row.recipientReference
    ensures row'.currency == row.currency && row'.amount == row.amount && row'.day == row.day
    ensures row'.checkedAt == row.checkedAt
  {
    assert Core(row).sender == row.sender && Core(row).key == row.key && Core(row).hash == row.hash;
    assert Core(row).intentId == row.intentId && Core(row).reference == row.reference;
    assert Core(row).senderAccount == row.senderAccount && Core(row).recipientAccount == row.recipientAccount;
    assert Core(row).recipientReference == row.recipientReference && Core(row).currency == row.currency;
    assert Core(row).amount == row.amount && Core(row).day == row.day && Core(row).checkedAt == row.checkedAt;
  }

  ghost predicate RowsKept(ts: Rows, ts': Rows) {
    forall id :: id in ts ==> id in ts' && Core(ts'[id]) == Core(ts[id])
  }

  ghost predicate RecordsGrew(rs: Records, rs': Records) {
    forall k :: k in rs ==> k in rs' && rs'[k] == rs[k]
  }

  lemma CallKept(id: string, row: Transfer, row': Transfer, ws: Wallets, ws': Wallets, newId: string)
    requires Core(row') == Core(row) && WalletsGrew(ws, ws') && HasWallets(row, ws)
    ensures HasWallets(row', ws') && CallOf(id, row', ws', newId) == CallOf(id, row, ws, newId)
  {
    SameCore(row, row');
    assert ws'[row.senderAccount].(status := Active).ledgerAccount == ws[row.senderAccount].(status := Active).ledgerAccount;
    assert ws'[row.recipientAccount].(status := Active).ledgerAccount == ws[row.recipientAccount].(status := Active).ledgerAccount;
  }

  lemma RecordsCarry(rs: Records, rs': Records, ts: Rows, ts': Rows, ws: Wallets, ws': Wallets)
    requires RecordsOk(rs, ts, ws) && RecordsGrew(rs, rs') && RowsKept(ts, ts') && WalletsGrew(ws, ws')
    requires forall k :: k in rs' && k !in rs ==> !("transfer:" <= k)
    ensures RecordsOk(rs', ts', ws')
  {
    forall k | k in rs' && "transfer:" <= k ensures exists id, newId :: LeftBy(rs', k, ts', ws', id, newId) {
      var id, newId :| LeftBy(rs, k, ts, ws, id, newId);
      CallKept(id, ts[id], ts'[id], ws, ws', newId);
      assert LeftBy(rs', k, ts', ws', id, newId);
    }
  }

  lemma AttemptCarries(a: Attempt, ts: Rows, ts': Rows, ws: Wallets, ws': Wallets, rs: Records, rs': Records)
    requires AttemptOk(a, ts, ws, rs) && RecordsGrew(rs, rs') && RowsKept(ts, ts') && WalletsGrew(ws, ws')
    ensures AttemptOk(a, ts', ws', rs')
  {
    if a.server.Prechecked? {
      CallKept(a.transfer, ts[a.transfer], ts'[a.transfer], ws, ws', a.server.call.newId);
    }
  }

  lemma AttemptsCarry(xs: map<nat, Attempt>, ts: Rows, ts': Rows, ws: Wallets, ws': Wallets, rs: Records, rs': Records)
    requires AttemptsOk(xs, ts, ws, rs) && RecordsGrew(rs, rs') && RowsKept(ts, ts') && WalletsGrew(ws, ws')
    ensures AttemptsOk(xs, ts', ws', rs')
  {
    forall a | a in xs ensures AttemptOk(xs[a], ts', ws', rs') {
      AttemptCarries(xs[a], ts, ts', ws, ws', rs, rs');
    }
  }

  lemma CompletedCarries(ts: Rows, rs: Records, rs': Records)
    requires CompletedOk(ts, rs) && RecordsGrew(rs, rs')
    ensures CompletedOk(ts, rs')
  {
    forall id | id in ts ensures RowSettled(id, ts[id], rs') {
      assert RowSettled(id, ts[id], rs);
    }
  }

  lemma IntentsCarry(ints: Intents, ws: Wallets, ws': Wallets)
    requires IntentsOk(ints, ws) && WalletsGrew(ws, ws')
    ensures IntentsOk(ints, ws')
  {
    forall t | t in ints ensures PartiesOk(ws', ints[t]) {
      var r := ints[t].recipientAccount;
      assert PartiesOk(ws, ints[t]);
      assert ws'[r].(status := Active).reference == ws[r].(status := Active).reference;
    }
  }

  /** Replacing a row by one with the same core keeps the intent discipline. */
  lemma RowsCarry(ts: Rows, ints: Intents, id: string, row: Transfer)
    requires RowsOk(ts, ints) && id in ts && Core(row) == Core(ts[id])
    ensures RowsOk(ts[id := row], ints) && RowsKept(ts, ts[id := row])
  {
    var ts' := ts[id := row];
    SameCore(ts[id], row);
    forall t | t in ints ensures ints[t].consumed <==> IntentUsed(ts', t) {
      UseCarries(ts, ts', t);
    }
  }

  lemma UseCarries(ts: Rows, ts': Rows, t: string)
    requires ts'.Keys == ts.Keys && forall id :: id in ts ==> ts'[id].intentId == ts[id].intentId
    ensures IntentUsed(ts', t) <==> IntentUsed(ts, t)
  {
    if IntentUsed(ts, t) {
      var id :| id in ts && ts[id].intentId == t;
      assert ts'[id].intentId == t;
    }
    if IntentUsed(ts', t) {
      var id :| id in ts' && ts'[id].intentId == t;
      assert ts[id].intentId == t;
    }
  }

  // ---------- confirms ----------

  lemma ConfirmPut(ks: map<nat, Confirm>, ints: Intents, c: nat, k: Confirm)
    requires ConfirmsOk(ks, ints) && ConfirmOk(k, ints)
    ensures ConfirmsOk(ks[c := k], ints)
  {
    var ks' := ks[c := k];
    forall d | d in ks' ensures ConfirmOk(ks'[d], ints) {
      if d != c { assert ConfirmOk(ks[d], ints); }
    }
  }

  /** Changing an intent's flags, with authorization only ever set, disturbs no confirm. */
  lemma ConfirmsCarry(ks: map<nat, Confirm>, ints: Intents, ints': Intents)
    requires ConfirmsOk(ks, ints)
    requires forall t :: t in ints ==> t in ints' && Terms(ints'[t]) == Terms(ints[t]) && (ints[t].authorized ==> ints'[t].authorized)
    ensures ConfirmsOk(ks, ints')
  {
    forall c | c in ks ensures ConfirmOk(ks[c], ints') {
      assert ConfirmOk(ks[c], ints);
    }
  }

  lemma ConfirmMoveOk(s: State, step: Step)
    requires ConfirmsOk(s.confirms, s.intents) && Enabled(s, step) && MovesConfirm(step)
    ensures step.c in Do(s, step).confirms && ConfirmOk(Do(s, step).confirms[step.c], s.intents)
    ensures Do(s, step) == s.(confirms := s.confirms[step.c := Do(s, step).confirms[step.c]])
  {
    hide WithKey, HasKey, ReservedSince, PreflightPhase, CheckPhase, ConfirmOk, LockFree;
    hide WorldEnabled, RowEnabled, AttemptEnabled, DoWorld, DoRow, DoAttempt;
    match step
    case ConfirmPreflight(c, sender, key, token, _) =>
      PreflightOver(s, sender, key, token);
      IdleIsOk(Do(s, step).confirms[c], s.intents);
    case ConfirmGate(c, _) => IdleIsOk(Do(s, step).confirms[c], s.intents);
    case ConfirmDie(c) => IdleIsOk(Do(s, step).confirms[c], s.intents);
    case ConfirmRead(c) => ReadIsOk(s.confirms[c], s.intents);
    case ConfirmLock(c) => LockIsOk(s.confirms[c], s.intents);
    case ConfirmCheck(c) =>
      CheckOver(s, s.confirms[c]);
      CheckIsOk(s.confirms[c], CheckPhase(s, s.confirms[c]), s.now, s.intents);
    case ConfirmSum(c) => SumIsOk(s.confirms[c], Do(s, step).confirms[c].phase, s.intents);
  }

  lemma IdleIsOk(k: Confirm, ints: Intents)
    requires k.phase.Gate? || k.phase.Reading? || k.phase.Over?
    ensures ConfirmOk(k, ints)
  {
  }

  lemma ReadIsOk(k: Confirm, ints: Intents)
    ensures k.token in ints && ints[k.token].sender == k.sender ==> ConfirmOk(k.(phase := AwaitingLock(ints[k.token])), ints)
    ensures ConfirmOk(k.(phase := Over(Some(Refusal(IntentExpired)))), ints)
  {
  }

  lemma LockIsOk(k: Confirm, ints: Intents)
    requires ConfirmOk(k, ints) && k.phase.AwaitingLock?
    ensures ConfirmOk(k.(phase := HavingLock(k.phase.intent)), ints)
  {
  }

  lemma CheckIsOk(k: Confirm, phase: ConfirmPhase, now: int, ints: Intents)
    requires ConfirmOk(k, ints) && k.phase.HavingLock?
    requires phase.Over? ||
      (phase == Checked(k.phase.intent, now) && k.phase.intent.authorized && now < k.phase.intent.expiresAt)
    ensures ConfirmOk(k.(phase := phase), ints)
  {
  }

  lemma SumIsOk(k: Confirm, phase: ConfirmPhase, ints: Intents)
    requires ConfirmOk(k, ints) && k.phase.Checked?
    requires phase.Over? || (phase.Summed? && phase.intent == k.phase.intent && phase.at == k.phase.at)
    ensures ConfirmOk(k.(phase := phase), ints)
  {
  }

  lemma PreflightOver(s: State, sender: string, key: string, token: string)
    ensures PreflightPhase(s, sender, key, token).Over? || PreflightPhase(s, sender, key, token).Gate?
  {
  }

  lemma CheckOver(s: State, k: Confirm)
    requires k.phase.HavingLock?
    ensures CheckPhase(s, k).Over? ||
      (CheckPhase(s, k) == Checked(k.phase.intent, s.now) && k.phase.intent.authorized && s.now < k.phase.intent.expiresAt)
  {
  }

  /** The row a commit inserts carries the stored intent's terms, and uses an intent nobody had used. */
  lemma CommitRows(ts: Rows, ints: Intents, k: Confirm, id: string, reference: string)
    requires RowsOk(ts, ints) && ConfirmOk(k, ints) && k.phase.Summed? && id !in ts
    requires !IntentUsed(ts, k.token) && !HasKey(ts, k.sender, k.key)
    ensures k.token in ints
    ensures RowsOk(ts[id := NewRow(k, reference)], ints[k.token := ints[k.token].(consumed := true)])
  {
    var row, ints' := NewRow(k, reference), ints[k.token := ints[k.token].(consumed := true)];
    var ts' := ts[id := row];
    var i := k.phase.intent;
    assert Terms(i).sourceAccount == i.sourceAccount && Terms(i).recipientAccount == i.recipientAccount
        && Terms(i).recipientReference == i.recipientReference && Terms(i).currency == i.currency
        && Terms(i).amount == i.amount && Terms(i).expiresAt == i.expiresAt && Terms(i).sender == i.sender;
    assert RowOfIntent(row, ints'[k.token]);
    forall jd | jd in ts' ensures ts'[jd].intentId in ints' && RowOfIntent(ts'[jd], ints'[ts'[jd].intentId]) {
      if jd != id { assert RowOfIntent(ts[jd], ints[ts[jd].intentId]); }
    }
    forall t | t in ints' ensures ints'[t].consumed <==> IntentUsed(ts', t) {
      CommitUses(ts, k, id, row, t);
    }
  }

  lemma CommitUses(ts: Rows, k: Confirm, id: string, row: Transfer, t: string)
    requires id !in ts && row.intentId == k.token
    ensures IntentUsed(ts[id := row], t) <==> IntentUsed(ts, t) || t == k.token
  {
    var ts' := ts[id := row];
    if t == k.token { assert ts'[id].intentId == t; }
    if IntentUsed(ts, t) {
      var jd :| jd in ts && ts[jd].intentId == t;
      assert ts'[jd].intentId == t;
    }
    if IntentUsed(ts', t) && t != k.token {
      var jd :| jd in ts' && ts'[jd].intentId == t;
      assert ts[jd].intentId == t;
    }
  }

  // ---------- settling ----------

  lemma AttemptPut(xs: map<nat, Attempt>, ts: Rows, ws: Wallets, rs: Records, a: nat, x: Attempt)
    requires AttemptsOk(xs, ts, ws, rs) && AttemptOk(x, ts, ws, rs)
    ensures AttemptsOk(xs[a := x], ts, ws, rs)
  {
    var xs' := xs[a := x];
    forall b | b in xs' ensures AttemptOk(xs'[b], ts, ws, rs) {
      if b != a { assert AttemptOk(xs[b], ts, ws, rs); }
    }
  }

  lemma CompletedPut(ts: Rows, rs: Records, id: string, row: Transfer)
    requires CompletedOk(ts, rs) && RowSettled(id, row, rs)
    ensures CompletedOk(ts[id := row], rs)
  {
    var ts' := ts[id := row];
    forall jd | jd in ts' ensures RowSettled(jd, ts'[jd], rs) {
      if jd != id { assert RowSettled(jd, ts[jd], rs); }
    }
  }

  /** The Ledger resolves a settle to the row's own two wallets, on every attempt, or refuses it. */
  lemma ResolveIsStable(s: State, id: string, newId: string)
    requires WalletsOk(s.wallets, s.byReference, s.ledger.accounts) && id in s.transfers
    requires s.transfers[id].intentId in s.intents && RowOfIntent(s.transfers[id], s.intents[s.transfers[id].intentId])
    requires PartiesOk(s.wallets, s.intents[s.transfers[id].intentId])
    ensures
      match Precheck(s, id, s.transfers[id], newId)
      case Ok(call) =>
        HasWallets(s.transfers[id], s.wallets) && call == CallOf(id, s.transfers[id], s.wallets, call.newId)
      case Err(answer) => answer.Failure? && answer.code != IDEMPOTENCY_CONFLICT
  {
    var row := s.transfers[id];
    assert s.wallets[row.recipientAccount].reference == row.recipientReference;
    assert row.recipientReference in s.byReference && s.byReference[row.recipientReference] == row.recipientAccount;
  }

  /** A transfer's call is always well formed: two positive, balanced postings on two accounts. */
  lemma TransferBalanced(source: string, recipient: string, amount: int)
    requires source != recipient && amount > 0
    ensures Balanced(TransferPostings(source, recipient, amount))
    ensures DistinctIds(TransferPostings(source, recipient, amount))
    ensures Sum(TransferPostings(source, recipient, amount), Debit) == amount
  {
    var ps := TransferPostings(source, recipient, amount);
    assert ps[..1] == [ps[0]] && ps[..1][..0] == [];
    SumTwo(ps, Debit);
    SumTwo(ps, Credit);
  }

  lemma SumTwo(ps: seq<Posting>, d: Direction)
    requires |ps| == 2
    ensures Sum(ps, d) ==
      (if ps[0].direction == d then ps[0].amount else 0) + (if ps[1].direction == d then ps[1].amount else 0)
  {
    assert ps[..1][..0] == [];
    assert Sum(ps[..1], d) == Sum(ps[..1][..0], d) + if ps[0].direction == d then ps[0].amount else 0;
  }

  lemma CallBalanced(id: string, row: Transfer, ints: Intents, ws: Wallets, byReference: map<string, string>,
                     accounts: map<string, Account>, call: Call)
    requires WalletsOk(ws, byReference, accounts) && row.intentId in ints && RowOfIntent(row, ints[row.intentId])
    requires PartiesOk(ws, ints[row.intentId])
    requires HasWallets(row, ws) && call == CallOf(id, row, ws, call.newId)
    ensures Balanced(call.postings) && DistinctIds(call.postings)
  {
    TransferBalanced(ws[row.senderAccount].ledgerAccount, ws[row.recipientAccount].ledgerAccount, row.amount);
  }

  /** A call keeps every account and every record, and adds at most the record of its own key. */
  lemma ExecGrows(db: Db, call: Call)
    ensures Exec(db, call).0.accounts.Keys == db.accounts.Keys
    ensures RecordsGrew(db.records, Exec(db, call).0.records)
    ensures forall k :: k in Exec(db, call).0.records && k !in db.records ==> k == call.key
    ensures call.key in Exec(db, call).0.records && call.key !in db.records ==>
      Exec(db, call).0.records[call.key] ==
        IdempotencyRecord(call.Hash(), RecordStatus.Completed, Some(ResultOf(call)))
  {
  }

  /** What a settle's call may be answered, given that any record under its key was left by the same transfer. */
  lemma PostNeverConflicts(db: Db, id: string, ts: Rows, ws: Wallets, call: Call)
    requires RecordsOk(db.records, ts, ws) && id in ts && HasWallets(ts[id], ws)
    requires call == CallOf(id, ts[id], ws, call.newId) && Balanced(call.postings)
    ensures
      var (db', reply) := Exec(db, call);
      match reply
      case Posted(result, _) => TransferKey(id) in db'.records && db'.records[TransferKey(id)].response == Some(result)
      case Refused(error) =>
        error != IdempotencyConflict && error != IdempotencyInProgress && error != UnbalancedJournal
  {
    assert call.key == TransferKey(id) && "transfer:" <= TransferKey(id);
    if call.key in db.records {
      var jd, newId :| LeftBy(db.records, call.key, ts, ws, jd, newId);
      TransferKeyInjective(id, jd);
    }
  }

  lemma PostRecords(db: Db, id: string, ts: Rows, ws: Wallets, call: Call)
    requires RecordsOk(db.records, ts, ws) && id in ts && HasWallets(ts[id], ws)
    requires call == CallOf(id, ts[id], ws, call.newId)
    ensures RecordsOk(Exec(db, call).0.records, ts, ws)
  {
    var rs, rs' := db.records, Exec(db, call).0.records;
    ExecGrows(db, call);
    forall k | k in rs' && "transfer:" <= k ensures exists jd, newId :: LeftBy(rs', k, ts, ws, jd, newId) {
      if k in rs {
        var jd, newId :| LeftBy(rs, k, ts, ws, jd, newId);
        assert LeftBy(rs', k, ts, ws, jd, newId);
      } else {
        assert LeftBy(rs', k, ts, ws, id, call.newId);
      }
    }
  }
}
