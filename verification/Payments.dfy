/**
 * Transfers as a protocol between Payments and the Ledger (transfers.service.ts, customer-transfer.service.ts).
 * Each step is one statement or one committed transaction; requests to the Ledger may time out, be answered
 * late, or lose their reply, and any number of confirms, settles and recoveries interleave.
 */
module Payments {
  import opened Wrappers
  import opened Postings
  import opened Ledger
  import opened Sums

  datatype Config = Config(minTransfer: int, maxTransfer: int, dailyLimit: int, maxAttempts: nat)

  datatype WalletStatus = Active | Frozen | Closed

  /** A customer account row of the Ledger service. */
  datatype Wallet = Wallet(
    customer: string, reference: string, currency: string, ledgerAccount: string, status: WalletStatus)

  datatype Intent = Intent(
    sender: string, sourceAccount: string, recipientReference: string, recipientAccount: string,
    currency: string, amount: int, expiresAt: int, authorized: bool, consumed: bool)

  /** What `canonicalHash` is taken over in `confirm`; the hash is treated as collision-free. */
  datatype ConfirmHash = ConfirmHash(
    sender: string, intentId: string, sourceAccount: string, recipientAccount: string, amount: int, currency: string)

  datatype Status = Processing | Completed | Failed | RequiresReview

  datatype Code =
    | INSUFFICIENT_FUNDS | ACCOUNT_NOT_FOUND | ACCOUNT_NOT_ACTIVE | CURRENCY_MISMATCH | SELF_TRANSFER
    | IDEMPOTENCY_CONFLICT | LEDGER_UNAVAILABLE | OTHER_CODE

  /**
   * A transfer row. `checkedAt` is the instant of the expiry check, `day` the UTC day of its confirm;
   * `owed` and `calls` are bookkeeping of the model: settles committed to but not yet started, and Ledger calls made.
   */
  datatype Transfer = Transfer(
    sender: string, key: string, hash: ConfirmHash, intentId: string, reference: string,
    senderAccount: string, recipientAccount: string, recipientReference: string, currency: string, amount: int,
    status: Status, failure: Option<Code>, journalId: Option<string>, attempts: nat,
    day: int, checkedAt: int, owed: nat, calls: nat)

  // ---------- confirming ----------

  datatype Outcome =
    | Created(id: string) | Existing(id: string) | Refusal(reason: ConfirmError)

  datatype ConfirmError =
    | AuthorizationFailed | IntentExpired | ConfirmConflict | LimitExceeded | RiskRefused | UniqueViolation

  datatype ConfirmPhase =
    | Gate                                            // preflight passed, risk decision pending
    | Reading                                         // transaction open, intent not yet read
    | AwaitingLock(intent: Intent)                    // intent read before the advisory lock
    | HavingLock(intent: Intent)
    | Checked(intent: Intent, at: int)                // no earlier row, intent live
    | Summed(intent: Intent, at: int, reserved: int)  // daily aggregate read and within the limit
    | Over(outcome: Option<Outcome>)                  // answered, or None when the process died

  datatype Confirm = Confirm(sender: string, key: string, token: string, day: int, phase: ConfirmPhase) {
    predicate HasLock() { phase.HavingLock? || phase.Checked? || phase.Summed? }
  }

  // ---------- settling ----------

  datatype Answer = Success(result: JournalResult) | Failure(status: nat, code: Code)

  datatype ServerPhase = Sent | Prechecked(call: Call) | Replied(answer: Answer)

  /** One Ledger call of one settle: the client may stop waiting while the server still works. */
  datatype Attempt = Attempt(transfer: string, waiting: bool, server: ServerPhase, posted: bool)

  datatype State = State(
    cfg: Config, now: int,
    wallets: map<string, Wallet>, byReference: map<string, string>, ledger: Db,
    intents: map<string, Intent>, authorizing: set<string>,
    transfers: map<string, Transfer>, confirms: map<nat, Confirm>, attempts: map<nat, Attempt>)

  datatype Step =
    | Tick(now: int)
    | OpenWallet(id: string, wallet: Wallet)
    | SetStatus(id: string, status: WalletStatus)
    | OpenLedgerAccount(e: Entry)
    | ForeignCall(call: Call)
    | CreateIntent(token: string, sender: string, source: string, recipientReference: string, amount: int, expiresAt: int)
    | AuthorizeRead(token: string, sender: string)
    | AuthorizeWrite(token: string)
    | ConfirmPreflight(c: nat, sender: string, key: string, token: string, day: int)
    | ConfirmGate(c: nat, allowed: bool)
    | ConfirmRead(c: nat)
    | ConfirmLock(c: nat)
    | ConfirmCheck(c: nat)
    | ConfirmSum(c: nat)
    | ConfirmCommit(c: nat, id: string, reference: string)
    | ConfirmDie(c: nat)
    | SettleSend(a: nat, id: string)
    | SettleDropped(id: string)
    | LedgerResolve(a: nat, newId: string)
    | LedgerPost(a: nat, clashStatus: nat)
    | ServerError(a: nat, httpStatus: nat)
    | ClientTimeout(a: nat)
    | ClientReceive(a: nat)
    | ClaimRetry(id: string)
    | ClaimReview(id: string)

  // ---------- the Ledger side of one transfer ----------

  function TransferKey(id: string): string { "transfer:" + id }

  lemma TransferKeyInjective(a: string, b: string)
    ensures TransferKey(a) == TransferKey(b) <==> a == b
  {
    assert TransferKey(a)[9..] == a && TransferKey(b)[9..] == b;
  }

  function TransferPostings(source: string, recipient: string, amount: int): seq<Posting> {
    [Posting(source, Debit, amount), Posting(recipient, Credit, amount)]
  }

  function TransferMetadata(id: string, reference: string): map<string, string> {
    map["transferId" := id, "transferReference" := reference]
  }

  /** The call a settle of this row makes once its two wallets are known; the same on every retry but for newId. */
  function TransferCall(id: string, row: Transfer, source: string, recipient: string, newId: string): Call {
    Call(TransferKey(id), "CUSTOMER_TRANSFER", row.currency, Some(row.reference), "Customer transfer", None,
      TransferMetadata(id, row.reference), TransferPostings(source, recipient, row.amount), newId, row.reference)
  }

  /** `resolve`: both wallets, or the error the Ledger answers with. */
  function Resolve(s: State, row: Transfer): Result<(Wallet, Wallet), Answer> {
    if row.senderAccount !in s.wallets || s.wallets[row.senderAccount].customer != row.sender
      then Err(Failure(404, ACCOUNT_NOT_FOUND))
    else if row.recipientReference !in s.byReference || s.byReference[row.recipientReference] !in s.wallets
      then Err(Failure(409, ACCOUNT_NOT_FOUND))
    else
      var recipientId := s.byReference[row.recipientReference];
      var source, recipient := s.wallets[row.senderAccount], s.wallets[recipientId];
      if source.status != Active || recipient.status != Active then Err(Failure(409, ACCOUNT_NOT_ACTIVE))
      else if row.senderAccount == recipientId then Err(Failure(409, SELF_TRANSFER))
      else if source.currency != recipient.currency || source.currency != row.currency
        then Err(Failure(400, CURRENCY_MISMATCH))
      else Ok((source, recipient))
  }

  /** `transfer` up to the post: resolution, positive amount, and the balance precheck on committed totals. */
  function Precheck(s: State, id: string, row: Transfer, newId: string): Result<Call, Answer> {
    match Resolve(s, row)
    case Err(e) => Err(e)
    case Ok((source, recipient)) =>
      if row.amount <= 0 then Err(Failure(400, OTHER_CODE))
      else if source.ledgerAccount !in s.ledger.accounts then Err(Failure(404, ACCOUNT_NOT_FOUND))
      else if s.ledger.accounts[source.ledgerAccount].Balance() < row.amount then Err(Failure(409, INSUFFICIENT_FUNDS))
      else Ok(TransferCall(id, row, source.ledgerAccount, recipient.ledgerAccount, newId))
  }

  /**
   * How a Ledger reply reads to Payments. A reference clash surfaces either as "in progress" or as an unhandled error,
   * so with any status; its code is none that Payments knows.
   */
  function AnswerOf(reply: Reply, clashStatus: nat): Answer {
    match reply
    case Posted(result, _) => Success(result)
    case Refused(UnbalancedJournal) => Failure(400, OTHER_CODE)
    case Refused(AccountNotFound) => Failure(404, ACCOUNT_NOT_FOUND)
    case Refused(CurrencyMismatch) => Failure(400, CURRENCY_MISMATCH)
    case Refused(InsufficientFunds) => Failure(409, INSUFFICIENT_FUNDS)
    case Refused(IdempotencyConflict) => Failure(409, IDEMPOTENCY_CONFLICT)
    case Refused(IdempotencyInProgress) => Failure(409, OTHER_CODE)
    case Refused(ReferenceTaken) => Failure(clashStatus, OTHER_CODE)
  }

  /** `safeFailure`. */
  function SafeFailure(code: Code): Code {
    if code.OTHER_CODE? then LEDGER_UNAVAILABLE else code
  }

  // ---------- the daily limit ----------

  /** PROCESSING, COMPLETED and REQUIRES_REVIEW rows count towards the limit. */
  predicate Counts(status: Status) { status != Failed }

  function Weight(row: Transfer, sender: string, day: int): int {
    if row.sender == sender && row.day == day && Counts(row.status) then row.amount else 0
  }

  function WeightSince(row: Transfer, sender: string, day: int): int {
    if row.sender == sender && row.day >= day && Counts(row.status) then row.amount else 0
  }

  ghost function DaySum(transfers: map<string, Transfer>, sender: string, day: int): int {
    SumOver(transfers.Keys, id => if id in transfers then Weight(transfers[id], sender, day) else 0)
  }

  /** The aggregate `confirm` reads: every counting row created on the day or later. */
  ghost function ReservedSince(transfers: map<string, Transfer>, sender: string, day: int): int {
    SumOver(transfers.Keys, id => if id in transfers then WeightSince(transfers[id], sender, day) else 0)
  }

  // ---------- steps ----------

  function HashOf(intentId: string, i: Intent): ConfirmHash {
    ConfirmHash(i.sender, intentId, i.sourceAccount, i.recipientAccount, i.amount, i.currency)
  }

  /** The row under the unique (sender, key) constraint, if any. */
  ghost predicate HasKey(transfers: map<string, Transfer>, sender: string, key: string) {
    exists id :: id in transfers && transfers[id].sender == sender && transfers[id].key == key
  }

  ghost function WithKey(transfers: map<string, Transfer>, sender: string, key: string): (id: string)
    requires HasKey(transfers, sender, key)
    ensures id in transfers && transfers[id].sender == sender && transfers[id].key == key
  {
    var id :| id in transfers && transfers[id].sender == sender && transfers[id].key == key; id
  }

  ghost predicate IntentUsed(transfers: map<string, Transfer>, token: string) {
    exists id :: id in transfers && transfers[id].intentId == token
  }

  predicate LockFree(s: State, c: nat) {
    c in s.confirms && forall d :: d in s.confirms && d != c && s.confirms[d].HasLock() ==>
      s.confirms[d].sender != s.confirms[c].sender || s.confirms[d].day != s.confirms[c].day
  }

  /** The preview's checks when an intent is created; the wallets it read. */
  predicate PreviewOk(s: State, sender: string, source: string, recipientReference: string, currency: string) {
    && source in s.wallets && s.wallets[source].customer == sender
    && recipientReference in s.byReference && s.byReference[recipientReference] in s.wallets
    && s.byReference[recipientReference] != source
    && s.wallets[source].currency == s.wallets[s.byReference[recipientReference]].currency == currency
  }

  /** The steps of a confirm before it writes. */
  predicate MovesConfirm(step: Step) {
    || step.ConfirmPreflight? || step.ConfirmGate? || step.ConfirmRead? || step.ConfirmLock?
    || step.ConfirmCheck? || step.ConfirmSum? || step.ConfirmDie?
  }

  /** The steps that write transfer rows. */
  predicate TouchesRows(step: Step) {
    || step.ConfirmCommit? || step.SettleSend? || step.SettleDropped? || step.ClientReceive?
    || step.ClaimRetry? || step.ClaimReview?
  }

  /** The steps of a Ledger call under way. */
  predicate MovesAttempt(step: Step) {
    step.LedgerResolve? || step.LedgerPost? || step.ServerError? || step.ClientTimeout?
  }

  /** Everything else: the clock, wallets, other ledger traffic, and intents. */
  predicate MovesWorld(step: Step) {
    !MovesConfirm(step) && !TouchesRows(step) && !MovesAttempt(step)
  }

  ghost predicate WorldEnabled(s: State, step: Step)
    requires MovesWorld(step)
  {
    match step
    case Tick(now) => now >= s.now
    case OpenWallet(id, w) =>
      id !in s.wallets && w.reference !in s.byReference && w.ledgerAccount !in s.ledger.accounts
    case SetStatus(id, _) => id in s.wallets
    case OpenLedgerAccount(e) => e.Opened?
    case ForeignCall(call) => DistinctIds(call.postings) && !("transfer:" <= call.key)
    case CreateIntent(token, sender, source, recipientReference, amount, _) =>
      token !in s.intents && s.cfg.minTransfer <= amount <= s.cfg.maxTransfer
      && PreviewOk(s, sender, source, recipientReference, "LKR")
    case AuthorizeRead(token, sender) =>
      token in s.intents && s.intents[token].sender == sender
      && !s.intents[token].consumed && s.intents[token].expiresAt > s.now
    case AuthorizeWrite(token) => token in s.authorizing && token in s.intents
  }

  ghost predicate ConfirmEnabled(s: State, step: Step)
    requires MovesConfirm(step)
  {
    match step
    case ConfirmPreflight(c, _, _, _, _) => c !in s.confirms
    case ConfirmGate(c, _) => c in s.confirms && s.confirms[c].phase.Gate?
    case ConfirmRead(c) => c in s.confirms && s.confirms[c].phase.Reading?
    case ConfirmLock(c) => c in s.confirms && s.confirms[c].phase.AwaitingLock? && LockFree(s, c)
    case ConfirmCheck(c) => c in s.confirms && s.confirms[c].phase.HavingLock?
    case ConfirmSum(c) => c in s.confirms && s.confirms[c].phase.Checked?
    case ConfirmDie(c) => c in s.confirms && !s.confirms[c].phase.Over?
  }

  ghost predicate RowEnabled(s: State, step: Step)
    requires TouchesRows(step)
  {
    match step
    case ConfirmCommit(c, id, _) => c in s.confirms && s.confirms[c].phase.Summed? && id !in s.transfers
    case SettleSend(a, id) => a !in s.attempts && id in s.transfers && s.transfers[id].owed > 0
    case SettleDropped(id) => id in s.transfers && s.transfers[id].owed > 0
    case ClientReceive(a) =>
      a in s.attempts && s.attempts[a].waiting && s.attempts[a].server.Replied? && s.attempts[a].transfer in s.transfers
    case ClaimRetry(id) =>
      id in s.transfers && s.transfers[id].status == Processing && s.transfers[id].attempts + 1 < s.cfg.maxAttempts
    case ClaimReview(id) =>
      id in s.transfers && s.transfers[id].status == Processing && s.transfers[id].attempts + 1 >= s.cfg.maxAttempts
  }

  ghost predicate AttemptEnabled(s: State, step: Step)
    requires MovesAttempt(step)
  {
    match step
    case LedgerResolve(a, _) => a in s.attempts && s.attempts[a].server.Sent? && s.attempts[a].transfer in s.transfers
    case LedgerPost(a, _) => a in s.attempts && s.attempts[a].server.Prechecked?
    case ServerError(a, status) => a in s.attempts && status >= 500
    case ClientTimeout(a) => a in s.attempts && s.attempts[a].waiting
  }

  ghost predicate Enabled(s: State, step: Step) {
    if MovesConfirm(step) then ConfirmEnabled(s, step)
    else if TouchesRows(step) then RowEnabled(s, step)
    else if MovesAttempt(step) then AttemptEnabled(s, step)
    else WorldEnabled(s, step)
  }

  function ConfirmTo(s: State, c: nat, phase: ConfirmPhase): State
    requires c in s.confirms
  {
    s.(confirms := s.confirms[c := s.confirms[c].(phase := phase)])
  }

  function AttemptTo(s: State, a: nat, attempt: Attempt): State {
    s.(attempts := s.attempts[a := attempt])
  }

  function SetRow(s: State, id: string, row: Transfer): State {
    s.(transfers := s.transfers[id := row])
  }

  /** The row a confirm inserts. */
  function NewRow(k: Confirm, reference: string): Transfer
    requires k.phase.Summed?
  {
    var i := k.phase.intent;
    Transfer(i.sender, k.key, HashOf(k.token, i), k.token, reference, i.sourceAccount, i.recipientAccount,
      i.recipientReference, i.currency, i.amount, Processing, None, None, 0, k.day, k.phase.at, 1, 0)
  }

  /** What the end of a settle writes to the row: by id, without looking at the status it overwrites. */
  function SettledRow(row: Transfer, answer: Answer): Transfer {
    match answer
    case Success(result) => row.(status := Status.Completed, journalId := Some(result.journalId))
    case Failure(status, code) =>
      if status < 500 then row.(status := Failed, failure := Some(SafeFailure(code))) else row
  }

  ghost function PreflightPhase(s: State, sender: string, key: string, token: string): ConfirmPhase {
    if token !in s.intents || s.intents[token].sender != sender || !s.intents[token].authorized
      then Over(Some(Refusal(AuthorizationFailed)))
    else if HasKey(s.transfers, sender, key) then
      var id := WithKey(s.transfers, sender, key);
      if s.transfers[id].hash != HashOf(token, s.intents[token]) then Over(Some(Refusal(ConfirmConflict)))
      else Over(Some(Existing(id)))
    else Gate
  }

  ghost function CheckPhase(s: State, k: Confirm): ConfirmPhase
    requires k.phase.HavingLock?
  {
    var i := k.phase.intent;
    if HasKey(s.transfers, k.sender, k.key) then
      var id := WithKey(s.transfers, k.sender, k.key);
      if s.transfers[id].hash != HashOf(k.token, i) then Over(Some(Refusal(ConfirmConflict)))
      else Over(Some(Existing(id)))
    else if i.expiresAt <= s.now || i.consumed || !i.authorized then Over(Some(Refusal(IntentExpired)))
    else Checked(i, s.now)
  }

  ghost function DoWorld(s: State, step: Step): State
    requires MovesWorld(step) && WorldEnabled(s, step)
  {
    match step
    case Tick(now) => s.(now := now)
    case OpenWallet(id, w) =>
      s.(wallets := s.wallets[id := w], byReference := s.byReference[w.reference := id],
         ledger := Apply(s.ledger, Opened(w.ledgerAccount, w.currency, Liability, false)))
    case SetStatus(id, status) => s.(wallets := s.wallets[id := s.wallets[id].(status := status)])
    case OpenLedgerAccount(e) => s.(ledger := Apply(s.ledger, e))
    case ForeignCall(call) => s.(ledger := Exec(s.ledger, call).0)
    case CreateIntent(token, sender, source, recipientReference, amount, expiresAt) =>
      s.(intents := s.intents[token := Intent(sender, source, recipientReference, s.byReference[recipientReference],
        s.wallets[source].currency, amount, expiresAt, false, false)])
    case AuthorizeRead(token, _) => s.(authorizing := s.authorizing + {token})
    case AuthorizeWrite(token) => s.(intents := s.intents[token := s.intents[token].(authorized := true)])
  }

  ghost function DoConfirm(s: State, step: Step): State
    requires MovesConfirm(step) && ConfirmEnabled(s, step)
  {
    match step
    case ConfirmPreflight(c, sender, key, token, day) =>
      s.(confirms := s.confirms[c := Confirm(sender, key, token, day, PreflightPhase(s, sender, key, token))])
    case ConfirmGate(c, allowed) => ConfirmTo(s, c, if allowed then Reading else Over(Some(Refusal(RiskRefused))))
    case ConfirmRead(c) =>
      var k := s.confirms[c];
      if k.token in s.intents && s.intents[k.token].sender == k.sender
        then ConfirmTo(s, c, AwaitingLock(s.intents[k.token]))
      else ConfirmTo(s, c, Over(Some(Refusal(IntentExpired))))
    case ConfirmLock(c) => ConfirmTo(s, c, HavingLock(s.confirms[c].phase.intent))
    case ConfirmCheck(c) => ConfirmTo(s, c, CheckPhase(s, s.confirms[c]))
    case ConfirmSum(c) =>
      var k := s.confirms[c];
      var reserved := ReservedSince(s.transfers, k.sender, k.day);
      if reserved + k.phase.intent.amount > s.cfg.dailyLimit then ConfirmTo(s, c, Over(Some(Refusal(LimitExceeded))))
      else ConfirmTo(s, c, Summed(k.phase.intent, k.phase.at, reserved))
    case ConfirmDie(c) => ConfirmTo(s, c, Over(None))
  }

  ghost function DoRow(s: State, step: Step): State
    requires TouchesRows(step) && RowEnabled(s, step)
  {
    match step
    case ConfirmCommit(c, id, reference) =>
      var k := s.confirms[c];
      if IntentUsed(s.transfers, k.token) || HasKey(s.transfers, k.sender, k.key) || k.token !in s.intents
        then ConfirmTo(s, c, Over(Some(Refusal(UniqueViolation))))
      else
        ConfirmTo(SetRow(s, id, NewRow(k, reference)), c, Over(Some(Created(id))))
          .(intents := s.intents[k.token := s.intents[k.token].(consumed := true)])
    case SettleSend(a, id) =>
      var row := s.transfers[id];
      AttemptTo(SetRow(s, id, row.(owed := row.owed - 1, calls := row.calls + 1)), a, Attempt(id, true, Sent, false))
    case SettleDropped(id) => SetRow(s, id, s.transfers[id].(owed := s.transfers[id].owed - 1))
    case ClientReceive(a) =>
      var at := s.attempts[a];
      AttemptTo(SetRow(s, at.transfer, SettledRow(s.transfers[at.transfer], at.server.answer)), a, at.(waiting := false))
    case ClaimRetry(id) =>
      var row := s.transfers[id];
      SetRow(s, id, row.(attempts := row.attempts + 1, owed := row.owed + 1))
    case ClaimReview(id) =>
      SetRow(s, id, s.transfers[id].(status := RequiresReview, attempts := s.transfers[id].attempts + 1))
  }

  ghost function DoAttempt(s: State, step: Step): State
    requires MovesAttempt(step) && AttemptEnabled(s, step)
  {
    match step
    case LedgerResolve(a, newId) =>
      var at := s.attempts[a];
      (match Precheck(s, at.transfer, s.transfers[at.transfer], newId)
       case Err(answer) => AttemptTo(s, a, at.(server := Replied(answer)))
       case Ok(call) => AttemptTo(s, a, at.(server := Prechecked(call))))
    case LedgerPost(a, clashStatus) =>
      var at := s.attempts[a];
      var (ledger', reply) := Exec(s.ledger, at.server.call);
      AttemptTo(s, a, at.(server := Replied(AnswerOf(reply, clashStatus)), posted := reply.Posted?)).(ledger := ledger')
    case ServerError(a, status) => AttemptTo(s, a, s.attempts[a].(server := Replied(Failure(status, OTHER_CODE))))
    case ClientTimeout(a) => AttemptTo(s, a, s.attempts[a].(waiting := false))
  }

  ghost function Do(s: State, step: Step): State
    requires Enabled(s, step)
  {
    if MovesConfirm(step) then DoConfirm(s, step)
    else if TouchesRows(step) then DoRow(s, step)
    else if MovesAttempt(step) then DoAttempt(s, step)
    else DoWorld(s, step)
  }

  function Start(cfg: Config): State {
    State(cfg, 0, map[], map[], EMPTY, map[], {}, map[], map[], map[])
  }

  predicate GoodConfig(cfg: Config) {
    0 < cfg.minTransfer <= cfg.maxTransfer <= cfg.dailyLimit && cfg.maxAttempts >= 1
  }

  /** Any finite interleaving from an empty system. */
  ghost predicate IsRun(run: seq<State>, steps: seq<Step>) {
    && |run| == |steps| + 1 && GoodConfig(run[0].cfg) && run[0] == Start(run[0].cfg)
    && forall i :: 0 <= i < |steps| ==> Enabled(run[i], steps[i]) && run[i + 1] == Do(run[i], steps[i])
  }

  ghost predicate Reachable(s: State) {
    exists run, steps :: IsRun(run, steps) && run[|run| - 1] == s
  }
}
