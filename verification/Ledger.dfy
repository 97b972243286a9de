/**
 * The ledger as one caller at a time sees it: what a posting call answers and what it writes
 * (journal.service.ts `post`, idempotency.service.ts `execute`, money.ts). LedgerRun shows that
 * concurrent transactions behave like calls made one after another against this module.
 */
module Ledger {
  import opened Wrappers
  import opened Text
  import opened Postings

  datatype AccountClass = Asset | Liability | Equity | Revenue | Expense

  function SignedBalance(cls: AccountClass, debit: int, credit: int): int {
    if cls == Asset || cls == Expense then debit - credit else credit - debit
  }

  /** A ledger account row joined with its balance projection. */
  datatype Account = Account(
    currency: string, cls: AccountClass, allowNegative: bool, debit: int, credit: int, version: nat)
  {
    function Balance(): int { SignedBalance(cls, debit, credit) }

    /** `applyDirection`, on the account's own totals. */
    function Apply(d: Direction, amount: int): Account {
      match d
      case Debit => this.(debit := debit + amount)
      case Credit => this.(credit := credit + amount)
    }

    function On(d: Direction): int {
      if d == Debit then debit else credit
    }
  }

  /** What `canonicalRequestHash` is taken over; the hash is treated as collision-free. */
  datatype Payload = Payload(
    entryType: string, currency: string, reference: Option<string>, description: string, effectiveAt: Option<string>,
    metadata: map<string, string>, rows: seq<PayloadRow>)

  /** One posting request after `normalisePostings`, with the random values its transaction would draw. */
  datatype Call = Call(
    key: string, entryType: string, currency: string, reference: Option<string>, description: string,
    effectiveAt: Option<string>, metadata: map<string, string>, postings: seq<Posting>,
    newId: string, newReference: string)
  {
    function Hash(): Payload {
      Payload(entryType, currency, reference, description, effectiveAt, metadata, PayloadRows(postings))
    }

    function ReferenceUsed(): string {
      match reference
      case Some(r) => r
      case None => newReference
    }

    function Accounts(): seq<string> { AccountOrder(postings) }
  }

  datatype Journal = Journal(
    id: string, key: string, reference: string, entryType: string, currency: string, description: string,
    effectiveAt: Option<string>, metadata: map<string, string>, postings: seq<Posting>)

  datatype JournalResult = JournalResult(
    journalId: string, reference: string, entryType: string, currency: string,
    total: int, postings: seq<Posting>)

  datatype RecordStatus = InProgress | Completed

  datatype IdempotencyRecord = IdempotencyRecord(
    hash: Payload, status: RecordStatus, response: Option<JournalResult>)

  datatype Db = Db(
    accounts: map<string, Account>, journals: seq<Journal>, records: map<string, IdempotencyRecord>)

  datatype LedgerError =
    | UnbalancedJournal | AccountNotFound | CurrencyMismatch | InsufficientFunds
    | IdempotencyConflict | IdempotencyInProgress | ReferenceTaken

  datatype Reply = Posted(result: JournalResult, replayed: bool) | Refused(error: LedgerError)

  // ---------- the work of one posting transaction ----------

  /** An account row with every posting of the list that names it applied. */
  function Projected(acct: Account, id: string, ps: seq<Posting>): Account {
    acct.(debit := acct.debit + Total(ps, id, Debit), credit := acct.credit + Total(ps, id, Credit))
  }

  function ProjectedAll(locked: map<string, Account>, ps: seq<Posting>): map<string, Account> {
    map id | id in locked :: Projected(locked[id], id, ps)
  }

  predicate Solvent(acct: Account) {
    acct.allowNegative || acct.Balance() >= 0
  }

  /** What the checks inside the transaction decide, given the rows the call has locked. */
  function Verdict(locked: map<string, Account>, call: Call): Option<LedgerError> {
    if exists id :: id in call.Accounts() && id !in locked then Some(AccountNotFound)
    else if exists id :: id in locked && locked[id].currency != call.currency then Some(CurrencyMismatch)
    else if exists id :: id in locked && !Solvent(Projected(locked[id], id, call.postings)) then Some(InsufficientFunds)
    else None
  }

  /** The first loop of `run`: walk the postings, updating a copy of every locked row. */
  method ProjectPostings(locked: map<string, Account>, ps: seq<Posting>) returns (r: Option<map<string, Account>>)
    ensures r.Some? <==> forall id :: Names(ps, id) ==> id in locked
    ensures r.Some? ==> r.value == ProjectedAll(locked, ps)
  {
    var projected := locked;
    for n := 0 to |ps|
      invariant projected == ProjectedAll(locked, ps[..n])
      invariant forall id :: Names(ps[..n], id) ==> id in locked
    {
      assert ps[..n + 1] == ps[..n] + [ps[n]];
      if ps[n].account !in projected {
        assert Names(ps, ps[n].account);
        return None;
      }
      forall id | id in locked
        ensures Projected(locked[id], id, ps[..n + 1]) ==
                if id == ps[n].account then projected[id].Apply(ps[n].direction, ps[n].amount) else projected[id]
      {
        TotalAppend(ps[..n], ps[n], id, Debit);
        TotalAppend(ps[..n], ps[n], id, Credit);
      }
      forall id | Names(ps[..n + 1], id) ensures id in locked {
        assert Names(ps[..n], id) || id == ps[n].account;
      }
      projected := projected[ps[n].account := projected[ps[n].account].Apply(ps[n].direction, ps[n].amount)];
    }
    assert ps[..|ps|] == ps;
    r := Some(projected);
  }

  /** `run` up to the first insert: currency check, projection, solvency check, over the rows locked in order. */
  method CheckPostable(locked: map<string, Account>, order: seq<string>, call: Call)
    returns (r: Result<map<string, Account>, LedgerError>)
    requires Ascending(order) && forall id :: id in order <==> id in locked
    requires forall id :: id in order ==> id in call.Accounts()
    ensures r.Err? ==> Verdict(locked, call) == Some(r.error)
    ensures r.Ok? ==> Verdict(locked, call).None? && r.value == ProjectedAll(locked, call.postings)
  {
    AccountOrderAscends(call.postings);
    AscendingSameLength(order, call.Accounts());
    if |order| != |call.Accounts()| {
      return Err(AccountNotFound);
    }
    for i := 0 to |order|
      invariant forall j :: 0 <= j < i ==> locked[order[j]].currency == call.currency
    {
      if locked[order[i]].currency != call.currency {
        return Err(CurrencyMismatch);
      }
    }
    var projected := ProjectPostings(locked, call.postings);
    if projected.None? {
      return Err(AccountNotFound);
    }
    for i := 0 to |order|
      invariant forall j :: 0 <= j < i ==> Solvent(Projected(locked[order[j]], order[j], call.postings))
    {
      if !Solvent(projected.value[order[i]]) {
        return Err(InsufficientFunds);
      }
    }
    r := Ok(projected.value);
  }

  // ---------- one call against the committed database ----------

  function Locked(accounts: map<string, Account>, ids: seq<string>): map<string, Account> {
    map id | id in accounts && id in ids :: accounts[id]
  }

  function JournalOf(call: Call): Journal {
    Journal(call.newId, call.key, call.ReferenceUsed(), call.entryType, call.currency, call.description,
      call.effectiveAt, call.metadata, call.postings)
  }

  function ResultOf(call: Call): JournalResult {
    JournalResult(call.newId, call.ReferenceUsed(), call.entryType, call.currency,
      Sum(call.postings, Debit), call.postings)
  }

  predicate ReferenceExists(journals: seq<Journal>, reference: string) {
    exists i :: 0 <= i < |journals| && journals[i].reference == reference
  }

  /** What `replayIfSettled` makes of a record it finds after a key conflict. */
  function Replay(record: IdempotencyRecord, call: Call): Reply {
    if record.hash != call.Hash() then Refused(IdempotencyConflict)
    else if record.status != Completed || record.response.None? then Refused(IdempotencyInProgress)
    else Posted(record.response.value, true)
  }

  function CreditedAccounts(accounts: map<string, Account>, call: Call): map<string, Account> {
    map id | id in accounts :: if id in call.Accounts()
      then Projected(accounts[id], id, call.postings).(version := accounts[id].version + 1)
      else accounts[id]
  }

  /** The effect of a first, accepted call: totals grow by what was posted, one journal, one record. */
  function Credited(db: Db, call: Call): Db {
    Db(CreditedAccounts(db.accounts, call),
       db.journals + [JournalOf(call)],
       db.records[call.key := IdempotencyRecord(call.Hash(), Completed, Some(ResultOf(call)))])
  }

  /** A whole call, alone: the simple ledger that every concurrent run must match. */
  function Exec(db: Db, call: Call): (Db, Reply) {
    if !Balanced(call.postings) then (db, Refused(UnbalancedJournal))
    else if call.key in db.records then (db, Replay(db.records[call.key], call))
    else
      match Verdict(Locked(db.accounts, call.Accounts()), call)
      case Some(error) => (db, Refused(error))
      case None =>
        if ReferenceExists(db.journals, call.ReferenceUsed()) then (db, Refused(ReferenceTaken))
        else (Credited(db, call), Posted(ResultOf(call), false))
  }

  /** What happened to the ledger, in order: accounts opened at zero, and calls answered. */
  datatype Entry =
    | Opened(id: string, currency: string, cls: AccountClass, allowNegative: bool)
    | Answered(call: Call, reply: Reply)

  function Opening(e: Entry): Account
    requires e.Opened?
  {
    Account(e.currency, e.cls, e.allowNegative, 0, 0, 0)
  }

  function Apply(db: Db, e: Entry): Db {
    match e
    case Opened(id, _, _, _) => if id in db.accounts then db else db.(accounts := db.accounts[id := Opening(e)])
    case Answered(call, _) => Exec(db, call).0
  }

  const EMPTY := Db(map[], [], map[])

  function Replayed(log: seq<Entry>): Db {
    if |log| == 0 then EMPTY else Apply(Replayed(log[..|log| - 1]), log[|log| - 1])
  }

  /** A journal of another key already carries the call's reference. */
  predicate ReferenceHeld(db: Db, call: Call) {
    exists i :: 0 <= i < |db.journals| && db.journals[i].reference == call.ReferenceUsed() && db.journals[i].key != call.key
  }

  /**
   * What the caller is told of an outcome. `isIdempotencyConflict` takes a unique violation for one of the key unless
   * the error names the table, so a clash of references that does not is told as "in progress".
   */
  function Told(reply: Reply, named: bool): Reply {
    if reply == Refused(ReferenceTaken) && !named then Refused(IdempotencyInProgress) else reply
  }

  /** The answer is the one-at-a-time ledger's, or "in progress" for a fresh key whose reference another journal holds. */
  predicate Explains(db: Db, call: Call, reply: Reply) {
    || reply == Exec(db, call).1
    || (reply == Refused(IdempotencyInProgress) && call.key !in db.records && ReferenceHeld(db, call))
  }

  /** Every answer in the log is explained by the one-at-a-time ledger at that point. */
  ghost predicate Faithful(log: seq<Entry>) {
    forall i :: 0 <= i < |log| && log[i].Answered? ==> Explains(Replayed(log[..i]), log[i].call, log[i].reply)
  }
}
