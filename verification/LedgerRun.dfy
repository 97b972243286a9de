/**
 * Concurrent posting transactions: each step below is one database statement of `execute` and `post`
 * (idempotency.service.ts lines 91 to 163, journal.service.ts lines 160 to 310), taken in any order by
 * any number of transactions. Reservation rows, account rows and journal references are held to the end.
 */
module LedgerRun {
  import opened Wrappers
  import opened Text
  import opened Postings
  import opened Ledger
  import opened LedgerSafety

  datatype Phase =
    | Checking                                // about to look for a settled record
    | Reserving                               // about to insert the reservation row
    | Locking(rows: seq<string>, held: nat)   // the first `held` of the rows found are locked
    | Inserting(rows: seq<string>)            // checks passed, about to insert the journal entry
    | Writing(rows: seq<string>)              // journal inserted, projections and record about to be written
    | Conflicted                              // the reservation hit a committed record
    | Clashed                                 // rolled back on a taken reference, in an error that does not name the table
    | Finished(reply: Reply)
    | Aborted                                 // connection lost or process killed: rolled back, nothing answered

  /** `locked` holds the row values read when each row lock was granted. */
  datatype Tx = Tx(call: Call, phase: Phase, locked: map<string, Account>) {
    predicate Open() { !phase.Finished? && !phase.Aborted? }
  }

  datatype State = State(db: Db, txs: map<nat, Tx>, log: seq<Entry>)

  datatype Step =
    | Begin(t: nat, call: Call) | PreCheck(t: nat) | Reserve(t: nat) | LockRow(t: nat) | Check(t: nat)
    | Insert(t: nat, named: bool) | Commit(t: nat) | Lookup(t: nat) | Crash(t: nat) | OpenAccount(e: Entry)

  // ---------- locks ----------

  /** The unique-index entry of a reservation, a row lock, or the unique-index entry of a journal reference. */
  datatype Resource = KeyLock(key: string) | RowLock(id: string) | RefLock(reference: string)

  predicate Holds(tx: Tx, r: Resource) {
    match r
    case KeyLock(k) => (tx.phase.Locking? || tx.phase.Inserting? || tx.phase.Writing?) && tx.call.key == k
    case RowLock(id) =>
      (tx.phase.Locking? && id in tx.phase.rows[..if tx.phase.held <= |tx.phase.rows| then tx.phase.held else 0])
      || ((tx.phase.Inserting? || tx.phase.Writing?) && id in tx.phase.rows)
    case RefLock(reference) => tx.phase.Writing? && tx.call.ReferenceUsed() == reference
  }

  /** The next resource an open transaction must take before it can go on. */
  function Wanted(tx: Tx): Option<Resource> {
    match tx.phase
    case Reserving => Some(KeyLock(tx.call.key))
    case Locking(rows, held) => if held < |rows| then Some(RowLock(rows[held])) else None
    case Inserting(_) => Some(RefLock(tx.call.ReferenceUsed()))
    case _ => None
  }

  predicate WaitsFor(s: State, t: nat, u: nat) {
    t in s.txs && u in s.txs && t != u && Wanted(s.txs[t]).Some? && Holds(s.txs[u], Wanted(s.txs[t]).value)
  }

  predicate Blocked(s: State, t: nat) {
    exists u :: u in s.txs && WaitsFor(s, t, u)
  }

  // ---------- steps ----------

  /** The rows of the locking query: the named accounts that exist, ascending. */
  function Existing(ids: seq<string>, accounts: map<string, Account>): seq<string> {
    if |ids| == 0 then []
    else if ids[0] in accounts then [ids[0]] + Existing(ids[1..], accounts)
    else Existing(ids[1..], accounts)
  }

  /** The absolute totals and records a commit writes, computed from the values read under lock. */
  function Written(db: Db, tx: Tx): Db {
    var projected := ProjectedAll(tx.locked, tx.call.postings);
    Db(map id | id in db.accounts :: if id in projected
         then db.accounts[id].(debit := projected[id].debit, credit := projected[id].credit,
                               version := db.accounts[id].version + 1)
         else db.accounts[id],
       db.journals + [JournalOf(tx.call)],
       db.records[tx.call.key := IdempotencyRecord(tx.call.Hash(), Completed, Some(ResultOf(tx.call)))])
  }

  predicate Enabled(s: State, step: Step) {
    match step
    case Begin(t, call) => t !in s.txs && DistinctIds(call.postings)
    case PreCheck(t) => t in s.txs && s.txs[t].phase.Checking?
    case Reserve(t) => t in s.txs && s.txs[t].phase.Reserving? && !Blocked(s, t)
    case LockRow(t) =>
      t in s.txs && s.txs[t].phase.Locking? && s.txs[t].phase.held < |s.txs[t].phase.rows| && !Blocked(s, t)
      && s.txs[t].phase.rows[s.txs[t].phase.held] in s.db.accounts
    case Check(t) => t in s.txs && s.txs[t].phase.Locking? && s.txs[t].phase.held == |s.txs[t].phase.rows|
    case Insert(t, _) => t in s.txs && s.txs[t].phase.Inserting? && !Blocked(s, t)
    case Commit(t) => t in s.txs && s.txs[t].phase.Writing?
    case Lookup(t) => t in s.txs && (s.txs[t].phase.Conflicted? || s.txs[t].phase.Clashed?)
    case Crash(t) => t in s.txs && s.txs[t].Open()
    case OpenAccount(e) =>
      && e.Opened? && e.id !in s.db.accounts
      && forall t :: t in s.txs && s.txs[t].phase.Locking? ==> !Names(s.txs[t].call.postings, e.id)
  }

  function Move(s: State, t: nat, phase: Phase): State
    requires t in s.txs
  {
    s.(txs := s.txs[t := s.txs[t].(phase := phase)])
  }

  /** A call is answered: the transaction ends, holding nothing, and the answer is recorded. */
  function Answer(s: State, t: nat, reply: Reply): State
    requires t in s.txs
  {
    Move(s, t, Finished(reply)).(log := s.log + [Answered(s.txs[t].call, reply)])
  }

  function Do(s: State, step: Step): State
    requires Enabled(s, step)
  {
    match step
    case Begin(t, call) =>
      var s' := s.(txs := s.txs[t := Tx(call, Checking, map[])]);
      if Balanced(call.postings) then s' else Answer(s', t, Refused(UnbalancedJournal))
    case PreCheck(t) =>
      var call := s.txs[t].call;
      if call.key !in s.db.records then Move(s, t, Reserving)
      else
        var reply := Replay(s.db.records[call.key], call);
        if reply == Refused(IdempotencyInProgress) then Move(s, t, Reserving) else Answer(s, t, reply)
    case Reserve(t) =>
      var call := s.txs[t].call;
      if call.key in s.db.records then Move(s, t, Conflicted)
      else Move(s, t, Locking(Existing(call.Accounts(), s.db.accounts), 0))
    case LockRow(t) =>
      var tx := s.txs[t];
      var id := tx.phase.rows[tx.phase.held];
      s.(txs := s.txs[t := Tx(tx.call, Locking(tx.phase.rows, tx.phase.held + 1), tx.locked[id := s.db.accounts[id]])])
    case Check(t) =>
      (match Verdict(s.txs[t].locked, s.txs[t].call)
       case Some(error) => Answer(s, t, Refused(error))
       case None => Move(s, t, Inserting(s.txs[t].phase.rows)))
    case Insert(t, named) =>
      if ReferenceExists(s.db.journals, s.txs[t].call.ReferenceUsed())
        then if named then Answer(s, t, Refused(ReferenceTaken)) else Move(s, t, Clashed)
      else Move(s, t, Writing(s.txs[t].phase.rows))
    case Commit(t) =>
      Answer(s, t, Posted(ResultOf(s.txs[t].call), false)).(db := Written(s.db, s.txs[t]))
    case Lookup(t) =>
      var call := s.txs[t].call;
      if call.key in s.db.records then Answer(s, t, Replay(s.db.records[call.key], call))
      else Answer(s, t, Refused(IdempotencyInProgress))
    case Crash(t) => Move(s, t, Aborted)
    case OpenAccount(e) => State(Apply(s.db, e), s.txs, s.log + [e])
  }

  const START := State(EMPTY, map[], [])

  /** Any finite interleaving. */
  ghost predicate IsRun(run: seq<State>, steps: seq<Step>) {
    && |run| == |steps| + 1 && run[0] == START
    && forall i :: 0 <= i < |steps| ==> Enabled(run[i], steps[i]) && run[i + 1] == Do(run[i], steps[i])
  }

  ghost predicate Reachable(s: State) {
    exists run, steps :: IsRun(run, steps) && run[|run| - 1] == s
  }

  // ---------- the invariant ----------

  /** No resource has two holders. */
  ghost predicate Exclusive(s: State) {
    forall t, u, r :: t in s.txs && u in s.txs && t != u && Holds(s.txs[t], r) ==> !Holds(s.txs[u], r)
  }

  ghost predicate RowsFound(rows: seq<string>, call: Call, db: Db) {
    Ascending(rows) && forall id :: id in rows <==> id in call.Accounts() && id in db.accounts
  }

  /** The values read under lock are still the committed ones, and no rival has used the key or reference. */
  ghost predicate TxOk(db: Db, tx: Tx) {
    && (tx.Open() ==> Balanced(tx.call.postings) && DistinctIds(tx.call.postings))
    && match tx.phase {
      case Locking(rows, held) =>
        && RowsFound(rows, tx.call, db) && held <= |rows| && tx.call.key !in db.records
        && (forall id :: id in tx.locked <==> id in rows[..held])
        && (forall id :: id in tx.locked ==> id in db.accounts && tx.locked[id] == db.accounts[id])
      case Inserting(rows) =>
        && RowsFound(rows, tx.call, db) && tx.call.key !in db.records
        && tx.locked == Locked(db.accounts, tx.call.Accounts()) && Verdict(tx.locked, tx.call).None?
      case Writing(rows) =>
        && RowsFound(rows, tx.call, db) && tx.call.key !in db.records
        && tx.locked == Locked(db.accounts, tx.call.Accounts()) && Verdict(tx.locked, tx.call).None?
        && !ReferenceExists(db.journals, tx.call.ReferenceUsed())
      case Checking => tx.locked == map[]
      case Reserving => tx.locked == map[]
      case Conflicted => tx.call.key in db.records
      case Clashed => ReferenceHeld(db, tx.call)
      case Finished(reply) => reply == Refused(IdempotencyInProgress) ==> ReferenceHeld(db, tx.call)
      case Aborted => true
    }
  }

  ghost predicate AllTxOk(s: State) {
    forall t :: t in s.txs ==> TxOk(s.db, s.txs[t])
  }

  /** The committed database and every answer given are those of the log, one call at a time. */
  ghost predicate Linear(s: State) {
    s.db == Replayed(s.log) && WellFormed(s.log) && Faithful(s.log)
  }

  /** Every answer given to a caller is in the log. */
  ghost predicate Recorded(s: State) {
    forall t :: t in s.txs && s.txs[t].phase.Finished? ==>
      Answered(s.txs[t].call, s.txs[t].phase.reply) in s.log
  }

  ghost predicate Inv(s: State) {
    Exclusive(s) && AllTxOk(s) && Linear(s)
  }

  lemma {:induction false} ExistingFound(ids: seq<string>, accounts: map<string, Account>)
    requires Ascending(ids)
    ensures Ascending(Existing(ids, accounts))
    ensures forall id :: id in Existing(ids, accounts) <==> id in ids && id in accounts
  {
    if |ids| > 0 {
      ExistingFound(ids[1..], accounts);
      assert ids == [ids[0]] + ids[1..];
      var r := Existing(ids[1..], accounts);
      forall j | 0 <= j < |r| ensures Less(ids[0], r[j]) {
        assert r[j] in r;
        var k :| 0 <= k < |ids[1..]| && ids[1..][k] == r[j];
        assert ids[k + 1] == r[j];
      }
    }
  }

  /** Extending the log with an entry that the one-at-a-time ledger explains keeps it faithful. */
  lemma LogGrows(s: State, e: Entry)
    requires Linear(s)
    requires e.Answered? ==> DistinctIds(e.call.postings) && Explains(s.db, e.call, e.reply)
    ensures Replayed(s.log + [e]) == Apply(s.db, e)
    ensures WellFormed(s.log + [e]) && Faithful(s.log + [e])
  {
    var log' := s.log + [e];
    assert log'[..|s.log|] == s.log;
    forall i | 0 <= i < |log'| && log'[i].Answered? ensures Explains(Replayed(log'[..i]), log'[i].call, log'[i].reply) {
      if i < |s.log| { assert log'[..i] == s.log[..i]; }
    }
  }

  /** Answering a call that changes nothing, with an answer that the one-at-a-time ledger explains. */
  lemma AnswerKeepsInv(s: State, t: nat, reply: Reply)
    requires Inv(s) && t in s.txs && DistinctIds(s.txs[t].call.postings)
    requires Exec(s.db, s.txs[t].call).0 == s.db && Explains(s.db, s.txs[t].call, reply)
    requires reply == Refused(IdempotencyInProgress) ==> ReferenceHeld(s.db, s.txs[t].call)
    ensures Inv(Answer(s, t, reply))
  {
    LogGrows(s, Answered(s.txs[t].call, reply));
    MoveKeepsExclusive(s, t, Finished(reply));
  }

  /** A phase that holds nothing new keeps exclusion. */
  lemma MoveKeepsExclusive(s: State, t: nat, phase: Phase)
    requires Exclusive(s) && t in s.txs
    requires forall r :: Holds(s.txs[t].(phase := phase), r) ==> Holds(s.txs[t], r)
    ensures Exclusive(Move(s, t, phase))
  {
  }

  lemma BeginKeepsInv(s: State, t: nat, call: Call)
    requires Inv(s) && Enabled(s, Begin(t, call))
    ensures Inv(Do(s, Begin(t, call)))
  {
    var s' := s.(txs := s.txs[t := Tx(call, Checking, map[])]);
    assert Exclusive(s');
    if Balanced(call.postings) {
      assert Inv(s');
    } else {
      LogGrows(s', Answered(call, Refused(UnbalancedJournal)));
      MoveKeepsExclusive(s', t, Finished(Refused(UnbalancedJournal)));
    }
  }

  /** A committed record is completed, so it never reads as in progress. */
  lemma RecordsSettled(db: Db, call: Call)
    requires Safe(db) && call.key in db.records
    ensures Replay(db.records[call.key], call) != Refused(IdempotencyInProgress)
  {
    var i :| 0 <= i < |db.journals| && db.journals[i].key == call.key;
    assert RecordMatches(call.key, db.records[call.key], db.journals[i]);
  }

  lemma PreCheckKeepsInv(s: State, t: nat)
    requires Inv(s) && Enabled(s, PreCheck(t))
    ensures Inv(Do(s, PreCheck(t)))
  {
    var call := s.txs[t].call;
    if call.key in s.db.records {
      EveryLedgerSafe(s.log);
      RecordsSettled(s.db, call);
      AnswerKeepsInv(s, t, Replay(s.db.records[call.key], call));
    } else {
      MoveKeepsExclusive(s, t, Reserving);
    }
  }

  lemma LookupKeepsInv(s: State, t: nat)
    requires Inv(s) && Enabled(s, Lookup(t))
    ensures Inv(Do(s, Lookup(t)))
  {
    EveryLedgerSafe(s.log);
    assert TxOk(s.db, s.txs[t]);
    var call := s.txs[t].call;
    if call.key in s.db.records {
      RecordsSettled(s.db, call);
      AnswerKeepsInv(s, t, Replay(s.db.records[call.key], call));
    } else {
      HeldReferenceRefuses(s.db, call);
      AnswerKeepsInv(s, t, Refused(IdempotencyInProgress));
    }
  }

  /** A call whose reference is held posts nothing, whatever else it is answered. */
  lemma HeldReferenceRefuses(db: Db, call: Call)
    requires ReferenceHeld(db, call)
    ensures Exec(db, call).0 == db
  {
    var i :| 0 <= i < |db.journals| && db.journals[i].reference == call.ReferenceUsed() && db.journals[i].key != call.key;
    assert ReferenceExists(db.journals, call.ReferenceUsed());
  }

  /** A journal under a key that has no record yet is another key's. */
  lemma ClashIsAnothers(db: Db, call: Call)
    requires Safe(db) && call.key !in db.records && ReferenceExists(db.journals, call.ReferenceUsed())
    ensures ReferenceHeld(db, call)
  {
    var i :| 0 <= i < |db.journals| && db.journals[i].reference == call.ReferenceUsed();
    assert db.journals[i].key in db.records;
  }

  lemma ReserveKeepsInv(s: State, t: nat)
    requires Inv(s) && Enabled(s, Reserve(t))
    ensures Inv(Do(s, Reserve(t)))
  {
    var tx, s' := s.txs[t], Do(s, Reserve(t));
    assert TxOk(s.db, tx);
    AccountOrderAscends(tx.call.postings);
    ExistingFound(tx.call.Accounts(), s.db.accounts);
    forall u, r | u in s.txs && u != t && Holds(s'.txs[t], r) ensures !Holds(s.txs[u], r) {
      assert !WaitsFor(s, t, u);
    }
  }

  lemma LockRowKeepsInv(s: State, t: nat)
    requires Inv(s) && Enabled(s, LockRow(t))
    ensures Inv(Do(s, LockRow(t)))
  {
    var tx, s' := s.txs[t], Do(s, LockRow(t));
    var rows, held := tx.phase.rows, tx.phase.held;
    assert TxOk(s.db, tx);
    assert rows[..held + 1] == rows[..held] + [rows[held]];
    forall u, r | u in s.txs && u != t && Holds(s'.txs[t], r) ensures !Holds(s.txs[u], r) {
      assert !WaitsFor(s, t, u);
      assert Holds(tx, r) || r == RowLock(rows[held]);
    }
  }

  /** With every row found locked, what was read under lock is exactly the committed rows the call names. */
  lemma AllRowsLocked(s: State, t: nat)
    requires Inv(s) && Enabled(s, Check(t))
    ensures s.txs[t].locked == Locked(s.db.accounts, s.txs[t].call.Accounts())
  {
    var tx := s.txs[t];
    assert TxOk(s.db, tx);
    assert tx.phase.rows[..tx.phase.held] == tx.phase.rows;
  }

  lemma CheckKeepsInv(s: State, t: nat)
    requires Inv(s) && Enabled(s, Check(t))
    ensures Inv(Do(s, Check(t)))
  {
    var tx := s.txs[t];
    assert TxOk(s.db, tx);
    AllRowsLocked(s, t);
    match Verdict(tx.locked, tx.call)
    case Some(error) => AnswerKeepsInv(s, t, Refused(error));
    case None =>
      assert tx.phase.rows[..tx.phase.held] == tx.phase.rows;
      MoveKeepsExclusive(s, t, Inserting(tx.phase.rows));
  }

  lemma InsertKeepsInv(s: State, t: nat, named: bool)
    requires Inv(s) && Enabled(s, Insert(t, named))
    ensures Inv(Do(s, Insert(t, named)))
  {
    if ReferenceExists(s.db.journals, s.txs[t].call.ReferenceUsed()) {
      ClashKeepsInv(s, t, named);
    } else {
      ClearInsertKeepsInv(s, t, named);
    }
  }

  /** What a clash finds: another key's journal, and a refusal from the one-at-a-time ledger too. */
  lemma ClashFacts(s: State, t: nat)
    requires Inv(s) && t in s.txs && s.txs[t].phase.Inserting?
    requires ReferenceExists(s.db.journals, s.txs[t].call.ReferenceUsed())
    ensures DistinctIds(s.txs[t].call.postings) && Balanced(s.txs[t].call.postings)
    ensures ReferenceHeld(s.db, s.txs[t].call) && Exec(s.db, s.txs[t].call) == (s.db, Refused(ReferenceTaken))
  {
    hide Exclusive;
    assert TxOk(s.db, s.txs[t]);
    EveryLedgerSafe(s.log);
    ClashIsAnothers(s.db, s.txs[t].call);
  }

  lemma ClashKeepsInv(s: State, t: nat, named: bool)
    requires Inv(s) && Enabled(s, Insert(t, named)) && ReferenceExists(s.db.journals, s.txs[t].call.ReferenceUsed())
    ensures Inv(Do(s, Insert(t, named)))
  {
    ClashFacts(s, t);
    hide Exec, ReferenceHeld, ReferenceExists, Blocked, Linear, Balanced, DistinctIds;
    if named {
      AnswerKeepsInv(s, t, Refused(ReferenceTaken));
    } else {
      MoveKeepsExclusive(s, t, Clashed);
      hide Exclusive;
    }
  }

  lemma ClearInsertKeepsInv(s: State, t: nat, named: bool)
    requires Inv(s) && Enabled(s, Insert(t, named)) && !ReferenceExists(s.db.journals, s.txs[t].call.ReferenceUsed())
    ensures Inv(Do(s, Insert(t, named)))
  {
    var tx, s' := s.txs[t], Do(s, Insert(t, named));
    assert TxOk(s.db, tx);
    forall u, r | u in s.txs && u != t && Holds(s'.txs[t], r) ensures !Holds(s.txs[u], r) {
      assert !WaitsFor(s, t, u);
      assert Holds(tx, r) || r == RefLock(tx.call.ReferenceUsed());
    }
  }

  /**
   * No lost update, at the step that could lose one: the absolute totals a commit writes are the committed
   * totals plus what it posts, because the rows it read have stayed locked.
   */
  lemma WrittenIsCredited(s: State, t: nat)
    requires Inv(s) && Enabled(s, Commit(t))
    ensures Written(s.db, s.txs[t]) == Credited(s.db, s.txs[t].call)
    ensures Exec(s.db, s.txs[t].call) == (Credited(s.db, s.txs[t].call), Posted(ResultOf(s.txs[t].call), false))
  {
    assert TxOk(s.db, s.txs[t]);
  }

  /** What a commit writes is held by the committer, so no other transaction holds any of it. */
  lemma WritesAreHeld(s: State, t: nat, u: nat)
    requires Inv(s) && Enabled(s, Commit(t)) && u in s.txs && u != t
    ensures forall id :: id in s.txs[t].locked ==> !Holds(s.txs[u], RowLock(id))
    ensures Holds(s.txs[u], KeyLock(s.txs[u].call.key)) ==> s.txs[u].call.key != s.txs[t].call.key
    ensures s.txs[u].phase.Writing? ==> s.txs[u].call.ReferenceUsed() != s.txs[t].call.ReferenceUsed()
  {
    var tx, ux := s.txs[t], s.txs[u];
    assert TxOk(s.db, tx);
    forall id | id in tx.locked ensures !Holds(ux, RowLock(id)) {
      assert Holds(tx, RowLock(id));
    }
    assert Holds(tx, KeyLock(tx.call.key)) && Holds(tx, RefLock(tx.call.ReferenceUsed()));
  }

  /** A transaction past its checks is untouched by a commit to other rows, another key and another reference. */
  lemma OtherCommitKeepsTx(db: Db, tx: Tx, ux: Tx)
    requires TxOk(db, ux)
    requires forall id :: id in tx.locked ==> !Holds(ux, RowLock(id))
    requires Holds(ux, KeyLock(ux.call.key)) ==> ux.call.key != tx.call.key
    requires ux.phase.Writing? ==> ux.call.ReferenceUsed() != tx.call.ReferenceUsed()
    ensures TxOk(Written(db, tx), ux)
  {
    var db' := Written(db, tx);
    assert db'.accounts.Keys == db.accounts.Keys;
    match ux.phase
    case Locking(rows, held) =>
      forall id | id in ux.locked ensures db'.accounts[id] == db.accounts[id] {
        assert Holds(ux, RowLock(id));
      }
    case Inserting(rows) => OtherCommitKeepsRows(db, tx, ux);
    case Writing(rows) =>
      OtherCommitKeepsRows(db, tx, ux);
      forall i | 0 <= i < |db'.journals| ensures db'.journals[i].reference != ux.call.ReferenceUsed() {
        if i < |db.journals| { assert db'.journals[i] == db.journals[i]; }
      }
    case Clashed => HeldStaysHeld(db, tx, ux.call);
    case Finished(reply) => if reply == Refused(IdempotencyInProgress) { HeldStaysHeld(db, tx, ux.call); }
    case _ =>
  }

  lemma HeldStaysHeld(db: Db, tx: Tx, call: Call)
    requires ReferenceHeld(db, call)
    ensures ReferenceHeld(Written(db, tx), call)
  {
    var i :| 0 <= i < |db.journals| && db.journals[i].reference == call.ReferenceUsed() && db.journals[i].key != call.key;
    assert Written(db, tx).journals[i] == db.journals[i];
  }

  lemma OtherCommitKeepsRows(db: Db, tx: Tx, ux: Tx)
    requires TxOk(db, ux) && (ux.phase.Inserting? || ux.phase.Writing?)
    requires forall id :: id in tx.locked ==> !Holds(ux, RowLock(id))
    ensures Locked(Written(db, tx).accounts, ux.call.Accounts()) == Locked(db.accounts, ux.call.Accounts())
  {
    var db' := Written(db, tx);
    assert db'.accounts.Keys == db.accounts.Keys;
    forall id | id in db.accounts && id in ux.call.Accounts() ensures db'.accounts[id] == db.accounts[id] {
      assert id in ux.phase.rows;
      assert Holds(ux, RowLock(id));
    }
  }

  lemma CommitKeepsOthers(s: State, t: nat, u: nat)
    requires Inv(s) && Enabled(s, Commit(t)) && u in s.txs && u != t
    ensures TxOk(Written(s.db, s.txs[t]), s.txs[u])
  {
    WritesAreHeld(s, t, u);
    assert TxOk(s.db, s.txs[u]);
    OtherCommitKeepsTx(s.db, s.txs[t], s.txs[u]);
  }

  lemma CommitKeepsLinear(s: State, t: nat)
    requires Inv(s) && Enabled(s, Commit(t))
    ensures Linear(Do(s, Commit(t)))
  {
    assert TxOk(s.db, s.txs[t]);
    WrittenIsCredited(s, t);
    LogGrows(s, Answered(s.txs[t].call, Posted(ResultOf(s.txs[t].call), false)));
  }

  lemma CommitKeepsInv(s: State, t: nat)
    requires Inv(s) && Enabled(s, Commit(t))
    ensures Inv(Do(s, Commit(t)))
  {
    var s' := Do(s, Commit(t));
    var done := Finished(Posted(ResultOf(s.txs[t].call), false));
    CommitKeepsLinear(s, t);
    MoveKeepsExclusive(s, t, done);
    assert s'.txs == Move(s, t, done).txs;
    forall u | u in s'.txs ensures TxOk(s'.db, s'.txs[u]) {
      if u != t { CommitKeepsOthers(s, t, u); }
    }
  }

  lemma OpenKeepsInv(s: State, e: Entry)
    requires Inv(s) && Enabled(s, OpenAccount(e))
    ensures Inv(Do(s, OpenAccount(e)))
  {
    hide Exclusive, TxOk;
    LogGrows(s, e);
    forall u | u in s.txs ensures TxOk(Apply(s.db, e), s.txs[u]) {
      OpenKeepsTx(s.db, e, s.txs[u]);
    }
    assert Exclusive(Do(s, OpenAccount(e))) by { SameTxsExclusive(s, Do(s, OpenAccount(e))); }
  }

  lemma SameTxsExclusive(s: State, s': State)
    requires Exclusive(s) && s'.txs == s.txs
    ensures Exclusive(s')
  {
  }

  /** A transaction that locks rows does not name the new account, and one past its checks has found all it names. */
  lemma OpenKeepsTx(db: Db, e: Entry, ux: Tx)
    requires TxOk(db, ux) && e.Opened? && e.id !in db.accounts
    requires ux.phase.Locking? ==> !Names(ux.call.postings, e.id)
    ensures TxOk(Apply(db, e), ux)
  {
    AccountOrderAscends(ux.call.postings);
    if ux.phase.Locking? || ux.phase.Inserting? || ux.phase.Writing? {
      assert e.id !in ux.call.Accounts();
      assert Locked(Apply(db, e).accounts, ux.call.Accounts()) == Locked(db.accounts, ux.call.Accounts());
    }
  }

  lemma StepKeepsInv(s: State, step: Step)
    requires Inv(s) && Enabled(s, step)
    ensures Inv(Do(s, step))
  {
    match step
    case Begin(t, call) => BeginKeepsInv(s, t, call);
    case PreCheck(t) => PreCheckKeepsInv(s, t);
    case Reserve(t) => ReserveKeepsInv(s, t);
    case LockRow(t) => LockRowKeepsInv(s, t);
    case Check(t) => CheckKeepsInv(s, t);
    case Insert(t, named) => InsertKeepsInv(s, t, named);
    case Commit(t) => CommitKeepsInv(s, t);
    case Lookup(t) => LookupKeepsInv(s, t);
    case Crash(t) => MoveKeepsExclusive(s, t, Aborted);
    case OpenAccount(e) => OpenKeepsInv(s, e);
  }

  lemma {:induction false} RunKeepsInv(run: seq<State>, steps: seq<Step>, i: nat)
    requires IsRun(run, steps) && i < |run|
    ensures Inv(run[i])
  {
    if i > 0 {
      RunKeepsInv(run, steps, i - 1);
      StepKeepsInv(run[i - 1], steps[i - 1]);
    }
  }

  lemma ReachableInv(s: State)
    requires Reachable(s)
    ensures Inv(s)
  {
    var run, steps :| IsRun(run, steps) && run[|run| - 1] == s;
    RunKeepsInv(run, steps, |run| - 1);
  }
}
