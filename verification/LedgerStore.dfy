/** One `execute` call in the source's own, step-by-step form, matched to the specification `Exec`. */
module LedgerStore {
  import opened Wrappers
  import opened Text
  import opened Postings
  import opened Ledger
  import opened LedgerRun

  class Store {
    var accounts: map<string, Account>
    var journals: seq<Journal>
    var records: map<string, IdempotencyRecord>

    function Contents(): Db
      reads this
    {
      Db(accounts, journals, records)
    }

    constructor ()
      ensures Contents() == EMPTY
    {
      accounts, journals, records := map[], [], map[];
    }

    /** A new account row and its zero projection; an id already in use is left alone. */
    method Open(e: Entry)
      requires e.Opened?
      modifies this
      ensures Contents() == Apply(old(Contents()), e)
    {
      if e.id !in accounts {
        accounts := accounts[e.id := Account(e.currency, e.cls, e.allowNegative, 0, 0, 0)];
      }
    }

    /**
     * `post`: the balance rule before any transaction, then a replay or the idempotent transaction. Whether a unique
     * violation names its table is up to the database driver.
     */
    method Post(call: Call, named: bool) returns (reply: Reply)
      modifies this
      ensures Contents() == Exec(old(Contents()), call).0
      ensures reply == Told(Exec(old(Contents()), call).1, named)
    {
      var total := AssertBalanced(call.postings);
      if total.None? {
        return Refused(UnbalancedJournal);
      }
      if call.key in records {
        return Replay(records[call.key], call);
      }
      reply := Transact(call, total.value, named);
    }

    /** Reserve the key, run the work, complete the record; an error rolls the reservation back. */
    method Transact(call: Call, total: int, named: bool) returns (reply: Reply)
      requires Balanced(call.postings) && call.key !in records && total == Sum(call.postings, Debit)
      modifies this
      ensures Contents() == Exec(old(Contents()), call).0
      ensures reply == Told(Exec(old(Contents()), call).1, named)
    {
      var saved := records;
      records := records[call.key := IdempotencyRecord(call.Hash(), InProgress, None)];
      var written := RunInTransaction(call, total);
      if written.Err? {
        records := saved;
        if written.error != ReferenceTaken || named {
          return Refused(written.error);
        }
        return Refused(IdempotencyInProgress);   // the lookup by key finds nothing: the reservation is rolled back
      }
      records := records[call.key := records[call.key].(status := Completed, response := Some(written.value))];
      assert records == saved[call.key := IdempotencyRecord(call.Hash(), Completed, Some(written.value))];
      return Posted(written.value, false);
    }

    /** The `run` closure: lock, check, insert the journal, write the absolute totals back row by row. */
    method RunInTransaction(call: Call, total: int) returns (r: Result<JournalResult, LedgerError>)
      requires total == Sum(call.postings, Debit)
      modifies this`accounts, this`journals
      ensures
        match Verdict(Locked(old(accounts), call.Accounts()), call)
        case Some(error) => r == Err(error) && accounts == old(accounts) && journals == old(journals)
        case None =>
          if ReferenceExists(old(journals), call.ReferenceUsed()) then
            r == Err(ReferenceTaken) && accounts == old(accounts) && journals == old(journals)
          else
            r == Ok(ResultOf(call)) && journals == old(journals) + [JournalOf(call)] &&
            accounts == CreditedAccounts(old(accounts), call)
    {
      var order := Existing(call.Accounts(), accounts);
      var locked := Locked(accounts, call.Accounts());
      AccountOrderAscends(call.postings);
      ExistingFound(call.Accounts(), accounts);
      var checked := CheckPostable(locked, order, call);
      if checked.Err? {
        return Err(checked.error);
      }
      var projected := checked.value;
      if ReferenceExists(journals, call.ReferenceUsed()) {
        return Err(ReferenceTaken);
      }
      journals := journals + [JournalOf(call)];
      WriteBack(order, projected);
      r := Ok(JournalResult(call.newId, call.ReferenceUsed(), call.entryType, call.currency, total, call.postings));
    }

    /** The last loop of `run`: one absolute update per projected account. */
    method WriteBack(order: seq<string>, projected: map<string, Account>)
      requires Ascending(order) && forall id :: id in order ==> id in accounts && id in projected
      modifies this`accounts
      ensures accounts == map id | id in old(accounts) ::
        if id in order then Updated(old(accounts)[id], projected[id]) else old(accounts)[id]
    {
      for i := 0 to |order|
        invariant accounts.Keys == old(accounts).Keys
        invariant forall id :: id in accounts ==>
          (accounts[id] == if id in order[..i] then Updated(old(accounts)[id], projected[id]) else old(accounts)[id])
      {
        var id := order[i];
        assert id in order;
        AscendingFresh(order, i);
        accounts := accounts[id := Updated(accounts[id], projected[id])];
      }
      assert order[..|order|] == order;
    }
  }

  /** An account row after a projection update: absolute totals, version one higher. */
  function Updated(row: Account, projected: Account): Account {
    row.(debit := projected.debit, credit := projected.credit, version := row.version + 1)
  }

  lemma AscendingFresh(s: seq<string>, i: nat)
    requires Ascending(s) && i < |s|
    ensures s[i] !in s[..i]
  {
    LessIrreflexive(s[i]);
  }
}
