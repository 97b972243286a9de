/** What every sequence of ledger calls keeps: balance, conservation, solvency, one journal per key. */
module LedgerSafety {
  import opened Wrappers
  import opened Text
  import opened Postings
  import opened Ledger
  import opened Sums

  /** What the committed journals move on one side of one account. */
  function JournalTotal(js: seq<Journal>, id: string, d: Direction): int {
    if |js| == 0 then 0 else JournalTotal(js[..|js| - 1], id, d) + Total(js[|js| - 1].postings, id, d)
  }

  ghost predicate GoodJournal(j: Journal, accounts: map<string, Account>) {
    && Balanced(j.postings) && DistinctIds(j.postings)
    && forall id :: Names(j.postings, id) ==> id in accounts && accounts[id].currency == j.currency
  }

  ghost predicate JournalsGood(db: Db) {
    forall i :: 0 <= i < |db.journals| ==> GoodJournal(db.journals[i], db.accounts)
  }

  /** The projection is exactly the sum of the committed postings. */
  ghost predicate ProjectionsExact(db: Db) {
    forall id, d :: id in db.accounts ==> db.accounts[id].On(d) == JournalTotal(db.journals, id, d)
  }

  ghost predicate AllSolvent(db: Db) {
    forall id :: id in db.accounts ==> Solvent(db.accounts[id])
  }

  ghost predicate RecordMatches(key: string, rec: IdempotencyRecord, j: Journal) {
    && j.key == key && rec.status == Completed && rec.response.Some?
    && rec.hash.rows == PayloadRows(j.postings)
    && rec.hash.entryType == j.entryType && rec.hash.currency == j.currency && rec.hash.metadata == j.metadata
    && rec.hash.description == j.description && rec.hash.effectiveAt == j.effectiveAt
    && (rec.hash.reference.Some? ==> rec.hash.reference.value == j.reference) && rec.response.value.reference == j.reference
    && rec.response.value.journalId == j.id && rec.response.value.postings == j.postings
    && rec.response.value.total == Sum(j.postings, Debit)
  }

  ghost predicate RecordsKeyed(js: seq<Journal>, rs: map<string, IdempotencyRecord>) {
    && (forall k :: k in rs <==> exists i :: 0 <= i < |js| && js[i].key == k)
    && (forall i :: 0 <= i < |js| && js[i].key in rs ==> RecordMatches(js[i].key, rs[js[i].key], js[i]))
  }

  ghost predicate Distinct(js: seq<Journal>) {
    && (forall i, j :: 0 <= i < j < |js| ==> js[i].key != js[j].key)
    && (forall i, j :: 0 <= i < j < |js| ==> js[i].reference != js[j].reference)
  }

  /** Records and journals correspond one to one: a record is completed and names its own journal. */
  ghost predicate KeysExact(db: Db) {
    Distinct(db.journals) && RecordsKeyed(db.journals, db.records)
  }

  ghost predicate Safe(db: Db) {
    JournalsGood(db) && ProjectionsExact(db) && AllSolvent(db) && KeysExact(db)
  }

  lemma {:induction false} JournalTotalAbsent(js: seq<Journal>, id: string, d: Direction)
    requires forall i :: 0 <= i < |js| ==> !Names(js[i].postings, id)
    ensures JournalTotal(js, id, d) == 0
  {
    if |js| > 0 {
      JournalTotalAbsent(js[..|js| - 1], id, d);
      UnnamedTotal(js[|js| - 1].postings, id, d);
    }
  }

  lemma UnnamedTotal(ps: seq<Posting>, id: string, d: Direction)
    requires !Names(ps, id)
    ensures Total(ps, id, d) == 0
  {
    forall i | 0 <= i < |ps| ensures ps[i].Id() != (id, d) {
      assert ps[i].account != id;
    }
    TotalAbsent(ps, id, d);
  }

  lemma CreditedProjections(db: Db, call: Call)
    requires ProjectionsExact(db)
    requires forall id :: id in call.Accounts() ==> id in db.accounts
    ensures ProjectionsExact(Credited(db, call))
  {
    var db' := Credited(db, call);
    assert db'.journals[..|db.journals|] == db.journals;
    AccountOrderAscends(call.postings);
    forall id, d | id in db'.accounts ensures db'.accounts[id].On(d) == JournalTotal(db'.journals, id, d) {
      assert db.accounts[id].On(d) == JournalTotal(db.journals, id, d);
      if id !in call.Accounts() { UnnamedTotal(call.postings, id, d); }
    }
  }

  lemma AppendKeyed(js: seq<Journal>, rs: map<string, IdempotencyRecord>, j: Journal, rec: IdempotencyRecord)
    requires RecordsKeyed(js, rs) && j.key !in rs && RecordMatches(j.key, rec, j)
    ensures RecordsKeyed(js + [j], rs[j.key := rec])
  {
    hide RecordMatches;
    var js', rs' := js + [j], rs[j.key := rec];
    forall i | 0 <= i < |js| ensures js[i].key in rs && js[i].key != j.key {}
    forall k ensures k in rs' <==> exists i :: 0 <= i < |js'| && js'[i].key == k {
      if k == j.key {
        assert js'[|js|].key == k;
      } else {
        if k in rs {
          var i :| 0 <= i < |js| && js[i].key == k;
          assert js'[i].key == k;
        }
        if i :| 0 <= i < |js'| && js'[i].key == k {
          assert js[i].key == k;
        }
      }
    }
  }

  lemma AppendDistinct(js: seq<Journal>, rs: map<string, IdempotencyRecord>, j: Journal)
    requires Distinct(js) && RecordsKeyed(js, rs) && j.key !in rs && !ReferenceExists(js, j.reference)
    ensures Distinct(js + [j])
  {
    hide RecordMatches;
    forall i | 0 <= i < |js| ensures js[i].key != j.key && js[i].reference != j.reference {
      assert js[i].key in rs;
    }
  }

  lemma CreditedKeys(db: Db, call: Call)
    requires KeysExact(db) && call.key !in db.records
    requires !ReferenceExists(db.journals, call.ReferenceUsed())
    ensures KeysExact(Credited(db, call))
  {
    AppendKeyed(db.journals, db.records, JournalOf(call),
      IdempotencyRecord(call.Hash(), Completed, Some(ResultOf(call))));
    hide RecordsKeyed;
    AppendDistinct(db.journals, db.records, JournalOf(call));
  }

  lemma CreditedJournals(db: Db, call: Call)
    requires JournalsGood(db) && DistinctIds(call.postings) && Balanced(call.postings)
    requires forall id :: id in call.Accounts() ==> id in db.accounts && db.accounts[id].currency == call.currency
    ensures JournalsGood(Credited(db, call))
  {
    hide Balanced, DistinctIds;
    var db' := Credited(db, call);
    AccountOrderAscends(call.postings);
    assert forall id :: id in db.accounts ==> id in db'.accounts && db'.accounts[id].currency == db.accounts[id].currency;
    forall i | 0 <= i < |db'.journals| ensures GoodJournal(db'.journals[i], db'.accounts) {
      if i < |db.journals| {
        assert GoodJournal(db.journals[i], db.accounts);
      }
    }
  }

  lemma CreditedSolvent(db: Db, call: Call)
    requires AllSolvent(db)
    requires forall id :: id in call.Accounts() && id in db.accounts ==> Solvent(Projected(db.accounts[id], id, call.postings))
    ensures AllSolvent(Credited(db, call))
  {
    var db' := Credited(db, call);
    forall id | id in db'.accounts ensures Solvent(db'.accounts[id]) {
      assert Solvent(db.accounts[id]);
    }
  }

  /** What a passed check tells about the rows a call names. */
  lemma PassedCheck(db: Db, call: Call)
    requires Verdict(Locked(db.accounts, call.Accounts()), call).None?
    ensures forall id :: id in call.Accounts() ==>
      id in db.accounts && db.accounts[id].currency == call.currency
      && Solvent(Projected(db.accounts[id], id, call.postings))
  {
    hide Projected, Solvent;
    var locked := Locked(db.accounts, call.Accounts());
    forall id | id in call.Accounts() ensures id in locked && locked[id] == db.accounts[id] {}
  }

  /** A first accepted call keeps the ledger safe. */
  lemma CreditedSafe(db: Db, call: Call)
    requires Safe(db) && DistinctIds(call.postings) && Balanced(call.postings) && call.key !in db.records
    requires Verdict(Locked(db.accounts, call.Accounts()), call).None?
    requires !ReferenceExists(db.journals, call.ReferenceUsed())
    ensures Safe(Credited(db, call))
  {
    hide JournalsGood, ProjectionsExact, AllSolvent, KeysExact, Verdict, Credited, Projected, Solvent, Balanced, DistinctIds;
    PassedCheck(db, call);
    CreditedProjections(db, call);
    CreditedKeys(db, call);
    CreditedJournals(db, call);
    CreditedSolvent(db, call);
  }

  lemma OpenedSafe(db: Db, e: Entry)
    requires Safe(db) && e.Opened?
    ensures Safe(Apply(db, e))
  {
    if e.id !in db.accounts {
      var db' := Apply(db, e);
      forall i | 0 <= i < |db'.journals| ensures GoodJournal(db'.journals[i], db'.accounts) {
        assert GoodJournal(db.journals[i], db.accounts);
      }
      forall d ensures JournalTotal(db.journals, e.id, d) == 0 {
        forall i | 0 <= i < |db.journals| ensures !Names(db.journals[i].postings, e.id) {
          assert GoodJournal(db.journals[i], db.accounts);
        }
        JournalTotalAbsent(db.journals, e.id, d);
      }
    }
  }

  ghost predicate WellFormed(log: seq<Entry>) {
    forall i :: 0 <= i < |log| && log[i].Answered? ==> DistinctIds(log[i].call.postings)
  }

  lemma ExecSafe(db: Db, call: Call)
    requires Safe(db) && DistinctIds(call.postings)
    ensures Safe(Exec(db, call).0)
  {
    if Exec(db, call).0 != db {
      CreditedSafe(db, call);
    }
  }

  /**
   * Every ledger any history can reach is safe: each journal balances in one currency, every projection
   * equals its postings, no account without an overdraft allowance is negative, and keys, records and
   * journals correspond one to one with every record completed.
   */
  lemma {:induction false} EveryLedgerSafe(log: seq<Entry>)
    requires WellFormed(log)
    ensures Safe(Replayed(log))
  {
    if |log| > 0 {
      var init, e := log[..|log| - 1], log[|log| - 1];
      EveryLedgerSafe(init);
      match e
      case Opened(_, _, _, _) => OpenedSafe(Replayed(init), e);
      case Answered(call, _) => ExecSafe(Replayed(init), call);
    }
  }

  // ---------- conservation ----------

  function AccountsIn(db: Db, currency: string): set<string> {
    set id | id in db.accounts && db.accounts[id].currency == currency
  }

  /** The total on one side over all accounts of a currency. */
  ghost function CurrencyTotal(db: Db, currency: string, d: Direction): int {
    SumOver(AccountsIn(db, currency), id => if id in db.accounts then db.accounts[id].On(d) else 0)
  }

  lemma {:induction false} PostingsSpread(ids: set<string>, ps: seq<Posting>, d: Direction)
    requires forall id :: Names(ps, id) ==> id in ids
    ensures SumOver(ids, id => Total(ps, id, d)) == Sum(ps, d)
  {
    var f := id => Total(ps, id, d);
    if |ps| == 0 {
      SumZero(ids, f);
    } else {
      var init, p := ps[..|ps| - 1], ps[|ps| - 1];
      forall id | Names(init, id) ensures Names(ps, id) {
        var i :| 0 <= i < |init| && init[i].account == id;
        assert ps[i].account == id;
      }
      assert ps[|ps| - 1].account == p.account;
      PostingsSpread(ids, init, d);
      var g := id => Total(init, id, d);
      var h := id => if p.Id() == (id, d) then p.amount else 0;
      SumPlus(ids, g, h, f);
      SumSingle(ids, h, p.account);
    }
  }

  lemma UnnamedSum(ids: set<string>, ps: seq<Posting>, d: Direction)
    requires forall id :: id in ids ==> !Names(ps, id)
    ensures SumOver(ids, id => Total(ps, id, d)) == 0
  {
    forall id | id in ids ensures Total(ps, id, d) == 0 { UnnamedTotal(ps, id, d); }
    SumZero(ids, id => Total(ps, id, d));
  }

  lemma LastJournalSplit(ids: set<string>, js: seq<Journal>, d: Direction)
    requires |js| > 0
    ensures SumOver(ids, id => JournalTotal(js, id, d)) ==
            SumOver(ids, id => JournalTotal(js[..|js| - 1], id, d)) + SumOver(ids, id => Total(js[|js| - 1].postings, id, d))
  {
    SumPlus(ids, id => JournalTotal(js[..|js| - 1], id, d), id => Total(js[|js| - 1].postings, id, d),
      id => JournalTotal(js, id, d));
  }

  lemma CurrencyTotalIsJournalTotal(db: Db, currency: string, d: Direction)
    requires ProjectionsExact(db)
    ensures CurrencyTotal(db, currency, d) ==
            SumOver(AccountsIn(db, currency), id => JournalTotal(db.journals, id, d))
  {
    SumSame(AccountsIn(db, currency), id => if id in db.accounts then db.accounts[id].On(d) else 0,
      id => JournalTotal(db.journals, id, d));
  }

  /** Over one currency's accounts, the journals move as much on the debit side as on the credit side. */
  lemma {:induction false} JournalsConserve(ids: set<string>, js: seq<Journal>)
    requires forall i :: 0 <= i < |js| ==> Sum(js[i].postings, Debit) == Sum(js[i].postings, Credit)
    requires forall i :: 0 <= i < |js| ==>
      (forall id :: Names(js[i].postings, id) ==> id in ids) || (forall id :: id in ids ==> !Names(js[i].postings, id))
    ensures SumOver(ids, id => JournalTotal(js, id, Debit)) == SumOver(ids, id => JournalTotal(js, id, Credit))
  {
    var fd, fc := id => JournalTotal(js, id, Debit), id => JournalTotal(js, id, Credit);
    if |js| == 0 {
      SumZero(ids, fd);
      SumZero(ids, fc);
    } else {
      var init, j := js[..|js| - 1], js[|js| - 1];
      JournalsConserve(ids, init);
      LastJournalSplit(ids, js, Debit);
      LastJournalSplit(ids, js, Credit);
      if forall id :: Names(j.postings, id) ==> id in ids {
        PostingsSpread(ids, j.postings, Debit);
        PostingsSpread(ids, j.postings, Credit);
      } else {
        UnnamedSum(ids, j.postings, Debit);
        UnnamedSum(ids, j.postings, Credit);
      }
      assert SumOver(ids, fd) == SumOver(ids, id => JournalTotal(js, id, Debit));
      assert SumOver(ids, fc) == SumOver(ids, id => JournalTotal(js, id, Credit));
    }
  }

  /** Conservation: in every currency the projected debits equal the projected credits. */
  lemma Conservation(db: Db, currency: string)
    requires Safe(db)
    ensures CurrencyTotal(db, currency, Debit) == CurrencyTotal(db, currency, Credit)
  {
    var ids := AccountsIn(db, currency);
    forall i | 0 <= i < |db.journals| ensures
      && Sum(db.journals[i].postings, Debit) == Sum(db.journals[i].postings, Credit)
      && ((forall id :: Names(db.journals[i].postings, id) ==> id in ids) ||
          (forall id :: id in ids ==> !Names(db.journals[i].postings, id)))
    {
      assert GoodJournal(db.journals[i], db.accounts);
    }
    JournalsConserve(ids, db.journals);
    CurrencyTotalIsJournalTotal(db, currency, Debit);
    CurrencyTotalIsJournalTotal(db, currency, Credit);
  }

  // ---------- only first successes count ----------

  /** The entries that changed something: openings of new accounts and first acceptances. */
  function Effective(log: seq<Entry>): seq<Entry> {
    if |log| == 0 then []
    else
      var init, e := log[..|log| - 1], log[|log| - 1];
      if Apply(Replayed(init), e) == Replayed(init) then Effective(init) else Effective(init) + [e]
  }

  /** Dropping replays, conflicts and refusals from the history leaves the same ledger. */
  lemma {:induction false} OnlyEffectiveMatters(log: seq<Entry>)
    ensures Replayed(Effective(log)) == Replayed(log)
  {
    if |log| > 0 {
      var init, e := log[..|log| - 1], log[|log| - 1];
      OnlyEffectiveMatters(init);
      assert (Effective(init) + [e])[..|Effective(init)|] == Effective(init);
    }
  }

  /**
   * An answered call changed the ledger exactly when it was accepted, balanced, first for its key:
   * no earlier entry with its key was accepted, and every later one is a replay or a conflict.
   */
  lemma {:induction false} FirstAcceptanceWins(log: seq<Entry>, i: nat, j: nat)
    requires WellFormed(log) && Faithful(log)
    requires i < j < |log| && log[i].Answered? && log[j].Answered? && log[i].call.key == log[j].call.key
    requires log[i].reply.Posted?
    ensures Balanced(log[j].call.postings) ==>
      log[j].reply ==
        if log[j].call.Hash() == log[i].call.Hash() then Posted(log[i].reply.result, true)
        else Refused(IdempotencyConflict)
    ensures Apply(Replayed(log[..j]), log[j]) == Replayed(log[..j])
  {
    var k := log[i].call.key;
    EveryLedgerSafe(log[..i]);
    RecordAfter(log, i);
    RecordsPersist(log, i + 1, j, k);
  }

  lemma RecordAfter(log: seq<Entry>, i: nat)
    requires WellFormed(log) && Faithful(log) && i < |log| && log[i].Answered? && log[i].reply.Posted?
    ensures
      var k, rs := log[i].call.key, Replayed(log[..i + 1]).records;
      k in rs && rs[k] == IdempotencyRecord(log[i].call.Hash(), Completed, Some(log[i].reply.result))
  {
    assert log[..i + 1][..i] == log[..i];
    EveryLedgerSafe(log[..i]);
    var db, call := Replayed(log[..i]), log[i].call;
    if call.key in db.records {
      var n :| 0 <= n < |db.journals| && db.journals[n].key == call.key;
      assert RecordMatches(call.key, db.records[call.key], db.journals[n]);
    }
  }

  lemma {:induction false} RecordsPersist(log: seq<Entry>, i: nat, j: nat, k: string)
    requires i <= j <= |log| && k in Replayed(log[..i]).records
    ensures k in Replayed(log[..j]).records && Replayed(log[..j]).records[k] == Replayed(log[..i]).records[k]
  {
    if i < j {
      RecordsPersist(log, i, j - 1, k);
      assert log[..j][..j - 1] == log[..j - 1];
    }
  }
}
