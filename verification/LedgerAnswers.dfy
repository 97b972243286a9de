/** What a posting call is answered, said in the terms of the request and of the committed ledger. */
module LedgerAnswers {
  import opened Wrappers
  import opened Text
  import opened Postings
  import opened Sums
  import opened Ledger
  import opened LedgerSafety

  // ---------- a fresh key ----------

  /** Debits increase an asset or an expense, credits anything else. */
  predicate DebitNormal(a: Account) { a.cls == Asset || a.cls == Expense }

  /** What stands on the account's own side once the postings are applied. */
  function Standing(a: Account, id: string, ps: seq<Posting>): int {
    var debits, credits := a.debit + Total(ps, id, Debit), a.credit + Total(ps, id, Credit);
    if DebitNormal(a) then debits - credits else credits - debits
  }

  ghost predicate Missing(db: Db, call: Call) {
    exists id :: Names(call.postings, id) && id !in db.accounts
  }

  ghost predicate Foreign(db: Db, call: Call) {
    exists id :: Names(call.postings, id) && id in db.accounts && db.accounts[id].currency != call.currency
  }

  ghost predicate Overdrawn(db: Db, call: Call) {
    exists id :: Names(call.postings, id) && id in db.accounts && !db.accounts[id].allowNegative
      && Standing(db.accounts[id], id, call.postings) < 0
  }

  ghost predicate Taken(db: Db, call: Call) {
    exists i :: 0 <= i < |db.journals| &&
      db.journals[i].reference == if call.reference.Some? then call.reference.value else call.newReference
  }

  /**
   * A balanced call under a fresh key is posted exactly when every account it names exists, has the call's currency,
   * and is left standing at zero or above unless it may be overdrawn, and its reference is free; the first of these
   * that fails is the answer.
   */
  lemma FreshAnswerIff(db: Db, call: Call)
    requires Balanced(call.postings) && call.key !in db.records
    ensures Exec(db, call).1 ==
      if Missing(db, call) then Refused(AccountNotFound)
      else if Foreign(db, call) then Refused(CurrencyMismatch)
      else if Overdrawn(db, call) then Refused(InsufficientFunds)
      else if Taken(db, call) then Refused(ReferenceTaken)
      else Posted(ResultOf(call), false)
  {
    AccountOrderAscends(call.postings);
    var locked := Locked(db.accounts, call.Accounts());
    assert forall id :: id in call.Accounts() <==> Names(call.postings, id);
    hide Balanced, Names, AccountOrder;
    assert Missing(db, call) <==> exists id :: id in call.Accounts() && id !in locked;
    if !Missing(db, call) {
      assert Foreign(db, call) <==> exists id :: id in locked && locked[id].currency != call.currency;
      OverdrawnMeansInsolvent(db, call);
    }
    assert Taken(db, call) <==> ReferenceExists(db.journals, call.ReferenceUsed());
  }

  lemma OverdrawnMeansInsolvent(db: Db, call: Call)
    requires forall id :: id in call.Accounts() <==> Names(call.postings, id)
    ensures
      var locked := Locked(db.accounts, call.Accounts());
      Overdrawn(db, call) <==> exists id :: id in locked && !Solvent(Projected(locked[id], id, call.postings))
  {
    hide Total, AccountOrder;
    var locked := Locked(db.accounts, call.Accounts());
    forall id | id in locked
      ensures !Solvent(Projected(locked[id], id, call.postings)) <==>
        !locked[id].allowNegative && Standing(locked[id], id, call.postings) < 0 {}
    if Overdrawn(db, call) {
      var id :| Names(call.postings, id) && id in db.accounts && !db.accounts[id].allowNegative
        && Standing(db.accounts[id], id, call.postings) < 0;
      assert id in locked;
    }
    if id :| id in locked && !Solvent(Projected(locked[id], id, call.postings)) {
      assert Names(call.postings, id) && locked[id] == db.accounts[id];
    }
  }

  // ---------- a key already used ----------

  /** The two requests ask for the same, posting for posting whatever their order. */
  ghost predicate SameRequest(a: Call, b: Call) {
    && a.entryType == b.entryType && a.currency == b.currency && a.reference == b.reference
    && a.description == b.description && a.effectiveAt == b.effectiveAt && a.metadata == b.metadata
    && forall id, d :: Total(a.postings, id, d) == Total(b.postings, id, d)
  }

  /** Requests of combined, positive postings hash alike exactly when they ask for the same. */
  lemma HashIff(a: Call, b: Call)
    requires Balanced(a.postings) && Balanced(b.postings) && DistinctIds(a.postings) && DistinctIds(b.postings)
    ensures a.Hash() == b.Hash() <==> SameRequest(a, b)
  {
    CombinedIsItself(a.postings);
    CombinedIsItself(b.postings);
    PayloadIsCanonical(a.postings, b.postings);
    hide PayloadRows, Combined, Total;
  }

  /** A list without repetitions is its own combination. */
  lemma {:induction false} CombinedIsItself(ps: seq<Posting>)
    requires DistinctIds(ps)
    ensures Combined(ps) == ps
  {
    if |ps| > 0 {
      var init, last := ps[..|ps| - 1], ps[|ps| - 1];
      CombinedIsItself(init);
      assert ps == init + [last];
      CombinedAppend(init, last);
    }
  }

  /**
   * After an accepted call, a later balanced call with its key is replayed, with the stored result, if and only if it
   * asks for the same as the first one did; otherwise it is a conflict. Neither changes the ledger.
   */
  lemma ReplayedIff(log: seq<Entry>, i: nat, j: nat)
    requires WellFormed(log) && Faithful(log) && i < j < |log| && log[i].Answered? && log[j].Answered?
    requires log[i].call.key == log[j].call.key && log[i].reply.Posted? && Balanced(log[j].call.postings)
    ensures log[j].reply ==
      if SameRequest(log[i].call, log[j].call) then Posted(log[i].reply.result, true) else Refused(IdempotencyConflict)
    ensures Replayed(log[..j + 1]) == Replayed(log[..j])
  {
    FirstAcceptanceWins(log, i, j);
    AcceptedWasBalanced(log, i);
    assert log[..j + 1][..j] == log[..j];
    hide Faithful, Replayed;
    HashIff(log[i].call, log[j].call);
  }

  lemma AcceptedWasBalanced(log: seq<Entry>, i: nat)
    requires Faithful(log) && i < |log| && log[i].Answered? && log[i].reply.Posted?
    ensures Balanced(log[i].call.postings)
  {
    assert Explains(Replayed(log[..i]), log[i].call, log[i].reply);
  }

  // ---------- the accounting equation ----------

  ghost function Balances(db: Db, currency: string, debitNormal: bool): int {
    SumOver(AccountsIn(db, currency), id =>
      if id in db.accounts && DebitNormal(db.accounts[id]) == debitNormal then db.accounts[id].Balance() else 0)
  }

  /** In each currency the balances of assets and expenses equal those of liabilities, equity and revenue. */
  lemma AccountingEquation(db: Db, currency: string)
    requires Safe(db)
    ensures Balances(db, currency, true) == Balances(db, currency, false)
  {
    Conservation(db, currency);
    var ids := AccountsIn(db, currency);
    var own: string -> int := id => if id in db.accounts && DebitNormal(db.accounts[id]) then db.accounts[id].Balance() else 0;
    var other: string -> int := id => if id in db.accounts && !DebitNormal(db.accounts[id]) then db.accounts[id].Balance() else 0;
    var debits: string -> int := id => if id in db.accounts then db.accounts[id].On(Debit) else 0;
    var credits: string -> int := id => if id in db.accounts then db.accounts[id].On(Credit) else 0;
    var both: string -> int := id => own(id) + credits(id);
    SumPlus(ids, own, credits, both);
    SumPlus(ids, other, debits, both);
    SumSame(ids, debits, id => if id in db.accounts then db.accounts[id].On(Debit) else 0);
    SumSame(ids, credits, id => if id in db.accounts then db.accounts[id].On(Credit) else 0);
    SumSame(ids, own, id => if id in db.accounts && DebitNormal(db.accounts[id]) == true then db.accounts[id].Balance() else 0);
    SumSame(ids, other, id => if id in db.accounts && DebitNormal(db.accounts[id]) == false then db.accounts[id].Balance() else 0);
  }
}
