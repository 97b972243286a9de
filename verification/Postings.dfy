/** Combining, checking and canonicalising a posting list (journal.service.ts, lines 48 to 157). */
module Postings {
  import opened Wrappers
  import opened Text
  import opened Decimal

  datatype Direction = Debit | Credit

  /** A posting as it arrives: the amount is still text. */
  datatype RawPosting = RawPosting(account: string, direction: Direction, amountText: string)

  datatype Posting = Posting(account: string, direction: Direction, amount: int) {
    function Id(): (string, Direction) { (account, direction) }
  }

  function DirectionName(d: Direction): string {
    match d
    case Debit => "DEBIT"
    case Credit => "CREDIT"
  }

  /** The Map key `account:DIRECTION`. */
  function PostingKey(account: string, d: Direction): string {
    account + ":" + DirectionName(d)
  }

  /** Two different (account, direction) pairs never share a Map key, whatever the identifiers contain. */
  lemma PostingKeyInjective(a: string, d: Direction, b: string, e: Direction)
    ensures PostingKey(a, d) == PostingKey(b, e) <==> a == b && d == e
  {
    var k, l := PostingKey(a, d), PostingKey(b, e);
    if k == l {
      assert k[|k| - 3] == if d == Debit then 'B' else 'D';
      assert l[|l| - 3] == if e == Debit then 'B' else 'D';
      assert k[..|a|] == a && l[..|b|] == b;
    }
  }

  // ---------- totals ----------

  /** The amount a list moves on one side of one account. */
  function Total(ps: seq<Posting>, account: string, d: Direction): int {
    if |ps| == 0 then 0
    else
      var last := ps[|ps| - 1];
      Total(ps[..|ps| - 1], account, d) + if last.Id() == (account, d) then last.amount else 0
  }

  /** The amount a list moves on one side, over all accounts. */
  function Sum(ps: seq<Posting>, d: Direction): int {
    if |ps| == 0 then 0
    else
      var last := ps[|ps| - 1];
      Sum(ps[..|ps| - 1], d) + if last.direction == d then last.amount else 0
  }

  lemma TotalAppend(ps: seq<Posting>, p: Posting, account: string, d: Direction)
    ensures Total(ps + [p], account, d) ==
            Total(ps, account, d) + if p.Id() == (account, d) then p.amount else 0
  {
    assert (ps + [p])[..|ps|] == ps;
  }

  lemma SumAppend(ps: seq<Posting>, p: Posting, d: Direction)
    ensures Sum(ps + [p], d) == Sum(ps, d) + if p.direction == d then p.amount else 0
  {
    assert (ps + [p])[..|ps|] == ps;
  }

  lemma {:induction false} TotalRemove(ps: seq<Posting>, i: nat, account: string, d: Direction)
    requires i < |ps|
    ensures Total(ps, account, d) ==
            Total(ps[..i] + ps[i + 1..], account, d) + if ps[i].Id() == (account, d) then ps[i].amount else 0
  {
    if i == |ps| - 1 {
      assert ps[..i] + ps[i + 1..] == ps[..i];
    } else {
      var init := ps[..|ps| - 1];
      TotalRemove(init, i, account, d);
      assert ps[..i] + ps[i + 1..] == (init[..i] + init[i + 1..]) + [ps[|ps| - 1]];
      TotalAppend(init[..i] + init[i + 1..], ps[|ps| - 1], account, d);
    }
  }

  lemma TakenOut<T>(s: seq<T>, i: nat)
    requires i < |s|
    ensures multiset(s) == multiset(s[..i] + s[i + 1..]) + multiset{s[i]}
  {
    assert s == s[..i] + [s[i]] + s[i + 1..];
  }

  lemma Rest<T>(p: seq<T>, q: seq<T>) returns (i: nat)
    requires multiset(p) == multiset(q) && |p| > 0
    ensures i < |q| && q[i] == p[|p| - 1]
    ensures multiset(p[..|p| - 1]) == multiset(q[..i] + q[i + 1..])
  {
    var x, n := p[|p| - 1], |p| - 1;
    TakenOut(p, n);
    assert p[..n] + p[n + 1..] == p[..n];
    assert x in multiset(p);
    assert x in multiset(q);
    i :| 0 <= i < |q| && q[i] == x;
    TakenOut(q, i);
    assert multiset(p[..n]) == multiset(q) - multiset{x} == multiset(q[..i] + q[i + 1..]);
  }

  lemma {:induction false} TotalOfPermutation(p: seq<Posting>, q: seq<Posting>, account: string, d: Direction)
    requires multiset(p) == multiset(q)
    ensures Total(p, account, d) == Total(q, account, d)
  {
    if |p| == 0 {
      assert |multiset(q)| == |q|;
    } else {
      var i := Rest(p, q);
      TotalRemove(q, i, account, d);
      TotalOfPermutation(p[..|p| - 1], q[..i] + q[i + 1..], account, d);
    }
  }

  // ---------- combining ----------

  /** The (account, direction) pairs of a list in order of first appearance. */
  function FirstIds(ps: seq<Posting>): seq<(string, Direction)> {
    if |ps| == 0 then []
    else
      var ids := FirstIds(ps[..|ps| - 1]);
      if ps[|ps| - 1].Id() in ids then ids else ids + [ps[|ps| - 1].Id()]
  }

  /** One posting per pair, in order of first appearance, carrying the pair's whole total. */
  function Combined(ps: seq<Posting>): seq<Posting> {
    var ids := FirstIds(ps);
    seq(|ids|, i requires 0 <= i < |ids| => Posting(ids[i].0, ids[i].1, Total(ps, ids[i].0, ids[i].1)))
  }

  predicate DistinctIds(ps: seq<Posting>) {
    forall i, j :: 0 <= i < j < |ps| ==> ps[i].Id() != ps[j].Id()
  }

  ghost predicate HasId(ps: seq<Posting>, id: (string, Direction)) {
    exists i :: 0 <= i < |ps| && ps[i].Id() == id
  }

  lemma {:induction false} FirstIdsMembers(ps: seq<Posting>)
    ensures forall i, j :: 0 <= i < j < |FirstIds(ps)| ==> FirstIds(ps)[i] != FirstIds(ps)[j]
    ensures forall id :: id in FirstIds(ps) <==> HasId(ps, id)
  {
    if |ps| > 0 {
      var init, last := ps[..|ps| - 1], ps[|ps| - 1];
      FirstIdsMembers(init);
      forall id ensures HasId(ps, id) <==> HasId(init, id) || id == last.Id() {
        if HasId(init, id) {
          var i :| 0 <= i < |init| && init[i].Id() == id;
          assert ps[i].Id() == id;
        }
        if id == last.Id() { assert ps[|ps| - 1].Id() == id; }
        if HasId(ps, id) && id != last.Id() {
          var i :| 0 <= i < |ps| && ps[i].Id() == id;
          assert init[i].Id() == id;
        }
      }
    }
  }

  lemma {:induction false} TotalAbsent(ps: seq<Posting>, account: string, d: Direction)
    requires !HasId(ps, (account, d))
    ensures Total(ps, account, d) == 0
  {
    if |ps| > 0 {
      var init := ps[..|ps| - 1];
      assert ps[|ps| - 1].Id() != (account, d);
      forall i | 0 <= i < |init| ensures init[i].Id() != (account, d) {
        assert init[i] == ps[i];
      }
      TotalAbsent(init, account, d);
    }
  }

  lemma {:induction false} TotalOfDistinct(ps: seq<Posting>, i: nat)
    requires DistinctIds(ps) && i < |ps|
    ensures Total(ps, ps[i].account, ps[i].direction) == ps[i].amount
  {
    var init := ps[..|ps| - 1];
    if i == |ps| - 1 {
      assert !HasId(init, ps[i].Id());
      TotalAbsent(init, ps[i].account, ps[i].direction);
    } else {
      assert ps[|ps| - 1].Id() != ps[i].Id();
      TotalOfDistinct(init, i);
    }
  }

  /** Combining keeps every (account, direction) total, names each pair once, and names no other pair. */
  lemma CombinedKeepsTotals(ps: seq<Posting>)
    ensures DistinctIds(Combined(ps))
    ensures forall id :: HasId(Combined(ps), id) <==> HasId(ps, id)
    ensures forall a, d :: Total(Combined(ps), a, d) == Total(ps, a, d)
  {
    FirstIdsMembers(ps);
    var c, ids := Combined(ps), FirstIds(ps);
    assert forall i :: 0 <= i < |c| ==> c[i].Id() == ids[i];
    forall id ensures HasId(c, id) <==> id in ids {
      if id in ids {
        var i :| 0 <= i < |ids| && ids[i] == id;
        assert c[i].Id() == id;
      }
    }
    forall a, d ensures Total(c, a, d) == Total(ps, a, d) {
      if HasId(c, (a, d)) {
        var i :| 0 <= i < |c| && c[i].Id() == (a, d);
        TotalOfDistinct(c, i);
      } else {
        TotalAbsent(c, a, d);
        TotalAbsent(ps, a, d);
      }
    }
  }

  /** Adding one posting to the list raises the row of its pair, or appends a new row. */
  function Merged(c: seq<Posting>, p: Posting): seq<Posting> {
    if exists i :: 0 <= i < |c| && c[i].Id() == p.Id() then
      seq(|c|, i requires 0 <= i < |c| => if c[i].Id() == p.Id() then c[i].(amount := c[i].amount + p.amount) else c[i])
    else c + [p]
  }

  lemma CombinedAppend(ps: seq<Posting>, p: Posting)
    ensures Combined(ps + [p]) == Merged(Combined(ps), p)
    ensures HasId(ps, p.Id()) <==> HasId(Combined(ps), p.Id())
  {
    var c, c', ids := Combined(ps), Combined(ps + [p]), FirstIds(ps);
    assert (ps + [p])[..|ps|] == ps;
    CombinedKeepsTotals(ps);
    FirstIdsMembers(ps);
    forall i | 0 <= i < |ids|
      ensures c'[i].Id() == ids[i] && c'[i].amount == c[i].amount + if ids[i] == p.Id() then p.amount else 0
    {
      TotalAppend(ps, p, ids[i].0, ids[i].1);
    }
    if HasId(ps, p.Id()) {
      assert c' == Merged(c, p);
    } else {
      TotalAppend(ps, p, p.account, p.direction);
      TotalAbsent(ps, p.account, p.direction);
      assert c' == c + [p];
    }
  }

  lemma {:induction false} SumUpdate(ps: seq<Posting>, i: nat, extra: int, d: Direction)
    requires i < |ps|
    ensures Sum(ps[i := ps[i].(amount := ps[i].amount + extra)], d) ==
            Sum(ps, d) + if ps[i].direction == d then extra else 0
  {
    var ps' := ps[i := ps[i].(amount := ps[i].amount + extra)];
    var init := ps[..|ps| - 1];
    if i == |ps| - 1 {
      assert ps'[..|ps| - 1] == init;
    } else {
      SumUpdate(init, i, extra, d);
      assert ps'[..|ps| - 1] == init[i := init[i].(amount := init[i].amount + extra)];
    }
  }

  lemma SumMerged(c: seq<Posting>, p: Posting, d: Direction)
    requires DistinctIds(c)
    ensures Sum(Merged(c, p), d) == Sum(c, d) + if p.direction == d then p.amount else 0
  {
    if HasId(c, p.Id()) {
      var i :| 0 <= i < |c| && c[i].Id() == p.Id();
      assert Merged(c, p) == c[i := c[i].(amount := c[i].amount + p.amount)];
      SumUpdate(c, i, p.amount, d);
    } else {
      SumAppend(c, p, d);
    }
  }

  /** Combining keeps the debit sum and the credit sum. */
  lemma {:induction false} CombinedKeepsSums(ps: seq<Posting>, d: Direction)
    ensures Sum(Combined(ps), d) == Sum(ps, d)
  {
    if |ps| > 0 {
      var init, p := ps[..|ps| - 1], ps[|ps| - 1];
      assert ps == init + [p];
      CombinedKeepsSums(init, d);
      CombinedAppend(init, p);
      CombinedKeepsTotals(init);
      SumMerged(Combined(init), p, d);
    }
  }

  predicate Parses(raw: seq<RawPosting>) {
    forall i :: 0 <= i < |raw| ==> ParseMinorUnits(raw[i].amountText).Some?
  }

  function Parsed(raw: seq<RawPosting>): seq<Posting>
    requires Parses(raw)
  {
    seq(|raw|, i requires 0 <= i < |raw| => ParsedOne(raw[i]))
  }

  /** The insertion-ordered Map `combined` holds exactly the rows c, keyed by posting key. */
  ghost predicate MapHolds(combined: map<string, Posting>, order: seq<string>, c: seq<Posting>) {
    && |order| == |c|
    && (forall i :: 0 <= i < |c| ==> order[i] == PostingKey(c[i].account, c[i].direction))
    && (forall i :: 0 <= i < |c| ==> order[i] in combined && combined[order[i]] == c[i])
    && (forall k :: k in combined ==> k in order)
  }

  lemma KeyIsKnown(combined: map<string, Posting>, order: seq<string>, c: seq<Posting>, p: Posting)
    requires MapHolds(combined, order, c)
    ensures PostingKey(p.account, p.direction) in combined <==> HasId(c, p.Id())
    ensures forall i :: 0 <= i < |c| ==> (order[i] == PostingKey(p.account, p.direction) <==> c[i].Id() == p.Id())
  {
    forall i | 0 <= i < |c|
      ensures order[i] == PostingKey(p.account, p.direction) <==> c[i].Id() == p.Id()
    {
      PostingKeyInjective(p.account, p.direction, c[i].account, c[i].direction);
    }
  }

  lemma MergeKeepsMap(combined: map<string, Posting>, order: seq<string>, c: seq<Posting>, p: Posting)
    requires MapHolds(combined, order, c) && DistinctIds(c)
    ensures
      var key := PostingKey(p.account, p.direction);
      if key in combined then
        MapHolds(combined[key := combined[key].(amount := combined[key].amount + p.amount)], order, Merged(c, p))
      else MapHolds(combined[key := p], order + [key], Merged(c, p))
  {
    KeyIsKnown(combined, order, c, p);
  }

  function ParsedOne(raw: RawPosting): Posting
    requires ParseMinorUnits(raw.amountText).Some?
  {
    Posting(raw.account, raw.direction, ParseMinorUnits(raw.amountText).value)
  }

  lemma ParsedNext(raw: seq<RawPosting>, n: nat)
    requires n < |raw| && Parses(raw[..n]) && ParseMinorUnits(raw[n].amountText).Some?
    ensures Parses(raw[..n + 1])
    ensures Parsed(raw[..n + 1]) == Parsed(raw[..n]) + [ParsedOne(raw[n])]
  {
  }

  /** `[...combined.values()]`: the Map's values in insertion order. */
  method Values(combined: map<string, Posting>, order: seq<string>, ghost c: seq<Posting>) returns (rows: seq<Posting>)
    requires MapHolds(combined, order, c)
    ensures rows == c
  {
    rows := [];
    for i := 0 to |order|
      invariant rows == c[..i]
    {
      rows := rows + [combined[order[i]]];
    }
  }

  /** One turn of the loop: raise the row of an existing key, or set a new one. */
  method Merge(combined: map<string, Posting>, order: seq<string>, p: Posting, ghost seen: seq<Posting>)
    returns (combined': map<string, Posting>, order': seq<string>)
    requires MapHolds(combined, order, Combined(seen))
    ensures MapHolds(combined', order', Combined(seen + [p]))
  {
    var key := PostingKey(p.account, p.direction);
    CombinedAppend(seen, p);
    CombinedKeepsTotals(seen);
    MergeKeepsMap(combined, order, Combined(seen), p);
    if key in combined {
      combined', order' := combined[key := combined[key].(amount := combined[key].amount + p.amount)], order;
    } else {
      combined', order' := combined[key := p], order + [key];
    }
  }

  /** `normalisePostings`: one pass over the request, merging into an insertion-ordered Map. */
  method NormalisePostings(raw: seq<RawPosting>) returns (r: Option<seq<Posting>>)
    ensures r.Some? <==> Parses(raw)
    ensures r.Some? ==> r.value == Combined(Parsed(raw))
  {
    var combined: map<string, Posting> := map[];
    var order: seq<string> := [];
    for n := 0 to |raw|
      invariant Parses(raw[..n])
      invariant MapHolds(combined, order, Combined(Parsed(raw[..n])))
    {
      if ParseMinorUnits(raw[n].amountText).None? {
        return None;
      }
      var p := ParsedOne(raw[n]);
      ParsedNext(raw, n);
      combined, order := Merge(combined, order, p, Parsed(raw[..n]));
    }
    assert raw[..|raw|] == raw;
    var rows := Values(combined, order, Combined(Parsed(raw)));
    r := Some(rows);
  }

  // ---------- the balance rule ----------

  predicate AllPositive(ps: seq<Posting>) {
    forall i :: 0 <= i < |ps| ==> ps[i].amount > 0
  }

  predicate Balanced(ps: seq<Posting>) {
    |ps| >= 2 && AllPositive(ps) && Sum(ps, Debit) == Sum(ps, Credit)
  }

  /** `assertBalanced`: None stands for the UNBALANCED_JOURNAL error. */
  method AssertBalanced(ps: seq<Posting>) returns (r: Option<int>)
    ensures r.Some? <==> Balanced(ps)
    ensures r.Some? ==> r.value == Sum(ps, Debit) && r.value > 0
  {
    if |ps| < 2 {
      return None;
    }
    var debitTotal, creditTotal := 0, 0;
    for n := 0 to |ps|
      invariant AllPositive(ps[..n])
      invariant debitTotal == Sum(ps[..n], Debit) && creditTotal == Sum(ps[..n], Credit)
      invariant debitTotal >= 0 && creditTotal >= 0 && (n > 0 ==> debitTotal + creditTotal > 0)
    {
      if ps[n].amount <= 0 {
        return None;
      }
      assert ps[..n + 1] == ps[..n] + [ps[n]];
      SumAppend(ps[..n], ps[n], Debit);
      SumAppend(ps[..n], ps[n], Credit);
      if ps[n].direction == Debit {
        debitTotal := debitTotal + ps[n].amount;
      } else {
        creditTotal := creditTotal + ps[n].amount;
      }
    }
    assert ps[..|ps|] == ps;
    if debitTotal != creditTotal || debitTotal == 0 {
      return None;
    }
    return Some(debitTotal);
  }

  // ---------- lock order ----------

  /** `deterministicAccountOrder`: the distinct accounts, ascending. */
  function AccountOrder(ps: seq<Posting>): seq<string> {
    if |ps| == 0 then [] else InsertId(ps[|ps| - 1].account, AccountOrder(ps[..|ps| - 1]))
  }

  predicate Names(ps: seq<Posting>, account: string) {
    exists i :: 0 <= i < |ps| && ps[i].account == account
  }

  lemma {:induction false} AccountOrderAscends(ps: seq<Posting>)
    ensures Ascending(AccountOrder(ps))
    ensures forall a :: a in AccountOrder(ps) <==> Names(ps, a)
  {
    if |ps| > 0 {
      var init, last := ps[..|ps| - 1], ps[|ps| - 1];
      AccountOrderAscends(init);
      InsertIdAscends(last.account, AccountOrder(init));
      forall a ensures Names(ps, a) <==> Names(init, a) || a == last.account {
        if Names(init, a) {
          var i :| 0 <= i < |init| && init[i].account == a;
          assert ps[i].account == a;
        }
        if a == last.account { assert ps[|ps| - 1].account == a; }
        if Names(ps, a) && a != last.account {
          var i :| 0 <= i < |ps| && ps[i].account == a;
          assert init[i].account == a;
        }
      }
    }
  }

  // ---------- the canonical payload ----------

  datatype PayloadRow = PayloadRow(account: string, direction: Direction, amountText: string) {
    function Key(): string { PostingKey(account, direction) }
  }

  function ToRow(p: Posting): PayloadRow {
    PayloadRow(p.account, p.direction, SerializeMinorUnits(p.amount))
  }

  function InsertRow(x: PayloadRow, rows: seq<PayloadRow>): seq<PayloadRow> {
    if |rows| == 0 then [x]
    else if Less(x.Key(), rows[0].Key()) then [x] + rows
    else [rows[0]] + InsertRow(x, rows[1..])
  }

  /** The posting rows of the hashed payload: amounts as text, ordered by `account:DIRECTION`. */
  function PayloadRows(ps: seq<Posting>): seq<PayloadRow> {
    if |ps| == 0 then [] else InsertRow(ToRow(ps[|ps| - 1]), PayloadRows(ps[..|ps| - 1]))
  }

  predicate RowsAscend(rows: seq<PayloadRow>) {
    forall i, j :: 0 <= i < j < |rows| ==> Less(rows[i].Key(), rows[j].Key())
  }

  lemma {:induction false} InsertRowAscends(x: PayloadRow, rows: seq<PayloadRow>)
    requires RowsAscend(rows)
    requires forall i :: 0 <= i < |rows| ==> rows[i].Key() != x.Key()
    ensures RowsAscend(InsertRow(x, rows))
    ensures forall y :: y in InsertRow(x, rows) <==> y == x || y in rows
  {
    if |rows| == 0 {
    } else if Less(x.Key(), rows[0].Key()) {
      forall j | 0 <= j < |rows| ensures Less(x.Key(), rows[j].Key()) {
        if j > 0 { LessTransitive(x.Key(), rows[0].Key(), rows[j].Key()); }
      }
    } else {
      LessTotal(x.Key(), rows[0].Key());
      InsertRowAscends(x, rows[1..]);
      var r := InsertRow(x, rows[1..]);
      forall j | 0 <= j < |r| ensures Less(rows[0].Key(), r[j].Key()) {
        assert r[j] in r;
      }
      assert rows == [rows[0]] + rows[1..];
    }
  }

  ghost predicate HasRow(ps: seq<Posting>, y: PayloadRow) {
    exists i :: 0 <= i < |ps| && ToRow(ps[i]) == y
  }

  lemma {:induction false} PayloadRowsSorted(ps: seq<Posting>)
    requires DistinctIds(ps)
    ensures RowsAscend(PayloadRows(ps))
    ensures forall y :: y in PayloadRows(ps) <==> HasRow(ps, y)
  {
    if |ps| > 0 {
      var init, last := ps[..|ps| - 1], ps[|ps| - 1];
      PayloadRowsSorted(init);
      var rows := PayloadRows(init);
      forall i | 0 <= i < |rows| ensures rows[i].Key() != ToRow(last).Key() {
        assert rows[i] in rows;
        var j :| 0 <= j < |init| && ToRow(init[j]) == rows[i];
        PostingKeyInjective(init[j].account, init[j].direction, last.account, last.direction);
      }
      InsertRowAscends(ToRow(last), rows);
      forall y ensures HasRow(ps, y) <==> HasRow(init, y) || y == ToRow(last) {
        if HasRow(init, y) {
          var i :| 0 <= i < |init| && ToRow(init[i]) == y;
          assert ToRow(ps[i]) == y;
        }
        if y == ToRow(last) { assert ToRow(ps[|ps| - 1]) == y; }
        if HasRow(ps, y) && y != ToRow(last) {
          var i :| 0 <= i < |ps| && ToRow(ps[i]) == y;
          assert ToRow(init[i]) == y;
        }
      }
    }
  }

  lemma {:induction false} SortedRowsUnique(s: seq<PayloadRow>, t: seq<PayloadRow>)
    requires RowsAscend(s) && RowsAscend(t)
    requires forall y :: y in s <==> y in t
    ensures s == t
  {
    assert |s| == 0 <==> |t| == 0 by {
      assert |s| == 0 || s[0] in s;
      assert |t| == 0 || t[0] in t;
    }
    if |s| > 0 {
      assert s[0] in s && t[0] in t;
      assert s[0] in t && t[0] in s;
      var i :| 0 <= i < |t| && t[i] == s[0];
      var j :| 0 <= j < |s| && s[j] == t[0];
      LessTotal(s[0].Key(), t[0].Key());
      assert s[0] == t[0];
      forall y ensures y in s[1..] <==> y in t[1..] {
        RowTail(s, y);
        RowTail(t, y);
      }
      SortedRowsUnique(s[1..], t[1..]);
    }
  }

  lemma RowTail(s: seq<PayloadRow>, y: PayloadRow)
    requires RowsAscend(s) && |s| > 0
    ensures y in s[1..] <==> y in s && y != s[0]
  {
    LessIrreflexive(s[0].Key());
    if y in s && y != s[0] {
      var i :| 0 <= i < |s| && s[i] == y;
      assert s[1..][i - 1] == y;
    }
  }

  ghost predicate SameTotals(p: seq<Posting>, q: seq<Posting>) {
    forall a, d :: Total(p, a, d) == Total(q, a, d)
  }

  /** A combined, all-positive list has a row (a, d, text) exactly when text prints its non-zero total there. */
  lemma RowMeansTotal(ps: seq<Posting>, y: PayloadRow)
    requires AllPositive(Combined(ps))
    ensures y in PayloadRows(Combined(ps)) <==>
      Total(ps, y.account, y.direction) != 0 && y.amountText == SerializeMinorUnits(Total(ps, y.account, y.direction))
  {
    var c := Combined(ps);
    CombinedKeepsTotals(ps);
    PayloadRowsSorted(c);
    if HasId(c, (y.account, y.direction)) {
      var i :| 0 <= i < |c| && c[i].Id() == (y.account, y.direction);
      TotalOfDistinct(c, i);
      if y == ToRow(c[i]) { assert HasRow(c, y); }
      if HasRow(c, y) {
        var j :| 0 <= j < |c| && ToRow(c[j]) == y;
        assert c[j].Id() == c[i].Id();
        assert i == j;
      }
    } else {
      TotalAbsent(c, y.account, y.direction);
      forall j | 0 <= j < |c| ensures ToRow(c[j]) != y {
        assert c[j].Id() != (y.account, y.direction);
      }
    }
  }

  /**
   * The payload depends only on the per-(account, direction) totals: two accepted requests hash alike
   * exactly when all their totals agree, however they were ordered or split.
   */
  lemma PayloadIsCanonical(p: seq<Posting>, q: seq<Posting>)
    requires AllPositive(Combined(p)) && AllPositive(Combined(q))
    ensures PayloadRows(Combined(p)) == PayloadRows(Combined(q)) <==> SameTotals(p, q)
  {
    var s, t := PayloadRows(Combined(p)), PayloadRows(Combined(q));
    if SameTotals(p, q) {
      CombinedKeepsTotals(p);
      CombinedKeepsTotals(q);
      PayloadRowsSorted(Combined(p));
      PayloadRowsSorted(Combined(q));
      forall y ensures y in s <==> y in t {
        RowMeansTotal(p, y);
        RowMeansTotal(q, y);
      }
      SortedRowsUnique(s, t);
    }
    if s == t {
      forall a, d ensures Total(p, a, d) == Total(q, a, d) {
        var y := PayloadRow(a, d, SerializeMinorUnits(Total(p, a, d)));
        var z := PayloadRow(a, d, SerializeMinorUnits(Total(q, a, d)));
        RowMeansTotal(p, y);
        RowMeansTotal(q, y);
        RowMeansTotal(p, z);
        RowMeansTotal(q, z);
        if Total(p, a, d) != 0 {
          SerializeInjective(Total(p, a, d), Total(q, a, d));
        }
      }
    }
  }

  /** One posting of a list replaced by two postings of the same pair that add up to it. */
  function SplitAt(p: seq<Posting>, i: nat, part: int): seq<Posting>
    requires i < |p|
  {
    p[..i] + p[i + 1..] + [p[i].(amount := part)] + [p[i].(amount := p[i].amount - part)]
  }

  lemma SplitKeepsTotals(p: seq<Posting>, i: nat, part: int)
    requires i < |p|
    ensures SameTotals(SplitAt(p, i, part), p)
  {
    var rest, x, y := p[..i] + p[i + 1..], p[i].(amount := part), p[i].(amount := p[i].amount - part);
    forall a, d ensures Total(SplitAt(p, i, part), a, d) == Total(p, a, d) {
      TotalAppend(rest + [x], y, a, d);
      TotalAppend(rest, x, a, d);
      TotalRemove(p, i, a, d);
    }
  }

  lemma SplitKeepsIds(p: seq<Posting>, i: nat, part: int, q: Posting)
    requires i < |p| && q in SplitAt(p, i, part)
    ensures HasId(p, q.Id())
  {
    var s := SplitAt(p, i, part);
    var l :| 0 <= l < |s| && s[l] == q;
    if l < i {
      assert p[l].Id() == q.Id();
    } else if l + 1 < |p| {
      assert p[l + 1].Id() == q.Id();
    } else {
      assert p[i].Id() == q.Id();
    }
  }

  /** Equal totals and no new pairs carry positivity of the combined rows over. */
  lemma PositivityCarries(p: seq<Posting>, q: seq<Posting>)
    requires AllPositive(Combined(p)) && SameTotals(q, p)
    requires forall id :: HasId(q, id) ==> HasId(p, id)
    ensures AllPositive(Combined(q))
  {
    CombinedKeepsTotals(p);
    CombinedKeepsTotals(q);
    var c := Combined(q);
    forall j | 0 <= j < |c| ensures c[j].amount > 0 {
      TotalOfDistinct(c, j);
      assert HasId(c, c[j].Id());
      var m :| 0 <= m < |Combined(p)| && Combined(p)[m].Id() == c[j].Id();
      TotalOfDistinct(Combined(p), m);
    }
  }

  /** Reordering a request, or splitting one of its postings in two, leaves the payload unchanged. */
  lemma PayloadIgnoresOrderAndSplits(p: seq<Posting>, q: seq<Posting>, i: nat, part: int)
    requires AllPositive(Combined(p)) && i < |p|
    requires multiset(q) == multiset(SplitAt(p, i, part))
    ensures PayloadRows(Combined(q)) == PayloadRows(Combined(p))
  {
    hide SplitAt, Combined, AllPositive, PayloadRows;
    SplitKeepsTotals(p, i, part);
    forall a, d ensures Total(q, a, d) == Total(p, a, d) {
      TotalOfPermutation(q, SplitAt(p, i, part), a, d);
      assert Total(SplitAt(p, i, part), a, d) == Total(p, a, d);
    }
    forall id | HasId(q, id) ensures HasId(p, id) {
      var k :| 0 <= k < |q| && q[k].Id() == id;
      assert q[k] in multiset(q);
      assert q[k] in SplitAt(p, i, part);
      SplitKeepsIds(p, i, part, q[k]);
    }
    PositivityCarries(p, q);
    PayloadIsCanonical(p, q);
  }
}
