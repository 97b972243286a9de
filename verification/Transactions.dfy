/** Transaction history: running balances and cursor paging (transaction.service.ts). */
module Transactions {
  import opened Wrappers
  import opened Text
  import opened Postings
  import opened Ledger
  import opened LedgerSafety

  datatype PostingRow = PostingRow(
    id: string, direction: Direction, amount: int, createdAt: int, entryType: string, effectiveAt: int)

  datatype Item = Item(
    id: string, reference: string, incoming: bool, category: string, amount: int, balanceAfter: int,
    effectiveAt: int, postedAt: int)

  // ---------- the running balance ----------

  function Signed(row: PostingRow): int {
    if row.direction == Credit then row.amount else -row.amount
  }

  function Running(rows: seq<PostingRow>): int {
    if |rows| == 0 then 0 else Running(rows[..|rows| - 1]) + Signed(rows[|rows| - 1])
  }

  function Category(entryType: string): string {
    if entryType == "SETTLEMENT_FUNDING" then "FUNDING"
    else if entryType == "ACCOUNT_ADJUSTMENT" then "ADJUSTMENT"
    else if entryType == "CUSTOMER_TRANSFER" then "TRANSFER"
    else "OTHER"
  }

  /** The n-th entry of a history, counting from the oldest. */
  function ItemAt(rows: seq<PostingRow>, n: nat, display: string -> string): Item
    requires n < |rows|
  {
    var row := rows[n];
    Item(row.id, display(row.id), row.direction == Credit, Category(row.entryType), row.amount,
      Running(rows[..n + 1]), row.effectiveAt, row.createdAt)
  }

  /** `history`: the postings in order of creation, each with the balance it left. */
  method History(rows: seq<PostingRow>, display: string -> string) returns (items: seq<Item>)
    ensures |items| == |rows| && forall n :: 0 <= n < |rows| ==> items[n] == ItemAt(rows, n, display)
  {
    items := [];
    var balance := 0;
    for n := 0 to |rows|
      invariant |items| == n && balance == Running(rows[..n])
      invariant forall m :: 0 <= m < n ==> items[m] == ItemAt(rows, m, display)
    {
      var row := rows[n];
      assert rows[..n + 1][..n] == rows[..n];
      balance := balance + if row.direction == Credit then row.amount else -row.amount;
      items := items + [Item(row.id, display(row.id), row.direction == Credit, Category(row.entryType), row.amount,
        balance, row.effectiveAt, row.createdAt)];
    }
  }

  /** All postings of a ledger on one account, journal by journal. */
  function PostingsOn(js: seq<Journal>, account: string): seq<Posting> {
    if |js| == 0 then []
    else PostingsOn(js[..|js| - 1], account) + On(js[|js| - 1].postings, account)
  }

  function On(ps: seq<Posting>, account: string): seq<Posting> {
    if |ps| == 0 then []
    else
      var last := ps[|ps| - 1];
      On(ps[..|ps| - 1], account) + if last.account == account then [last] else []
  }

  function AsPosting(row: PostingRow, account: string): Posting { Posting(account, row.direction, row.amount) }

  function AsPostings(rows: seq<PostingRow>, account: string): (ps: seq<Posting>)
    ensures |ps| == |rows|
  {
    if |rows| == 0 then [] else AsPostings(rows[..|rows| - 1], account) + [AsPosting(rows[|rows| - 1], account)]
  }

  /** The rows read are the account's postings, in whatever order. */
  ghost predicate RowsOfAccount(rows: seq<PostingRow>, js: seq<Journal>, account: string) {
    multiset(AsPostings(rows, account)) == multiset(PostingsOn(js, account))
  }

  lemma {:induction false} RunningIsTotals(rows: seq<PostingRow>, account: string)
    ensures Running(rows) ==
      Total(AsPostings(rows, account), account, Credit) - Total(AsPostings(rows, account), account, Debit)
  {
    if |rows| > 0 {
      var init, last := rows[..|rows| - 1], AsPosting(rows[|rows| - 1], account);
      RunningIsTotals(init, account);
      TotalAppend(AsPostings(init, account), last, account, Credit);
      TotalAppend(AsPostings(init, account), last, account, Debit);
    }
  }

  lemma {:induction false} TotalConcat(p: seq<Posting>, q: seq<Posting>, account: string, d: Direction)
    ensures Total(p + q, account, d) == Total(p, account, d) + Total(q, account, d)
  {
    if |q| == 0 {
      assert p + q == p;
    } else {
      var last := q[|q| - 1];
      TotalConcat(p, q[..|q| - 1], account, d);
      assert p + q == (p + q[..|q| - 1]) + [last];
      TotalAppend(p + q[..|q| - 1], last, account, d);
    }
  }

  lemma {:induction false} TotalOn(ps: seq<Posting>, account: string, d: Direction)
    ensures Total(On(ps, account), account, d) == Total(ps, account, d)
  {
    if |ps| > 0 {
      var init, last := ps[..|ps| - 1], ps[|ps| - 1];
      TotalOn(init, account, d);
      TotalAppend(On(init, account), last, account, d);
      assert On(ps, account) == if last.account == account then On(init, account) + [last] else On(init, account);
      assert Total(ps, account, d) == Total(init, account, d) + if last.Id() == (account, d) then last.amount else 0;
      hide Total, On;
    }
  }

  lemma {:induction false} TotalOfJournals(js: seq<Journal>, account: string, d: Direction)
    ensures Total(PostingsOn(js, account), account, d) == JournalTotal(js, account, d)
  {
    if |js| > 0 {
      TotalOfJournals(js[..|js| - 1], account, d);
      TotalConcat(PostingsOn(js[..|js| - 1], account), On(js[|js| - 1].postings, account), account, d);
      TotalOn(js[|js| - 1].postings, account, d);
    }
  }

  lemma SafeIsExact(db: Db)
    requires Safe(db)
    ensures ProjectionsExact(db)
  {
  }

  lemma TotalsAreProjected(db: Db, account: string, rows: seq<PostingRow>, d: Direction)
    requires ProjectionsExact(db) && account in db.accounts && RowsOfAccount(rows, db.journals, account)
    ensures Total(AsPostings(rows, account), account, d) == db.accounts[account].On(d)
  {
    hide Total, AsPostings, PostingsOn;
    TotalOfPermutation(AsPostings(rows, account), PostingsOn(db.journals, account), account, d);
    TotalOfJournals(db.journals, account, d);
  }

  /**
   * In every safe ledger the last balance of a wallet's history is the balance its projection reports, whatever
   * the order its postings are read in.
   */
  lemma LastBalanceIsProjection(db: Db, account: string, rows: seq<PostingRow>, display: string -> string)
    requires Safe(db) && account in db.accounts && db.accounts[account].cls == Liability
    requires RowsOfAccount(rows, db.journals, account)
    ensures Running(rows) == db.accounts[account].Balance()
    ensures |rows| > 0 ==> ItemAt(rows, |rows| - 1, display).balanceAfter == db.accounts[account].Balance()
  {
    hide Safe, RowsOfAccount, Total, AsPostings, ProjectionsExact, Running;
    assert ProjectionsExact(db) by { SafeIsExact(db); }
    RunningIsTotals(rows, account);
    TotalsAreProjected(db, account, rows, Debit);
    TotalsAreProjected(db, account, rows, Credit);
    assert rows[..|rows|] == rows;
  }

  // ---------- a posting that arrives later ----------

  /** The order in which `history` reads the postings: by creation, then by identifier. */
  predicate Earlier(a: PostingRow, b: PostingRow) {
    a.createdAt < b.createdAt || (a.createdAt == b.createdAt && Less(a.id, b.id))
  }

  ghost predicate InOrder(rows: seq<PostingRow>) {
    forall i, j :: 0 <= i < j < |rows| ==> Earlier(rows[i], rows[j])
  }

  /** The ordered read once one more posting is there. */
  function Placed(x: PostingRow, rows: seq<PostingRow>): seq<PostingRow> {
    if |rows| == 0 || Earlier(x, rows[0]) then [x] + rows else [rows[0]] + Placed(x, rows[1..])
  }

  lemma EarlierOrders(a: PostingRow, b: PostingRow, c: PostingRow)
    ensures !(Earlier(a, b) && Earlier(b, a))
    ensures a.id != b.id ==> Earlier(a, b) || Earlier(b, a)
    ensures Earlier(a, b) && Earlier(b, c) ==> Earlier(a, c)
  {
    LessIrreflexive(a.id);
    LessTotal(a.id, b.id);
    if Less(a.id, b.id) && Less(b.id, a.id) { LessTransitive(a.id, b.id, a.id); }
    if Less(a.id, b.id) && Less(b.id, c.id) { LessTransitive(a.id, b.id, c.id); }
  }

  /** The new posting stands after the postings earlier than it and before all others. */
  lemma {:induction false} PlaceOf(x: PostingRow, rows: seq<PostingRow>) returns (p: nat)
    requires InOrder(rows) && forall i :: 0 <= i < |rows| ==> rows[i].id != x.id
    ensures p <= |rows| && Placed(x, rows) == rows[..p] + [x] + rows[p..]
    ensures forall i :: 0 <= i < |rows| ==> (Earlier(rows[i], x) <==> i < p)
    ensures InOrder(Placed(x, rows))
  {
    if |rows| == 0 {
      p := 0;
    } else if Earlier(x, rows[0]) {
      p := 0;
      assert Placed(x, rows) == rows[..0] + [x] + rows[0..];
      forall i | 0 <= i < |rows| ensures Earlier(x, rows[i]) && !Earlier(rows[i], x) {
        if i > 0 { EarlierOrders(x, rows[0], rows[i]); }
        EarlierOrders(x, rows[i], x);
      }
    } else {
      var rest := rows[1..];
      var q := PlaceOf(x, rest);
      p := q + 1;
      EarlierOrders(rows[0], x, x);
      assert rows[..p] == [rows[0]] + rest[..q] && rows[p..] == rest[q..];
      forall i | 0 <= i < |rows| ensures Earlier(rows[i], x) <==> i < p {
        if i > 0 { assert rows[i] == rest[i - 1]; }
      }
      forall j | 0 <= j < |Placed(x, rest)| ensures Earlier(rows[0], Placed(x, rest)[j]) {
        if j < q { assert Placed(x, rest)[j] == rows[j + 1]; } else if j > q { assert Placed(x, rest)[j] == rows[j]; }
      }
    }
  }

  lemma {:induction false} RunningConcat(a: seq<PostingRow>, b: seq<PostingRow>)
    ensures Running(a + b) == Running(a) + Running(b)
  {
    if |b| == 0 {
      assert a + b == a;
    } else {
      RunningConcat(a, b[..|b| - 1]);
      assert (a + b)[..|a + b| - 1] == a + b[..|b| - 1];
    }
  }

  /**
   * An entry already shown is shown again unchanged, its balance included, exactly when the new posting sorts after it;
   * one that commits late with an earlier creation time, or with the same and a smaller identifier, changes it.
   */
  lemma ShownAgainIff(rows: seq<PostingRow>, x: PostingRow, n: nat, display: string -> string) returns (m: nat)
    requires InOrder(rows) && n < |rows| && x.amount != 0 && forall i :: 0 <= i < |rows| ==> rows[i].id != x.id
    ensures m < |Placed(x, rows)| && Placed(x, rows)[m] == rows[n]
    ensures ItemAt(Placed(x, rows), m, display) == ItemAt(rows, n, display) <==> Earlier(rows[n], x)
  {
    var p := PlaceOf(x, rows);
    var all := Placed(x, rows);
    if n < p {
      m := n;
      assert all[..m + 1] == rows[..n + 1];
    } else {
      m := n + 1;
      assert all[..m + 1] == rows[..p] + ([x] + rows[p..n + 1]) by {
        assert all == rows[..p] + ([x] + rows[p..]);
        assert ([x] + rows[p..])[..n + 2 - p] == [x] + rows[p..n + 1];
      }
      assert rows[..n + 1] == rows[..p] + rows[p..n + 1];
      RunningConcat(rows[..p], [x] + rows[p..n + 1]);
      RunningConcat([x], rows[p..n + 1]);
      RunningConcat(rows[..p], rows[p..n + 1]);
      assert [x][..0] == [] && Running([x]) == Running([x][..0]) + Signed(x);
    }
  }

  // ---------- filtering and sorting ----------

  datatype Query = Query(incoming: Option<bool>, category: Option<string>, from: Option<int>, until: Option<int>)

  predicate Matches(q: Query, x: Item) {
    && (q.incoming.None? || x.incoming == q.incoming.value)
    && (q.category.None? || x.category == q.category.value)
    && (q.from.None? || x.effectiveAt >= q.from.value)
    && (q.until.None? || x.effectiveAt <= q.until.value)
  }

  function Filtered(items: seq<Item>, q: Query): seq<Item> {
    if |items| == 0 then []
    else (if Matches(q, items[0]) then [items[0]] else []) + Filtered(items[1..], q)
  }

  /** The comparator: newest first, then by identifier, descending. */
  predicate Before(a: Item, b: Item) {
    a.postedAt > b.postedAt || (a.postedAt == b.postedAt && Less(b.id, a.id))
  }

  function Insert(x: Item, sorted: seq<Item>): seq<Item> {
    if |sorted| == 0 || !Before(sorted[0], x) then [x] + sorted else [sorted[0]] + Insert(x, sorted[1..])
  }

  function Sorted(items: seq<Item>): seq<Item> {
    if |items| == 0 then [] else Insert(items[0], Sorted(items[1..]))
  }

  function Listing(items: seq<Item>, q: Query): seq<Item> { Sorted(Filtered(items, q)) }

  lemma {:induction false} InsertMembers(x: Item, sorted: seq<Item>)
    ensures multiset(Insert(x, sorted)) == multiset{x} + multiset(sorted)
  {
    if |sorted| > 0 {
      InsertMembers(x, sorted[1..]);
      assert sorted == [sorted[0]] + sorted[1..];
    }
  }

  lemma {:induction false} SortedMembers(items: seq<Item>)
    ensures multiset(Sorted(items)) == multiset(items)
  {
    if |items| > 0 {
      SortedMembers(items[1..]);
      InsertMembers(items[0], Sorted(items[1..]));
      assert items == [items[0]] + items[1..];
    }
  }

  ghost predicate Ordered(s: seq<Item>) {
    forall i, j :: 0 <= i < j < |s| ==> !Before(s[j], s[i])
  }

  lemma NotBeforeTransitive(x: Item, y: Item, z: Item)
    requires !Before(y, x) && !Before(z, y)
    ensures !Before(z, x)
  {
    LessTotal(x.id, y.id);
    LessTotal(y.id, z.id);
    if Less(z.id, y.id) && Less(y.id, x.id) { LessTransitive(z.id, y.id, x.id); }
    if Before(z, x) {
      LessIrreflexive(x.id);
      if Less(x.id, z.id) && Less(z.id, y.id) { LessTransitive(x.id, z.id, y.id); }
      if Less(y.id, x.id) && Less(x.id, z.id) { LessTransitive(y.id, x.id, z.id); }
      if Less(x.id, y.id) { LessTransitive(x.id, y.id, x.id); }
    }
  }

  lemma BeforeAsymmetric(a: Item, b: Item)
    requires Before(a, b)
    ensures !Before(b, a)
  {
    LessIrreflexive(a.id);
    if Less(b.id, a.id) && Less(a.id, b.id) { LessTransitive(a.id, b.id, a.id); }
  }

  lemma {:induction false} InsertOrders(x: Item, sorted: seq<Item>)
    requires Ordered(sorted)
    ensures Ordered(Insert(x, sorted))
  {
    if |sorted| > 0 {
      var rest := sorted[1..];
      if !Before(sorted[0], x) {
        forall j | 0 <= j < |sorted| ensures !Before(sorted[j], x) {
          if j > 0 { NotBeforeTransitive(x, sorted[0], sorted[j]); }
        }
      } else {
        InsertOrders(x, rest);
        InsertMembers(x, rest);
        var r := Insert(x, rest);
        BeforeAsymmetric(sorted[0], x);
        forall j | 0 <= j < |r| ensures !Before(r[j], sorted[0]) {
          assert r[j] in multiset(r);
          if r[j] != x {
            assert r[j] in rest;
            var m :| 0 <= m < |rest| && rest[m] == r[j];
            assert sorted[m + 1] == r[j];
          }
        }
      }
    }
  }

  /** The listing is the matching entries, each as often as it occurs, newest first. */
  lemma {:induction false} SortedOrders(items: seq<Item>)
    ensures Ordered(Sorted(items)) && multiset(Sorted(items)) == multiset(items)
  {
    SortedMembers(items);
    if |items| > 0 {
      SortedOrders(items[1..]);
      InsertOrders(items[0], Sorted(items[1..]));
    }
  }

  lemma {:induction false} FilteredConcat(a: seq<Item>, b: seq<Item>, q: Query)
    ensures Filtered(a + b, q) == Filtered(a, q) + Filtered(b, q)
  {
    if |a| == 0 {
      assert a + b == b;
    } else {
      assert (a + b)[1..] == a[1..] + b;
      FilteredConcat(a[1..], b, q);
    }
  }

  lemma {:induction false} FilteredMembers(items: seq<Item>, q: Query)
    ensures forall x :: x in Filtered(items, q) <==> x in items && Matches(q, x)
  {
    if |items| > 0 {
      FilteredMembers(items[1..], q);
      assert forall x :: x in items <==> x == items[0] || x in items[1..];
    }
  }

  lemma {:induction false} InsertSkips(x: Item, a: seq<Item>, b: seq<Item>)
    requires forall y :: y in a ==> Before(y, x)
    ensures Insert(x, a + b) == a + Insert(x, b)
  {
    if |a| == 0 {
      assert a + b == b;
    } else {
      assert a[0] in a && (a + b)[1..] == a[1..] + b;
      InsertSkips(x, a[1..], b);
    }
  }

  /** Items newer than all the others sort in front of them. */
  lemma {:induction false} NewerInFront(older: seq<Item>, newer: seq<Item>)
    requires forall x, y :: x in older && y in newer ==> Before(y, x)
    ensures Sorted(older + newer) == Sorted(newer) + Sorted(older)
  {
    if |older| == 0 {
      assert older + newer == newer;
    } else {
      assert (older + newer)[1..] == older[1..] + newer;
      NewerInFront(older[1..], newer);
      SortedMembers(newer);
      assert forall y :: y in Sorted(newer) ==> y in multiset(Sorted(newer));
      InsertSkips(older[0], Sorted(newer), Sorted(older[1..]));
    }
  }

  // ---------- cursor paging ----------

  /** A cursor names the last entry shown and the query it belongs to; the query's fingerprint is collision-free. */
  datatype Cursor = Cursor(postedAt: int, reference: string, query: Query)

  datatype Page = Page(items: seq<Item>, next: Option<Cursor>)

  predicate At(x: Item, c: Cursor) { x.reference == c.reference && x.postedAt == c.postedAt }

  /** `findIndex` plus one: zero when the cursor's entry is not in the list. */
  function StartAfter(list: seq<Item>, c: Cursor): (n: nat)
    ensures n <= |list|
  {
    if |list| == 0 then 0
    else if At(list[0], c) then 1
    else
      var rest := StartAfter(list[1..], c);
      if rest == 0 then 0 else rest + 1
  }

  function Smaller(a: nat, b: nat): nat { if a < b then a else b }

  /** `list`; None stands for the refusal of the cursor. */
  function List(items: seq<Item>, q: Query, cursor: Option<Cursor>, pageSize: nat): Option<Page> {
    if cursor.Some? && cursor.value.query != q then None
    else
      var all := Listing(items, q);
      var start := if cursor.Some? then StartAfter(all, cursor.value) else 0;
      if cursor.Some? && start == 0 then None
      else
        var end := Smaller(start + pageSize, |all|);
        var page := all[start..end];
        Some(Page(page, if |page| > 0 && end < |all| then Some(CursorOf(page[|page| - 1], q)) else None))
  }

  function CursorOf(x: Item, q: Query): Cursor { Cursor(x.postedAt, x.reference, q) }

  ghost predicate DistinctRefs(list: seq<Item>) {
    forall i, j :: 0 <= i < j < |list| ==> !(list[i].reference == list[j].reference && list[i].postedAt == list[j].postedAt)
  }

  lemma {:induction false} StartIsAfter(list: seq<Item>, k: nat, q: Query)
    requires k < |list| && DistinctRefs(list)
    ensures StartAfter(list, CursorOf(list[k], q)) == k + 1
  {
    if k > 0 {
      assert DistinctRefs(list[1..]);
      StartIsAfter(list[1..], k - 1, q);
    }
  }

  /** One call of the client: the history at that moment, and the page size asked for. */
  datatype Visit = Visit(items: seq<Item>, pageSize: nat)

  /** Between calls the history only grows, at its newer end. */
  ghost predicate Grows(visits: seq<Visit>) {
    forall i :: 0 <= i < |visits| - 1 ==>
      && visits[i].items <= visits[i + 1].items
      && forall x, y :: x in visits[i].items && y in visits[i + 1].items[|visits[i].items|..] ==> x.postedAt < y.postedAt
  }

  ghost predicate Usable(visits: seq<Visit>, q: Query) {
    forall i :: 0 <= i < |visits| ==> visits[i].pageSize >= 1 && DistinctRefs(Listing(visits[i].items, q))
  }

  /** Following `nextCursor` through the calls: everything shown, and whether null was reached. */
  function Walk(visits: seq<Visit>, q: Query, cursor: Option<Cursor>): Option<(seq<Item>, bool)> {
    if |visits| == 0 then Some(([], false))
    else
      match List(visits[0].items, q, cursor, visits[0].pageSize)
      case None => None
      case Some(page) =>
        if page.next.None? then Some((page.items, true))
        else
          match Walk(visits[1..], q, page.next)
          case None => None
          case Some((more, ended)) => Some((page.items + more, ended))
  }

  lemma ListingGrows(a: seq<Item>, b: seq<Item>, q: Query)
    requires a <= b && forall x, y :: x in a && y in b[|a|..] ==> x.postedAt < y.postedAt
    ensures exists newer :: Listing(b, q) == newer + Listing(a, q)
  {
    var more := b[|a|..];
    assert b == a + more;
    FilteredConcat(a, more, q);
    FilteredMembers(a, q);
    FilteredMembers(more, q);
    NewerInFront(Filtered(a, q), Filtered(more, q));
    assert Listing(b, q) == Sorted(Filtered(more, q)) + Listing(a, q);
  }

  lemma FirstPage(items: seq<Item>, q: Query, pageSize: nat)
    requires pageSize >= 1
    ensures
      var list := Listing(items, q);
      var end := Smaller(pageSize, |list|);
      List(items, q, None, pageSize) ==
        Some(Page(list[0..end], if end < |list| then Some(CursorOf(list[end - 1], q)) else None))
  {
    hide Listing;
    var list := Listing(items, q);
    var end := Smaller(pageSize, |list|);
    if end > 0 { assert list[0..end][end - 1] == list[end - 1]; }
  }

  /** A page taken after entry k of the original list, whatever has arrived in front of it. */
  lemma PageContinues(items: seq<Item>, q: Query, newer: seq<Item>, list: seq<Item>, k: nat, pageSize: nat)
    requires Listing(items, q) == newer + list && DistinctRefs(newer + list) && 0 < k < |list| && pageSize >= 1
    ensures
      var end := Smaller(k + pageSize, |list|);
      List(items, q, Some(CursorOf(list[k - 1], q)), pageSize) ==
        Some(Page(list[k..end], if end < |list| then Some(CursorOf(list[end - 1], q)) else None))
  {
    var all, n := newer + list, |newer|;
    assert all[n + k - 1] == list[k - 1];
    StartIsAfter(all, n + k - 1, q);
    hide Listing, StartAfter, DistinctRefs;
    var end := Smaller(k + pageSize, |list|);
    SliceBehind(newer, list, k, end);
    assert list[k..end][|list[k..end]| - 1] == list[end - 1];
  }

  lemma SliceBehind<T>(front: seq<T>, back: seq<T>, i: nat, j: nat)
    requires i <= j <= |back|
    ensures (front + back)[|front| + i..|front| + j] == back[i..j]
  {
  }

  lemma {:induction false} WalkContinues(visits: seq<Visit>, q: Query, newer: seq<Item>, list: seq<Item>, k: nat)
    requires Grows(visits) && Usable(visits, q) && 0 < k < |list| && |visits| >= |list| - k
    requires Listing(visits[0].items, q) == newer + list
    ensures Walk(visits, q, Some(CursorOf(list[k - 1], q))) == Some((list[k..], true))
    decreases |list| - k, 0
  {
    hide List, Listing;
    var end := Smaller(k + visits[0].pageSize, |list|);
    PageContinues(visits[0].items, q, newer, list, k, visits[0].pageSize);
    if end < |list| {
      WalkGoesOn(visits, q, newer, list, end);
      assert list[k..end] + list[end..] == list[k..];
    } else {
      assert list[k..end] == list[k..];
    }
  }

  /** The rest of the walk, once the first call has shown the list up to entry k. */
  lemma {:induction false} WalkGoesOn(visits: seq<Visit>, q: Query, newer: seq<Item>, list: seq<Item>, k: nat)
    requires Grows(visits) && Usable(visits, q) && 0 < k < |list| && |visits| > |list| - k
    requires Listing(visits[0].items, q) == newer + list
    ensures Walk(visits[1..], q, Some(CursorOf(list[k - 1], q))) == Some((list[k..], true))
    decreases |list| - k, 1
  {
    hide List, Listing, Walk;
    var rest := visits[1..];
    NextListing(visits, q, newer, list);
    var newer' :| Listing(rest[0].items, q) == newer' + list;
    GrowsTail(visits, q);
    WalkContinues(rest, q, newer', list, k);
  }

  lemma GrowsTail(visits: seq<Visit>, q: Query)
    requires Grows(visits) && Usable(visits, q) && |visits| > 0
    ensures Grows(visits[1..]) && Usable(visits[1..], q)
  {
    var rest := visits[1..];
    forall i | 0 <= i < |rest| - 1
      ensures rest[i].items <= rest[i + 1].items
      ensures forall x, y :: x in rest[i].items && y in rest[i + 1].items[|rest[i].items|..] ==> x.postedAt < y.postedAt
    {
      assert rest[i] == visits[i + 1] && rest[i + 1] == visits[i + 1 + 1];
    }
  }

  lemma NextListing(visits: seq<Visit>, q: Query, newer: seq<Item>, list: seq<Item>)
    requires Grows(visits) && |visits| > 1 && Listing(visits[0].items, q) == newer + list
    ensures exists newer' :: Listing(visits[1].items, q) == newer' + list
  {
    hide Listing;
    assert visits[0].items <= visits[0 + 1].items;
    ListingGrows(visits[0].items, visits[1].items, q);
    var more :| Listing(visits[1].items, q) == more + (newer + list);
    assert Listing(visits[1].items, q) == (more + newer) + list;
  }

  /**
   * Following `nextCursor` to null, with page sizes that may change and newer postings arriving between the calls,
   * shows every entry of the list as it was at the first call exactly once and in order, in at most as many calls
   * as there are entries.
   */
  lemma PagingVisitsAll(visits: seq<Visit>, q: Query)
    requires Grows(visits) && Usable(visits, q) && |visits| > 0 && |visits| >= |Listing(visits[0].items, q)|
    ensures Walk(visits, q, None) == Some((Listing(visits[0].items, q), true))
  {
    var list := Listing(visits[0].items, q);
    var end := Smaller(visits[0].pageSize, |list|);
    assert visits[0].pageSize >= 1;
    FirstPage(visits[0].items, q, visits[0].pageSize);
    hide List, Listing, Grows, Usable, Walk;
    var page := Page(list[0..end], if end < |list| then Some(CursorOf(list[end - 1], q)) else None);
    WalkUnfolds(visits, q, None, page);
    if end < |list| {
      assert list == [] + list;
      WalkGoesOn(visits, q, [], list, end);
      assert list[0..end] + list[end..] == list;
    } else {
      assert list[0..end] == list;
    }
  }

  lemma WalkUnfolds(visits: seq<Visit>, q: Query, cursor: Option<Cursor>, page: Page)
    requires |visits| > 0 && List(visits[0].items, q, cursor, visits[0].pageSize) == Some(page)
    ensures page.next.None? ==> Walk(visits, q, cursor) == Some((page.items, true))
    ensures page.next.Some? && Walk(visits[1..], q, page.next).Some? ==>
      var (more, ended) := Walk(visits[1..], q, page.next).value;
      Walk(visits, q, cursor) == Some((page.items + more, ended))
  {
    hide List;
  }

  /** A cursor is refused when the query changed or its entry is not listed. */
  lemma CursorRefusedIff(items: seq<Item>, q: Query, c: Cursor, pageSize: nat)
    ensures List(items, q, Some(c), pageSize).None? <==>
      c.query != q || forall x :: x in Listing(items, q) ==> !At(x, c)
  {
    StartZeroIff(Listing(items, q), c);
  }

  lemma {:induction false} StartZeroIff(list: seq<Item>, c: Cursor)
    ensures StartAfter(list, c) == 0 <==> forall x :: x in list ==> !At(x, c)
  {
    if |list| > 0 {
      StartZeroIff(list[1..], c);
      assert list[0] in list && forall x :: x in list <==> x == list[0] || x in list[1..];
    }
  }

  /** An entry is listed exactly when its posting has the direction and category asked for and took effect within the dates, both inclusive. */
  lemma ListedIff(rows: seq<PostingRow>, n: nat, display: string -> string, items: seq<Item>, q: Query)
    requires n < |rows| && ItemAt(rows, n, display) in items
    ensures ItemAt(rows, n, display) in Listing(items, q) <==>
      && (q.incoming == None || (q.incoming == Some(true) && rows[n].direction == Credit)
          || (q.incoming == Some(false) && rows[n].direction == Debit))
      && (q.category == None
          || (q.category == Some("FUNDING") && rows[n].entryType == "SETTLEMENT_FUNDING")
          || (q.category == Some("ADJUSTMENT") && rows[n].entryType == "ACCOUNT_ADJUSTMENT")
          || (q.category == Some("TRANSFER") && rows[n].entryType == "CUSTOMER_TRANSFER")
          || (q.category == Some("OTHER")
              && rows[n].entryType !in {"SETTLEMENT_FUNDING", "ACCOUNT_ADJUSTMENT", "CUSTOMER_TRANSFER"}))
      && (q.from.Some? ==> q.from.value <= rows[n].effectiveAt)
      && (q.until.Some? ==> rows[n].effectiveAt <= q.until.value)
  {
    var x := ItemAt(rows, n, display);
    FilteredMembers(items, q);
    SortedMembers(Filtered(items, q));
    assert x in Listing(items, q) <==> x in multiset(Sorted(Filtered(items, q)));
    assert x in Filtered(items, q) <==> x in multiset(Filtered(items, q));
    hide Listing, Sorted, Filtered, Running;
  }

  /** What an entry shows of its posting, and the balance as credits minus debits up to and with it. */
  lemma ShownAs(rows: seq<PostingRow>, n: nat, display: string -> string, account: string)
    requires n < |rows|
    ensures
      var x, until := ItemAt(rows, n, display), AsPostings(rows[..n + 1], account);
      && x.id == rows[n].id && x.amount == rows[n].amount && x.postedAt == rows[n].createdAt
      && x.effectiveAt == rows[n].effectiveAt && (x.incoming <==> rows[n].direction == Credit)
      && x.balanceAfter == Total(until, account, Credit) - Total(until, account, Debit)
  {
    RunningIsTotals(rows[..n + 1], account);
    hide Running, Total, AsPostings;
  }
}
