/**
 * Cursor paging of the transaction history (transaction.service.ts `list`) while postings arrive anywhere in the order,
 * before or behind what has been shown.
 */
module TransactionPaging {
  import opened Wrappers
  import opened Text
  import opened Transactions
  import P = Paging

  /** An entry but for its balance, which a posting that sorts before it changes. */
  function Bare(x: Item): Item { x.(balanceAfter := 0) }

  function Bares(s: seq<Item>): (b: seq<Item>)
    ensures |b| == |s| && forall i :: 0 <= i < |s| ==> b[i] == Bare(s[i])
  {
    seq(|s|, i requires 0 <= i < |s| => Bare(s[i]))
  }

  function Listed(visits: seq<Visit>, q: Query, i: nat): seq<Item>
    requires i < |visits|
  {
    Bares(Listing(visits[i].items, q))
  }

  /** Identifiers are unique, no two listed entries share reference and instant, and entries, once there, stay. */
  ghost predicate Inserting(visits: seq<Visit>, q: Query) {
    && (forall i :: 0 <= i < |visits| ==> visits[i].pageSize >= 1 && DistinctRefs(Listing(visits[i].items, q)))
    && (forall i :: 0 <= i < |visits| ==> DistinctIds(Listing(visits[i].items, q)))
    && (forall i, j, x :: 0 <= i <= j < |visits| && x in visits[i].items ==> Has(visits[j].items, Bare(x)))
  }

  ghost predicate DistinctIds(list: seq<Item>) {
    forall i, j :: 0 <= i < j < |list| ==> list[i].id != list[j].id
  }

  ghost predicate Has(items: seq<Item>, b: Item) {
    exists y :: y in items && Bare(y) == b
  }

  lemma BeforeIsStrict()
    ensures P.Strict(Before)
  {
    forall x ensures !Before(x, x) { LessIrreflexive(x.id); }
    forall x, y, z | Before(x, y) && Before(y, z) ensures Before(x, z) {
      if Less(y.id, x.id) && Less(z.id, y.id) { LessTransitive(z.id, y.id, x.id); }
    }
  }

  /** A listing of distinct entries strictly descends, with or without its balances. */
  lemma ListingDescends(items: seq<Item>, q: Query)
    requires DistinctIds(Listing(items, q))
    ensures P.Descending(Before, Bares(Listing(items, q)))
  {
    var list := Listing(items, q);
    SortedOrders(Filtered(items, q));
    assert Ordered(list);
    hide Listing;
    forall i, j | 0 <= i < j < |list| ensures Before(Bare(list[i]), Bare(list[j])) {
      assert !Before(list[j], list[i]);
      LessTotal(list[i].id, list[j].id);
    }
  }

  lemma ListingMembers(items: seq<Item>, q: Query)
    ensures forall x :: x in Listing(items, q) <==> x in items && Matches(q, x)
  {
    FilteredMembers(items, q);
    SortedMembers(Filtered(items, q));
    forall x ensures x in Listing(items, q) <==> x in Filtered(items, q) {
      assert x in Listing(items, q) <==> x in multiset(Sorted(Filtered(items, q)));
      assert x in Filtered(items, q) <==> x in multiset(Filtered(items, q));
    }
  }

  /** What one call lists, every later call lists. */
  lemma ListedStays(visits: seq<Visit>, q: Query, i: nat, j: nat, b: Item)
    requires Inserting(visits, q) && i <= j < |visits| && b in Listed(visits, q, i)
    ensures b in Listed(visits, q, j)
  {
    var here, there := Listing(visits[i].items, q), Listing(visits[j].items, q);
    ListingMembers(visits[i].items, q);
    ListingMembers(visits[j].items, q);
    var k :| 0 <= k < |here| && Bare(here[k]) == b;
    assert here[k] in here;
    assert Has(visits[j].items, Bare(here[k]));
    var y :| y in visits[j].items && Bare(y) == b;
    assert Matches(q, here[k]) ==> Matches(q, y) by {
      assert Bare(y).incoming == y.incoming && Bare(y).category == y.category && Bare(y).effectiveAt == y.effectiveAt;
    }
    var m :| 0 <= m < |there| && there[m] == y;
    assert Bares(there)[m] == b;
  }

  function CallsOf(visits: seq<Visit>, q: Query): (calls: seq<P.Call<Item>>)
    ensures |calls| == |visits|
    ensures forall i :: 0 <= i < |visits| ==> calls[i] == P.Call(Listed(visits, q, i), visits[i].pageSize)
  {
    seq(|visits|, i requires 0 <= i < |visits| => P.Call(Listed(visits, q, i), visits[i].pageSize))
  }

  lemma CallsAreProper(visits: seq<Visit>, q: Query)
    requires Inserting(visits, q)
    ensures P.Proper(Before, CallsOf(visits, q))
  {
    BeforeIsStrict();
    forall i | 0 <= i < |visits| ensures P.Descending(Before, CallsOf(visits, q)[i].list) {
      ListingDescends(visits[i].items, q);
    }
  }

  // ---------- finding the cursor's entry is comparing with it ----------

  function CursorAt(c: Option<Item>, q: Query): Option<Cursor> {
    match c
    case None => None
    case Some(x) => Some(CursorOf(x, q))
  }

  /** With the cursor's entry in the list, the page that `findIndex` leads to is the page past the cursor. */
  lemma PageIsPast(items: seq<Item>, q: Query, c: Option<Item>, size: nat)
    requires size >= 1 && DistinctIds(Listing(items, q)) && DistinctRefs(Listing(items, q))
    requires c.Some? ==> c.value in Bares(Listing(items, q))
    ensures List(items, q, CursorAt(c, q), size).Some?
    ensures
      var page := P.PageOf(Before, Bares(Listing(items, q)), c, size);
      var answer := List(items, q, CursorAt(c, q), size).value;
      Bares(answer.items) == page.entries && answer.next == CursorAt(page.next, q)
  {
    if c.None? {
      FirstIsPast(items, q, size);
    } else {
      var k :| 0 <= k < |Listing(items, q)| && Bare(Listing(items, q)[k]) == c.value;
      LaterIsPast(items, q, k, size);
      assert CursorOf(Listing(items, q)[k], q) == CursorOf(c.value, q);
    }
  }

  lemma BareSlice(s: seq<Item>, i: nat, j: nat)
    requires i <= j <= |s|
    ensures Bares(s[i..j]) == Bares(s)[i..j]
  {
  }

  lemma FirstIsPast(items: seq<Item>, q: Query, size: nat)
    requires size >= 1
    ensures List(items, q, None, size).Some?
    ensures
      var page := P.PageOf(Before, Bares(Listing(items, q)), None, size);
      var answer := List(items, q, None, size).value;
      Bares(answer.items) == page.entries && answer.next == CursorAt(page.next, q)
  {
    var all := Listing(items, q);
    FirstPage(items, q, size);
    P.PageInFront(Before, Bares(all), size);
    BareSlice(all, 0, Smaller(size, |all|));
    hide Listing, List, P.PageOf, Bares;
  }

  lemma LaterIsPast(items: seq<Item>, q: Query, k: nat, size: nat)
    requires size >= 1 && DistinctIds(Listing(items, q)) && DistinctRefs(Listing(items, q)) && k < |Listing(items, q)|
    ensures List(items, q, Some(CursorOf(Listing(items, q)[k], q)), size).Some?
    ensures
      var page := P.PageOf(Before, Bares(Listing(items, q)), Some(Bare(Listing(items, q)[k])), size);
      var answer := List(items, q, Some(CursorOf(Listing(items, q)[k], q)), size).value;
      Bares(answer.items) == page.entries && answer.next == CursorAt(page.next, q)
  {
    hide Listing, List, P.PageOf, P.Descending, DistinctRefs, DistinctIds, Bares, Bare;
    var all := Listing(items, q);
    ListingDescends(items, q);
    FoundPage(items, q, k, size);
    BeforeIsStrict();
    P.PageBehind(Before, Bares(all), k, size);
    SamePage(all, k, size, q);
  }

  lemma SamePage(all: seq<Item>, k: nat, size: nat, q: Query)
    requires k < |all| && size >= 1
    ensures
      var end := Smaller(k + 1 + size, |all|);
      && Bares(all[k + 1..end]) == P.PageAt(Bares(all), k + 1, size).entries
      && (if end < |all| then Some(CursorOf(all[end - 1], q)) else None) == CursorAt(P.PageAt(Bares(all), k + 1, size).next, q)
  {
    BareSlice(all, k + 1, Smaller(k + 1 + size, |all|));
  }

  lemma FoundPage(items: seq<Item>, q: Query, k: nat, size: nat)
    requires size >= 1 && DistinctRefs(Listing(items, q)) && k < |Listing(items, q)|
    ensures
      var all := Listing(items, q);
      var end := Smaller(k + 1 + size, |all|);
      List(items, q, Some(CursorOf(all[k], q)), size) ==
        Some(Page(all[k + 1..end], if end < |all| then Some(CursorOf(all[end - 1], q)) else None))
  {
    StartIsAfter(Listing(items, q), k, q);
    hide Listing, StartAfter, DistinctRefs;
  }

  lemma InsertingTail(visits: seq<Visit>, q: Query)
    requires Inserting(visits, q) && |visits| > 0
    ensures Inserting(visits[1..], q) && CallsOf(visits, q)[1..] == CallsOf(visits[1..], q)
  {
    var rest := visits[1..];
    forall i, j, x | 0 <= i <= j < |rest| && x in rest[i].items ensures Has(rest[j].items, Bare(x)) {
      assert x in visits[i + 1].items && rest[j] == visits[j + 1];
    }
  }

  /** No cursor is ever refused, and the walk is the walk past cursors. */
  lemma {:induction false} WalkIsPast(visits: seq<Visit>, q: Query, c: Option<Item>)
    requires Inserting(visits, q) && (c.Some? && |visits| > 0 ==> c.value in Listed(visits, q, 0))
    ensures Walk(visits, q, CursorAt(c, q)).Some?
    ensures
      var (shown, ended) := Walk(visits, q, CursorAt(c, q)).value;
      (Bares(shown), ended) == P.Walk(Before, CallsOf(visits, q), c)
    decreases |visits|
  {
    if |visits| > 0 {
      var size := visits[0].pageSize;
      PageIsPast(visits[0].items, q, c, size);
      ListingDescends(visits[0].items, q);
      BeforeIsStrict();
      P.PageShows(Before, Listed(visits, q, 0), c, size);
      InsertingTail(visits, q);
      var page := P.PageOf(Before, Listed(visits, q, 0), c, size);
      var answer := List(visits[0].items, q, CursorAt(c, q), size).value;
      WalkUnfolds(visits, q, CursorAt(c, q), answer);
      if page.next.Some? {
        if |visits| > 1 { ListedStays(visits, q, 0, 1, page.next.value); }
        hide List, Listing, P.PageOf, Walk, Inserting, P.Descending, DistinctIds, DistinctRefs;
        WalkIsPast(visits[1..], q, page.next);
        BareConcat(answer.items, Walk(visits[1..], q, answer.next).value.0);
      }
    }
  }

  lemma BareConcat(a: seq<Item>, b: seq<Item>)
    ensures Bares(a + b) == Bares(a) + Bares(b)
  {
  }

  /**
   * Following `nextCursor` to null, whatever postings arrive between the calls and wherever they sort, shows every entry
   * of the list as it was at the first call exactly once and in order (its balance apart), refuses no cursor, and ends
   * within as many calls as the last of them lists entries.
   */
  lemma PagingSurvivesInserts(visits: seq<Visit>, q: Query)
    requires Inserting(visits, q) && |visits| > 0 && |visits| >= |Listed(visits, q, |visits| - 1)|
    ensures Walk(visits, q, None).Some?
    ensures
      var (shown, ended) := Walk(visits, q, None).value;
      && ended && P.Descending(Before, Bares(shown))
      && P.Only(Bares(shown), Listed(visits, q, 0)) == Listed(visits, q, 0)
  {
    var calls, first, all := CallsOf(visits, q), Listed(visits, q, 0), Listed(visits, q, |visits| - 1);
    WalkIsPast(visits, q, None);
    CallsAreProper(visits, q);
    ListingDescends(visits[0].items, q);
    forall i, x | 0 <= i < |calls| && x in calls[i].list ensures x in all { ListedStays(visits, q, i, |visits| - 1, x); }
    P.AfterNothing(Before, all);
    forall x | x in first ensures P.Covered(Before, calls, None, x) && P.Fades(calls, x) {
      forall i | 0 <= i < |calls| ensures x in calls[i].list { ListedStays(visits, q, 0, i, x); }
      AlwaysListedIsCovered(calls, None, x);
    }
    hide CallsOf, Listed, Inserting;
    P.WalkEnds(Before, calls, None, all);
    P.WalkDescends(Before, calls, None);
    P.AllShownIff(Before, calls, first);
  }

  lemma {:induction false} AlwaysListedIsCovered(calls: seq<P.Call<Item>>, c: Option<Item>, x: Item)
    requires forall i :: 0 <= i < |calls| ==> x in calls[i].list
    ensures P.Covered(Before, calls, c, x)
    decreases |calls|
  {
    if |calls| > 0 {
      AlwaysListedIsCovered(calls[1..], P.PageOf(Before, calls[0].list, c, calls[0].size).next, x);
    }
  }
}
