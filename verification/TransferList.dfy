/** Paging through a customer's transfers (transfers.service.ts `list`), each page a new query of at most 500 rows. */
module TransferList {
  import opened Wrappers
  import opened Text
  import opened Paging

  datatype Row = Row(id: string, createdAt: int, sender: string, recipient: string)

  datatype Direction = Sent | Received

  const TAKE := 500

  /** The query's order, newest first; identifiers are unique, so it is strict. */
  predicate Before(a: Row, b: Row) {
    a.createdAt > b.createdAt || (a.createdAt == b.createdAt && Less(b.id, a.id))
  }

  lemma BeforeIsStrict()
    ensures Strict(Before)
  {
    forall x ensures !Before(x, x) { LessIrreflexive(x.id); }
    forall x, y, z | Before(x, y) && Before(y, z) ensures Before(x, z) {
      if Less(y.id, x.id) && Less(z.id, y.id) { LessTransitive(z.id, y.id, x.id); }
    }
  }

  predicate Facing(r: Row, customer: string, d: Option<Direction>) {
    match d
    case None => true
    case Some(Sent) => r.sender == customer
    case Some(Received) => r.recipient == customer
  }

  function Facings(rows: seq<Row>, customer: string, d: Option<Direction>): seq<Row> {
    if |rows| == 0 then []
    else (if Facing(rows[0], customer, d) then [rows[0]] else []) + Facings(rows[1..], customer, d)
  }

  function Taken(rows: seq<Row>): seq<Row> { if |rows| <= TAKE then rows else rows[..TAKE] }

  /**
   * `list`, on the rows the database then holds for the customer, the status and the dates. The direction is filtered
   * after the 500 rows are read; the cursor is the last row shown, and rows are compared with it.
   */
  function List(rows: seq<Row>, customer: string, d: Option<Direction>, cursor: Option<Row>, size: nat): Page<Row> {
    PageOf(Before, Facings(Taken(rows), customer, d), cursor, size)
  }

  /** One call of the client: what the database holds at that moment, newest first, and the page size asked for. */
  datatype Visit = Visit(rows: seq<Row>, size: nat)

  function CallsOf(visits: seq<Visit>, customer: string, d: Option<Direction>): (calls: seq<Call<Row>>)
    ensures |calls| == |visits|
    ensures forall i :: 0 <= i < |visits| ==> calls[i] == Call(Facings(Taken(visits[i].rows), customer, d), visits[i].size)
  {
    seq(|visits|, i requires 0 <= i < |visits| => Call(Facings(Taken(visits[i].rows), customer, d), visits[i].size))
  }

  /** Following the cursor from the first page: the rows shown, and whether the last page was reached. */
  function Shown(visits: seq<Visit>, customer: string, d: Option<Direction>): (seq<Row>, bool) {
    Walk(Before, CallsOf(visits, customer, d), None)
  }

  /** Between the calls rows arrive, anywhere in the order; none goes. */
  ghost predicate Growing(visits: seq<Visit>) {
    && (forall i :: 0 <= i < |visits| ==> Descending(Before, visits[i].rows) && visits[i].size >= 1)
    && (forall i, j, r :: 0 <= i <= j < |visits| && r in visits[i].rows ==> r in visits[j].rows)
  }

  /**
   * At every call that is made, each of these rows that sorts after the call's cursor is among the newest 500 that the
   * call reads.
   */
  ghost predicate InReach(visits: seq<Visit>, customer: string, d: Option<Direction>, cursor: Option<Row>, these: seq<Row>)
    decreases |visits|
  {
    |visits| > 0 ==>
      && (forall r :: r in these && Past(Before, cursor, r) ==> r in Taken(visits[0].rows))
      && var next := List(visits[0].rows, customer, d, cursor, visits[0].size).next;
         (next.Some? ==> InReach(visits[1..], customer, d, next, these))
  }

  // ---------- the 500 rows ----------

  lemma {:induction false} FacingsAre(rows: seq<Row>, customer: string, d: Option<Direction>)
    requires Descending(Before, rows)
    ensures Descending(Before, Facings(rows, customer, d))
    ensures forall r :: r in Facings(rows, customer, d) <==> r in rows && Facing(r, customer, d)
  {
    if |rows| > 0 {
      FacingsAre(rows[1..], customer, d);
      assert forall r :: r in rows <==> r == rows[0] || r in rows[1..];
      PrependDescends(Before, rows, Facings(rows[1..], customer, d));
    }
  }

  lemma {:induction false} DistinctRows(rows: seq<Row>)
    requires Descending(Before, rows)
    ensures |set r | r in rows| == |rows|
  {
    if |rows| > 0 {
      BeforeIsStrict();
      DistinctRows(rows[1..]);
      forall r ensures r in rows[1..] <==> r in rows && r != rows[0] { TailOf(Before, rows, r); }
      assert (set r | r in rows) == {rows[0]} + (set r | r in rows[1..]);
    }
  }

  /** A row stands no higher in a list that holds more. */
  lemma PositionGrows(few: seq<Row>, many: seq<Row>, i: nat, j: nat)
    requires Descending(Before, few) && Descending(Before, many) && forall r :: r in few ==> r in many
    requires i < |few| && j < |many| && few[i] == many[j]
    ensures i <= j
  {
    BeforeIsStrict();
    var a, b := few[..i], many[..j];
    forall r | r in a ensures r in b {
      var m :| 0 <= m < |a| && a[m] == r;
      assert few[m] == r && few[m] in few && Before(r, few[i]);
      assert r in many;
      var k :| 0 <= k < |many| && many[k] == r;
      StandsBehind(Before, many, k, j);
      assert b[k] == r;
    }
    DistinctRows(a);
    DistinctRows(b);
    var A, B := set r | r in a, set r | r in b;
    assert A <= B && |B| == |A| + |B - A| by { assert B == A + (B - A); }
  }

  /** A row pushed out of the newest 500 does not come back. */
  lemma TakenFades(few: seq<Row>, many: seq<Row>, r: Row)
    requires Descending(Before, few) && Descending(Before, many) && forall x :: x in few ==> x in many
    requires r in few && r in Taken(many)
    ensures r in Taken(few)
  {
    var i :| 0 <= i < |few| && few[i] == r;
    var j :| 0 <= j < |Taken(many)| && Taken(many)[j] == r;
    PositionGrows(few, many, i, j);
    assert Taken(few)[i] == r;
  }

  lemma CallsAreProper(visits: seq<Visit>, customer: string, d: Option<Direction>)
    requires Growing(visits)
    ensures Proper(Before, CallsOf(visits, customer, d))
    ensures forall i, r :: 0 <= i < |visits| ==>
      (r in CallsOf(visits, customer, d)[i].list <==> r in Taken(visits[i].rows) && Facing(r, customer, d))
  {
    BeforeIsStrict();
    forall i | 0 <= i < |visits|
      ensures Descending(Before, CallsOf(visits, customer, d)[i].list)
      ensures forall r :: r in CallsOf(visits, customer, d)[i].list <==> r in Taken(visits[i].rows) && Facing(r, customer, d)
    {
      FacingsAre(Taken(visits[i].rows), customer, d);
    }
  }

  lemma FirstRowsFade(visits: seq<Visit>, customer: string, d: Option<Direction>, r: Row)
    requires Growing(visits) && |visits| > 0 && r in visits[0].rows
    ensures Fades(CallsOf(visits, customer, d), r)
  {
    var calls := CallsOf(visits, customer, d);
    CallsAreProper(visits, customer, d);
    hide CallsOf, Taken, Proper;
    forall i, j | 0 <= i <= j < |calls| && r in calls[j].list ensures r in calls[i].list {
      assert r in visits[i].rows && Facing(r, customer, d) && r in Taken(visits[j].rows);
      TakenFades(visits[i].rows, visits[j].rows, r);
    }
  }

  lemma TakenAre(rows: seq<Row>)
    ensures forall r :: r in Taken(rows) ==> r in rows
  {
  }

  // ---------- when every row of the first list is shown ----------

  lemma {:induction false} ReachIsCover(visits: seq<Visit>, customer: string, d: Option<Direction>, cursor: Option<Row>, these: seq<Row>)
    requires Growing(visits) && forall r :: r in these ==> Facing(r, customer, d)
    ensures InReach(visits, customer, d, cursor, these)
      <==> forall r :: r in these ==> Covered(Before, CallsOf(visits, customer, d), cursor, r)
    decreases |visits|
  {
    if |visits| > 0 {
      CallsAreProper(visits, customer, d);
      var calls, next := CallsOf(visits, customer, d), List(visits[0].rows, customer, d, cursor, visits[0].size).next;
      assert calls[1..] == CallsOf(visits[1..], customer, d);
      if next.Some? { ReachIsCover(visits[1..], customer, d, next, these); }
    }
  }

  /**
   * A walk that reaches its end shows every row facing the query that there was at the first call, once and in order,
   * whatever arrives between the calls, exactly when at each call those that sort after the cursor are among the newest
   * 500 rows. Nothing else is shown twice or out of order either.
   */
  lemma ShowsAllIff(visits: seq<Visit>, customer: string, d: Option<Direction>)
    requires Growing(visits) && |visits| > 0 && Shown(visits, customer, d).1
    ensures
      var first := Facings(visits[0].rows, customer, d);
      && Descending(Before, Shown(visits, customer, d).0)
      && (Only(Shown(visits, customer, d).0, first) == first <==> InReach(visits, customer, d, None, first))
  {
    var first, calls := Facings(visits[0].rows, customer, d), CallsOf(visits, customer, d);
    FacingsAre(visits[0].rows, customer, d);
    CallsAreProper(visits, customer, d);
    forall r | r in first ensures Fades(calls, r) { FirstRowsFade(visits, customer, d, r); }
    ReachIsCover(visits, customer, d, None, first);
    hide CallsOf, Facings, InReach, Growing;
    WalkDescends(Before, calls, None);
    AllShownIff(Before, calls, first);
  }

  /** The walk reaches its end in at most as many calls as the last of them finds rows. */
  lemma ShownEnds(visits: seq<Visit>, customer: string, d: Option<Direction>)
    requires Growing(visits) && |visits| > 0 && |visits| >= |visits[|visits| - 1].rows|
    ensures Shown(visits, customer, d).1
  {
    var all, calls := visits[|visits| - 1].rows, CallsOf(visits, customer, d);
    CallsAreProper(visits, customer, d);
    AfterNothing(Before, all);
    hide CallsOf, Facings, Taken;
    forall i, x | 0 <= i < |calls| && x in calls[i].list ensures x in all {
      ListedIsKept(visits, customer, d, i, x);
    }
    WalkEnds(Before, calls, None, all);
  }

  lemma ListedIsKept(visits: seq<Visit>, customer: string, d: Option<Direction>, i: nat, x: Row)
    requires Growing(visits) && i < |visits| && x in CallsOf(visits, customer, d)[i].list
    ensures x in visits[|visits| - 1].rows
  {
    FacingsAre(Taken(visits[i].rows), customer, d);
    TakenAre(visits[i].rows);
    assert x in visits[i].rows;
  }

  // ---------- an unchanging list ----------

  ghost predicate Unchanging(visits: seq<Visit>, rows: seq<Row>) {
    && Descending(Before, rows) && |visits| > 0
    && forall i :: 0 <= i < |visits| ==> visits[i].rows == rows && visits[i].size >= 1
  }

  /** When nothing arrives, the walk shows the facing rows among the newest 500, in order and once each. */
  lemma WalkShowsTaken(visits: seq<Visit>, rows: seq<Row>, customer: string, d: Option<Direction>)
    requires Unchanging(visits, rows) && Shown(visits, customer, d).1
    ensures Shown(visits, customer, d).0 == Facings(Taken(rows), customer, d)
  {
    var taken, calls, shown := Facings(Taken(rows), customer, d), CallsOf(visits, customer, d), Shown(visits, customer, d).0;
    FacingsAre(Taken(rows), customer, d);
    CallsAreProper(visits, customer, d);
    WalkDescends(Before, calls, None);
    forall r | r in taken ensures r in shown {
      ConstantIsCovered(calls, None, taken, r);
      CoveredIsShown(Before, calls, None, r);
    }
    BeforeIsStrict();
    DescendingUnique(Before, shown, taken);
  }

  lemma {:induction false} ConstantIsCovered(calls: seq<Call<Row>>, cursor: Option<Row>, list: seq<Row>, r: Row)
    requires r in list && forall i :: 0 <= i < |calls| ==> calls[i].list == list
    ensures Covered(Before, calls, cursor, r)
    decreases |calls|
  {
    if |calls| > 0 {
      var next := PageOf(Before, calls[0].list, cursor, calls[0].size).next;
      ConstantIsCovered(calls[1..], next, list, r);
    }
  }

  /** So then the walk shows everything asked for exactly when no row past the newest 500 is asked for. */
  lemma CompleteIff(visits: seq<Visit>, rows: seq<Row>, customer: string, d: Option<Direction>)
    requires Unchanging(visits, rows) && Shown(visits, customer, d).1
    ensures Shown(visits, customer, d).0 == Facings(rows, customer, d)
      <==> forall i :: TAKE <= i < |rows| ==> !Facing(rows[i], customer, d)
  {
    WalkShowsTaken(visits, rows, customer, d);
    hide Shown, Facings, Taken, Unchanging;
    if forall i :: TAKE <= i < |rows| ==> !Facing(rows[i], customer, d) { NonePastTake(rows, customer, d); }
    if Facings(Taken(rows), customer, d) == Facings(rows, customer, d) { AllWithinTake(rows, customer, d); }
  }

  lemma NonePastTake(rows: seq<Row>, customer: string, d: Option<Direction>)
    requires Descending(Before, rows) && forall i :: TAKE <= i < |rows| ==> !Facing(rows[i], customer, d)
    ensures Facings(Taken(rows), customer, d) == Facings(rows, customer, d)
  {
    FacingsAre(rows, customer, d);
    FacingsAre(Taken(rows), customer, d);
    BeforeIsStrict();
    hide Facings, Before;
    forall r | r in rows && Facing(r, customer, d) ensures r in Taken(rows) {
      var i :| 0 <= i < |rows| && rows[i] == r;
      assert Taken(rows)[i] == r;
    }
    TakenAre(rows);
    DescendingUnique(Before, Facings(Taken(rows), customer, d), Facings(rows, customer, d));
  }

  lemma AllWithinTake(rows: seq<Row>, customer: string, d: Option<Direction>)
    requires Descending(Before, rows) && Facings(Taken(rows), customer, d) == Facings(rows, customer, d)
    ensures forall i :: TAKE <= i < |rows| ==> !Facing(rows[i], customer, d)
  {
    FacingsAre(rows, customer, d);
    FacingsAre(Taken(rows), customer, d);
    hide Facings, Before;
    forall i | TAKE <= i < |rows| ensures !Facing(rows[i], customer, d) {
      NotTaken(rows, i);
      assert rows[i] in rows;
    }
  }

  lemma NotTaken(rows: seq<Row>, i: nat)
    requires Descending(Before, rows) && TAKE <= i < |rows|
    ensures rows[i] !in Taken(rows)
  {
    BeforeIsStrict();
    forall j | 0 <= j < TAKE ensures rows[j] != rows[i] { assert Before(rows[j], rows[i]); }
  }

  // ---------- walks that miss a row ----------

  lemma {:induction false} AllFacing(rows: seq<Row>, customer: string, d: Option<Direction>)
    requires forall r :: r in rows ==> Facing(r, customer, d)
    ensures Facings(rows, customer, d) == rows
  {
    if |rows| > 0 {
      assert rows[0] in rows;
      AllFacing(rows[1..], customer, d);
    }
  }

  /** 501 transfers that face the query, nothing arriving: the oldest is never shown, however the pages are sized. */
  lemma OldestOf501Missed(visits: seq<Visit>, rows: seq<Row>, customer: string, d: Option<Direction>)
    requires Unchanging(visits, rows) && Shown(visits, customer, d).1
    requires |rows| == TAKE + 1 && forall r :: r in rows ==> Facing(r, customer, d)
    ensures rows[TAKE] in Facings(rows, customer, d) && rows[TAKE] !in Shown(visits, customer, d).0
  {
    WalkShowsTaken(visits, rows, customer, d);
    FacingsAre(Taken(rows), customer, d);
    AllFacing(rows, customer, d);
    NotTaken(rows, TAKE);
  }

  lemma OneArrivesGrows(first: seq<Row>, newer: Row)
    requires Descending(Before, [newer] + first)
    ensures Descending(Before, first) && Growing([Visit(first, 100), Visit([newer] + first, TAKE)])
  {
    var second := [newer] + first;
    assert forall i :: 0 <= i < |first| ==> first[i] == second[i + 1];
  }

  lemma FirstPageOf(list: seq<Row>)
    requires |list| == TAKE
    ensures PageOf(Before, list, None, 100) == Page(list[..100], Some(list[99]))
  {
    PageInFront(Before, list, 100);
  }

  lemma LastPageOf(list: seq<Row>)
    requires Descending(Before, list) && |list| == TAKE
    ensures PageOf(Before, list, Some(list[100]), TAKE) == Page(list[101..], None)
  {
    BeforeIsStrict();
    PageBehind(Before, list, 100, TAKE);
  }

  /** Two calls, the second of which no longer lists r, although r is still to come. */
  lemma TwoCalls(a: seq<Row>, b: seq<Row>, r: Row)
    requires |a| == TAKE && |b| == TAKE && Descending(Before, b) && b[100] == a[99] && Before(a[99], r) && r !in b
    ensures
      var calls := [Call(a, 100), Call(b, TAKE)];
      Walk(Before, calls, None).1 && !Covered(Before, calls, None, r)
  {
    var calls := [Call(a, 100), Call(b, TAKE)];
    FirstPageOf(a);
    LastPageOf(b);
    assert calls[1..] == [Call(b, TAKE)];
    hide PageOf;
    assert !Covered(Before, calls[1..], Some(a[99]), r);
    assert Walk(Before, calls[1..], Some(a[99])).1;
  }

  /**
   * 500 transfers that face the query, so that none lies past the newest 500; a first page of 100; one newer transfer;
   * and the rest in one page, whose cursor is null: the oldest of the 500 is never shown.
   */
  lemma ArrivalHidesOldest(first: seq<Row>, newer: Row, customer: string, d: Option<Direction>)
    requires |first| == TAKE && Descending(Before, [newer] + first)
    requires forall r :: r in [newer] + first ==> Facing(r, customer, d)
    ensures
      var visits := [Visit(first, 100), Visit([newer] + first, TAKE)];
      && Growing(visits) && Taken(first) == Facings(first, customer, d) == first
      && Shown(visits, customer, d).1 && first[TAKE - 1] !in Shown(visits, customer, d).0
      && !InReach(visits, customer, d, None, first)
  {
    var second, r := [newer] + first, first[TAKE - 1];
    var visits := [Visit(first, 100), Visit(second, TAKE)];
    OneArrivesGrows(first, newer);
    ArrivalCalls(first, newer, customer, d);
    assert second[TAKE] == r;
    NotTaken(second, TAKE);
    assert Taken(second)[100] == first[99];
    assert Before(first[99], r);
    hide Facings, Growing, Facing, CallsOf;
    TwoCalls(first, Taken(second), r);
    MissedByWalk(visits, customer, d, r);
  }

  lemma ArrivalCalls(first: seq<Row>, newer: Row, customer: string, d: Option<Direction>)
    requires |first| == TAKE && forall r :: r in [newer] + first ==> Facing(r, customer, d)
    ensures Taken(first) == Facings(first, customer, d) == first && |Taken([newer] + first)| == TAKE
    ensures CallsOf([Visit(first, 100), Visit([newer] + first, TAKE)], customer, d) ==
      [Call(first, 100), Call(Taken([newer] + first), TAKE)]
  {
    var second := [newer] + first;
    TakenAre(second);
    forall x | x in first ensures x in second { InSecond(first, newer, x); }
    AllFacing(first, customer, d);
    AllFacing(Taken(second), customer, d);
    hide Facings, Facing;
  }

  lemma InSecond(first: seq<Row>, newer: Row, x: Row)
    requires x in first
    ensures x in [newer] + first
  {
  }

  lemma MissedByWalk(visits: seq<Visit>, customer: string, d: Option<Direction>, r: Row)
    requires Growing(visits) && |visits| > 0 && r in Facings(visits[0].rows, customer, d)
    requires !Covered(Before, CallsOf(visits, customer, d), None, r)
    ensures r !in Shown(visits, customer, d).0 && !InReach(visits, customer, d, None, Facings(visits[0].rows, customer, d))
  {
    var first := Facings(visits[0].rows, customer, d);
    CallsAreProper(visits, customer, d);
    FacingsAre(visits[0].rows, customer, d);
    FirstRowsFade(visits, customer, d, r);
    ReachIsCover(visits, customer, d, None, first);
    hide CallsOf, Covered, Proper, Fades, InReach;
    if r in Shown(visits, customer, d).0 { ShownIsCovered(Before, CallsOf(visits, customer, d), None, r); }
  }

  /** n transfers that ann sent bob, one an instant: lists of every length exist. */
  function FromAnn(n: nat): (rows: seq<Row>)
    ensures |rows| == n && forall i :: 0 <= i < n ==> rows[i] == Row(seq(n - i, _ => 'x'), n - i, "ann", "bob")
  {
    seq(n, i requires 0 <= i < n => Row(seq(n - i, _ => 'x'), n - i, "ann", "bob"))
  }

  /** The two failing walks have inputs. */
  lemma SuchListsExist()
    ensures Descending(Before, FromAnn(TAKE + 1)) && forall r :: r in FromAnn(TAKE + 1) ==> Facing(r, "ann", Some(Sent))
    ensures [FromAnn(TAKE + 1)[0]] + FromAnn(TAKE + 1)[1..] == FromAnn(TAKE + 1)
  {
    var rows := FromAnn(TAKE + 1);
    forall r | r in rows ensures Facing(r, "ann", Some(Sent)) {
      var i :| 0 <= i < |rows| && rows[i] == r;
    }
  }

  /** A page holds rows that its query read, of the direction asked for: sent by the customer, or received, or either. */
  lemma PageFaces(rows: seq<Row>, customer: string, d: Option<Direction>, cursor: Option<Row>, size: nat)
    requires Descending(Before, rows) && size >= 1
    ensures forall r :: r in List(rows, customer, d, cursor, size).entries ==>
      r in Taken(rows) && (d == Some(Sent) ==> r.sender == customer) && (d == Some(Received) ==> r.recipient == customer)
    ensures forall r :: r in Facings(rows, customer, d) <==>
      r in rows && (d == None || (d == Some(Sent) && r.sender == customer) || (d == Some(Received) && r.recipient == customer))
  {
    hide Facings, Taken, PageOf, Before, Descending;
    FacingsAre(rows, customer, d);
    TakenDescends(rows);
    FacingsAre(Taken(rows), customer, d);
    BeforeIsStrict();
    PageShows(Before, Facings(Taken(rows), customer, d), cursor, size);
    var entries := List(rows, customer, d, cursor, size).entries;
    assert forall r :: r in entries ==> r in Facings(Taken(rows), customer, d);
  }

  lemma TakenDescends(rows: seq<Row>)
    requires Descending(Before, rows)
    ensures Descending(Before, Taken(rows))
  {
    hide Before;
  }
}
