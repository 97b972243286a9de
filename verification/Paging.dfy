/** Walking a descending list page by page, when the list is read anew for every page. */
module Paging {
  import opened Wrappers

  /** An order in which nothing comes before itself. */
  ghost predicate Strict<T(!new)>(before: (T, T) -> bool) {
    && (forall x :: !before(x, x))
    && (forall x, y, z :: before(x, y) && before(y, z) ==> before(x, z))
  }

  ghost predicate Descending<T(!new)>(before: (T, T) -> bool, s: seq<T>) {
    forall i, j :: 0 <= i < j < |s| ==> before(s[i], s[j])
  }

  /** The entry is still to come for a client that has been shown everything down to the cursor. */
  predicate Past<T>(before: (T, T) -> bool, cursor: Option<T>, x: T) {
    cursor.None? || before(cursor.value, x)
  }

  function After<T>(before: (T, T) -> bool, list: seq<T>, cursor: Option<T>): seq<T> {
    if |list| == 0 then []
    else (if Past(before, cursor, list[0]) then [list[0]] else []) + After(before, list[1..], cursor)
  }

  datatype Page<T> = Page(entries: seq<T>, next: Option<T>)

  /** One call: the entries past the cursor, cut to the page size; the last one shown is the next cursor if more remain. */
  function PageOf<T>(before: (T, T) -> bool, list: seq<T>, cursor: Option<T>, size: nat): Page<T> {
    var after := After(before, list, cursor);
    var page := if size < |after| then after[..size] else after;
    Page(page, if |page| > 0 && |after| > |page| then Some(page[|page| - 1]) else None)
  }

  /** The list as a call finds it, and the page size asked for. */
  datatype Call<T> = Call(list: seq<T>, size: nat)

  /** Following the cursor through the calls: everything shown, and whether the end was reached. */
  function Walk<T>(before: (T, T) -> bool, calls: seq<Call<T>>, cursor: Option<T>): (seq<T>, bool)
    decreases |calls|
  {
    if |calls| == 0 then ([], false)
    else
      var page := PageOf(before, calls[0].list, cursor, calls[0].size);
      if page.next.None? then (page.entries, true)
      else
        var (more, ended) := Walk(before, calls[1..], page.next);
        (page.entries + more, ended)
  }

  ghost predicate Proper<T(!new)>(before: (T, T) -> bool, calls: seq<Call<T>>) {
    Strict(before) && forall i :: 0 <= i < |calls| ==> Descending(before, calls[i].list) && calls[i].size >= 1
  }

  // ---------- one page ----------

  lemma {:induction false} AfterMembers<T(!new)>(before: (T, T) -> bool, list: seq<T>, cursor: Option<T>)
    ensures forall x :: x in After(before, list, cursor) <==> x in list && Past(before, cursor, x)
  {
    if |list| > 0 {
      AfterMembers(before, list[1..], cursor);
      assert forall x :: x in list <==> x == list[0] || x in list[1..];
    }
  }

  lemma {:induction false} AfterDescends<T(!new)>(before: (T, T) -> bool, list: seq<T>, cursor: Option<T>)
    requires Descending(before, list)
    ensures Descending(before, After(before, list, cursor))
  {
    if |list| > 0 {
      var rest := After(before, list[1..], cursor);
      AfterDescends(before, list[1..], cursor);
      AfterMembers(before, list[1..], cursor);
      PrependDescends(before, list, rest);
    }
  }

  lemma PrependDescends<T(!new)>(before: (T, T) -> bool, list: seq<T>, rest: seq<T>)
    requires Descending(before, list) && |list| > 0 && Descending(before, rest)
    requires forall x :: x in rest ==> x in list[1..]
    ensures Descending(before, [list[0]] + rest)
  {
    var tail := list[1..];
    forall j | 0 <= j < |rest| ensures before(list[0], rest[j]) {
      assert rest[j] in tail;
      var i :| 0 <= i < |tail| && tail[i] == rest[j];
      assert list[i + 1] == rest[j];
    }
  }

  /** The page is in order and past the cursor; what is past the cursor is on it or past the next cursor. */
  lemma PageShows<T(!new)>(before: (T, T) -> bool, list: seq<T>, cursor: Option<T>, size: nat)
    requires Strict(before) && Descending(before, list) && size >= 1
    ensures
      var page := PageOf(before, list, cursor, size);
      && Descending(before, page.entries)
      && (forall x :: x in page.entries ==> x in list && Past(before, cursor, x))
      && (forall x :: x in list && Past(before, cursor, x) ==>
          x in page.entries || (page.next.Some? && before(page.next.value, x)))
      && (page.next.Some? ==> page.next.value in page.entries && exists x :: x in list && before(page.next.value, x))
      && (page.next.Some? ==> forall x :: x in page.entries ==> x == page.next.value || before(x, page.next.value))
  {
    var after := After(before, list, cursor);
    AfterMembers(before, list, cursor);
    AfterDescends(before, list, cursor);
    hide After;
    var page := PageOf(before, list, cursor, size);
    forall x | x in page.entries ensures x in after {}
    forall x | x in list && Past(before, cursor, x)
      ensures x in page.entries || (page.next.Some? && before(page.next.value, x))
    {
      var i :| 0 <= i < |after| && after[i] == x;
      if i < |page.entries| { assert page.entries[i] == x; }
    }
    if page.next.Some? {
      assert after[|page.entries|] in after && before(page.next.value, after[|page.entries|]);
    }
  }

  // ---------- the walk ----------

  /** Nothing is shown twice or out of order, and only what some call listed. */
  lemma {:induction false} WalkDescends<T(!new)>(before: (T, T) -> bool, calls: seq<Call<T>>, cursor: Option<T>)
    requires Proper(before, calls)
    ensures Descending(before, Walk(before, calls, cursor).0)
    ensures forall x :: x in Walk(before, calls, cursor).0 ==>
      Past(before, cursor, x) && exists i :: 0 <= i < |calls| && x in calls[i].list
    decreases |calls|
  {
    if |calls| > 0 {
      PageShows(before, calls[0].list, cursor, calls[0].size);
      var page := PageOf(before, calls[0].list, cursor, calls[0].size);
      hide PageOf;
      if page.next.Some? {
        WalkDescends(before, calls[1..], page.next);
        var more := Walk(before, calls[1..], page.next).0;
        forall x | x in more ensures exists i :: 0 <= i < |calls| && x in calls[i].list {
          var i :| 0 <= i < |calls[1..]| && x in calls[1..][i].list;
          assert x in calls[i + 1].list;
        }
        JoinDescends(before, page.entries, page.next.value, more);
      }
    }
  }

  lemma JoinDescends<T(!new)>(before: (T, T) -> bool, a: seq<T>, last: T, b: seq<T>)
    requires Strict(before) && Descending(before, a) && Descending(before, b)
    requires forall x :: x in a ==> x == last || before(x, last)
    requires forall y :: y in b ==> before(last, y)
    ensures Descending(before, a + b)
  {
    forall i, j | 0 <= i < |a| && 0 <= j < |b| ensures before(a[i], b[j]) {
      assert a[i] in a && b[j] in b;
    }
  }

  /** Every call that is made while the entry is still to come lists it. */
  ghost predicate Covered<T(!new)>(before: (T, T) -> bool, calls: seq<Call<T>>, cursor: Option<T>, x: T)
    decreases |calls|
  {
    |calls| > 0 ==>
      && (Past(before, cursor, x) ==> x in calls[0].list)
      && var next := PageOf(before, calls[0].list, cursor, calls[0].size).next;
         (next.Some? ==> Covered(before, calls[1..], next, x))
  }

  lemma {:induction false} CoveredIsShown<T(!new)>(before: (T, T) -> bool, calls: seq<Call<T>>, cursor: Option<T>, x: T)
    requires Proper(before, calls) && Walk(before, calls, cursor).1
    requires Past(before, cursor, x) && Covered(before, calls, cursor, x)
    ensures x in Walk(before, calls, cursor).0
    decreases |calls|
  {
    PageShows(before, calls[0].list, cursor, calls[0].size);
    var page := PageOf(before, calls[0].list, cursor, calls[0].size);
    hide PageOf;
    if x !in page.entries {
      CoveredIsShown(before, calls[1..], page.next, x);
    }
  }

  /** Once behind the cursor, an entry stays behind it. */
  lemma {:induction false} BehindIsCovered<T(!new)>(before: (T, T) -> bool, calls: seq<Call<T>>, cursor: Option<T>, x: T)
    requires Proper(before, calls) && !Past(before, cursor, x)
    ensures Covered(before, calls, cursor, x)
    decreases |calls|
  {
    if |calls| > 0 {
      PageShows(before, calls[0].list, cursor, calls[0].size);
      var page := PageOf(before, calls[0].list, cursor, calls[0].size);
      hide PageOf;
      if page.next.Some? {
        BehindIsCovered(before, calls[1..], page.next, x);
      }
    }
  }

  /** An entry missing from a call's list is missing from all later ones. */
  ghost predicate Fades<T(!new)>(calls: seq<Call<T>>, x: T) {
    forall i, j :: 0 <= i <= j < |calls| && x in calls[j].list ==> x in calls[i].list
  }

  lemma {:induction false} ShownIsCovered<T(!new)>(before: (T, T) -> bool, calls: seq<Call<T>>, cursor: Option<T>, x: T)
    requires Proper(before, calls) && Fades(calls, x) && x in Walk(before, calls, cursor).0
    ensures Covered(before, calls, cursor, x)
    decreases |calls|
  {
    ListedFirst(before, calls, cursor, x);
    PageShows(before, calls[0].list, cursor, calls[0].size);
    FadesTail(calls, x);
    hide PageOf, Fades, Proper, Descending;
    var page := PageOf(before, calls[0].list, cursor, calls[0].size);
    if page.next.Some? {
      TailProper(before, calls);
      if x in page.entries {
        BehindNow(before, page.next.value, x);
        BehindIsCovered(before, calls[1..], page.next, x);
      } else {
        ShownIsCovered(before, calls[1..], page.next, x);
      }
    }
  }

  lemma BehindNow<T(!new)>(before: (T, T) -> bool, next: T, x: T)
    requires Strict(before) && (x == next || before(x, next))
    ensures !before(next, x)
  {
  }

  lemma TailProper<T(!new)>(before: (T, T) -> bool, calls: seq<Call<T>>)
    requires Proper(before, calls) && |calls| > 0
    ensures Strict(before) && Proper(before, calls[1..])
  {
  }

  /** What is shown was listed by some call, so, if it fades, by the first. */
  lemma ListedFirst<T(!new)>(before: (T, T) -> bool, calls: seq<Call<T>>, cursor: Option<T>, x: T)
    requires Proper(before, calls) && Fades(calls, x) && x in Walk(before, calls, cursor).0
    ensures |calls| > 0 && x in calls[0].list
  {
    WalkDescends(before, calls, cursor);
    hide Walk;
    var k :| 0 <= k < |calls| && x in calls[k].list;
  }

  lemma FadesTail<T(!new)>(calls: seq<Call<T>>, x: T)
    requires Fades(calls, x) && |calls| > 0
    ensures Fades(calls[1..], x)
  {
    forall i, j | 0 <= i <= j < |calls[1..]| && x in calls[1..][j].list ensures x in calls[1..][i].list {
      assert x in calls[j + 1].list && x in calls[i + 1].list;
    }
  }

  // ---------- the entries of one list among those shown ----------

  /** The part of a list that belongs to another. */
  function Only<T(==)>(s: seq<T>, these: seq<T>): seq<T> {
    if |s| == 0 then [] else (if s[0] in these then [s[0]] else []) + Only(s[1..], these)
  }

  lemma {:induction false} OnlyMembers<T(!new)>(before: (T, T) -> bool, s: seq<T>, these: seq<T>)
    requires Descending(before, s)
    ensures Descending(before, Only(s, these))
    ensures forall x :: x in Only(s, these) <==> x in s && x in these
  {
    if |s| > 0 {
      var rest := Only(s[1..], these);
      OnlyMembers(before, s[1..], these);
      assert forall x :: x in s <==> x == s[0] || x in s[1..];
      PrependDescends(before, s, rest);
    }
  }

  /** Two descending lists with the same members are the same list. */
  lemma {:induction false} DescendingUnique<T(!new)>(before: (T, T) -> bool, s: seq<T>, t: seq<T>)
    requires Strict(before) && Descending(before, s) && Descending(before, t)
    requires forall x :: x in s <==> x in t
    ensures s == t
  {
    assert |s| == 0 <==> |t| == 0 by {
      assert |s| == 0 || s[0] in s;
      assert |t| == 0 || t[0] in t;
    }
    if |s| > 0 {
      HeadIsFirst(before, s, t[0]);
      HeadIsFirst(before, t, s[0]);
      assert s[0] == t[0];
      forall x ensures x in s[1..] <==> x in t[1..] {
        TailOf(before, s, x);
        TailOf(before, t, x);
      }
      DescendingUnique(before, s[1..], t[1..]);
      assert s == [s[0]] + s[1..] && t == [t[0]] + t[1..];
    }
  }

  lemma HeadIsFirst<T(!new)>(before: (T, T) -> bool, s: seq<T>, x: T)
    requires Descending(before, s) && x in s
    ensures s[0] == x || before(s[0], x)
  {
  }

  /** What an entry comes before stands behind it. */
  lemma StandsBehind<T(!new)>(before: (T, T) -> bool, s: seq<T>, k: nat, i: nat)
    requires Strict(before) && Descending(before, s) && k < |s| && i < |s|
    ensures before(s[k], s[i]) <==> k < i
  {
    assert i < k ==> before(s[i], s[k]);
  }

  lemma TailOf<T(!new)>(before: (T, T) -> bool, s: seq<T>, x: T)
    requires Strict(before) && Descending(before, s) && |s| > 0
    ensures x in s[1..] <==> x in s && x != s[0]
  {
    if x in s && x != s[0] {
      var i :| 0 <= i < |s| && s[i] == x;
      assert s[1..][i - 1] == x;
    }
    if x in s[1..] {
      var i :| 0 <= i < |s[1..]| && s[1..][i] == x;
      assert s[i + 1] == x && before(s[0], x);
    }
  }

  /**
   * The entries of a list are all shown, once and in order whatever else is shown between them, exactly when each of
   * them is listed by every call that is made while it is still to come.
   */
  lemma AllShownIff<T(!new)>(before: (T, T) -> bool, calls: seq<Call<T>>, these: seq<T>)
    requires Proper(before, calls) && Walk(before, calls, None).1 && Descending(before, these)
    requires forall x :: x in these ==> Fades(calls, x)
    ensures Only(Walk(before, calls, None).0, these) == these
      <==> forall x :: x in these ==> Covered(before, calls, None, x)
  {
    var shown := Walk(before, calls, None).0;
    WalkDescends(before, calls, None);
    OnlyMembers(before, shown, these);
    hide Covered, Walk, Only, Proper, Fades;
    if forall x :: x in these ==> Covered(before, calls, None, x) {
      forall x | x in these ensures x in shown { CoveredIsShown(before, calls, None, x); }
      assert Strict(before) by { ProperStrict(before, calls); }
      DescendingUnique(before, Only(shown, these), these);
    }
    if Only(shown, these) == these {
      forall x | x in these ensures Covered(before, calls, None, x) { ShownIsCovered(before, calls, None, x); }
    }
  }

  lemma ProperStrict<T(!new)>(before: (T, T) -> bool, calls: seq<Call<T>>)
    requires Proper(before, calls)
    ensures Strict(before)
  {
  }

  // ---------- the walk ends ----------

  lemma {:induction false} AfterShrinks<T(!new)>(before: (T, T) -> bool, all: seq<T>, cursor: Option<T>, next: T)
    requires Strict(before) && Past(before, cursor, next)
    ensures |After(before, all, Some(next))| <= |After(before, all, cursor)|
    ensures next in all ==> |After(before, all, Some(next))| < |After(before, all, cursor)|
  {
    if |all| > 0 {
      AfterShrinks(before, all[1..], cursor, next);
      assert next in all ==> next == all[0] || next in all[1..];
      assert before(next, all[0]) ==> Past(before, cursor, all[0]);
    }
  }

  /** As many calls as entries that any of them lists are enough. */
  lemma {:induction false} WalkEnds<T(!new)>(before: (T, T) -> bool, calls: seq<Call<T>>, cursor: Option<T>, all: seq<T>)
    requires Proper(before, calls) && |calls| > 0 && |calls| >= |After(before, all, cursor)|
    requires forall i :: 0 <= i < |calls| ==> forall x :: x in calls[i].list ==> x in all
    ensures Walk(before, calls, cursor).1
    decreases |calls|
  {
    PageShows(before, calls[0].list, cursor, calls[0].size);
    var page := PageOf(before, calls[0].list, cursor, calls[0].size);
    hide PageOf;
    if page.next.Some? {
      var x :| x in calls[0].list && before(page.next.value, x);
      AfterShrinks(before, all, cursor, page.next.value);
      AfterMembers(before, all, page.next);
      assert x in After(before, all, page.next);
      WalkEnds(before, calls[1..], page.next, all);
    }
  }

  /** What comes after an entry of a descending list is the list from the next entry on. */
  lemma {:induction false} AfterIsSuffix<T(!new)>(before: (T, T) -> bool, list: seq<T>, k: nat)
    requires Strict(before) && Descending(before, list) && k < |list|
    ensures After(before, list, Some(list[k])) == list[k + 1..]
  {
    AfterMembers(before, list, Some(list[k]));
    AfterDescends(before, list, Some(list[k]));
    hide After;
    var after := After(before, list, Some(list[k]));
    forall x ensures x in after <==> x in list[k + 1..] {
      if x in after {
        var i :| 0 <= i < |list| && list[i] == x;
        StandsBehind(before, list, k, i);
        assert i > k && list[k + 1..][i - k - 1] == x;
      }
      if x in list[k + 1..] {
        var i :| 0 <= i < |list[k + 1..]| && list[k + 1..][i] == x;
        assert list[i + k + 1] == x && before(list[k], x);
      }
    }
    assert Descending(before, list[k + 1..]);
    DescendingUnique(before, after, list[k + 1..]);
  }

  lemma {:induction false} AfterNothing<T(!new)>(before: (T, T) -> bool, list: seq<T>)
    ensures After(before, list, None) == list
  {
    if |list| > 0 { AfterNothing(before, list[1..]); }
  }

  function Smaller(a: nat, b: nat): nat { if a < b then a else b }

  /** The page at position k of a list: its entries, and the last of them as the cursor if more remain. */
  function PageAt<T>(list: seq<T>, k: nat, size: nat): Page<T>
    requires k <= |list| && size >= 1
  {
    var end := Smaller(k + size, |list|);
    Page(list[k..end], if end < |list| then Some(list[end - 1]) else None)
  }

  lemma CutIsPage<T>(list: seq<T>, k: nat, size: nat)
    requires k <= |list| && size >= 1
    ensures
      var after := list[k..];
      var page := if size < |after| then after[..size] else after;
      Page(page, if |page| > 0 && |after| > |page| then Some(page[|page| - 1]) else None) == PageAt(list, k, size)
  {
    var after, end := list[k..], Smaller(k + size, |list|);
    if size < |after| {
      assert after[..size] == list[k..end] && after[size - 1] == list[end - 1];
    } else {
      assert after == list[k..end];
    }
  }

  /** Comparing with the cursor finds the page that starts behind the cursor's own position. */
  lemma PageBehind<T(!new)>(before: (T, T) -> bool, list: seq<T>, k: nat, size: nat)
    requires Strict(before) && Descending(before, list) && k < |list| && size >= 1
    ensures PageOf(before, list, Some(list[k]), size) == PageAt(list, k + 1, size)
  {
    AfterIsSuffix(before, list, k);
    CutIsPage(list, k + 1, size);
    hide After, Descending, PageAt, Strict;
  }

  lemma PageInFront<T(!new)>(before: (T, T) -> bool, list: seq<T>, size: nat)
    requires size >= 1
    ensures PageOf(before, list, None, size) == PageAt(list, 0, size)
  {
    AfterNothing(before, list);
    CutIsPage(list, 0, size);
    assert list[0..] == list;
    hide After, PageAt;
  }
}
