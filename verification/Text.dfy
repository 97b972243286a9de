/** The `<` of JavaScript on strings: the order that sorts account identifiers and payload rows. */
module Text {
  predicate Less(a: string, b: string) {
    if |b| == 0 then false
    else if |a| == 0 then true
    else a[0] < b[0] || (a[0] == b[0] && Less(a[1..], b[1..]))
  }

  lemma LessIrreflexive(a: string)
    ensures !Less(a, a)
  {
  }

  lemma {:induction false} LessTransitive(a: string, b: string, c: string)
    requires Less(a, b) && Less(b, c)
    ensures Less(a, c)
  {
    if |a| > 0 && a[0] == b[0] == c[0] {
      LessTransitive(a[1..], b[1..], c[1..]);
    }
  }

  lemma {:induction false} LessTotal(a: string, b: string)
    ensures Less(a, b) || a == b || Less(b, a)
    ensures !(Less(a, b) && Less(b, a))
  {
    if |a| > 0 && |b| > 0 {
      LessTotal(a[1..], b[1..]);
      if a[0] == b[0] && a[1..] == b[1..] {
        assert a == [a[0]] + a[1..] && b == [b[0]] + b[1..];
      }
    }
  }

  /** Strictly ascending, hence without duplicates. */
  predicate Ascending(s: seq<string>) {
    forall i, j :: 0 <= i < j < |s| ==> Less(s[i], s[j])
  }

  /** Inserts one identifier into an ascending list, dropping it when it is already there. */
  function InsertId(x: string, s: seq<string>): seq<string> {
    if |s| == 0 then [x]
    else if s[0] == x then s
    else if Less(x, s[0]) then [x] + s
    else [s[0]] + InsertId(x, s[1..])
  }

  lemma {:induction false} InsertIdAscends(x: string, s: seq<string>)
    requires Ascending(s)
    ensures Ascending(InsertId(x, s))
    ensures forall y :: y in InsertId(x, s) <==> y == x || y in s
  {
    if |s| == 0 || s[0] == x {
    } else if Less(x, s[0]) {
      forall j | 0 <= j < |s| ensures Less(x, s[j]) {
        if j > 0 { LessTransitive(x, s[0], s[j]); }
      }
    } else {
      LessTotal(x, s[0]);
      InsertIdAscends(x, s[1..]);
      var r := InsertId(x, s[1..]);
      forall j | 0 <= j < |r| ensures Less(s[0], r[j]) {
        assert r[j] in r;
      }
      assert s == [s[0]] + s[1..];
    }
  }

  lemma TailMembers(s: seq<string>, y: string)
    requires Ascending(s) && |s| > 0
    ensures y in s[1..] <==> y in s && y != s[0]
  {
    LessIrreflexive(s[0]);
    if y in s && y != s[0] {
      var i :| 0 <= i < |s| && s[i] == y;
      assert s[1..][i - 1] == y;
    }
  }

  /** An ascending list drawn from another has its length exactly when it misses nothing. */
  lemma {:induction false} AscendingSameLength(s: seq<string>, t: seq<string>)
    requires Ascending(s) && Ascending(t)
    requires forall y :: y in s ==> y in t
    ensures |s| == |t| <==> forall y :: y in t ==> y in s
  {
    DistinctCardinality(s);
    DistinctCardinality(t);
    var S, T := set y | y in s, set y | y in t;
    assert S <= T;
    assert |S| + |T - S| == |T| by { assert S + (T - S) == T; }
    assert T - S == {} <==> forall y :: y in t ==> y in s by {
      assert T - S == {} <==> T <= S;
      assert T <= S <==> forall y :: y in t ==> y in s by {
        forall y ensures y in T <==> y in t {}
        forall y ensures y in S <==> y in s {}
      }
    }
  }

  lemma {:induction false} DistinctCardinality(s: seq<string>)
    requires Ascending(s)
    ensures |set y | y in s| == |s|
  {
    if |s| > 0 {
      DistinctCardinality(s[1..]);
      forall y ensures y in s[1..] <==> y in s && y != s[0] { TailMembers(s, y); }
      assert (set y | y in s) == {s[0]} + (set y | y in s[1..]);
    }
  }
}
