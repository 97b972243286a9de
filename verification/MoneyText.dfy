/** Money as people read and write it (contracts accounts/v1.ts `formatMinorUnits`, payments/v1.ts `lkrAmountToMinorUnits`). */
module MoneyText {
  import opened Wrappers
  import opened Decimal

  function Zeros(n: nat): (s: string)
    ensures |s| == n && AllDigits(s)
  {
    seq(n, _ => '0')
  }

  function PadStart(s: string, width: nat): string {
    if |s| >= width then s else Zeros(width - |s|) + s
  }

  function PadEnd(s: string, width: nat): string {
    if |s| >= width then s else s + Zeros(width - |s|)
  }

  /** The replacement walk: a comma before every inner digit that has a multiple of three digits from it to the end. */
  function Grouped(whole: string, i: nat): string
    requires i <= |whole|
    decreases |whole| - i
  {
    if i == |whole| then ""
    else Mark(|whole|, i) + [whole[i]] + Grouped(whole, i + 1)
  }

  function Mark(length: nat, i: nat): string
    requires i < length
  {
    if i > 0 && (length - i) % 3 == 0 then "," else ""
  }

  /** `formatMinorUnits` with its default of two fraction digits. */
  function Format(minorUnits: string): string {
    var negative := "-" <= minorUnits;
    var digits := PadStart(if negative then minorUnits[1..] else minorUnits, 3);
    var whole := digits[..|digits| - 2];
    (if negative then "-" else "") + Grouped(whole, 0) + "." + digits[|digits| - 2..]
  }

  function StripCommas(s: string): string {
    if |s| == 0 then "" else (if s[0] == ',' then "" else [s[0]]) + StripCommas(s[1..])
  }

  /** A decimal amount, split as `amount.split('.')` splits it. */
  datatype Amount = Amount(whole: string, decimal: string)

  function DotAt(s: string, i: nat): nat
    requires i <= |s|
    ensures i <= DotAt(s, i) <= |s|
    decreases |s| - i
  {
    if i == |s| || s[i] == '.' then i else DotAt(s, i + 1)
  }

  function SplitAmount(s: string): Amount {
    var dot := DotAt(s, 0);
    Amount(s[..dot], if dot < |s| then s[dot + 1..] else "")
  }

  /** The regular expression of `humanLkrAmountSchema`. */
  predicate AmountShape(s: string) {
    var a := SplitAmount(s);
    && Canonical(a.whole) && AllDigits(a.decimal) && |a.decimal| <= 2
    && (DotAt(s, 0) < |s| ==> |a.decimal| >= 1)
  }

  function DropZeros(s: string): string {
    if |s| > 1 && s[0] == '0' then DropZeros(s[1..]) else s
  }

  /** `lkrAmountToMinorUnits`; None stands for the schema's refusal. */
  function ToMinorUnits(s: string): Option<string> {
    if !AmountShape(s) || s == "0" || s == "0.0" || s == "0.00" then None
    else
      var a := SplitAmount(s);
      Some(DropZeros(a.whole + PadEnd(a.decimal, 2)))
  }

  // ---------- grouping ----------

  /** Groups after the first have exactly three digits, and the first one to three. */
  function Groups(whole: string): string {
    if |whole| <= 3 then whole else Groups(whole[..|whole| - 3]) + "," + whole[|whole| - 3..]
  }

  lemma {:induction false} GroupedSuffix(whole: string, i: nat)
    requires |whole| > 3 && i <= |whole| - 3
    ensures Grouped(whole, i) == Grouped(whole[..|whole| - 3], i) + "," + whole[|whole| - 3..]
    decreases |whole| - i
  {
    var n, init := |whole|, whole[..|whole| - 3];
    if i == n - 3 {
      LastThree(whole);
    } else {
      GroupedSuffix(whole, i + 1);
      MarkPeriod(n, i);
      var mark, inner, last := Mark(n, i), Grouped(init, i + 1), whole[n - 3..];
      assert Grouped(whole, i) == mark + [whole[i]] + (inner + "," + last);
      assert Grouped(init, i) == mark + [whole[i]] + inner;
      hide Grouped, Mark;
      Reassociate(mark + [whole[i]], inner + ",", last);
      Reassociate(mark + [whole[i]], inner, ",");
    }
  }

  lemma MarkPeriod(n: nat, i: nat)
    requires i < n - 3
    ensures Mark(n, i) == Mark(n - 3, i)
  {
    assert (n - i) % 3 == (n - 3 - i) % 3;
  }

  lemma {:induction false} NoMarks(whole: string, i: nat)
    requires i <= |whole| && (|whole| - i <= 2 || |whole| <= 3)
    ensures Grouped(whole, i) == whole[i..]
    decreases |whole| - i
  {
    if i < |whole| {
      NoMarks(whole, i + 1);
      assert whole[i..] == [whole[i]] + whole[i + 1..];
    }
  }

  lemma LastThree(whole: string)
    requires |whole| > 3
    ensures Grouped(whole, |whole| - 3) == "," + whole[|whole| - 3..]
  {
    var i := |whole| - 3;
    NoMarks(whole, i + 1);
    assert Mark(|whole|, i) == ",";
    assert whole[i..] == [whole[i]] + whole[i + 1..];
  }

  lemma {:induction false} GroupsOfThree(whole: string)
    ensures Grouped(whole, 0) == Groups(whole)
  {
    if |whole| <= 3 {
      NoMarks(whole, 0);
    } else {
      GroupedSuffix(whole, 0);
      GroupsOfThree(whole[..|whole| - 3]);
    }
  }

  // ---------- values ----------

  lemma {:induction false} NatOfAppend(s: string, t: string)
    requires AllDigits(s) && AllDigits(t) && |t| <= 2
    ensures AllDigits(s + t)
    ensures NatOf(s + t) == NatOf(s) * (if |t| == 0 then 1 else if |t| == 1 then 10 else 100) + NatOf(t)
  {
    if |t| == 0 {
      assert s + t == s;
    } else {
      var last := t[|t| - 1];
      assert (s + t)[..|s + t| - 1] == s + t[..|t| - 1];
      NatOfAppend(s, t[..|t| - 1]);
      if |t| == 1 { assert t[..0] == ""; } else { assert NatOf(t) == 10 * NatOf(t[..1]) + DigitValue(t[1]); }
    }
  }

  /** Leading zeros are worth nothing. */
  lemma {:induction false} LeadingZero(s: string)
    requires AllDigits(s) && |s| > 0 && s[0] == '0'
    ensures NatOf(s[1..]) == NatOf(s)
  {
    if |s| == 1 {
      assert s[..0] == "" && s[1..] == "";
    } else {
      LeadingZero(s[..|s| - 1]);
      assert s[..|s| - 1][1..] == s[1..][..|s| - 2];
    }
  }

  lemma {:induction false} DropZerosKeepsValue(s: string)
    requires AllDigits(s) && |s| > 0
    ensures Canonical(DropZeros(s)) && NatOf(DropZeros(s)) == NatOf(s)
  {
    if |s| > 1 && s[0] == '0' {
      LeadingZero(s);
      DropZerosKeepsValue(s[1..]);
    }
  }

  function Scale(decimals: nat): nat
    requires decimals <= 2
  {
    if decimals == 0 then 1 else if decimals == 1 then 10 else 100
  }

  /** The number an accepted amount denotes. */
  ghost function ValueOf(s: string): real
    requires AmountShape(s)
  {
    var a := SplitAmount(s);
    NatOf(a.whole) as real + NatOf(a.decimal) as real / Scale(|a.decimal|) as real
  }

  lemma HundredfoldValue(s: string)
    requires AmountShape(s)
    ensures
      var a := SplitAmount(s);
      && AllDigits(a.whole + PadEnd(a.decimal, 2))
      && NatOf(a.whole + PadEnd(a.decimal, 2)) as real == ValueOf(s) * 100.0
  {
    var a := SplitAmount(s);
    NatOfAppend(a.whole, PadEnd(a.decimal, 2));
    PadEndScales(a.decimal);
    hide NatOf, PadEnd;
    var w, d, p := NatOf(a.whole), NatOf(a.decimal), NatOf(PadEnd(a.decimal, 2));
    assert p * Scale(|a.decimal|) == d * 100 && p as real == d as real / Scale(|a.decimal|) as real * 100.0;
  }

  lemma PadEndScales(d: string)
    requires AllDigits(d) && |d| <= 2
    ensures AllDigits(PadEnd(d, 2)) && |PadEnd(d, 2)| == 2 && NatOf(PadEnd(d, 2)) * Scale(|d|) == NatOf(d) * 100
  {
    NatOfAppend(d, Zeros(2 - |d|));
    ZerosAreNothing(2 - |d|);
    assert d + Zeros(2 - |d|) == PadEnd(d, 2);
  }

  lemma ZerosAreNothing(n: nat)
    requires n <= 2
    ensures NatOf(Zeros(n)) == 0
  {
    if n == 1 { assert Zeros(1)[..0] == ""; }
    if n == 2 { assert Zeros(2)[..1][..0] == "" && NatOf(Zeros(2)[..1]) == 0; }
  }

  /**
   * An accepted amount converts to the canonical text of exactly a hundred times its value, whatever its length;
   * and of the well-formed amounts, exactly those worth zero are refused.
   */
  lemma ConvertsExactly(s: string)
    ensures ToMinorUnits(s).Some? <==> AmountShape(s) && ValueOf(s) != 0.0
    ensures ToMinorUnits(s).Some? ==>
      Canonical(ToMinorUnits(s).value) && NatOf(ToMinorUnits(s).value) as real == ValueOf(s) * 100.0
  {
    if AmountShape(s) {
      HundredfoldValue(s);
      var a := SplitAmount(s);
      DropZerosKeepsValue(a.whole + PadEnd(a.decimal, 2));
      ZeroTexts(s);
    }
  }

  lemma ZeroTexts(s: string)
    requires AmountShape(s)
    ensures ValueOf(s) == 0.0 <==> s == "0" || s == "0.0" || s == "0.00"
  {
    var a, dot := SplitAmount(s), DotAt(s, 0);
    assert s == if dot < |s| then a.whole + "." + a.decimal else a.whole by { DotFound(s, 0); }
    ZeroWhole(a.whole);
    OnlyZeros(a.decimal);
    ZeroSplits();
    ZeroSum(NatOf(a.whole), NatOf(a.decimal), Scale(|a.decimal|));
    assert |a.decimal| == 0 || |a.decimal| == 1 || |a.decimal| == 2;
    hide NatOf, DotAt, SplitAmount, Zeros, Canonical, AllDigits;
  }

  lemma ZeroSum(w: nat, d: nat, scale: nat)
    requires scale > 0
    ensures w as real + d as real / scale as real == 0.0 <==> w == 0 && d == 0
  {
    if d > 0 { assert d as real / scale as real > 0.0; }
  }

  lemma ZeroWhole(w: string)
    requires Canonical(w)
    ensures NatOf(w) == 0 <==> w == "0"
  {
    assert "0"[..0] == "";
    PrintOfNat(w);
  }

  lemma ZeroSplits()
    ensures SplitAmount("0") == Amount("0", "") && SplitAmount("0.0") == Amount("0", "0")
    ensures SplitAmount("0.00") == Amount("0", "00") && Zeros(0) == "" && Zeros(1) == "0" && Zeros(2) == "00"
  {
    assert DotAt("0", 0) == 1 && DotAt("0.0", 0) == 1 && DotAt("0.00", 0) == 1;
  }

  lemma OnlyZeros(d: string)
    requires AllDigits(d) && |d| <= 2
    ensures NatOf(d) == 0 <==> d == Zeros(|d|)
  {
    ZerosAreNothing(|d|);
    if |d| == 1 { assert d[..0] == ""; }
    if |d| == 2 { assert d[..1][..0] == "" && NatOf(d[..1]) == DigitValue(d[0]); }
  }

  lemma {:induction false} DotFound(s: string, i: nat)
    requires i <= |s|
    ensures DotAt(s, i) < |s| ==> s[DotAt(s, i)] == '.'
    ensures forall k :: i <= k < DotAt(s, i) ==> s[k] != '.'
    decreases |s| - i
  {
    if i < |s| && s[i] != '.' { DotFound(s, i + 1); }
  }

  // ---------- round trip ----------

  lemma StripOne(c: char, rest: string)
    ensures StripCommas([c] + rest) == (if c == ',' then "" else [c]) + StripCommas(rest)
  {
    assert ([c] + rest)[1..] == rest;
  }

  lemma StripMarked(mark: string, c: char, tail: string)
    requires (mark == "" || mark == ",") && c != ','
    ensures StripCommas(mark + [c] + tail) == [c] + StripCommas(tail)
  {
    hide StripCommas;
    StripOne(c, tail);
    StripOne(',', [c] + tail);
    assert mark + [c] + tail == if mark == "" then [c] + tail else [','] + ([c] + tail);
  }

  lemma {:induction false} StripGrouped(whole: string, i: nat, rest: string)
    requires AllDigits(whole) && i <= |whole|
    ensures StripCommas(Grouped(whole, i) + rest) == whole[i..] + StripCommas(rest)
    decreases |whole| - i
  {
    hide StripCommas;
    if i < |whole| {
      StripGrouped(whole, i + 1, rest);
      var mark, inner := Mark(|whole|, i), Grouped(whole, i + 1);
      assert IsDigit(whole[i]) && Grouped(whole, i) == mark + [whole[i]] + inner;
      assert mark == "" || mark == ",";
      hide Grouped, Mark;
      StripMarked(mark, whole[i], inner + rest);
      Reassociate(mark + [whole[i]], inner, rest);
      assert whole[i..] == [whole[i]] + whole[i + 1..];
      Reassociate([whole[i]], whole[i + 1..], StripCommas(rest));
    } else {
      assert Grouped(whole, i) + rest == rest;
    }
  }

  lemma Reassociate(a: string, b: string, c: string)
    ensures (a + b) + c == a + (b + c)
  {
  }

  lemma {:induction false} StripPlain(s: string)
    requires forall i :: 0 <= i < |s| ==> s[i] != ','
    ensures StripCommas(s) == s
  {
    if |s| > 0 { StripPlain(s[1..]); }
  }

  lemma {:induction false} DotAfterDigits(whole: string, rest: string, i: nat)
    requires AllDigits(whole) && i <= |whole|
    ensures DotAt(whole + "." + rest, i) == |whole|
    decreases |whole| - i
  {
    if i < |whole| {
      assert (whole + "." + rest)[i] == whole[i] && IsDigit(whole[i]);
      DotAfterDigits(whole, rest, i + 1);
    } else {
      assert (whole + "." + rest)[i] == '.';
    }
  }

  lemma {:induction false} DropPadding(n: nat, s: string)
    requires Canonical(s) && s != "0"
    ensures DropZeros(Zeros(n) + s) == s
  {
    if n == 0 {
      assert Zeros(0) + s == s;
      assert s[0] == '0' ==> |s| == 1 && s == "0";
    } else {
      assert (Zeros(n) + s)[1..] == Zeros(n - 1) + s;
      DropPadding(n - 1, s);
    }
  }

  /** What is formatted can be typed back, once its grouping commas are removed, without loss at any length. */
  lemma FormatRoundTrip(m: string)
    requires Canonical(m) && m != "0"
    ensures ToMinorUnits(StripCommas(Format(m))) == Some(m)
  {
    hide StripCommas, Grouped, DropZeros, DotAt, ToMinorUnits, AmountShape;
    var digits := PadStart(m, 3);
    var whole, fraction := digits[..|digits| - 2], digits[|digits| - 2..];
    PaddedDigits(m);
    StripGrouped(whole, 0, "." + fraction);
    StripPlain("." + fraction);
    var text := whole + "." + fraction;
    assert Format(m) == Grouped(whole, 0) + ("." + fraction);
    assert whole[0..] == whole && whole + ("." + fraction) == text;
    SplitsAgain(whole, fraction);
    DropsToSame(text, whole, fraction, m);
  }

  lemma PaddedDigits(m: string)
    requires Canonical(m) && m != "0"
    ensures
      var digits := PadStart(m, 3);
      && |digits| >= 3 && AllDigits(digits) && m[0] != '-' && DropZeros(digits) == m
      && Canonical(digits[..|digits| - 2])
      && digits[..|digits| - 2] + digits[|digits| - 2..] == digits
  {
    var n := if |m| >= 3 then 0 else 3 - |m|;
    assert IsDigit(m[0]);
    assert PadStart(m, 3) == Zeros(n) + m;
    DropPadding(n, m);
  }

  lemma SplitsAgain(whole: string, fraction: string)
    requires Canonical(whole) && AllDigits(fraction) && |fraction| == 2
    ensures SplitAmount(whole + "." + fraction) == Amount(whole, fraction) && AmountShape(whole + "." + fraction)
  {
    hide DotAt;
    DotAfterDigits(whole, fraction, 0);
    var text := whole + "." + fraction;
    assert text[..|whole|] == whole && text[|whole| + 1..] == fraction;
  }

  lemma DropsToSame(text: string, whole: string, fraction: string, m: string)
    requires SplitAmount(text) == Amount(whole, fraction) && AmountShape(text) && DropZeros(whole + fraction) == m
    requires |fraction| == 2 && m != "0"
    ensures ToMinorUnits(text) == Some(m)
  {
    ZeroSplits();
    assert DropZeros("000") == DropZeros("00") == DropZeros("0") == "0";
    assert "0" + "00" == "000";
  }

  // ---------- what the text says ----------

  lemma {:induction false} PaddedValue(n: nat, s: string)
    requires AllDigits(s)
    ensures AllDigits(Zeros(n) + s) && NatOf(Zeros(n) + s) == NatOf(s)
  {
    if n == 0 {
      assert Zeros(0) + s == s;
    } else {
      var t := Zeros(n) + s;
      assert t[1..] == Zeros(n - 1) + s;
      PaddedValue(n - 1, s);
      LeadingZero(t);
    }
  }

  lemma LastTwo(digits: string)
    requires AllDigits(digits) && |digits| >= 3
    ensures
      var n, whole := NatOf(digits), digits[..|digits| - 2];
      && NatOf(whole) == n / 100 && digits[|digits| - 2..] == [DigitChar(n / 10 % 10), DigitChar(n % 10)]
  {
    var k := |digits|;
    var whole, tens, ones := digits[..k - 2], DigitValue(digits[k - 2]), DigitValue(digits[k - 1]);
    assert digits[..k - 1][..k - 2] == whole;
    assert NatOf(digits[..k - 1]) == 10 * NatOf(whole) + tens;
    assert NatOf(digits) == 10 * NatOf(digits[..k - 1]) + ones;
    CharOfDigit(digits[k - 2]);
    CharOfDigit(digits[k - 1]);
    hide NatOf, DigitValue, DigitChar;
    Decompose(NatOf(whole), tens, ones);
    assert digits[k - 2..] == [digits[k - 2], digits[k - 1]];
  }

  lemma Decompose(w: nat, t: nat, o: nat)
    requires t < 10 && o < 10
    ensures
      var n := 10 * (10 * w + t) + o;
      n / 100 == w && n / 10 % 10 == t && n % 10 == o
  {
    var n := 10 * (10 * w + t) + o;
    assert n / 10 == 10 * w + t;
  }

  lemma CharOfDigit(c: char)
    requires IsDigit(c)
    ensures DigitChar(DigitValue(c)) == c
  {
  }

  /**
   * The formatted text of n minor units is n divided by a hundred in groups of three, a point, and the last two digits
   * of n; a minus in front of the units is a minus in front of the text.
   */
  lemma FormatMeans(m: string)
    requires Canonical(m)
    ensures
      var n := NatOf(m);
      Format(m) == Groups(Print(n / 100)) + "." + [DigitChar(n / 10 % 10), DigitChar(n % 10)]
    ensures Format("-" + m) == "-" + Format(m)
  {
    hide Grouped, Groups, Print, NatOf, DigitChar;
    var digits := PadStart(m, 3);
    PadsSame(m);
    LastTwo(digits);
    PrintOfNat(digits[..|digits| - 2]);
    GroupsOfThree(digits[..|digits| - 2]);
    assert ("-" + m)[1..] == m;
  }

  lemma PadsSame(m: string)
    requires Canonical(m)
    ensures
      var digits := PadStart(m, 3);
      && |digits| >= 3 && AllDigits(digits) && NatOf(digits) == NatOf(m) && Canonical(digits[..|digits| - 2]) && m[0] != '-'
  {
    var n := if |m| >= 3 then 0 else 3 - |m|;
    PaddedValue(n, m);
    assert PadStart(m, 3) == Zeros(n) + m && IsDigit(m[0]);
    hide NatOf;
  }
}
