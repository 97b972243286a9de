/** Decimal text and minor-unit strings (services/ledger/src/money/money.ts). */
module Decimal {
  import opened Wrappers

  predicate IsDigit(c: char) {
    '0' <= c <= '9'
  }

  predicate AllDigits(s: string) {
    forall i :: 0 <= i < |s| ==> IsDigit(s[i])
  }

  function DigitValue(c: char): (v: nat)
    requires IsDigit(c)
    ensures v < 10
  {
    c as int - '0' as int
  }

  function DigitChar(v: nat): (c: char)
    requires v < 10
    ensures IsDigit(c) && DigitValue(c) == v
  {
    '0' + v as char
  }

  /** The number a digit string denotes. */
  function NatOf(s: string): nat
    requires AllDigits(s)
  {
    if |s| == 0 then 0 else 10 * NatOf(s[..|s| - 1]) + DigitValue(s[|s| - 1])
  }

  function Print(n: nat): (s: string)
    ensures |s| > 0 && AllDigits(s)
  {
    if n < 10 then [DigitChar(n)] else Print(n / 10) + [DigitChar(n % 10)]
  }

  /** No sign and no leading zero: the shape `0|[1-9]\d*`. */
  predicate Canonical(s: string) {
    |s| > 0 && AllDigits(s) && (|s| > 1 ==> s[0] != '0')
  }

  lemma {:induction false} PrintIsCanonical(n: nat)
    ensures Canonical(Print(n)) && NatOf(Print(n)) == n
    ensures n > 0 ==> Print(n)[0] != '0'
  {
    if n < 10 {
      assert Print(n)[..0] == [];
    } else {
      PrintIsCanonical(n / 10);
      assert Print(n)[..|Print(n)| - 1] == Print(n / 10);
    }
  }

  lemma {:induction false} PrintOfNat(s: string)
    requires Canonical(s)
    ensures Print(NatOf(s)) == s
    ensures s[0] != '0' ==> NatOf(s) > 0
  {
    if |s| == 1 {
      assert NatOf(s[..0]) == 0;
    } else {
      var init := s[..|s| - 1];
      PrintOfNat(init);
      assert s == init + [s[|s| - 1]];
    }
  }

  const MAX_MINOR_UNIT_DIGITS := 24

  predicate MinorUnitsShape(s: string) {
    var digits := if |s| > 0 && s[0] == '-' then s[1..] else s;
    Canonical(digits) && |digits| <= MAX_MINOR_UNIT_DIGITS
  }

  /** `parseMinorUnits`: None stands for the TypeError. */
  function ParseMinorUnits(s: string): Option<int> {
    if !MinorUnitsShape(s) then None
    else if s[0] == '-' then Some(0 - NatOf(s[1..]))
    else Some(NatOf(s))
  }

  function SerializeMinorUnits(n: int): (s: string)
    ensures |s| > 0
  {
    if n < 0 then "-" + Print(-n) else Print(n)
  }

  lemma SerializeInjective(m: int, n: int)
    requires SerializeMinorUnits(m) == SerializeMinorUnits(n)
    ensures m == n
  {
    PrintIsCanonical(if m < 0 then -m else m);
    PrintIsCanonical(if n < 0 then -n else n);
    if m < 0 && n < 0 {
      assert SerializeMinorUnits(m)[1..] == Print(-m);
      assert SerializeMinorUnits(n)[1..] == Print(-n);
    }
  }

  /** A number survives printing and parsing exactly when it has at most 24 digits. */
  lemma ParseSerialize(n: int)
    ensures ParseMinorUnits(SerializeMinorUnits(n)) ==
            if |Print(if n < 0 then -n else n)| <= MAX_MINOR_UNIT_DIGITS then Some(n) else None
  {
    PrintIsCanonical(if n < 0 then -n else n);
    var s := SerializeMinorUnits(n);
    if n < 0 {
      assert s[1..] == Print(-n);
    }
  }

  /** Every accepted string prints back to itself, with the single exception of "-0". */
  lemma SerializeParse(s: string)
    requires ParseMinorUnits(s).Some?
    ensures SerializeMinorUnits(ParseMinorUnits(s).value) == s <==> s != "-0"
  {
    if s[0] == '-' {
      var d := s[1..];
      PrintOfNat(d);
      assert s == "-" + d;
      if NatOf(d) == 0 {
        assert d[0] == '0' && d == "0";
      }
      assert "-0"[1..] == "0" && NatOf("0"[..0]) == 0;
    } else {
      PrintOfNat(s);
    }
  }

  lemma MinusZeroAccepted()
    ensures ParseMinorUnits("-0") == Some(0)
  {
    assert "-0"[1..] == "0" && NatOf("0"[..0]) == 0;
  }
}
