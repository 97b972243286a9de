/** Strict base64url (primitives.ts `toBase64Url`, `fromBase64Url`; section 5 of RFC 4648). */
module Base64Url {
  import opened Wrappers
  import opened Bytes

  type sextet = x: int | 0 <= x < 64

  predicate InAlphabet(c: char) {
    'A' <= c <= 'Z' || 'a' <= c <= 'z' || '0' <= c <= '9' || c == '-' || c == '_'
  }

  function Char(x: sextet): (c: char)
    ensures InAlphabet(c)
  {
    if x < 26 then 'A' + x as char
    else if x < 52 then 'a' + (x - 26) as char
    else if x < 62 then '0' + (x - 52) as char
    else if x == 62 then '-' else '_'
  }

  function Value(c: char): sextet
    requires InAlphabet(c)
  {
    if 'A' <= c <= 'Z' then c as int - 'A' as int
    else if 'a' <= c <= 'z' then c as int - 'a' as int + 26
    else if '0' <= c <= '9' then c as int - '0' as int + 52
    else if c == '-' then 62 else 63
  }

  lemma CharValue(x: sextet)
    ensures Value(Char(x)) == x
  {
  }

  lemma ValueChar(c: char)
    requires InAlphabet(c)
    ensures Char(Value(c)) == c
  {
  }

  // ---------- six-bit groups ----------

  function First(a: byte): sextet { a / 4 }
  function Second(a: byte, b: byte): sextet { a % 4 * 16 + b / 16 }
  function Third(b: byte, c: byte): sextet { b % 16 * 4 + c / 64 }
  function Fourth(c: byte): sextet { c % 64 }

  function Split(b: bytes): seq<sextet> {
    if |b| == 0 then []
    else if |b| == 1 then [First(b[0]), Second(b[0], 0)]
    else if |b| == 2 then [First(b[0]), Second(b[0], b[1]), Third(b[1], 0)]
    else [First(b[0]), Second(b[0], b[1]), Third(b[1], b[2]), Fourth(b[2])] + Split(b[3..])
  }

  function High(w: sextet, x: sextet): byte { w as int * 4 + x as int / 16 }
  function Middle(x: sextet, y: sextet): byte { x as int % 16 * 16 + y as int / 4 }
  function Low(y: sextet, z: sextet): byte { y as int % 4 * 64 + z as int }

  /** Bits that do not fill a byte are dropped. */
  function Join(x: seq<sextet>): bytes {
    if |x| < 2 then []
    else if |x| == 2 then [High(x[0], x[1])]
    else if |x| == 3 then [High(x[0], x[1]), Middle(x[1], x[2])]
    else [High(x[0], x[1]), Middle(x[1], x[2]), Low(x[2], x[3])] + Join(x[4..])
  }

  lemma BytesBack(a: byte, b: byte, c: byte)
    ensures High(First(a), Second(a, b)) == a && Middle(Second(a, b), Third(b, c)) == b && Low(Third(b, c), Fourth(c)) == c
  {
    assert Second(a, b) / 16 == a % 4 && Second(a, b) % 16 == b / 16;
    assert Third(b, c) / 4 == b % 16 && Third(b, c) % 4 == c / 64;
  }

  lemma SextetsBack(w: sextet, x: sextet, y: sextet, z: sextet)
    ensures First(High(w, x)) == w && Second(High(w, x), Middle(x, y)) == x
    ensures Third(Middle(x, y), Low(y, z)) == y && Fourth(Low(y, z)) == z
  {
    assert High(w, x) / 4 == w && High(w, x) % 4 == x / 16;
    assert Middle(x, y) / 16 == x % 16 && Middle(x, y) % 16 == y / 4;
    assert Low(y, z) / 64 == y % 4 && Low(y, z) % 64 == z;
  }

  lemma LastSextetsBack(w: sextet, x: sextet, y: sextet)
    ensures x % 16 == 0 ==> Second(High(w, x), 0) == x
    ensures y % 4 == 0 ==> Third(Middle(x, y), 0) == y
  {
    assert High(w, x) % 4 == x / 16;
    assert Middle(x, y) % 16 == y / 4;
  }

  /** No lone sextet at the end, and no bit set that a byte would not use. */
  predicate NoSpareBits(x: seq<sextet>) {
    && |x| % 4 != 1
    && (|x| % 4 == 2 ==> x[|x| - 1] % 16 == 0)
    && (|x| % 4 == 3 ==> x[|x| - 1] % 4 == 0)
  }

  lemma {:induction false} JoinSplit(b: bytes)
    ensures Join(Split(b)) == b
  {
    hide First, Second, Third, Fourth, High, Middle, Low;
    if |b| == 1 {
      BytesBack(b[0], 0, 0);
    } else if |b| == 2 {
      BytesBack(b[0], b[1], 0);
    } else if |b| >= 3 {
      BytesBack(b[0], b[1], b[2]);
      JoinSplit(b[3..]);
      assert Split(b)[4..] == Split(b[3..]);
      assert b == b[..3] + b[3..];
    }
  }

  lemma {:induction false} SplitLength(b: bytes)
    ensures |Split(b)| == (4 * |b| + 2) / 3
  {
    hide First, Second, Third, Fourth;
    if |b| >= 3 { SplitLength(b[3..]); }
  }

  lemma {:induction false} SplitShape(b: bytes)
    ensures |Split(b)| == (4 * |b| + 2) / 3 && NoSpareBits(Split(b))
  {
    hide First, Second, Third, Fourth;
    SplitLength(b);
    if |b| == 1 {
      SpareBits(b[0], 0);
    } else if |b| == 2 {
      SpareBits(0, b[1]);
    } else if |b| >= 3 {
      SplitShape(b[3..]);
      var four := [First(b[0]), Second(b[0], b[1]), Third(b[1], b[2]), Fourth(b[2])];
      PrependFour(four, Split(b[3..]));
    }
  }

  lemma PrependFour(four: seq<sextet>, rest: seq<sextet>)
    requires |four| == 4 && NoSpareBits(rest)
    ensures NoSpareBits(four + rest)
  {
    var n := |rest|;
    assert |four + rest| == n + 4 && (n + 4) % 4 == n % 4;
    if n > 0 { assert (four + rest)[n + 3] == rest[n - 1]; }
  }

  lemma SpareBits(a: byte, b: byte)
    ensures Second(a, 0) % 16 == 0 && Third(b, 0) % 4 == 0
  {
  }

  lemma {:induction false} SplitJoin(x: seq<sextet>)
    requires NoSpareBits(x)
    ensures Split(Join(x)) == x
  {
    hide First, Second, Third, Fourth, High, Middle, Low;
    if |x| == 2 {
      SextetsBack(x[0], x[1], 0, 0);
      LastSextetsBack(x[0], x[1], 0);
    } else if |x| == 3 {
      SextetsBack(x[0], x[1], x[2], 0);
      LastSextetsBack(x[0], x[1], x[2]);
    } else if |x| >= 4 {
      var rest := x[4..];
      assert |rest| > 0 ==> rest[|rest| - 1] == x[|x| - 1];
      SextetsBack(x[0], x[1], x[2], x[3]);
      SplitJoin(rest);
      assert Join(x)[3..] == Join(rest);
      assert x == x[..4] + rest;
    }
  }

  // ---------- text ----------

  function Letters(x: seq<sextet>): (s: string)
    ensures |s| == |x| && forall i :: 0 <= i < |s| ==> s[i] == Char(x[i])
  {
    seq(|x|, i requires 0 <= i < |x| => Char(x[i]))
  }

  function ToBase64Url(b: bytes): string { Letters(Split(b)) }

  /** Node's decoder maps both alphabets and passes over every other character. */
  function Sextets(s: string): seq<sextet> {
    if |s| == 0 then []
    else if InAlphabet(s[0]) then [Value(s[0])] + Sextets(s[1..])
    else if s[0] == '+' then [62] + Sextets(s[1..])
    else if s[0] == '/' then [63] + Sextets(s[1..])
    else Sextets(s[1..])
  }

  function LenientDecode(s: string): bytes { Join(Sextets(s)) }

  /** `fromBase64Url`: None stands for SABCL_MALFORMED. */
  function FromBase64Url(s: string): Option<bytes> {
    if |s| == 0 then None
    else
      var decoded := LenientDecode(s);
      if ToBase64Url(decoded) != s then None else Some(decoded)
  }

  /** The canonical form of section 3.5 of RFC 4648, said on the text alone. */
  predicate CanonicalText(s: string) {
    && |s| > 0 && |s| % 4 != 1
    && (forall i :: 0 <= i < |s| ==> InAlphabet(s[i]))
    && (|s| % 4 == 2 ==> s[|s| - 1] in "AQgw")
    && (|s| % 4 == 3 ==> s[|s| - 1] in "AEIMQUYcgkosw048")
  }

  lemma {:induction false} SextetsOfAlphabet(s: string)
    requires forall i :: 0 <= i < |s| ==> InAlphabet(s[i])
    ensures |Sextets(s)| == |s| && forall i :: 0 <= i < |s| ==> Sextets(s)[i] == Value(s[i])
  {
    if |s| > 0 {
      SextetsOfAlphabet(s[1..]);
      assert forall i :: 1 <= i < |s| ==> s[i] == s[1..][i - 1];
    }
  }

  lemma SextetsOfLetters(x: seq<sextet>)
    ensures Sextets(Letters(x)) == x
  {
    SextetsOfAlphabet(Letters(x));
    forall i | 0 <= i < |x| ensures Sextets(Letters(x))[i] == x[i] { CharValue(x[i]); }
  }

  lemma LettersOfSextets(s: string)
    requires forall i :: 0 <= i < |s| ==> InAlphabet(s[i])
    ensures Letters(Sextets(s)) == s
  {
    SextetsOfAlphabet(s);
    forall i | 0 <= i < |s| ensures Letters(Sextets(s))[i] == s[i] { ValueChar(s[i]); }
  }

  lemma SpareBitsOfChar(c: char)
    requires InAlphabet(c)
    ensures Value(c) % 16 == 0 <==> c in "AQgw"
    ensures Value(c) % 4 == 0 <==> c in "AEIMQUYcgkosw048"
  {
    ValueChar(c);
    var v: sextet := Value(c);
    if v % 16 == 0 { assert v == 0 || v == 16 || v == 32 || v == 48; }
    if v % 4 == 0 {
      assert v == 0 || v == 4 || v == 8 || v == 12 || v == 16 || v == 20 || v == 24 || v == 28
          || v == 32 || v == 36 || v == 40 || v == 44 || v == 48 || v == 52 || v == 56 || v == 60;
    }
  }

  /** Every non-empty byte string comes back, from text of the length the field bounds count on. */
  lemma RoundTrip(b: bytes)
    requires |b| > 0
    ensures FromBase64Url(ToBase64Url(b)) == Some(b) && CanonicalText(ToBase64Url(b))
    ensures |ToBase64Url(b)| == (4 * |b| + 2) / 3
  {
    JoinSplit(b);
    SplitShape(b);
    SextetsOfLetters(Split(b));
    var s := ToBase64Url(b);
    var last := Split(b)[|s| - 1];
    CharValue(last);
    SpareBitsOfChar(s[|s| - 1]);
  }

  /** Accepted texts are exactly the canonical ones, and each is the encoding of what it decodes to. */
  lemma AcceptedIffCanonical(s: string)
    ensures FromBase64Url(s).Some? <==> CanonicalText(s)
    ensures FromBase64Url(s).Some? ==> |FromBase64Url(s).value| > 0 && ToBase64Url(FromBase64Url(s).value) == s
  {
    if FromBase64Url(s).Some? {
      SplitShape(LenientDecode(s));
      RoundTrip(FromBase64Url(s).value);
    } else if CanonicalText(s) {
      SextetsOfAlphabet(s);
      SpareBitsOfChar(s[|s| - 1]);
      SplitJoin(Sextets(s));
      LettersOfSextets(s);
    }
  }

  /** No two accepted texts decode alike. */
  lemma DecodeInjective(s: string, t: string)
    requires FromBase64Url(s).Some? && FromBase64Url(s) == FromBase64Url(t)
    ensures s == t
  {
    AcceptedIffCanonical(s);
    AcceptedIffCanonical(t);
  }

  // ---------- the alphabet and the bits ----------

  /** The alphabet of section 5 of RFC 4648, in order. */
  const ALPHABET := "ABCDEFGHIJKLMNOPQRSTUVWXYZ" + "abcdefghijklmnopqrstuvwxyz" + "0123456789" + "-_"

  /** Bit j of the bytes read as one row of bits, most significant first; zero past the end. */
  function Bit(b: bytes, j: nat): nat {
    if j / 8 < |b| then BitOf(b[j / 8] as int, j % 8) else 0
  }

  /** Bit t of a byte, most significant first: its parity after halving it 7 - t times. */
  function BitOf(n: nat, t: nat): (bit: nat)
    requires t < 8
    ensures bit < 2
    decreases 8 - t
  {
    if t == 7 then n % 2 else BitOf(n / 2, t + 1)
  }

  /** The number that bits 6i to 6i+5 form. */
  function SixBits(b: bytes, i: nat): nat {
    32 * Bit(b, 6 * i) + 16 * Bit(b, 6 * i + 1) + 8 * Bit(b, 6 * i + 2)
    + 4 * Bit(b, 6 * i + 3) + 2 * Bit(b, 6 * i + 4) + Bit(b, 6 * i + 5)
  }

  lemma ByteIsItsBits(n: nat)
    requires n < 256
    ensures n == 128 * BitOf(n, 0) + 64 * BitOf(n, 1) + 32 * BitOf(n, 2) + 16 * BitOf(n, 3)
                 + 8 * BitOf(n, 4) + 4 * BitOf(n, 5) + 2 * BitOf(n, 6) + BitOf(n, 7)
  {
    var a := n / 2;
    var b := a / 2;
    var c := b / 2;
    var d := c / 2;
    var e := d / 2;
    var f := e / 2;
    var g := f / 2;
    LowBits(n, a, b, c);
    HighBits(n, a, b, c, d, e, f, g);
    Rebuild(n, a, b, c, d, e, f, g);
  }

  /** Eight halvings and their parities. */
  lemma Rebuild(n: nat, a: nat, b: nat, c: nat, d: nat, e: nat, f: nat, g: nat)
    requires n < 256
    requires a == n / 2 && b == a / 2 && c == b / 2 && d == c / 2 && e == d / 2 && f == e / 2 && g == f / 2
    ensures n == 128 * (g % 2) + 64 * (f % 2) + 32 * (e % 2) + 16 * (d % 2) + 8 * (c % 2) + 4 * (b % 2) + 2 * (a % 2) + n % 2
  {
    Halved(n);
    Halved(a);
    Halved(b);
    Halved(c);
    Halved(d);
    Halved(e);
    Halved(f);
    Halved(g);
    Total(n, a, b, c, d, e, f, g, n % 2, a % 2, b % 2, c % 2, d % 2, e % 2, f % 2, g % 2);
  }

  lemma Halved(n: nat)
    ensures n == 2 * (n / 2) + n % 2 && (n < 2 ==> n % 2 == n)
  {
  }

  lemma Total(n: nat, a: nat, b: nat, c: nat, d: nat, e: nat, f: nat, g: nat,
              n0: nat, a0: nat, b0: nat, c0: nat, d0: nat, e0: nat, f0: nat, g0: nat)
    requires n == 2 * a + n0 && a == 2 * b + a0 && b == 2 * c + b0 && c == 2 * d + c0 && d == 2 * e + d0
    requires e == 2 * f + e0 && f == 2 * g + f0 && n < 256 && (g < 2 ==> g0 == g)
    ensures n == 128 * g0 + 64 * f0 + 32 * e0 + 16 * d0 + 8 * c0 + 4 * b0 + 2 * a0 + n0
  {
    assert n == 128 * g + 64 * f0 + 32 * e0 + 16 * d0 + 8 * c0 + 4 * b0 + 2 * a0 + n0;
  }

  lemma LowBits(n: nat, a: nat, b: nat, c: nat)
    requires a == n / 2 && b == a / 2 && c == b / 2
    ensures BitOf(n, 7) == n % 2 && BitOf(n, 6) == a % 2 && BitOf(n, 5) == b % 2 && BitOf(n, 4) == c % 2
  {
    assert BitOf(n, 6) == BitOf(a, 7);
    assert BitOf(n, 5) == BitOf(a, 6) == BitOf(b, 7);
    assert BitOf(n, 4) == BitOf(a, 5) == BitOf(b, 6) == BitOf(c, 7);
  }

  lemma HighBits(n: nat, a: nat, b: nat, c: nat, d: nat, e: nat, f: nat, g: nat)
    requires a == n / 2 && b == a / 2 && c == b / 2 && d == c / 2 && e == d / 2 && f == e / 2 && g == f / 2
    ensures BitOf(n, 3) == d % 2 && BitOf(n, 2) == e % 2 && BitOf(n, 1) == f % 2 && BitOf(n, 0) == g % 2
  {
    assert BitOf(n, 3) == BitOf(a, 4) == BitOf(b, 5) == BitOf(c, 6) == BitOf(d, 7);
    assert BitOf(n, 2) == BitOf(a, 3) == BitOf(b, 4) == BitOf(c, 5) == BitOf(d, 6) == BitOf(e, 7);
    assert BitOf(n, 1) == BitOf(a, 2) == BitOf(b, 3) == BitOf(c, 4) == BitOf(d, 5) == BitOf(e, 6) == BitOf(f, 7);
    assert BitOf(n, 0) == BitOf(a, 1) == BitOf(b, 2) == BitOf(c, 3) == BitOf(d, 4) == BitOf(e, 5) == BitOf(f, 6) == BitOf(g, 7);
  }

  /** The parts of a byte that the four groups take, as bits. */
  lemma ByteParts(n: nat)
    requires n < 256
    ensures
      var b0, b1, b2, b3 := BitOf(n, 0), BitOf(n, 1), BitOf(n, 2), BitOf(n, 3);
      var b4, b5, b6, b7 := BitOf(n, 4), BitOf(n, 5), BitOf(n, 6), BitOf(n, 7);
      && n / 4 == 32 * b0 + 16 * b1 + 8 * b2 + 4 * b3 + 2 * b4 + b5 && n % 4 == 2 * b6 + b7
      && n / 16 == 8 * b0 + 4 * b1 + 2 * b2 + b3 && n % 16 == 8 * b4 + 4 * b5 + 2 * b6 + b7
      && n / 64 == 2 * b0 + b1 && n % 64 == 32 * b2 + 16 * b3 + 8 * b4 + 4 * b5 + 2 * b6 + b7
  {
    ByteIsItsBits(n);
    hide BitOf;
  }

  /** The first groups of a byte string, as bits. */
  lemma FirstGroups(b: bytes)
    requires |b| > 0
    ensures
      var a, c, d := b[0], if |b| > 1 then b[1] else 0, if |b| > 2 then b[2] else 0;
      First(a) == SixBits(b, 0) && Second(a, c) == SixBits(b, 1) && Third(c, d) == SixBits(b, 2) && Fourth(d) == SixBits(b, 3)
  {
    hide BitOf, Bit;
    var a, c, d := b[0], if |b| > 1 then b[1] else 0, if |b| > 2 then b[2] else 0;
    ByteParts(a);
    ByteParts(c);
    ByteParts(d);
    GroupBits(b, a, c, d);
  }

  /** The first 24 bits are those of the first three bytes, a missing byte counting as zero. */
  lemma GroupBits(b: bytes, a: byte, c: byte, d: byte)
    requires |b| > 0 && a == b[0] && c == (if |b| > 1 then b[1] else 0) && d == if |b| > 2 then b[2] else 0
    ensures SixBits(b, 0) == 32 * BitOf(a, 0) + 16 * BitOf(a, 1) + 8 * BitOf(a, 2) + 4 * BitOf(a, 3) + 2 * BitOf(a, 4) + BitOf(a, 5)
    ensures SixBits(b, 1) == 32 * BitOf(a, 6) + 16 * BitOf(a, 7) + 8 * BitOf(c, 0) + 4 * BitOf(c, 1) + 2 * BitOf(c, 2) + BitOf(c, 3)
    ensures SixBits(b, 2) == 32 * BitOf(c, 4) + 16 * BitOf(c, 5) + 8 * BitOf(c, 6) + 4 * BitOf(c, 7) + 2 * BitOf(d, 0) + BitOf(d, 1)
    ensures SixBits(b, 3) == 32 * BitOf(d, 2) + 16 * BitOf(d, 3) + 8 * BitOf(d, 4) + 4 * BitOf(d, 5) + 2 * BitOf(d, 6) + BitOf(d, 7)
  {
    hide BitOf, Bit;
    ZeroBits();
    forall j: nat | j < 24
      ensures Bit(b, j) == if j < 8 then BitOf(a, j) else if j < 16 then BitOf(c, j - 8) else BitOf(d, j - 16)
    {
      BitAt(b, j);
    }
  }

  lemma ZeroBits()
    ensures forall t: nat :: t < 8 ==> BitOf(0, t) == 0
  {
    forall t: nat | t < 8 ensures BitOf(0, t) == 0 { ZeroBit(t); }
  }

  lemma {:induction false} ZeroBit(t: nat)
    requires t < 8
    ensures BitOf(0, t) == 0
    decreases 8 - t
  {
    if t < 7 { ZeroBit(t + 1); }
  }

  lemma BitAt(b: bytes, j: nat)
    requires j < 24
    ensures Bit(b, j) ==
      if j < 8 then (if |b| > 0 then BitOf(b[0] as int, j) else 0)
      else if j < 16 then (if |b| > 1 then BitOf(b[1] as int, j - 8) else 0)
      else if |b| > 2 then BitOf(b[2] as int, j - 16) else 0
  {
  }

  lemma BitShift(b: bytes, j: nat)
    requires |b| >= 3
    ensures Bit(b, j + 24) == Bit(b[3..], j)
  {
    assert (j + 24) / 8 == j / 8 + 3 && (j + 24) % 8 == j % 8;
  }

  lemma SixBitsShift(b: bytes, i: nat)
    requires |b| >= 3
    ensures SixBits(b, i + 4) == SixBits(b[3..], i)
  {
    BitShift(b, 6 * i);
    BitShift(b, 6 * i + 1);
    BitShift(b, 6 * i + 2);
    BitShift(b, 6 * i + 3);
    BitShift(b, 6 * i + 4);
    BitShift(b, 6 * i + 5);
    hide Bit;
  }

  lemma {:induction false} SplitIsBits(b: bytes, i: nat)
    requires i < |Split(b)|
    ensures Split(b)[i] == SixBits(b, i)
  {
    SplitLength(b);
    hide First, Second, Third, Fourth, SixBits;
    if i >= 4 {
      SplitIsBits(b[3..], i - 4);
      SixBitsShift(b, i - 4);
    } else {
      FirstGroups(b);
    }
  }

  /** Letter i of the encoding is the alphabet's letter at the number that the bytes' bits 6i to 6i+5 form. */
  lemma EncodedByBits(b: bytes, i: nat)
    requires i < |ToBase64Url(b)|
    ensures |ToBase64Url(b)| == (4 * |b| + 2) / 3 && SixBits(b, i) < 64
    ensures ToBase64Url(b)[i] == ALPHABET[SixBits(b, i)]
  {
    SplitLength(b);
    SplitIsBits(b, i);
    CharIsLetter(Split(b)[i]);
  }

  lemma CharIsLetter(x: sextet)
    ensures |ALPHABET| == 64 && Char(x) == ALPHABET[x]
  {
    if x < 26 {
      CapitalIs(x);
    } else if x < 52 {
      SmallIs(x - 26);
    } else if x < 62 {
      assert "0123456789"[x - 52] == '0' + (x - 52) as char;
    }
  }

  lemma CapitalIs(k: nat)
    requires k < 26
    ensures "ABCDEFGHIJKLMNOPQRSTUVWXYZ"[k] == 'A' + k as char
  {
    match k
    case 0 => case 1 => case 2 => case 3 => case 4 => case 5 => case 6 => case 7 =>
    case 8 => case 9 => case 10 => case 11 => case 12 => case 13 => case 14 => case 15 =>
    case 16 => case 17 => case 18 => case 19 => case 20 => case 21 => case 22 => case 23 =>
    case 24 => case _ =>
  }

  lemma SmallIs(k: nat)
    requires k < 26
    ensures "abcdefghijklmnopqrstuvwxyz"[k] == 'a' + k as char
  {
    match k
    case 0 => case 1 => case 2 => case 3 => case 4 => case 5 => case 6 => case 7 =>
    case 8 => case 9 => case 10 => case 11 => case 12 => case 13 => case 14 => case 15 =>
    case 16 => case 17 => case 18 => case 19 => case 20 => case 21 => case 22 => case 23 =>
    case 24 => case _ =>
  }
}
