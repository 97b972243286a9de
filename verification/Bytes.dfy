/** Bytes, fixed-width big-endian integers, and UTF-8. */
module Bytes {
  type byte = b: int | 0 <= b < 256
  type bytes = seq<byte>

  /** `writeUInt32BE`, on the values it accepts. */
  function U32(n: nat): (b: bytes)
    requires n < 0x1_0000_0000
    ensures |b| == 4
  {
    [n / 0x100_0000, n / 0x1_0000 % 256, n / 256 % 256, n % 256]
  }

  /** `readUInt32BE` at offset zero. */
  function FromU32(b: bytes): nat
    requires |b| >= 4
  {
    b[0] as int * 0x100_0000 + b[1] as int * 0x1_0000 + b[2] as int * 256 + b[3] as int
  }

  lemma U32RoundTrip(n: nat)
    requires n < 0x1_0000_0000
    ensures FromU32(U32(n)) == n
  {
    var a, b, c := n / 256, n / 0x1_0000, n / 0x100_0000;
    Digits256(n);
    Digits256(a);
    Digits256(b);
    assert b == a / 256 && c == b / 256;
    hide U32;
    assert U32(n) == [c, b % 256, a % 256, n % 256] by { U32Digits(n); }
  }

  lemma Digits256(n: nat)
    ensures n == n / 256 * 256 + n % 256
  {
  }

  lemma U32Digits(n: nat)
    requires n < 0x1_0000_0000
    ensures U32(n) == [n / 0x100_0000, n / 0x1_0000 % 256, n / 256 % 256, n % 256]
  {
  }

  /** `writeBigUInt64BE`, on the values it accepts. */
  function U64(n: nat): (b: bytes)
    requires n < 0x1_0000_0000_0000_0000
    ensures |b| == 8
  {
    U32(n / 0x1_0000_0000) + U32(n % 0x1_0000_0000)
  }

  lemma U64Injective(m: nat, n: nat)
    requires m < 0x1_0000_0000_0000_0000 && n < 0x1_0000_0000_0000_0000 && U64(m) == U64(n)
    ensures m == n
  {
    assert U64(m)[..4] == U32(m / 0x1_0000_0000) && U64(m)[4..] == U32(m % 0x1_0000_0000);
    assert U64(n)[..4] == U32(n / 0x1_0000_0000) && U64(n)[4..] == U32(n % 0x1_0000_0000);
    U32RoundTrip(m / 0x1_0000_0000);
    U32RoundTrip(m % 0x1_0000_0000);
    U32RoundTrip(n / 0x1_0000_0000);
    U32RoundTrip(n % 0x1_0000_0000);
  }

  /** The number that bytes denote, most significant first. */
  function BigEndian(b: bytes): nat {
    if |b| == 0 then 0 else BigEndian(b[..|b| - 1]) * 256 + b[|b| - 1] as int
  }

  lemma FourBytes(b: bytes)
    requires |b| == 4
    ensures BigEndian(b) == FromU32(b)
  {
    assert b[..3][..2] == b[..2] && b[..2][..1] == b[..1] && b[..1][..0] == [];
    assert BigEndian(b[..1]) == b[0] as int;
    assert BigEndian(b[..2]) == b[0] as int * 256 + b[1] as int;
    assert BigEndian(b[..3]) == (b[0] as int * 256 + b[1] as int) * 256 + b[2] as int;
  }

  lemma {:induction false} BigEndianConcat(a: bytes, b: bytes)
    requires |b| <= 4
    ensures BigEndian(a + b) == BigEndian(a) * [1, 0x100, 0x1_0000, 0x100_0000, 0x1_0000_0000][|b|] + BigEndian(b)
  {
    if |b| == 0 {
      assert a + b == a;
    } else {
      BigEndianConcat(a, b[..|b| - 1]);
      assert (a + b)[..|a + b| - 1] == a + b[..|b| - 1];
    }
  }

  /** What the fixed-width writers write, read as a number, is the number written. */
  lemma IntegersRead(n: nat)
    ensures n < 0x1_0000_0000 ==> BigEndian(U32(n)) == n
    ensures n < 0x1_0000_0000_0000_0000 ==> BigEndian(U64(n)) == n
  {
    if n < 0x1_0000_0000 {
      U32RoundTrip(n);
      FourBytes(U32(n));
    }
    if n < 0x1_0000_0000_0000_0000 {
      var hi, lo := n / 0x1_0000_0000, n % 0x1_0000_0000;
      U32RoundTrip(hi);
      U32RoundTrip(lo);
      FourBytes(U32(hi));
      FourBytes(U32(lo));
      BigEndianConcat(U32(hi), U32(lo));
    }
  }

  // ---------- UTF-8 ----------

  function Utf8Char(c: char): (b: bytes)
    ensures 1 <= |b| <= 4
  {
    var n := c as int;
    if n < 0x80 then [n]
    else if n < 0x800 then [0xC0 + n / 0x40, 0x80 + n % 0x40]
    else if n < 0x1_0000 then [0xE0 + n / 0x1000, 0x80 + n / 0x40 % 0x40, 0x80 + n % 0x40]
    else [0xF0 + n / 0x4_0000, 0x80 + n / 0x1000 % 0x40, 0x80 + n / 0x40 % 0x40, 0x80 + n % 0x40]
  }

  /** How many bytes a character's first byte announces. */
  function Announced(first: byte): nat {
    if first < 0x80 then 1 else if first < 0xE0 then 2 else if first < 0xF0 then 3 else 4
  }

  /** The code point that the payload bits of one encoded character spell. */
  function CodePoint(b: bytes): int
    requires 1 <= |b| <= 4
  {
    var c := seq(|b|, i requires 0 <= i < |b| => b[i] as int);
    if |b| == 1 then c[0]
    else if |b| == 2 then (c[0] - 0xC0) * 0x40 + (c[1] - 0x80)
    else if |b| == 3 then (c[0] - 0xE0) * 0x1000 + (c[1] - 0x80) * 0x40 + (c[2] - 0x80)
    else (c[0] - 0xF0) * 0x4_0000 + (c[1] - 0x80) * 0x1000 + (c[2] - 0x80) * 0x40 + (c[3] - 0x80)
  }

  /** An encoded character reads back: its first byte announces its length, the others continue, the bits are its own. */
  lemma Utf8CharReads(c: char)
    ensures
      var b := Utf8Char(c);
      && |b| == Announced(b[0]) && CodePoint(b) == c as int
      && (forall i :: 1 <= i < |b| ==> 0x80 <= b[i] < 0xC0)
      && (|b| == 1 <==> c as int < 0x80) && (|b| <= 2 <==> c as int < 0x800) && (|b| <= 3 <==> c as int < 0x1_0000)
  {
    Base64Digits(c as int);
  }

  function Utf8(s: string): bytes {
    if |s| == 0 then [] else Utf8Char(s[0]) + Utf8(s[1..])
  }

  /** The first byte of a character's encoding says how long it is, and the rest says which it is. */
  lemma Utf8CharPrefix(c: char, d: char, x: bytes, y: bytes)
    requires Utf8Char(c) + x == Utf8Char(d) + y
    ensures c == d && x == y
  {
    var s, t := Utf8Char(c), Utf8Char(d);
    assert (s + x)[0] == s[0] && (t + y)[0] == t[0];
    assert |s| == |t|;
    assert (s + x)[..|s|] == s && (t + y)[..|t|] == t;
    assert (s + x)[|s|..] == x && (t + y)[|t|..] == y;
    SameCode(c, d);
  }

  /** A number is its quotients and remainders by 64. */
  lemma Base64Digits(n: nat)
    ensures n == n / 0x40 * 0x40 + n % 0x40
    ensures n == n / 0x1000 * 0x1000 + n / 0x40 % 0x40 * 0x40 + n % 0x40
    ensures n == n / 0x4_0000 * 0x4_0000 + n / 0x1000 % 0x40 * 0x1000 + n / 0x40 % 0x40 * 0x40 + n % 0x40
  {
    var a, b := n / 0x40, n / 0x1000;
    assert b == a / 0x40 && n / 0x4_0000 == b / 0x40;
    assert n == a * 0x40 + n % 0x40 && a == b * 0x40 + a % 0x40 && b == n / 0x4_0000 * 0x40 + b % 0x40;
  }

  lemma SameCode(c: char, d: char)
    requires Utf8Char(c) == Utf8Char(d)
    ensures c == d
  {
    Base64Digits(c as int);
    Base64Digits(d as int);
    var s := Utf8Char(c);
    assert forall i :: 0 <= i < |s| ==> s[i] == Utf8Char(d)[i];
    assert c as int == d as int;
  }

  lemma {:induction false} Utf8Injective(s: string, t: string)
    requires Utf8(s) == Utf8(t)
    ensures s == t
  {
    if |s| > 0 && |t| > 0 {
      Utf8CharPrefix(s[0], t[0], Utf8(s[1..]), Utf8(t[1..]));
      Utf8Injective(s[1..], t[1..]);
      assert s == [s[0]] + s[1..] && t == [t[0]] + t[1..];
    }
  }

  lemma {:induction false} Utf8Length(s: string)
    ensures |s| <= |Utf8(s)| <= 4 * |s|
  {
    if |s| > 0 { Utf8Length(s[1..]); }
  }
}
