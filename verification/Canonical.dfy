/** Length-prefixed canonical encoding (canonical.ts). */
module Canonical {
  import opened Wrappers
  import opened Bytes

  datatype Field = Text(s: string) | Raw(b: bytes) {
    function Content(): bytes {
      match this
      case Text(s) => Utf8(s)
      case Raw(b) => b
    }
  }

  const LIMIT := 0x1_0000_0000

  predicate Fits(fields: seq<Field>) {
    forall i :: 0 <= i < |fields| ==> |fields[i].Content()| < LIMIT
  }

  function Part(f: Field): bytes
    requires |f.Content()| < LIMIT
  {
    U32(|f.Content()|) + f.Content()
  }

  function Encoded(fields: seq<Field>): bytes
    requires Fits(fields)
  {
    if |fields| == 0 then [] else Part(fields[0]) + Encoded(fields[1..])
  }

  /** None stands for the RangeError of a length that four bytes cannot hold. */
  function CanonicalBytes(fields: seq<Field>): Option<bytes> {
    if Fits(fields) then Some(Encoded(fields)) else None
  }

  lemma {:induction false} EncodedAppend(fields: seq<Field>, f: Field)
    requires Fits(fields + [f])
    ensures Fits(fields) && |f.Content()| < LIMIT
    ensures Encoded(fields + [f]) == Encoded(fields) + Part(f)
  {
    assert (fields + [f])[|fields|] == f;
    assert forall i :: 0 <= i < |fields| ==> (fields + [f])[i] == fields[i];
    if |fields| > 0 {
      assert (fields + [f])[1..] == fields[1..] + [f];
      EncodedAppend(fields[1..], f);
    }
  }

  function Concat(parts: seq<bytes>): bytes {
    if |parts| == 0 then [] else Concat(parts[..|parts| - 1]) + parts[|parts| - 1]
  }

  /** `canonicalEncode`: a length and the field's bytes are pushed for every field, then joined. */
  method CanonicalEncode(fields: seq<Field>) returns (r: Option<bytes>)
    ensures r == CanonicalBytes(fields)
  {
    var parts: seq<bytes> := [];
    for n := 0 to |fields|
      invariant Fits(fields[..n]) && Concat(parts) == Encoded(fields[..n])
    {
      var content := fields[n].Content();
      if |content| >= LIMIT {
        return None;
      }
      var length := U32(|content|);
      ghost var before := parts;
      parts := parts + [length] + [content];
      assert parts[..|parts| - 1] == before + [length] && (before + [length])[..|before|] == before;
      assert Concat(parts) == Concat(before) + length + content;
      assert fields[..n + 1] == fields[..n] + [fields[n]];
      EncodedAppend(fields[..n], fields[n]);
      assert Concat(before) + length + content == Concat(before) + (length + content);
    }
    assert fields[..|fields|] == fields;
    r := Some(Concat(parts));
  }

  /** Where the first field ends is determined by the bytes themselves. */
  lemma PartPrefix(f: Field, g: Field, x: bytes, y: bytes)
    requires |f.Content()| < LIMIT && |g.Content()| < LIMIT && Part(f) + x == Part(g) + y
    ensures f.Content() == g.Content() && x == y
  {
    var m, n := |f.Content()|, |g.Content()|;
    assert (Part(f) + x)[..4] == U32(m) && (Part(g) + y)[..4] == U32(n);
    U32RoundTrip(m);
    U32RoundTrip(n);
    assert (Part(f) + x)[4..4 + m] == f.Content() && (Part(g) + y)[4..4 + n] == g.Content();
    assert (Part(f) + x)[4 + m..] == x && (Part(g) + y)[4 + n..] == y;
  }

  predicate SameContents(f: seq<Field>, g: seq<Field>) {
    |f| == |g| && forall i :: 0 <= i < |f| ==> f[i].Content() == g[i].Content()
  }

  /** No two field vectors, of any counts, share an encoding unless they agree field by field. */
  lemma {:induction false} EncodedInjective(f: seq<Field>, g: seq<Field>)
    requires Fits(f) && Fits(g)
    ensures Encoded(f) == Encoded(g) <==> SameContents(f, g)
  {
    if |f| > 0 && |g| > 0 {
      EncodedInjective(f[1..], g[1..]);
      if Encoded(f) == Encoded(g) {
        PartPrefix(f[0], g[0], Encoded(f[1..]), Encoded(g[1..]));
        forall i | 0 <= i < |f| ensures f[i].Content() == g[i].Content() {
          if i > 0 { assert f[1..][i - 1].Content() == g[1..][i - 1].Content(); }
        }
      }
      if SameContents(f, g) {
        forall i | 0 <= i < |f| - 1 ensures f[1..][i].Content() == g[1..][i].Content() {
          assert f[i + 1].Content() == g[i + 1].Content();
        }
      }
    }
  }

  lemma CanonicalInjective(f: seq<Field>, g: seq<Field>)
    requires CanonicalBytes(f).Some? && CanonicalBytes(f) == CanonicalBytes(g)
    ensures SameContents(f, g)
  {
    EncodedInjective(f, g);
  }

  /** Reading the encoding back: as many fields as there are length prefixes, each as long as its prefix says. */
  function Fields(b: bytes): Option<seq<bytes>> {
    if |b| == 0 then Some([])
    else if |b| < 4 then None
    else
      var n := BigEndian(b[..4]);
      if n > |b| - 4 then None
      else
        match Fields(b[4 + n..])
        case None => None
        case Some(rest) => Some([b[4..4 + n]] + rest)
  }

  function Contents(fields: seq<Field>): (c: seq<bytes>)
    ensures |c| == |fields| && forall i :: 0 <= i < |fields| ==> c[i] == fields[i].Content()
  {
    seq(|fields|, i requires 0 <= i < |fields| => fields[i].Content())
  }

  /** The encoding reads back as the fields' bytes, in order. */
  lemma {:induction false} EncodedReads(fields: seq<Field>)
    requires Fits(fields)
    ensures Fields(Encoded(fields)) == Some(Contents(fields))
  {
    if |fields| > 0 {
      var content, rest := fields[0].Content(), Encoded(fields[1..]);
      var b, n := Encoded(fields), |fields[0].Content()|;
      EncodedReads(fields[1..]);
      IntegersRead(n);
      assert b == U32(n) + content + rest;
      assert b[..4] == U32(n) && b[4..4 + n] == content && b[4 + n..] == rest;
      assert Contents(fields) == [content] + Contents(fields[1..]);
    }
  }

  // ---------- integers ----------

  const MAX_SAFE_INTEGER := 0x1F_FFFF_FFFF_FFFF

  /** `canonicalUInt`: None stands for its RangeError. */
  function CanonicalUInt(value: int): (r: Option<bytes>)
    ensures r.Some? ==> |r.value| == 8
  {
    if 0 <= value <= MAX_SAFE_INTEGER then Some(U64(value)) else None
  }

  lemma CanonicalUIntInjective(m: int, n: int)
    requires CanonicalUInt(m).Some? && CanonicalUInt(m) == CanonicalUInt(n)
    ensures m == n
  {
    U64Injective(m, n);
  }
}
