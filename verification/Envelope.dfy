/** Envelopes, their field bounds, and the headers that are signed (envelope.ts, version.ts). */
module Envelope {
  import opened Wrappers
  import opened Bytes
  import opened Base64Url
  import opened Canonical

  const VERSION := "SABCL/1"
  const REQUEST_KEY := "SABCL/1 request-key"
  const RESPONSE_KEY := "SABCL/1 response-key"
  const REQUEST_SIGNATURE := "SABCL/1 request-signature"
  const RESPONSE_SIGNATURE := "SABCL/1 response-signature"
  const NONCE_BYTES := 12
  const TAG_BYTES := 16
  const MESSAGE_ID_BYTES := 16
  const MAX_PLAINTEXT_BYTES := 65_536
  const MAX_ENVELOPE_BYTES := 262_144
  const MAX_HOP_LIMIT := 4
  const MAX_TTL_SECONDS := 120
  const CLOCK_SKEW_SECONDS := 5

  datatype Header = Header(
    v: string, mid: string, rt: string, skid: string, rkid: string, epk: string,
    iat: int, exp: int, n: string, hl: int, pad: int)

  datatype Request = Request(header: Header, ct: string, tag: string, sig: string)

  datatype ReplyHeader = ReplyHeader(v: string, cid: string, skid: string, n: string, pad: int)

  datatype Response = Response(header: ReplyHeader, ct: string, tag: string, sig: string)

  // ---------- field bounds ----------

  predicate Base64UrlShape(s: string, max: nat) {
    1 <= |s| <= max && forall i :: 0 <= i < |s| ==> InAlphabet(s[i])
  }

  predicate IsLower(c: char) { 'a' <= c <= 'z' }
  predicate IsDigit(c: char) { '0' <= c <= '9' }

  /** `<service>.v<version>`, with dot the position of the last dot. */
  predicate KeyIdAt(s: string, dot: nat) {
    && 1 <= dot && dot + 2 < |s| && IsLower(s[0]) && s[dot] == '.' && s[dot + 1] == 'v'
    && (forall i :: 1 <= i < dot ==> IsLower(s[i]) || IsDigit(s[i]) || s[i] == '-')
    && (forall i :: dot + 2 <= i < |s| ==> IsDigit(s[i]))
  }

  predicate KeyIdShape(s: string) {
    3 <= |s| <= 64 && exists dot: nat :: dot < |s| && KeyIdAt(s, dot)
  }

  predicate IsInt(n: int) { 0 <= n <= MAX_SAFE_INTEGER }

  /** `sabclEnvelopeSchema`. */
  predicate RequestShape(e: Request) {
    && e.header.v == VERSION && Base64UrlShape(e.header.mid, 32) && Base64UrlShape(e.header.rt, 64)
    && KeyIdShape(e.header.skid) && KeyIdShape(e.header.rkid) && Base64UrlShape(e.header.epk, 64)
    && IsInt(e.header.iat) && IsInt(e.header.exp) && Base64UrlShape(e.header.n, 24)
    && 0 <= e.header.hl <= MAX_HOP_LIMIT && 0 < e.header.pad <= MAX_SAFE_INTEGER
    && Base64UrlShape(e.ct, MAX_ENVELOPE_BYTES) && Base64UrlShape(e.tag, 32) && Base64UrlShape(e.sig, 128)
  }

  /** `sabclResponseEnvelopeSchema`. */
  predicate ResponseShape(e: Response) {
    && e.header.v == VERSION && Base64UrlShape(e.header.cid, 32) && KeyIdShape(e.header.skid)
    && Base64UrlShape(e.header.n, 24) && 0 < e.header.pad <= MAX_SAFE_INTEGER
    && Base64UrlShape(e.ct, MAX_ENVELOPE_BYTES) && Base64UrlShape(e.tag, 32) && Base64UrlShape(e.sig, 128)
  }

  // ---------- headers ----------

  predicate SafeInts(h: Header) { IsInt(h.iat) && IsInt(h.exp) && IsInt(h.hl) && IsInt(h.pad) }

  function HeaderFields(h: Header): seq<Field>
    requires SafeInts(h)
  {
    [Text(h.v), Text(h.mid), Text(h.rt), Text(h.skid), Text(h.rkid), Text(h.epk),
     Raw(CanonicalUInt(h.iat).value), Raw(CanonicalUInt(h.exp).value), Text(h.n),
     Raw(CanonicalUInt(h.hl).value), Raw(CanonicalUInt(h.pad).value)]
  }

  /** `canonicalRequestHeader`: None stands for a RangeError. */
  function CanonicalRequestHeader(h: Header): Option<bytes> {
    if SafeInts(h) then CanonicalBytes(HeaderFields(h)) else None
  }

  function ReplyHeaderFields(h: ReplyHeader): seq<Field>
    requires IsInt(h.pad)
  {
    [Text(h.v), Text(h.cid), Text(h.skid), Text(h.n), Raw(CanonicalUInt(h.pad).value)]
  }

  /** `canonicalResponseHeader`. */
  function CanonicalResponseHeader(h: ReplyHeader): Option<bytes> {
    if IsInt(h.pad) then CanonicalBytes(ReplyHeaderFields(h)) else None
  }

  /** A request header is determined, field by field, by the bytes that are signed for it. */
  lemma RequestHeaderInjective(g: Header, h: Header)
    requires CanonicalRequestHeader(g).Some? && CanonicalRequestHeader(g) == CanonicalRequestHeader(h)
    ensures g == h
  {
    var f, k := HeaderFields(g), HeaderFields(h);
    CanonicalInjective(f, k);
    assert forall i :: 0 <= i < 11 ==> f[i].Content() == k[i].Content();
    TextsEqual(f[0], k[0]);
    TextsEqual(f[1], k[1]);
    TextsEqual(f[2], k[2]);
    TextsEqual(f[3], k[3]);
    TextsEqual(f[4], k[4]);
    TextsEqual(f[5], k[5]);
    TextsEqual(f[8], k[8]);
    IntsEqual(f[6], k[6], g.iat, h.iat);
    IntsEqual(f[7], k[7], g.exp, h.exp);
    IntsEqual(f[9], k[9], g.hl, h.hl);
    IntsEqual(f[10], k[10], g.pad, h.pad);
  }

  /** A request's signed header reads back as its eleven fields in their fixed order, the integers big-endian. */
  lemma RequestHeaderReads(h: Header)
    requires CanonicalRequestHeader(h).Some?
    ensures SafeInts(h)
    ensures
      var fields := Fields(CanonicalRequestHeader(h).value);
      && fields.Some? && |fields.value| == 11
      && fields.value[..6] == [Utf8(h.v), Utf8(h.mid), Utf8(h.rt), Utf8(h.skid), Utf8(h.rkid), Utf8(h.epk)]
      && (|fields.value[6]| == |fields.value[7]| == |fields.value[9]| == |fields.value[10]| == 8)
      && BigEndian(fields.value[6]) == h.iat && BigEndian(fields.value[7]) == h.exp && fields.value[8] == Utf8(h.n)
      && BigEndian(fields.value[9]) == h.hl && BigEndian(fields.value[10]) == h.pad
  {
    hide Utf8, U64, BigEndian, Fields, Encoded, U32;
    EncodedReads(HeaderFields(h));
    var c := Contents(HeaderFields(h));
    assert forall i :: 0 <= i < 11 ==> c[i] == HeaderFields(h)[i].Content();
    IntegerField(h.iat);
    IntegerField(h.exp);
    IntegerField(h.hl);
    IntegerField(h.pad);
  }

  lemma IntegerField(n: int)
    requires IsInt(n)
    ensures BigEndian(CanonicalUInt(n).value) == n && |CanonicalUInt(n).value| == 8
  {
    IntegersRead(n);
  }

  lemma ResponseHeaderReads(h: ReplyHeader)
    requires CanonicalResponseHeader(h).Some?
    ensures IsInt(h.pad)
    ensures
      var fields := Fields(CanonicalResponseHeader(h).value);
      && fields.Some? && |fields.value| == 5
      && fields.value[..4] == [Utf8(h.v), Utf8(h.cid), Utf8(h.skid), Utf8(h.n)]
      && |fields.value[4]| == 8 && BigEndian(fields.value[4]) == h.pad
  {
    hide Utf8, U64, BigEndian, Fields, Encoded, U32;
    EncodedReads(ReplyHeaderFields(h));
    var c := Contents(ReplyHeaderFields(h));
    assert forall i :: 0 <= i < 5 ==> c[i] == ReplyHeaderFields(h)[i].Content();
    IntegerField(h.pad);
  }

  /** What is signed reads back as domain, header, ciphertext and tag. */
  lemma SigningInputReads(domain: string, aad: bytes, ct: bytes, tag: bytes)
    requires SigningInput(domain, aad, ct, tag).Some?
    ensures Fields(SigningInput(domain, aad, ct, tag).value) == Some([Utf8(domain), aad, ct, tag])
  {
    var fields := [Text(domain), Raw(aad), Raw(ct), Raw(tag)];
    EncodedReads(fields);
    assert Contents(fields) == [Utf8(domain), aad, ct, tag];
  }

  lemma TextsEqual(f: Field, g: Field)
    requires f.Text? && g.Text? && f.Content() == g.Content()
    ensures f == g
  {
    Utf8Injective(f.s, g.s);
  }

  lemma IntsEqual(f: Field, g: Field, m: int, n: int)
    requires IsInt(m) && IsInt(n) && f == Raw(CanonicalUInt(m).value) && g == Raw(CanonicalUInt(n).value)
    requires f.Content() == g.Content()
    ensures m == n
  {
    CanonicalUIntInjective(m, n);
  }

  lemma ResponseHeaderInjective(g: ReplyHeader, h: ReplyHeader)
    requires CanonicalResponseHeader(g).Some? && CanonicalResponseHeader(g) == CanonicalResponseHeader(h)
    ensures g == h
  {
    var f, k := ReplyHeaderFields(g), ReplyHeaderFields(h);
    CanonicalInjective(f, k);
    assert forall i :: 0 <= i < 5 ==> f[i].Content() == k[i].Content();
    TextsEqual(f[0], k[0]);
    TextsEqual(f[1], k[1]);
    TextsEqual(f[2], k[2]);
    TextsEqual(f[3], k[3]);
    IntsEqual(f[4], k[4], g.pad, h.pad);
  }

  /** No request header reads as a response header. */
  lemma HeadersApart(g: Header, h: ReplyHeader)
    requires CanonicalRequestHeader(g).Some?
    ensures CanonicalRequestHeader(g) != CanonicalResponseHeader(h)
  {
    if CanonicalRequestHeader(g) == CanonicalResponseHeader(h) {
      CanonicalInjective(HeaderFields(g), ReplyHeaderFields(h));
    }
  }

  /** What is signed: a domain tag, the header, the ciphertext and its tag. */
  function SigningInput(domain: string, aad: bytes, ct: bytes, tag: bytes): Option<bytes> {
    CanonicalBytes([Text(domain), Raw(aad), Raw(ct), Raw(tag)])
  }

  lemma SigningInputInjective(d: string, aad: bytes, ct: bytes, tag: bytes, d': string, aad': bytes, ct': bytes, tag': bytes)
    requires SigningInput(d, aad, ct, tag).Some? && SigningInput(d, aad, ct, tag) == SigningInput(d', aad', ct', tag')
    ensures d == d' && aad == aad' && ct == ct' && tag == tag'
  {
    var f, k := [Text(d), Raw(aad), Raw(ct), Raw(tag)], [Text(d'), Raw(aad'), Raw(ct'), Raw(tag')];
    CanonicalInjective(f, k);
    assert forall i :: 0 <= i < 4 ==> f[i].Content() == k[i].Content();
    TextsEqual(f[0], k[0]);
    assert f[1].Content() == k[1].Content() && f[2].Content() == k[2].Content() && f[3].Content() == k[3].Content();
  }

  // ---------- padding buckets ----------

  const BUCKETS: seq<nat> := [512, 1_024, 2_048, 4_096, 8_192, 16_384, 32_768, 65_536]

  /** `find`: the first entry that holds the length. */
  function FirstHolding(buckets: seq<nat>, length: nat): (r: Option<nat>)
    ensures r.Some? ==> length <= r.value
  {
    if |buckets| == 0 then None
    else if length <= buckets[0] then Some(buckets[0])
    else FirstHolding(buckets[1..], length)
  }

  /** `paddingBucketFor`: None stands for the RangeError. */
  function PaddingBucketFor(length: nat): (r: Option<nat>)
    ensures r.Some? ==> length <= r.value
  {
    FirstHolding(BUCKETS, length)
  }

  lemma {:induction false} FirstHoldingIsLeast(buckets: seq<nat>, length: nat)
    requires forall i, j :: 0 <= i < j < |buckets| ==> buckets[i] < buckets[j]
    ensures
      match FirstHolding(buckets, length)
      case None => forall b :: b in buckets ==> b < length
      case Some(r) => r in buckets && length <= r && forall b :: b in buckets && length <= b ==> r <= b
  {
    if |buckets| > 0 && length > buckets[0] {
      FirstHoldingIsLeast(buckets[1..], length);
      forall b | b in buckets ensures b == buckets[0] || b in buckets[1..] {
        var i :| 0 <= i < |buckets| && buckets[i] == b;
        if i > 0 { assert buckets[1..][i - 1] == b; }
      }
    }
  }

  /** The bucket chosen is the least that holds the length, and there is one up to 65536 bytes. */
  lemma LeastBucket(length: nat)
    ensures PaddingBucketFor(length).Some? <==> length <= 65_536
    ensures PaddingBucketFor(length).Some? ==>
      var bucket := PaddingBucketFor(length).value;
      bucket in BUCKETS && length <= bucket && forall b :: b in BUCKETS && length <= b ==> bucket <= b
  {
    FirstHoldingIsLeast(BUCKETS, length);
    assert BUCKETS[7] == 65_536 && 65_536 in BUCKETS;
    assert forall b :: b in BUCKETS ==> b <= 65_536;
  }
}
