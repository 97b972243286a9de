/** What sealing promises: success conditions, field bounds, round trips and authenticity. */
module SealTheorems {
  import opened Wrappers
  import opened Bytes
  import opened Base64Url
  import opened Canonical
  import opened Envelope
  import opened Padding
  import opened Keyring
  import opened Seal

  // ---------- sizes ----------

  lemma {:induction false} EncodedLength(fields: seq<Field>)
    requires forall i :: 0 <= i < |fields| ==> |fields[i].Content()| <= 256
    ensures Fits(fields) && |Encoded(fields)| <= 260 * |fields|
  {
    if |fields| > 0 { EncodedLength(fields[1..]); }
  }

  lemma ShortTextFits(s: string)
    requires |s| <= 64
    ensures |Text(s).Content()| <= 256
  {
    Utf8Length(s);
  }

  /** A header with bounded texts and safe integers has a canonical form of at most 2860 bytes. */
  lemma HeaderEncodes(h: Header)
    requires SafeInts(h) && |h.v| <= 64 && |h.mid| <= 64 && |h.rt| <= 64 && |h.skid| <= 64 && |h.rkid| <= 64
    requires |h.epk| <= 64 && |h.n| <= 64
    ensures CanonicalRequestHeader(h).Some? && |CanonicalRequestHeader(h).value| <= 2860
  {
    hide Utf8, U32, U64, Encoded;
    ShortTextFits(h.v);
    ShortTextFits(h.mid);
    ShortTextFits(h.rt);
    ShortTextFits(h.skid);
    ShortTextFits(h.rkid);
    ShortTextFits(h.epk);
    ShortTextFits(h.n);
    EncodedLength(HeaderFields(h));
  }

  lemma InputsEncode(domain: string, aad: bytes, ct: bytes, tag: bytes)
    requires |domain| <= 64 && |aad| <= 2860 && |ct| <= 65_536 && |tag| == TAG_BYTES
    ensures KeyInfo(domain, aad).Some? && SigningInput(domain, aad, ct, tag).Some?
  {
    ShortTextFits(domain);
  }

  lemma EncodesWithin(b: bytes, max: nat)
    requires 0 < |b| && (4 * |b| + 2) / 3 <= max
    ensures Base64UrlShape(ToBase64Url(b), max) && FromBase64Url(ToBase64Url(b)) == Some(b)
  {
    RoundTrip(b);
  }

  // ---------- when sealing succeeds ----------

  ghost predicate Sealable<P>(j: Json<P>, o: SealOptions<P>) {
    && 0 < o.ttl <= MAX_TTL_SECONDS && 1 <= o.hopLimit <= MAX_HOP_LIMIT && !o.recipient.revoked
    && (o.sender.notAfter.Some? ==> o.now <= o.sender.notAfter.value)
    && |j.stringify(o.payload)| <= 65_532
    && Base64UrlShape(o.routeToken, 64) && KeyIdShape(o.sender.keyId) && KeyIdShape(o.recipient.keyId)
    && IsInt(o.now) && IsInt(o.now + o.ttl)
  }

  lemma HeaderForEncodes<P>(c: Suite, j: Json<P>, o: SealOptions<P>, bucket: nat)
    requires KeyLengthLaw(c) && Drawn(o) && Sealable(j, o) && bucket <= 65_536
    ensures
      var h := HeaderFor(c, o, bucket);
      && CanonicalRequestHeader(h).Some? && |CanonicalRequestHeader(h).value| <= 2860
      && Base64UrlShape(h.mid, 32) && Base64UrlShape(h.epk, 64) && Base64UrlShape(h.n, 24)
  {
    assert |c.publicOf(o.ephemeral)| == 32;
    EncodesWithin(o.messageId, 32);
    EncodesWithin(c.publicOf(o.ephemeral), 64);
    EncodesWithin(o.nonce, 24);
    HeaderEncodes(HeaderFor(c, o, bucket));
  }

  /**
   * Sealing to a genuine recipient key succeeds exactly for callers within the protocol's bounds; the envelope
   * then meets every field bound (it is an Ok only if RequestShape holds of it).
   */
  lemma SealSucceedsIff<P>(c: Suite, j: Json<P>, o: SealOptions<P>, recipientKey: bytes)
    requires Laws(c) && Drawn(o) && o.recipient.encryption == c.publicOf(recipientKey)
    ensures SealRequest(c, j, o).Ok? <==> Sealable(j, o)
  {
    hide RequestShape, HeaderFor, CanonicalRequestHeader, KeyInfo, SigningInput;
    PadRoundTrip(j.stringify(o.payload));
    if Sealable(j, o) {
      var padded := Pad(j.stringify(o.payload)).value;
      PaddedIsBucket(j.stringify(o.payload));
      HeaderForEncodes(c, j, o, |padded|);
      var header := HeaderFor(c, o, |padded|);
      var aad := CanonicalRequestHeader(header).value;
      AgreeLaw(c, o.ephemeral, recipientKey);
      SealWithSucceeds(c, j, o, header, aad, c.agree(o.ephemeral, o.recipient.encryption).value, padded);
    }
    if SealRequest(c, j, o).Ok? { SealedShape(c, j, o); }
  }

  lemma PaddedIsBucket(payload: bytes)
    requires |payload| <= 65_532
    ensures Pad(payload).Ok? && 0 < |Pad(payload).value| <= 65_536
    ensures PaddingBucketFor(|payload| + PREFIX) == Some(|Pad(payload).value|)
  {
    PadRoundTrip(payload);
    LeastBucket(|payload| + PREFIX);
    assert forall b :: b in BUCKETS ==> 0 < b <= 65_536;
  }

  lemma SealWithSucceeds<P>(c: Suite, j: Json<P>, o: SealOptions<P>, header: Header, aad: bytes, secret: bytes, padded: bytes)
    requires Laws(c) && Drawn(o) && Sealable(j, o) && 0 < |padded| <= 65_536
    requires header == HeaderFor(c, o, |padded|) && |aad| <= 2860
    ensures SealWith(c, o, header, aad, secret, padded).Ok?
  {
    hide KeyInfo, SigningInput, Base64UrlShape, RequestShape, HeaderFor, KeyIdShape, Sealable, ToBase64Url, Laws;
    LawsApart(c);
    InputsEncode(REQUEST_KEY, aad, [], Zeros(TAG_BYTES));
    var key := c.derive(secret, o.nonce, KeyInfo(REQUEST_KEY, aad).value);
    var (ct, tag) := c.encrypt(key, o.nonce, padded, aad);
    EncryptLaw(c, key, o.nonce, padded, aad);
    InputsEncode(REQUEST_SIGNATURE, aad, ct, tag);
    var sig := c.sign(o.sender.signing, SigningInput(REQUEST_SIGNATURE, aad, ct, tag).value);
    SignLaw(c, o.sender.signing, SigningInput(REQUEST_SIGNATURE, aad, ct, tag).value);
    hide AeadLaw, SignatureLaw, AgreementLaw, KeyLengthLaw;
    EncodesWithin(ct, MAX_ENVELOPE_BYTES);
    EncodesWithin(tag, 32);
    EncodesWithin(sig, 128);
    SealedMeetsBounds(c, j, o, |padded|, ToBase64Url(ct), ToBase64Url(tag), ToBase64Url(sig));
  }

  lemma SealedMeetsBounds<P>(c: Suite, j: Json<P>, o: SealOptions<P>, bucket: nat, ct: string, tag: string, sig: string)
    requires KeyLengthLaw(c) && Drawn(o) && Sealable(j, o) && 0 < bucket <= 65_536
    requires Base64UrlShape(ct, MAX_ENVELOPE_BYTES) && Base64UrlShape(tag, 32) && Base64UrlShape(sig, 128)
    ensures RequestShape(Request(HeaderFor(c, o, bucket), ct, tag, sig))
  {
    hide Base64UrlShape, KeyIdShape, CanonicalRequestHeader, ToBase64Url;
    HeaderForEncodes(c, j, o, bucket);
  }

  lemma LawsApart(c: Suite)
    requires Laws(c)
    ensures AgreementLaw(c) && AeadLaw(c) && SignatureLaw(c) && KeyLengthLaw(c)
  {
  }

  lemma SignLaw(c: Suite, k: bytes, m: bytes)
    requires SignatureLaw(c)
    ensures c.verify(c.verifierOf(k), m, c.sign(k, m)) && |c.sign(k, m)| == 64
  {
  }

  lemma AgreeLaw(c: Suite, a: bytes, b: bytes)
    requires AgreementLaw(c)
    ensures c.agree(a, c.publicOf(b)).Some? && c.agree(a, c.publicOf(b)) == c.agree(b, c.publicOf(a))
  {
  }

  lemma EncryptLaw(c: Suite, k: bytes, n: bytes, p: bytes, aad: bytes)
    requires AeadLaw(c)
    ensures |c.encrypt(k, n, p, aad).0| == |p| && |c.encrypt(k, n, p, aad).1| == TAG_BYTES
    ensures c.decrypt(k, n, c.encrypt(k, n, p, aad).0, c.encrypt(k, n, p, aad).1, aad) == Some(p)
  {
  }

  lemma SealedShape<P>(c: Suite, j: Json<P>, o: SealOptions<P>)
    requires SealRequest(c, j, o).Ok?
    ensures Pad(j.stringify(o.payload)).Ok? && RequestShape(SealRequest(c, j, o).value.0)
    ensures SealRequest(c, j, o).value.0.header == HeaderFor(c, o, |Pad(j.stringify(o.payload)).value|)
    ensures Base64UrlShape(o.routeToken, 64) && KeyIdShape(o.sender.keyId) && KeyIdShape(o.recipient.keyId)
    ensures IsInt(o.now) && IsInt(o.now + o.ttl)
  {
    hide KeyInfo, SigningInput, CanonicalRequestHeader, KeyIdShape, Base64UrlShape;
  }

  // ---------- round trips ----------

  /** How the strings of a sealed envelope came about. */
  lemma SealedParts<P>(c: Suite, j: Json<P>, o: SealOptions<P>)
    returns (padded: bytes, aad: bytes, key: bytes, ct: bytes, tag: bytes, message: bytes)
    requires SealRequest(c, j, o).Ok?
    ensures Pad(j.stringify(o.payload)) == Ok(padded)
    ensures SealRequest(c, j, o).value.0.header == HeaderFor(c, o, |padded|)
    ensures c.agree(o.ephemeral, o.recipient.encryption) == Some(SealRequest(c, j, o).value.1)
    ensures CanonicalRequestHeader(SealRequest(c, j, o).value.0.header) == Some(aad)
    ensures KeyInfo(REQUEST_KEY, aad).Some?
    ensures key == c.derive(SealRequest(c, j, o).value.1, o.nonce, KeyInfo(REQUEST_KEY, aad).value)
    ensures (ct, tag) == c.encrypt(key, o.nonce, padded, aad)
    ensures SigningInput(REQUEST_SIGNATURE, aad, ct, tag) == Some(message)
    ensures SealRequest(c, j, o).value.0.ct == ToBase64Url(ct) && SealRequest(c, j, o).value.0.tag == ToBase64Url(tag)
    ensures SealRequest(c, j, o).value.0.sig == ToBase64Url(c.sign(o.sender.signing, message))
  {
    hide KeyInfo, SigningInput, CanonicalRequestHeader, RequestShape, HeaderFor;
    padded := Pad(j.stringify(o.payload)).value;
    aad := CanonicalRequestHeader(HeaderFor(c, o, |padded|)).value;
    key := c.derive(SealRequest(c, j, o).value.1, o.nonce, KeyInfo(REQUEST_KEY, aad).value);
    ct, tag := c.encrypt(key, o.nonce, padded, aad).0, c.encrypt(key, o.nonce, padded, aad).1;
    message := SigningInput(REQUEST_SIGNATURE, aad, ct, tag).value;
  }

  /** Every string of a sealed envelope decodes to the bytes it was made from. */
  lemma SealedDecodes<P>(c: Suite, j: Json<P>, o: SealOptions<P>)
    returns (padded: bytes, aad: bytes, key: bytes, ct: bytes, tag: bytes, message: bytes)
    requires Laws(c) && Drawn(o) && SealRequest(c, j, o).Ok?
    ensures Pad(j.stringify(o.payload)) == Ok(padded) && |padded| == SealRequest(c, j, o).value.0.header.pad
    ensures CanonicalRequestHeader(SealRequest(c, j, o).value.0.header) == Some(aad) && KeyInfo(REQUEST_KEY, aad).Some?
    ensures key == c.derive(SealRequest(c, j, o).value.1, o.nonce, KeyInfo(REQUEST_KEY, aad).value)
    ensures SigningInput(REQUEST_SIGNATURE, aad, ct, tag) == Some(message)
    ensures (ct, tag) == c.encrypt(key, o.nonce, padded, aad)
    ensures c.decrypt(key, o.nonce, ct, tag, aad) == Some(padded) && |tag| == TAG_BYTES && |ct| == |padded|
    ensures Decode(SealRequest(c, j, o).value.0.ct) == Ok(ct) && Decode(SealRequest(c, j, o).value.0.tag) == Ok(tag)
    ensures Decode(SealRequest(c, j, o).value.0.sig) == Ok(c.sign(o.sender.signing, message))
    ensures Decode(SealRequest(c, j, o).value.0.header.n) == Ok(o.nonce)
    ensures Decode(SealRequest(c, j, o).value.0.header.epk) == Ok(c.publicOf(o.ephemeral)) && |c.publicOf(o.ephemeral)| == 32
  {
    hide KeyInfo, SigningInput, CanonicalRequestHeader, RequestShape, FromBase64Url, ToBase64Url, SealRequest, Laws, Pad;
    padded, aad, key, ct, tag, message := SealedParts(c, j, o);
    LawsApart(c);
    EncryptLaw(c, key, o.nonce, padded, aad);
    SignLaw(c, o.sender.signing, message);
    assert |c.publicOf(o.ephemeral)| == 32;
    hide AeadLaw, SignatureLaw, AgreementLaw, KeyLengthLaw;
    PadRoundTrip(j.stringify(o.payload));
    PaddedIsBucket(j.stringify(o.payload));
    RoundTrip(ct);
    RoundTrip(tag);
    RoundTrip(c.sign(o.sender.signing, message));
    RoundTrip(o.nonce);
    RoundTrip(c.publicOf(o.ephemeral));
  }

  /** The recipient's configuration names the sender's and its own key rightly. */
  ghost predicate Paired<P>(c: Suite, o: SealOptions<P>, own: PrivateIdentity, peers: Peers, now: int) {
    && own.keyId == o.recipient.keyId && o.recipient.encryption == c.publicOf(own.encryption)
    && Peer(peers, o.sender.keyId, now).Ok? && Peer(peers, o.sender.keyId, now).value.signing == c.verifierOf(o.sender.signing)
  }

  /** A sealed request opens, to the payload that was sealed, exactly from five seconds before its issue until its expiry. */
  lemma SealThenOpen<P(!new)>(c: Suite, j: Json<P>, o: SealOptions<P>, own: PrivateIdentity, peers: Peers, now: int)
    requires Laws(c) && JsonLaw(j) && Drawn(o) && SealRequest(c, j, o).Ok? && Paired(c, o, own, peers, now)
    ensures
      var (e, secret) := SealRequest(c, j, o).value;
      OpenRequest(c, j, own, peers, e, now) ==
        if o.now - CLOCK_SKEW_SECONDS <= now <= o.now + o.ttl
        then Ok(Opened(o.payload, ToBase64Url(o.messageId), o.sender.keyId, Peer(peers, o.sender.keyId, now).value.service,
                       o.routeToken, secret))
        else Err(Sabcl(Expired))
  {
    hide KeyInfo, SigningInput, CanonicalRequestHeader, RequestShape, FromBase64Url, ToBase64Url, Laws, SealRequest, Decode;
    hide Peer;
    var padded, aad, key, ct, tag, message := SealedParts(c, j, o);
    var (e, secret) := SealRequest(c, j, o).value;
    assert o.ttl <= MAX_TTL_SECONDS by { SealedTtl(c, j, o); }
    if o.now - CLOCK_SKEW_SECONDS <= now <= o.now + o.ttl {
      assert Admit(own, peers, e, now) == Ok(Peer(peers, o.sender.keyId, now).value);
      SealedVerifies(c, j, o);
      SealedDecrypts(c, j, o, own, Peer(peers, o.sender.keyId, now).value);
    }
  }

  lemma SealedTtl<P>(c: Suite, j: Json<P>, o: SealOptions<P>)
    requires SealRequest(c, j, o).Ok?
    ensures 0 < o.ttl <= MAX_TTL_SECONDS
  {
  }

  lemma SealedVerifies<P>(c: Suite, j: Json<P>, o: SealOptions<P>)
    requires Laws(c) && Drawn(o) && SealRequest(c, j, o).Ok?
    ensures
      var e := SealRequest(c, j, o).value.0;
      && Decode(e.ct).Ok? && Decode(e.tag).Ok? && Decode(e.sig).Ok? && CanonicalRequestHeader(e.header).Some?
      && Authenticate(c, REQUEST_SIGNATURE, c.verifierOf(o.sender.signing), CanonicalRequestHeader(e.header).value,
                      Decode(e.ct).value, Decode(e.tag).value, Decode(e.sig).value) == None
  {
    hide KeyInfo, SigningInput, CanonicalRequestHeader, RequestShape, FromBase64Url, ToBase64Url, SealRequest, Decode, Laws;
    var padded, aad, key, ct, tag, message := SealedDecodes(c, j, o);
    LawsApart(c);
    SignLaw(c, o.sender.signing, message);
  }

  lemma SealedDecrypts<P(!new)>(c: Suite, j: Json<P>, o: SealOptions<P>, own: PrivateIdentity, sender: PublicIdentity)
    requires Laws(c) && JsonLaw(j) && Drawn(o) && SealRequest(c, j, o).Ok?
    requires o.recipient.encryption == c.publicOf(own.encryption)
    ensures
      var (e, secret) := SealRequest(c, j, o).value;
      && Decode(e.ct).Ok? && Decode(e.tag).Ok? && CanonicalRequestHeader(e.header).Some?
      && Decrypt(c, j, own, sender, e.header, CanonicalRequestHeader(e.header).value, Decode(e.ct).value, Decode(e.tag).value)
         == Ok(Opened(o.payload, e.header.mid, e.header.skid, sender.service, e.header.rt, secret))
  {
    hide KeyInfo, SigningInput, CanonicalRequestHeader, RequestShape, FromBase64Url, ToBase64Url, SealRequest, Decode;
    hide Pad, Unpad, Laws;
    var padded, aad, key, ct, tag, message := SealedDecodes(c, j, o);
    var padded', aad', key', ct', tag', message' := SealedParts(c, j, o);
    LawsApart(c);
    AgreeLaw(c, o.ephemeral, own.encryption);
    PadRoundTrip(j.stringify(o.payload));
    assert j.parse(j.stringify(o.payload)) == Some(o.payload);
  }

  /** The ciphertext's length tells the bucket and nothing else about the payload. */
  lemma CiphertextLengthIsBucket<P>(c: Suite, j: Json<P>, o: SealOptions<P>)
    requires Laws(c) && Drawn(o) && SealRequest(c, j, o).Ok?
    ensures
      var e := SealRequest(c, j, o).value.0;
      && PaddingBucketFor(|j.stringify(o.payload)| + PREFIX) == Some(e.header.pad)
      && e.header.pad in BUCKETS && |e.ct| == (4 * e.header.pad + 2) / 3
  {
    hide KeyInfo, SigningInput, CanonicalRequestHeader, RequestShape, FromBase64Url, SealRequest, Laws, Pad;
    var padded, aad, key, ct, tag, message := SealedParts(c, j, o);
    LawsApart(c);
    EncryptLaw(c, key, o.nonce, padded, aad);
    PadRoundTrip(j.stringify(o.payload));
    PaddedIsBucket(j.stringify(o.payload));
    LeastBucket(|j.stringify(o.payload)| + PREFIX);
    SplitShape(ct);
  }

  // ---------- what is refused, and how ----------

  /** What sealing is refused with, in the order of the checks. */
  lemma SealRefusedAs<P>(c: Suite, j: Json<P>, o: SealOptions<P>, recipientKey: bytes)
    requires Laws(c) && Drawn(o) && o.recipient.encryption == c.publicOf(recipientKey)
    requires Base64UrlShape(o.routeToken, 64) && KeyIdShape(o.sender.keyId) && KeyIdShape(o.recipient.keyId)
    requires IsInt(o.now) && IsInt(o.now + o.ttl)
    ensures SealRequest(c, j, o).Err? ==> (SealRequest(c, j, o).error ==
      if o.ttl <= 0 || o.ttl > 120 || o.hopLimit < 1 || o.hopLimit > 4 then Sabcl(Malformed)
      else if o.recipient.revoked || (o.sender.notAfter.Some? && o.now > o.sender.notAfter.value) then Sabcl(KeyRevoked)
      else if |j.stringify(o.payload)| > 65_536 then Sabcl(Oversized)
      else RangeError)
  {
    hide SealWith, Laws, HeaderFor;
    SealSucceedsIff(c, j, o, recipientKey);
    PadRoundTrip(j.stringify(o.payload));
    hide Pad, CanonicalRequestHeader;
  }

  /** The gate before any cryptography: a request of this version, in its window, of a bounded life, for this key, from a live peer. */
  lemma AdmittedAs(own: PrivateIdentity, peers: Peers, e: Request, now: int)
    ensures
      var h := e.header;
      Admit(own, peers, e, now) ==
        if h.v != "SABCL/1" then Err(Sabcl(UnsupportedVersion))
        else if !(h.iat - 5 <= now <= h.exp) then Err(Sabcl(Expired))
        else if h.exp > h.iat + 120 then Err(Sabcl(Malformed))
        else if h.rkid != own.keyId then Err(Sabcl(UnknownRecipient))
        else if Peer(peers, h.skid, now).Ok? then Ok(Peer(peers, h.skid, now).value)
        else Err(Sabcl(Peer(peers, h.skid, now).error))
  {
  }

  /** Past the gate, a signature that does not verify over the request's own bytes is refused before anything is decrypted. */
  lemma BadSignatureRefused<P>(c: Suite, j: Json<P>, own: PrivateIdentity, peers: Peers, e: Request, now: int,
                               aad: bytes, ct: bytes, tag: bytes, sig: bytes)
    requires Admit(own, peers, e, now).Ok? && CanonicalRequestHeader(e.header) == Some(aad)
    requires Decode(e.ct) == Ok(ct) && Decode(e.tag) == Ok(tag) && Decode(e.sig) == Ok(sig)
    requires SigningInput("SABCL/1 request-signature", aad, ct, tag).Some?
    requires !c.verify(Admit(own, peers, e, now).value.signing, SigningInput("SABCL/1 request-signature", aad, ct, tag).value, sig)
    ensures OpenRequest(c, j, own, peers, e, now) == Err(Sabcl(SignatureInvalid))
  {
    hide Admit, SigningInput, CanonicalRequestHeader, Decode, Decrypt;
  }

  /**
   * Past the signature: a key that is not 32 bytes of canonical text is malformed; no agreement, a tag that is not 16 bytes
   * and a tag that does not authenticate are one and the same refusal; a plaintext of another length than announced is malformed.
   */
  lemma DecryptRefusedAs<P>(c: Suite, j: Json<P>, own: PrivateIdentity, sender: PublicIdentity, h: Header,
                            aad: bytes, ct: bytes, tag: bytes, nonce: bytes)
    requires Decode(h.n) == Ok(nonce) && KeyInfo("SABCL/1 request-key", aad).Some?
    ensures
      var r := Decrypt(c, j, own, sender, h, aad, ct, tag);
      if Decode(h.epk).Err? || |Decode(h.epk).value| != 32 then r == Err(Sabcl(Malformed))
      else
        var secret := c.agree(own.encryption, Decode(h.epk).value);
        if secret.None? || |tag| != 16 then r == Err(Sabcl(DecryptionFailed))
        else
          var key := c.derive(secret.value, nonce, KeyInfo("SABCL/1 request-key", aad).value);
          match c.decrypt(key, nonce, ct, tag, aad)
          case None => r == Err(Sabcl(DecryptionFailed))
          case Some(padded) => |padded| != h.pad ==> r == Err(Sabcl(Malformed))
  {
    hide KeyInfo, FromBase64Url;
  }
}
