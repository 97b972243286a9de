/** Responses, whole exchanges, and what an accepted signature proves about who sealed what. */
module Authenticity {
  import opened Wrappers
  import opened Bytes
  import opened Base64Url
  import opened Canonical
  import opened Envelope
  import opened Padding
  import opened Keyring
  import opened Seal
  import opened SealTheorems

  // ---------- responses ----------

  ghost predicate Replyable<P>(j: Json<P>, o: ReplyOptions<P>) {
    |j.stringify(o.payload)| <= 65_532 && Base64UrlShape(o.correlationId, 32) && KeyIdShape(o.responder.keyId)
  }

  lemma ReplyHeaderEncodes(h: ReplyHeader)
    requires IsInt(h.pad) && |h.v| <= 64 && |h.cid| <= 64 && |h.skid| <= 64 && |h.n| <= 64
    ensures CanonicalResponseHeader(h).Some? && |CanonicalResponseHeader(h).value| <= 2860
  {
    hide Utf8, U32, U64, Encoded;
    ShortTextFits(h.v);
    ShortTextFits(h.cid);
    ShortTextFits(h.skid);
    ShortTextFits(h.n);
    EncodedLength(ReplyHeaderFields(h));
  }

  /** Replying succeeds exactly within the bounds, whatever the secret. */
  lemma ReplySucceedsIff<P>(c: Suite, j: Json<P>, o: ReplyOptions<P>)
    requires Laws(c) && |o.nonce| == NONCE_BYTES
    ensures SealResponse(c, j, o).Ok? <==> Replyable(j, o)
  {
    hide KeyInfo, SigningInput, CanonicalResponseHeader, Base64UrlShape, KeyIdShape, ToBase64Url, Laws;
    LawsApart(c);
    PadRoundTrip(j.stringify(o.payload));
    if Replyable(j, o) {
      PaddedIsBucket(j.stringify(o.payload));
      var padded := Pad(j.stringify(o.payload)).value;
      EncodesWithin(o.nonce, 24);
      var header := ReplyHeader(VERSION, o.correlationId, o.responder.keyId, ToBase64Url(o.nonce), |padded|);
      ShapesAreShort(header);
      ReplyHeaderEncodes(header);
      var aad := CanonicalResponseHeader(header).value;
      InputsEncode(RESPONSE_KEY, aad, [], Zeros(TAG_BYTES));
      var key := c.derive(o.secret, o.nonce, KeyInfo(RESPONSE_KEY, aad).value);
      var (ct, tag) := c.encrypt(key, o.nonce, padded, aad);
      EncryptLaw(c, key, o.nonce, padded, aad);
      InputsEncode(RESPONSE_SIGNATURE, aad, ct, tag);
      SignLaw(c, o.responder.signing, SigningInput(RESPONSE_SIGNATURE, aad, ct, tag).value);
      EncodesWithin(ct, MAX_ENVELOPE_BYTES);
      EncodesWithin(tag, 32);
      EncodesWithin(c.sign(o.responder.signing, SigningInput(RESPONSE_SIGNATURE, aad, ct, tag).value), 128);
    }
  }

  lemma ShapesAreShort(h: ReplyHeader)
    requires Base64UrlShape(h.cid, 32) && KeyIdShape(h.skid) && Base64UrlShape(h.n, 24)
    ensures |h.cid| <= 64 && |h.skid| <= 64 && |h.n| <= 64
  {
  }

  lemma ReplyParts<P>(c: Suite, j: Json<P>, o: ReplyOptions<P>)
    returns (padded: bytes, aad: bytes, key: bytes, ct: bytes, tag: bytes, message: bytes)
    requires SealResponse(c, j, o).Ok?
    ensures Pad(j.stringify(o.payload)) == Ok(padded)
    ensures SealResponse(c, j, o).value.header ==
      ReplyHeader(VERSION, o.correlationId, o.responder.keyId, ToBase64Url(o.nonce), |padded|)
    ensures CanonicalResponseHeader(SealResponse(c, j, o).value.header) == Some(aad) && KeyInfo(RESPONSE_KEY, aad).Some?
    ensures key == c.derive(o.secret, o.nonce, KeyInfo(RESPONSE_KEY, aad).value)
    ensures (ct, tag) == c.encrypt(key, o.nonce, padded, aad)
    ensures SigningInput(RESPONSE_SIGNATURE, aad, ct, tag) == Some(message)
    ensures SealResponse(c, j, o).value.ct == ToBase64Url(ct) && SealResponse(c, j, o).value.tag == ToBase64Url(tag)
    ensures SealResponse(c, j, o).value.sig == ToBase64Url(c.sign(o.responder.signing, message))
  {
    hide KeyInfo, SigningInput, CanonicalResponseHeader, ResponseShape;
    padded := Pad(j.stringify(o.payload)).value;
    aad := CanonicalResponseHeader(ReplyHeader(VERSION, o.correlationId, o.responder.keyId, ToBase64Url(o.nonce), |padded|)).value;
    key := c.derive(o.secret, o.nonce, KeyInfo(RESPONSE_KEY, aad).value);
    ct, tag := c.encrypt(key, o.nonce, padded, aad).0, c.encrypt(key, o.nonce, padded, aad).1;
    message := SigningInput(RESPONSE_SIGNATURE, aad, ct, tag).value;
  }

  lemma ReplyDecodes<P>(c: Suite, j: Json<P>, o: ReplyOptions<P>)
    returns (padded: bytes, aad: bytes, key: bytes, ct: bytes, tag: bytes, message: bytes)
    requires Laws(c) && |o.nonce| == NONCE_BYTES && SealResponse(c, j, o).Ok?
    ensures Pad(j.stringify(o.payload)) == Ok(padded) && |padded| == SealResponse(c, j, o).value.header.pad
    ensures CanonicalResponseHeader(SealResponse(c, j, o).value.header) == Some(aad) && KeyInfo(RESPONSE_KEY, aad).Some?
    ensures key == c.derive(o.secret, o.nonce, KeyInfo(RESPONSE_KEY, aad).value)
    ensures SigningInput(RESPONSE_SIGNATURE, aad, ct, tag) == Some(message)
    ensures c.decrypt(key, o.nonce, ct, tag, aad) == Some(padded) && |tag| == TAG_BYTES
    ensures Decode(SealResponse(c, j, o).value.ct) == Ok(ct) && Decode(SealResponse(c, j, o).value.tag) == Ok(tag)
    ensures Decode(SealResponse(c, j, o).value.sig) == Ok(c.sign(o.responder.signing, message))
    ensures c.verify(c.verifierOf(o.responder.signing), message, c.sign(o.responder.signing, message))
    ensures Decode(SealResponse(c, j, o).value.header.n) == Ok(o.nonce)
  {
    hide KeyInfo, SigningInput, CanonicalResponseHeader, ResponseShape, FromBase64Url, ToBase64Url, SealResponse, Laws, Pad;
    padded, aad, key, ct, tag, message := ReplyParts(c, j, o);
    LawsApart(c);
    EncryptLaw(c, key, o.nonce, padded, aad);
    SignLaw(c, o.responder.signing, message);
    hide AeadLaw, SignatureLaw, AgreementLaw, KeyLengthLaw;
    PadRoundTrip(j.stringify(o.payload));
    PaddedIsBucket(j.stringify(o.payload));
    RoundTrip(ct);
    RoundTrip(tag);
    RoundTrip(c.sign(o.responder.signing, message));
    RoundTrip(o.nonce);
  }

  /** A sealed response opens, with the secret it was sealed with, to its payload, but only for the request it answers. */
  lemma ReplyThenOpen<P(!new)>(c: Suite, j: Json<P>, o: ReplyOptions<P>, responder: PublicIdentity, expected: string)
    requires Laws(c) && JsonLaw(j) && |o.nonce| == NONCE_BYTES && SealResponse(c, j, o).Ok?
    requires responder.keyId == o.responder.keyId && responder.signing == c.verifierOf(o.responder.signing)
    ensures OpenResponse(c, j, responder, o.secret, expected, SealResponse(c, j, o).value) ==
      if expected == o.correlationId then Ok(o.payload) else Err(Sabcl(Malformed))
  {
    hide KeyInfo, SigningInput, CanonicalResponseHeader, FromBase64Url, ToBase64Url, SealResponse, Decode, Pad, Unpad, Laws;
    var padded, aad, key, ct, tag, message := ReplyDecodes(c, j, o);
    var padded', aad', key', ct', tag', message' := ReplyParts(c, j, o);
    PadRoundTrip(j.stringify(o.payload));
    assert j.parse(j.stringify(o.payload)) == Some(o.payload);
  }

  /** A whole exchange: the request opens in its window, and the reply sealed with what was opened opens at the sender. */
  lemma Exchange<P(!new)>(c: Suite, j: Json<P>, o: SealOptions<P>, own: PrivateIdentity, peers: Peers, now: int,
                          answer: P, nonce: bytes)
    requires Laws(c) && JsonLaw(j) && Drawn(o) && Sealable(j, o) && Paired(c, o, own, peers, now)
    requires o.now - CLOCK_SKEW_SECONDS <= now <= o.now + o.ttl
    requires |nonce| == NONCE_BYTES && |j.stringify(answer)| <= 65_532
    requires o.recipient.signing == c.verifierOf(own.signing)
    ensures SealRequest(c, j, o).Ok?
    ensures
      var (e, secret) := SealRequest(c, j, o).value;
      var got := OpenRequest(c, j, own, peers, e, now);
      && got.Ok? && got.value.payload == o.payload
      && var reply := SealResponse(c, j, ReplyOptions(own, got.value.secret, got.value.messageId, answer, nonce));
         reply.Ok? && OpenResponse(c, j, o.recipient, secret, e.header.mid, reply.value) == Ok(answer)
  {
    hide SealRequest, OpenRequest, SealResponse, OpenResponse, ToBase64Url, FromBase64Url, Peer, Laws, KeyIdShape;
    SealSucceedsIff(c, j, o, own.encryption);
    SealThenOpen(c, j, o, own, peers, now);
    EncodesWithin(o.messageId, 32);
    var (e, secret) := SealRequest(c, j, o).value;
    var padded, aad, key, ct, tag, message := SealedParts(c, j, o);
    var reply := ReplyOptions(own, secret, ToBase64Url(o.messageId), answer, nonce);
    ReplySucceedsIff(c, j, reply);
    ReplyThenOpen(c, j, reply, o.recipient, e.header.mid);
  }

  /** A request's key and a response's are derived from different inputs, whatever headers they are bound to. */
  lemma KeyInfosApart(aad: bytes, other: bytes)
    requires KeyInfo(REQUEST_KEY, aad).Some?
    ensures KeyInfo(REQUEST_KEY, aad) != KeyInfo(RESPONSE_KEY, other)
    ensures Fields(KeyInfo(REQUEST_KEY, aad).value) == Some([Utf8(REQUEST_KEY), aad])
  {
    hide Utf8, Encoded, Fields;
    var f, g := [Text(REQUEST_KEY), Raw(aad)], [Text(RESPONSE_KEY), Raw(other)];
    EncodedReads(f);
    assert Contents(f) == [Utf8(REQUEST_KEY), aad];
    if CanonicalBytes(f) == CanonicalBytes(g) {
      CanonicalInjective(f, g);
      assert f[0].Content() == g[0].Content();
      Utf8Injective(REQUEST_KEY, RESPONSE_KEY);
    }
  }

  // ---------- what a signature covers ----------

  /** The bytes a request's signature is checked over. */
  function RequestMessage(e: Request): Option<bytes> {
    match (CanonicalRequestHeader(e.header), FromBase64Url(e.ct), FromBase64Url(e.tag))
    case (Some(aad), Some(ct), Some(tag)) => SigningInput(REQUEST_SIGNATURE, aad, ct, tag)
    case _ => None
  }

  function ResponseMessage(e: Response): Option<bytes> {
    match (CanonicalResponseHeader(e.header), FromBase64Url(e.ct), FromBase64Url(e.tag))
    case (Some(aad), Some(ct), Some(tag)) => SigningInput(RESPONSE_SIGNATURE, aad, ct, tag)
    case _ => None
  }

  /** Every wire string but the signature itself is determined by the signed bytes. */
  lemma RequestMessageBinds(e: Request, f: Request)
    requires RequestMessage(e).Some? && RequestMessage(e) == RequestMessage(f)
    ensures e.header == f.header && e.ct == f.ct && e.tag == f.tag
  {
    hide CanonicalRequestHeader, FromBase64Url, SigningInput;
    SigningInputInjective(
      REQUEST_SIGNATURE, CanonicalRequestHeader(e.header).value, FromBase64Url(e.ct).value, FromBase64Url(e.tag).value,
      REQUEST_SIGNATURE, CanonicalRequestHeader(f.header).value, FromBase64Url(f.ct).value, FromBase64Url(f.tag).value);
    RequestHeaderInjective(e.header, f.header);
    DecodeInjective(e.ct, f.ct);
    DecodeInjective(e.tag, f.tag);
  }

  lemma ResponseMessageBinds(e: Response, f: Response)
    requires ResponseMessage(e).Some? && ResponseMessage(e) == ResponseMessage(f)
    ensures e.header == f.header && e.ct == f.ct && e.tag == f.tag
  {
    hide CanonicalResponseHeader, FromBase64Url, SigningInput;
    SigningInputInjective(
      RESPONSE_SIGNATURE, CanonicalResponseHeader(e.header).value, FromBase64Url(e.ct).value, FromBase64Url(e.tag).value,
      RESPONSE_SIGNATURE, CanonicalResponseHeader(f.header).value, FromBase64Url(f.ct).value, FromBase64Url(f.tag).value);
    ResponseHeaderInjective(e.header, f.header);
    DecodeInjective(e.ct, f.ct);
    DecodeInjective(e.tag, f.tag);
  }

  /** A signature made for a response never fits a request, nor the other way round. */
  lemma SignaturesApart(e: Request, f: Response)
    requires RequestMessage(e).Some?
    ensures RequestMessage(e) != ResponseMessage(f)
  {
    hide CanonicalRequestHeader, CanonicalResponseHeader, FromBase64Url, SigningInput;
    if RequestMessage(e) == ResponseMessage(f) {
      SigningInputInjective(
        REQUEST_SIGNATURE, CanonicalRequestHeader(e.header).value, FromBase64Url(e.ct).value, FromBase64Url(e.tag).value,
        RESPONSE_SIGNATURE, CanonicalResponseHeader(f.header).value, FromBase64Url(f.ct).value, FromBase64Url(f.tag).value);
    }
  }

  // ---------- authenticity ----------

  /** One use of a signing key: sealing a request or sealing a response. */
  datatype Act<!P> = RequestAct(o: SealOptions<P>) | ResponseAct(r: ReplyOptions<P>)

  ghost predicate Honest<P>(acts: seq<Act<P>>) {
    forall i :: 0 <= i < |acts| ==>
      match acts[i] case RequestAct(o) => Drawn(o) case ResponseAct(r) => |r.nonce| == NONCE_BYTES
  }

  /** The act put a signature over message m, by the key that `key` verifies, on the wire. */
  ghost predicate SignedBy<P>(c: Suite, j: Json<P>, a: Act<P>, key: bytes, m: bytes) {
    match a
    case RequestAct(o) =>
      c.verifierOf(o.sender.signing) == key && SealRequest(c, j, o).Ok? && RequestMessage(SealRequest(c, j, o).value.0) == Some(m)
    case ResponseAct(r) =>
      c.verifierOf(r.responder.signing) == key && SealResponse(c, j, r).Ok? && ResponseMessage(SealResponse(c, j, r).value) == Some(m)
  }

  /**
   * Unforgeability, on the signatures that have appeared on the wire: under one of the configured keys, each
   * verifies only for messages its owner signed by one of these acts.
   */
  ghost predicate NoForgery<P>(c: Suite, j: Json<P>, acts: seq<Act<P>>, keys: set<bytes>, wire: set<bytes>) {
    forall key, m, sig :: key in keys && sig in wire && c.verify(key, m, sig) ==>
      exists i :: 0 <= i < |acts| && SignedBy(c, j, acts[i], key, m)
  }

  /** What an accepted request passed: the gate, and a signature over exactly its message. */
  lemma AcceptedVerifies<P>(c: Suite, j: Json<P>, own: PrivateIdentity, peers: Peers, e: Request, now: int)
    requires OpenRequest(c, j, own, peers, e, now).Ok?
    ensures Peer(peers, e.header.skid, now).Ok? && RequestMessage(e).Some? && FromBase64Url(e.sig).Some?
    ensures c.verify(Peer(peers, e.header.skid, now).value.signing, RequestMessage(e).value, FromBase64Url(e.sig).value)
    ensures FromBase64Url(e.ct).Some? && FromBase64Url(e.tag).Some? && CanonicalRequestHeader(e.header).Some?
    ensures OpenRequest(c, j, own, peers, e, now) ==
      Decrypt(c, j, own, Peer(peers, e.header.skid, now).value, e.header, CanonicalRequestHeader(e.header).value,
              FromBase64Url(e.ct).value, FromBase64Url(e.tag).value)
    ensures e.header.rkid == own.keyId && e.header.iat - CLOCK_SKEW_SECONDS <= now <= e.header.exp
  {
    hide FromBase64Url, CanonicalRequestHeader, SigningInput, Peer, Decrypt;
  }

  lemma SealedMessage<P>(c: Suite, j: Json<P>, o: SealOptions<P>)
    requires Laws(c) && Drawn(o) && SealRequest(c, j, o).Ok?
    ensures RequestMessage(SealRequest(c, j, o).value.0).Some?
    ensures FromBase64Url(SealRequest(c, j, o).value.0.ct).Some? && FromBase64Url(SealRequest(c, j, o).value.0.tag).Some?
  {
    hide SealRequest, SigningInput, CanonicalRequestHeader, FromBase64Url, Laws;
    var padded, aad, key, ct, tag, message := SealedDecodes(c, j, o);
  }

  /** The act behind an accepted request. */
  ghost predicate SealedAs<P>(c: Suite, j: Json<P>, a: Act<P>, e: Request, key: bytes) {
    && a.RequestAct? && c.verifierOf(a.o.sender.signing) == key && SealRequest(c, j, a.o).Ok?
    && var f := SealRequest(c, j, a.o).value.0;
       f.header == e.header && f.ct == e.ct && f.tag == e.tag
  }

  /**
   * An accepted request was sealed by the named sender, for this recipient's key identifier, with the same
   * header, ciphertext and tag strings.
   */
  lemma RequestAuthentic<P(!new)>(c: Suite, j: Json<P>, acts: seq<Act<P>>, keys: set<bytes>, wire: set<bytes>,
                                  own: PrivateIdentity, peers: Peers, e: Request, now: int) returns (i: nat)
    requires NoForgery(c, j, acts, keys, wire) && OpenRequest(c, j, own, peers, e, now).Ok?
    requires FromBase64Url(e.sig).Some? ==> FromBase64Url(e.sig).value in wire
    requires Peer(peers, e.header.skid, now).Ok? ==> Peer(peers, e.header.skid, now).value.signing in keys
    ensures i < |acts| && Peer(peers, e.header.skid, now).Ok?
    ensures SealedAs(c, j, acts[i], e, Peer(peers, e.header.skid, now).value.signing)
    ensures acts[i].o.sender.keyId == e.header.skid && acts[i].o.recipient.keyId == own.keyId
  {
    hide OpenRequest, SealRequest, SealResponse, FromBase64Url, CanonicalRequestHeader, RequestMessage, ResponseMessage;
    hide Peer;
    AcceptedVerifies(c, j, own, peers, e, now);
    var key, m := Peer(peers, e.header.skid, now).value.signing, RequestMessage(e).value;
    i :| 0 <= i < |acts| && SignedBy(c, j, acts[i], key, m);
    hide NoForgery;
    if acts[i].ResponseAct? {
      SignaturesApart(e, SealResponse(c, j, acts[i].r).value);
    } else {
      RequestMessageBinds(e, SealRequest(c, j, acts[i].o).value.0);
      var padded, aad, k, ct, tag, message := SealedParts(c, j, acts[i].o);
    }
  }

  /** If the sender encrypted to this recipient's key, the payload and the response secret come out as they went in. */
  lemma AuthenticPayload<P(!new)>(c: Suite, j: Json<P>, a: Act<P>, own: PrivateIdentity, peers: Peers, e: Request, now: int)
    requires Laws(c) && JsonLaw(j) && OpenRequest(c, j, own, peers, e, now).Ok? && Peer(peers, e.header.skid, now).Ok?
    requires SealedAs(c, j, a, e, Peer(peers, e.header.skid, now).value.signing) && Drawn(a.o)
    requires a.o.recipient.encryption == c.publicOf(own.encryption)
    ensures OpenRequest(c, j, own, peers, e, now).value.payload == a.o.payload
    ensures OpenRequest(c, j, own, peers, e, now).value.secret == SealRequest(c, j, a.o).value.1
  {
    hide OpenRequest, SealRequest, FromBase64Url, CanonicalRequestHeader, Peer, Laws, Decrypt;
    AcceptedVerifies(c, j, own, peers, e, now);
    SealedDecrypts(c, j, a.o, own, Peer(peers, e.header.skid, now).value);
  }

  lemma ActDrawn<P>(acts: seq<Act<P>>, i: nat)
    requires Honest(acts) && i < |acts|
    ensures match acts[i] case RequestAct(o) => Drawn(o) case ResponseAct(r) => |r.nonce| == NONCE_BYTES
  {
  }

  /** What an accepted response passed. */
  lemma AcceptedReplyVerifies<P>(c: Suite, j: Json<P>, responder: PublicIdentity, secret: bytes, expected: string, e: Response)
    requires OpenResponse(c, j, responder, secret, expected, e).Ok?
    ensures e.header.cid == expected && e.header.skid == responder.keyId
    ensures ResponseMessage(e).Some? && FromBase64Url(e.sig).Some?
    ensures c.verify(responder.signing, ResponseMessage(e).value, FromBase64Url(e.sig).value)
    ensures FromBase64Url(e.ct).Some? && FromBase64Url(e.tag).Some? && CanonicalResponseHeader(e.header).Some?
    ensures OpenResponse(c, j, responder, secret, expected, e) ==
      DecryptResponse(c, j, secret, e.header, CanonicalResponseHeader(e.header).value, FromBase64Url(e.ct).value, FromBase64Url(e.tag).value)
  {
    hide FromBase64Url, CanonicalResponseHeader, SigningInput, DecryptResponse;
  }

  /**
   * An accepted response was sealed by the expected responder for this very request; sealed with this exchange's
   * secret, it yields the payload that was sealed.
   */
  lemma ResponseAuthentic<P(!new)>(c: Suite, j: Json<P>, acts: seq<Act<P>>, keys: set<bytes>, wire: set<bytes>,
                                   responder: PublicIdentity, secret: bytes, expected: string, e: Response) returns (i: nat)
    requires Laws(c) && JsonLaw(j) && Honest(acts) && NoForgery(c, j, acts, keys, wire)
    requires OpenResponse(c, j, responder, secret, expected, e).Ok? && responder.signing in keys
    requires FromBase64Url(e.sig).Some? ==> FromBase64Url(e.sig).value in wire
    ensures i < |acts| && acts[i].ResponseAct? && c.verifierOf(acts[i].r.responder.signing) == responder.signing
    ensures SealResponse(c, j, acts[i].r).Ok?
    ensures
      var f := SealResponse(c, j, acts[i].r).value;
      f.header == e.header && f.ct == e.ct && f.tag == e.tag
    ensures acts[i].r.correlationId == expected && acts[i].r.responder.keyId == responder.keyId
    ensures acts[i].r.secret == secret ==> OpenResponse(c, j, responder, secret, expected, e) == Ok(acts[i].r.payload)
  {
    hide OpenResponse, SealRequest, SealResponse, FromBase64Url, CanonicalResponseHeader, RequestMessage, ResponseMessage;
    hide Laws, Honest, DecryptResponse;
    AcceptedReplyVerifies(c, j, responder, secret, expected, e);
    var m := ResponseMessage(e).value;
    i :| 0 <= i < |acts| && SignedBy(c, j, acts[i], responder.signing, m);
    if acts[i].RequestAct? {
      SignaturesApart(SealRequest(c, j, acts[i].o).value.0, e);
      assert false;
    } else {
      var r := acts[i].r;
      ActDrawn(acts, i);
      var f := SealResponse(c, j, r).value;
      ResponseMessageBinds(e, f);
      var padded, aad, k, ct, tag, message := ReplyParts(c, j, r);
      if r.secret == secret {
        ReplyThenOpen(c, j, r, responder.(keyId := r.responder.keyId), r.correlationId);
        AcceptedReplyVerifies(c, j, responder.(keyId := r.responder.keyId), secret, r.correlationId, f);
      }
    }
  }

  // ---------- the assumptions can be met ----------

  /** A suite that hides nothing, whose signatures tell one message from all others. */
  function PlainSuite(signed: bytes): Suite {
    Suite((a, b) => Some(Zeros(32)), a => Zeros(32), (s, n, i) => Zeros(32), (k, n, p, aad) => (p, Zeros(TAG_BYTES)),
      (k, n, ct, tag, aad) => Some(ct), (k, m) => Mark(m == signed), (key, m, sig) => sig == Mark(m == signed), k => Zeros(32))
  }

  function Mark(yes: bool): (sig: bytes)
    ensures |sig| == 64
  {
    Zeros(63) + [if yes then 1 else 0]
  }

  function PlainJson(): Json<bytes> { Json(b => b, b => Some(b)) }

  function PlainOptions(): SealOptions<bytes> {
    SealOptions(PrivateIdentity("a.v1", "a", Zeros(32), Zeros(32), None),
      PublicIdentity("b.v1", "b", Zeros(32), Zeros(32), false, None),
      "A", [], 30, 2, 0, Zeros(32), Zeros(NONCE_BYTES), Zeros(MESSAGE_ID_BYTES))
  }

  lemma PlainLaws(signed: bytes)
    ensures Laws(PlainSuite(signed)) && JsonLaw(PlainJson())
  {
  }

  lemma PlainSealable()
    ensures Sealable(PlainJson(), PlainOptions()) && Drawn(PlainOptions())
  {
    assert KeyIdAt("a.v1", 1) && KeyIdAt("b.v1", 1);
  }

  /** The bytes that get signed do not depend on the signature scheme. */
  lemma SealedMessageIs(signed: bytes)
    requires SealRequest(PlainSuite(signed), PlainJson(), PlainOptions()).Ok?
    ensures RequestMessage(SealRequest(PlainSuite(signed), PlainJson(), PlainOptions()).value.0) == Some(PlainMessage())
    ensures SealRequest(PlainSuite(signed), PlainJson(), PlainOptions()).value.0.sig ==
      ToBase64Url(Mark(PlainMessage() == signed))
  {
    hide SealRequest, SigningInput, CanonicalRequestHeader, FromBase64Url, ToBase64Url, Laws, Pad, PlainSuite, PlainJson;
    hide PlainOptions, PlainMessage, HeaderFor, KeyInfo, Mark;
    PlainLaws(signed);
    PlainSealable();
    var c, j, o := PlainSuite(signed), PlainJson(), PlainOptions();
    var padded, aad, key, ct, tag, m := SealedParts(c, j, o);
    SealedMessage(c, j, o);
    var padded', aad', key', ct', tag', m' := SealedDecodes(c, j, o);
    PlainCrypto(signed, key, o.nonce, padded, aad, m);
    MessageUnfolds(signed, padded, aad, m);
  }

  lemma PlainCrypto(signed: bytes, key: bytes, nonce: bytes, padded: bytes, aad: bytes, m: bytes)
    ensures PlainSuite(signed).encrypt(key, nonce, padded, aad) == (padded, Zeros(TAG_BYTES))
    ensures PlainSuite(signed).sign(PlainOptions().sender.signing, m) == Mark(m == signed)
  {
  }

  lemma MessageUnfolds(signed: bytes, padded: bytes, aad: bytes, m: bytes)
    requires Pad(PlainJson().stringify(PlainOptions().payload)) == Ok(padded)
    requires CanonicalRequestHeader(HeaderFor(PlainSuite(signed), PlainOptions(), |padded|)) == Some(aad)
    requires SigningInput(REQUEST_SIGNATURE, aad, padded, Zeros(TAG_BYTES)) == Some(m)
    ensures PlainMessage() == m
  {
    hide Pad, CanonicalRequestHeader, SigningInput;
    assert PlainJson().stringify(PlainOptions().payload) == [];
    assert HeaderFor(PlainSuite(signed), PlainOptions(), |padded|) == HeaderFor(PlainSuite([]), PlainOptions(), |padded|);
  }

  ghost function PlainMessage(): bytes {
    match Pad([])
    case Err(_) => []
    case Ok(padded) =>
      match CanonicalRequestHeader(HeaderFor(PlainSuite([]), PlainOptions(), |padded|))
      case None => []
      case Some(aad) =>
        match SigningInput(REQUEST_SIGNATURE, aad, padded, Zeros(TAG_BYTES)) case None => [] case Some(m) => m
  }

  function PlainOwn(): PrivateIdentity { PrivateIdentity("b.v1", "b", Zeros(32), Zeros(32), None) }

  function PlainPeers(): Peers { [PublicIdentity("a.v1", "a", Zeros(32), Zeros(32), false, None)] }

  /** The plain suite's request, sealed and accepted. */
  lemma PlainAccepted(m: bytes)
    ensures SealRequest(PlainSuite(m), PlainJson(), PlainOptions()).Ok?
    ensures
      var e := SealRequest(PlainSuite(m), PlainJson(), PlainOptions()).value.0;
      && OpenRequest(PlainSuite(m), PlainJson(), PlainOwn(), PlainPeers(), e, 0).Ok?
      && e.header.skid == "a.v1"
  {
    hide PlainSuite, SealRequest, OpenRequest, Laws, JsonLaw, FromBase64Url, ToBase64Url, Sealable, PlainJson, PlainOptions;
    hide Peer, PlainOwn, PlainPeers;
    PlainLaws(m);
    PlainSealable();
    PlainPaired(m);
    SealSucceedsIff(PlainSuite(m), PlainJson(), PlainOptions(), Zeros(32));
    SealThenOpen(PlainSuite(m), PlainJson(), PlainOptions(), PlainOwn(), PlainPeers(), 0);
    var padded, aad, key, ct, tag, message := SealedParts(PlainSuite(m), PlainJson(), PlainOptions());
  }

  /**
   * Laws and unforgeability can hold together in a world where a request is sealed, travels, and is accepted:
   * what RequestAuthentic and AuthenticPayload assume can be met.
   */
  lemma AssumptionsCanBeMet() returns (c: Suite, act: Act<bytes>, keys: set<bytes>, wire: set<bytes>,
                                       own: PrivateIdentity, peers: Peers, e: Request)
    ensures Laws(c) && JsonLaw(PlainJson()) && Honest([act]) && NoForgery(c, PlainJson(), [act], keys, wire)
    ensures OpenRequest(c, PlainJson(), own, peers, e, 0).Ok?
    ensures FromBase64Url(e.sig).Some? && FromBase64Url(e.sig).value in wire
    ensures Peer(peers, e.header.skid, 0).Ok? && Peer(peers, e.header.skid, 0).value.signing in keys
  {
    hide PlainSuite, SealRequest, OpenRequest, Laws, JsonLaw, FromBase64Url, ToBase64Url, PlainMessage, RequestMessage, Sealable;
    hide PlainJson, PlainOptions, NoForgery, Peer, Mark, PlainOwn, PlainPeers, Drawn;
    var m := PlainMessage();
    c, own, peers := PlainSuite(m), PlainOwn(), PlainPeers();
    PlainLaws(m);
    PlainSealable();
    PlainPaired(m);
    PlainAccepted(m);
    SealedMessageIs(m);
    e := SealRequest(c, PlainJson(), PlainOptions()).value.0;
    act := RequestAct(PlainOptions());
    keys, wire := {Zeros(32)}, {Mark(true)};
    RoundTrip(Mark(true));
    assert SignedBy(c, PlainJson(), act, Zeros(32), m);
    PlainUnforged(m, act);
  }

  lemma PlainUnforged(m: bytes, act: Act<bytes>)
    requires SignedBy(PlainSuite(m), PlainJson(), act, Zeros(32), m)
    ensures NoForgery(PlainSuite(m), PlainJson(), [act], {Zeros(32)}, {Mark(true)})
  {
    hide PlainSuite, SignedBy, Mark;
    var c := PlainSuite(m);
    forall k, n, sig | k in {Zeros(32)} && sig in {Mark(true)} && c.verify(k, n, sig)
      ensures exists i :: 0 <= i < |[act]| && SignedBy(c, PlainJson(), [act][i], k, n)
    {
      PlainVerifies(m, k, n);
      assert SignedBy(c, PlainJson(), [act][0], k, n);
    }
  }

  lemma PlainPaired(m: bytes)
    ensures Paired(PlainSuite(m), PlainOptions(), PlainOwn(), PlainPeers(), 0)
    ensures PlainOptions().recipient.encryption == PlainSuite(m).publicOf(Zeros(32))
    ensures PlainOptions().recipient.encryption == PlainSuite(m).publicOf(PlainOwn().encryption)
    ensures PlainSuite(m).verifierOf(PlainOptions().sender.signing) == Zeros(32)
    ensures Peer(PlainPeers(), "a.v1", 0).Ok? && Peer(PlainPeers(), "a.v1", 0).value.signing == Zeros(32)
    ensures PlainOptions().sender.keyId == "a.v1" && PlainOptions().now == 0 && PlainOptions().ttl == 30
  {
  }

  lemma PlainVerifies(m: bytes, key: bytes, n: bytes)
    requires PlainSuite(m).verify(key, n, Mark(true))
    ensures n == m
  {
    assert Mark(true)[63] == 1 && Mark(false)[63] == 0;
  }
}
