/**
 * Sealing and opening (seal.ts) over an idealised crypto suite: X25519, HKDF, AES-256-GCM and Ed25519 are
 * functions known only by the laws below; encodings, padding, bounds and time are concrete.
 */
module Seal {
  import opened Wrappers
  import opened Bytes
  import opened Base64Url
  import opened Canonical
  import opened Envelope
  import opened Padding
  import opened Keyring

  datatype Suite = Suite(
    agree: (bytes, bytes) -> Option<bytes>,              // private key, public point
    publicOf: bytes -> bytes,
    derive: (bytes, bytes, bytes) -> bytes,              // secret, salt, info
    encrypt: (bytes, bytes, bytes, bytes) -> (bytes, bytes),        // key, nonce, plaintext, associated data
    decrypt: (bytes, bytes, bytes, bytes, bytes) -> Option<bytes>,  // key, nonce, ciphertext, tag, associated data
    sign: (bytes, bytes) -> bytes,
    verify: (bytes, bytes, bytes) -> bool,               // public key, message, signature
    verifierOf: bytes -> bytes)

  ghost predicate AgreementLaw(c: Suite) {
    forall a, b :: c.agree(a, c.publicOf(b)).Some? && c.agree(a, c.publicOf(b)) == c.agree(b, c.publicOf(a))
  }

  ghost predicate AeadLaw(c: Suite) {
    forall k, n, p, aad :: var (ct, tag) := c.encrypt(k, n, p, aad);
      |ct| == |p| && |tag| == TAG_BYTES && c.decrypt(k, n, ct, tag, aad) == Some(p)
  }

  ghost predicate SignatureLaw(c: Suite) {
    forall k, m :: c.verify(c.verifierOf(k), m, c.sign(k, m)) && |c.sign(k, m)| == 64
  }

  ghost predicate KeyLengthLaw(c: Suite) {
    forall k :: |c.publicOf(k)| == 32
  }

  ghost predicate Laws(c: Suite) {
    AgreementLaw(c) && AeadLaw(c) && SignatureLaw(c) && KeyLengthLaw(c)
  }

  /** JSON text of the payloads; parsing undoes printing. */
  datatype Json<!P> = Json(stringify: P -> bytes, parse: bytes -> Option<P>)

  ghost predicate JsonLaw<P(!new)>(j: Json<P>) {
    forall p :: j.parse(j.stringify(p)) == Some(p)
  }

  // ---------- requests ----------

  /** What the caller passes, and what the sender draws for this message. */
  datatype SealOptions<P> = SealOptions(
    sender: PrivateIdentity, recipient: PublicIdentity, routeToken: string, payload: P, ttl: int, hopLimit: int, now: int,
    ephemeral: bytes, nonce: bytes, messageId: bytes)

  ghost predicate Drawn<P>(o: SealOptions<P>) {
    |o.nonce| == NONCE_BYTES && |o.messageId| == MESSAGE_ID_BYTES
  }

  function HeaderFor<P>(c: Suite, o: SealOptions<P>, bucket: nat): Header {
    Header(VERSION, ToBase64Url(o.messageId), o.routeToken, o.sender.keyId, o.recipient.keyId,
      ToBase64Url(c.publicOf(o.ephemeral)), o.now, o.now + o.ttl, ToBase64Url(o.nonce), o.hopLimit, bucket)
  }

  /** HKDF info: a domain tag and the bound header. */
  function KeyInfo(domain: string, aad: bytes): Option<bytes> {
    CanonicalBytes([Text(domain), Raw(aad)])
  }

  function SealRequest<P>(c: Suite, j: Json<P>, o: SealOptions<P>): Result<(Request, bytes), Fault> {
    if !(0 < o.ttl <= MAX_TTL_SECONDS) then Err(Sabcl(Malformed))
    else if !(1 <= o.hopLimit <= MAX_HOP_LIMIT) then Err(Sabcl(Malformed))
    else if o.recipient.revoked then Err(Sabcl(KeyRevoked))
    else if o.sender.notAfter.Some? && o.now > o.sender.notAfter.value then Err(Sabcl(KeyRevoked))
    else
      match Pad(j.stringify(o.payload))
      case Err(TooLong) => Err(Sabcl(Oversized))
      case Err(NoBucket) => Err(RangeError)
      case Ok(padded) =>
        var header := HeaderFor(c, o, |padded|);
        match CanonicalRequestHeader(header)
        case None => Err(RangeError)
        case Some(aad) =>
          match c.agree(o.ephemeral, o.recipient.encryption)
          case None => Err(Sabcl(DecryptionFailed))
          case Some(secret) => SealWith(c, o, header, aad, secret, padded)
  }

  function SealWith<P>(c: Suite, o: SealOptions<P>, header: Header, aad: bytes, secret: bytes, padded: bytes):
    Result<(Request, bytes), Fault>
  {
    match KeyInfo(REQUEST_KEY, aad)
    case None => Err(RangeError)
    case Some(info) =>
      var (ct, tag) := c.encrypt(c.derive(secret, o.nonce, info), o.nonce, padded, aad);
      match SigningInput(REQUEST_SIGNATURE, aad, ct, tag)
      case None => Err(RangeError)
      case Some(message) =>
        var e := Request(header, ToBase64Url(ct), ToBase64Url(tag), ToBase64Url(c.sign(o.sender.signing, message)));
        if RequestShape(e) then Ok((e, secret)) else Err(SchemaError)
  }

  datatype Opened<P> = Opened(
    payload: P, messageId: string, senderKeyId: string, senderService: string, routeToken: string, secret: bytes)

  function Decode(s: string): Result<bytes, Fault> {
    match FromBase64Url(s)
    case None => Err(Sabcl(Malformed))
    case Some(b) => Ok(b)
  }

  function AeadOpen(c: Suite, key: bytes, nonce: bytes, ct: bytes, tag: bytes, aad: bytes): Option<bytes> {
    if |tag| != TAG_BYTES then None else c.decrypt(key, nonce, ct, tag, aad)
  }

  /** The last steps of both openings: bucket check, unpadding, JSON. */
  function Unwrap<P>(j: Json<P>, plain: Option<bytes>, pad: int): Result<P, Fault> {
    match plain
    case None => Err(Sabcl(DecryptionFailed))
    case Some(padded) =>
      if |padded| != pad then Err(Sabcl(Malformed))
      else
        match Unpad(padded)
        case None => Err(Sabcl(Malformed))
        case Some(text) => match j.parse(text) { case None => Err(Sabcl(Malformed)) case Some(p) => Ok(p) }
  }

  /** The checks before any key is touched. */
  function Admit(own: PrivateIdentity, peers: Peers, e: Request, now: int): Result<PublicIdentity, Fault> {
    if e.header.v != VERSION then Err(Sabcl(UnsupportedVersion))
    else if now > e.header.exp then Err(Sabcl(Expired))
    else if e.header.iat > now + CLOCK_SKEW_SECONDS then Err(Sabcl(Expired))
    else if e.header.exp - e.header.iat > MAX_TTL_SECONDS then Err(Sabcl(Malformed))
    else if e.header.rkid != own.keyId then Err(Sabcl(UnknownRecipient))
    else match Peer(peers, e.header.skid, now) { case Err(code) => Err(Sabcl(code)) case Ok(peer) => Ok(peer) }
  }

  /** The signature is checked over the decoded fields before anything is decrypted. */
  function Authenticate(c: Suite, domain: string, key: bytes, aad: bytes, ct: bytes, tag: bytes, sig: bytes):
    Option<Fault>
  {
    match SigningInput(domain, aad, ct, tag)
    case None => Some(RangeError)
    case Some(message) => if c.verify(key, message, sig) then None else Some(Sabcl(SignatureInvalid))
  }

  function OpenRequest<P>(c: Suite, j: Json<P>, own: PrivateIdentity, peers: Peers, e: Request, now: int):
    Result<Opened<P>, Fault>
  {
    match Admit(own, peers, e, now)
    case Err(f) => Err(f)
    case Ok(sender) =>
      match CanonicalRequestHeader(e.header)
      case None => Err(RangeError)
      case Some(aad) =>
        match (Decode(e.ct), Decode(e.tag), Decode(e.sig))
        case (Ok(ct), Ok(tag), Ok(sig)) =>
          (match Authenticate(c, REQUEST_SIGNATURE, sender.signing, aad, ct, tag, sig)
           case Some(f) => Err(f)
           case None => Decrypt(c, j, own, sender, e.header, aad, ct, tag))
        case _ => Err(Sabcl(Malformed))
  }

  function Decrypt<P>(c: Suite, j: Json<P>, own: PrivateIdentity, sender: PublicIdentity, h: Header,
                      aad: bytes, ct: bytes, tag: bytes): Result<Opened<P>, Fault>
  {
    match Decode(h.epk)
    case Err(f) => Err(f)
    case Ok(point) =>
      if |point| != 32 then Err(Sabcl(Malformed))
      else
        match c.agree(own.encryption, point)
        case None => Err(Sabcl(DecryptionFailed))
        case Some(secret) =>
          match Decode(h.n)
          case Err(f) => Err(f)
          case Ok(nonce) =>
            match KeyInfo(REQUEST_KEY, aad)
            case None => Err(RangeError)
            case Some(info) =>
              match Unwrap(j, AeadOpen(c, c.derive(secret, nonce, info), nonce, ct, tag, aad), h.pad)
              case Err(f) => Err(f)
              case Ok(p) => Ok(Opened(p, h.mid, h.skid, sender.service, h.rt, secret))
  }

  // ---------- responses ----------

  datatype ReplyOptions<P> = ReplyOptions(
    responder: PrivateIdentity, secret: bytes, correlationId: string, payload: P, nonce: bytes)

  function SealResponse<P>(c: Suite, j: Json<P>, o: ReplyOptions<P>): Result<Response, Fault> {
    match Pad(j.stringify(o.payload))
    case Err(TooLong) => Err(Sabcl(Oversized))
    case Err(NoBucket) => Err(RangeError)
    case Ok(padded) =>
      var header := ReplyHeader(VERSION, o.correlationId, o.responder.keyId, ToBase64Url(o.nonce), |padded|);
      match CanonicalResponseHeader(header)
      case None => Err(RangeError)
      case Some(aad) =>
        match KeyInfo(RESPONSE_KEY, aad)
        case None => Err(RangeError)
        case Some(info) =>
          var (ct, tag) := c.encrypt(c.derive(o.secret, o.nonce, info), o.nonce, padded, aad);
          match SigningInput(RESPONSE_SIGNATURE, aad, ct, tag)
          case None => Err(RangeError)
          case Some(message) =>
            var e := Response(header, ToBase64Url(ct), ToBase64Url(tag), ToBase64Url(c.sign(o.responder.signing, message)));
            if ResponseShape(e) then Ok(e) else Err(SchemaError)
  }

  function OpenResponse<P>(c: Suite, j: Json<P>, responder: PublicIdentity, secret: bytes, expected: string, e: Response):
    Result<P, Fault>
  {
    if e.header.v != VERSION then Err(Sabcl(UnsupportedVersion))
    else if e.header.cid != expected then Err(Sabcl(Malformed))
    else if e.header.skid != responder.keyId then Err(Sabcl(UnknownSender))
    else
      match CanonicalResponseHeader(e.header)
      case None => Err(RangeError)
      case Some(aad) =>
        match (Decode(e.ct), Decode(e.tag), Decode(e.sig))
        case (Ok(ct), Ok(tag), Ok(sig)) =>
          (match Authenticate(c, RESPONSE_SIGNATURE, responder.signing, aad, ct, tag, sig)
           case Some(f) => Err(f)
           case None => DecryptResponse(c, j, secret, e.header, aad, ct, tag))
        case _ => Err(Sabcl(Malformed))
  }

  function DecryptResponse<P>(c: Suite, j: Json<P>, secret: bytes, h: ReplyHeader, aad: bytes, ct: bytes, tag: bytes):
    Result<P, Fault>
  {
    match Decode(h.n)
    case Err(f) => Err(f)
    case Ok(nonce) =>
      match KeyInfo(RESPONSE_KEY, aad)
      case None => Err(RangeError)
      case Some(info) => Unwrap(j, AeadOpen(c, c.derive(secret, nonce, info), nonce, ct, tag, aad), h.pad)
  }
}
