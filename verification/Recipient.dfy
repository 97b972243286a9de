/** The recipient of sealed requests (sabcl-recipient.ts): open, claim, check, dispatch, reply. */
module Recipient {
  import opened Wrappers
  import opened Bytes
  import opened Base64Url
  import opened Envelope
  import opened Keyring
  import opened Seal
  import opened SealTheorems
  import opened Authenticity
  import opened Replay

  datatype Verb = Get | Post

  /** The decrypted request; its body is the JSON text that the service is handed. */
  datatype Inner = Inner(
    op: string, verb: Verb, path: string, body: Option<bytes>, customerId: Option<string>, correlationId: string)

  /** A capability: operation prefix, methods, and the anchored path patterns as one test. */
  datatype Capability = Capability(prefix: string, verbs: set<Verb>, allows: string -> bool)

  datatype Config<!P> = Config(
    suite: Suite, json: Json<P>, own: PrivateIdentity, peers: Peers, capabilities: seq<Capability>,
    inner: P -> Option<Inner>,        // sabclInnerRequestSchema
    decodeUri: string -> string)      // decodeURIComponent, or the path itself when that throws

  // ---------- the capability check ----------

  function FindCapability(caps: seq<Capability>, op: string): (r: Option<Capability>)
    ensures r.Some? ==> r.value in caps
  {
    if |caps| == 0 then None
    else if caps[0].prefix + "." <= op then Some(caps[0])
    else FindCapability(caps[1..], op)
  }

  predicate Mentions(s: string, t: string) {
    t <= s || (|s| > 0 && Mentions(s[1..], t))
  }

  /** `assertCapability`. */
  function CapabilityError<P>(cfg: Config<P>, inner: Inner): Option<Code> {
    match FindCapability(cfg.capabilities, inner.op)
    case None => Some(RouteInvalid)
    case Some(cap) =>
      if inner.verb !in cap.verbs then Some(RouteInvalid)
      else
        var decoded := cfg.decodeUri(inner.path);
        if Mentions(decoded, "..") || Mentions(decoded, "\\") then Some(RouteInvalid)
        else if !cap.allows(inner.path) then Some(RouteInvalid)
        else None
  }

  // ---------- handling one envelope ----------

  /** What arrives: an envelope, the instant in milliseconds, and what the service and the random source would answer. */
  datatype Delivery<!P> = Delivery(e: Request, at: int, serve: Inner -> Option<P>, nonce: bytes)

  datatype Outcome = Outcome(dispatched: Option<Inner>, reply: Result<Response, Code>)

  /** `toSabclError` with its default. */
  function CodeOf(f: Fault): Code {
    match f
    case Sabcl(code) => code
    case _ => DecryptionFailed
  }

  function Rejected(code: Code): Outcome { Outcome(None, Err(code)) }

  function Verify<P>(cfg: Config<P>, d: Delivery<P>): Result<Opened<P>, Code> {
    if !RequestShape(d.e) then Err(Malformed)
    else
      match OpenRequest(cfg.suite, cfg.json, cfg.own, cfg.peers, d.e, Seconds(d.at))
      case Err(f) => Err(CodeOf(f))
      case Ok(got) => Ok(got)
  }

  function ClaimOf<P>(d: Delivery<P>): Claim { Claim(d.e.header.mid, d.e.header.exp, d.at) }

  /** After a won claim: validate, check the capability, dispatch, and seal the answer. */
  function Serve<P>(cfg: Config<P>, d: Delivery<P>, got: Opened<P>): Outcome {
    match cfg.inner(got.payload)
    case None => Rejected(Malformed)
    case Some(inner) =>
      match CapabilityError(cfg, inner)
      case Some(code) => Rejected(code)
      case None =>
        match d.serve(inner)
        case None => Outcome(Some(inner), Err(DecryptionFailed))
        case Some(result) =>
          match SealResponse(cfg.suite, cfg.json, ReplyOptions(cfg.own, got.secret, got.messageId, result, d.nonce))
          case Err(f) => Outcome(Some(inner), Err(CodeOf(f)))
          case Ok(r) => Outcome(Some(inner), Ok(r))
  }

  /** The whole of `handle` on the replay state. */
  function Handled<P>(cfg: Config<P>, seen: Seen, d: Delivery<P>): (Seen, Outcome) {
    match Verify(cfg, d)
    case Err(code) => (seen, Rejected(code))
    case Ok(got) =>
      var (seen', unseen) := Claimed(seen, ClaimOf(d));
      if !unseen then (seen', Rejected(Replayed)) else (seen', Serve(cfg, d, got))
  }

  class SabclRecipient<!P> {
    const cfg: Config<P>
    const store: InMemoryReplayStore

    constructor (cfg: Config<P>)
      ensures this.cfg == cfg && fresh(store) && store.seen == map[]
    {
      this.cfg := cfg;
      store := new InMemoryReplayStore();
    }

    /** `handle`, one envelope at one instant. */
    method Handle(d: Delivery<P>) returns (r: Outcome)
      modifies store
      ensures (store.seen, r) == Handled(cfg, old(store.seen), d)
    {
      var got := Verify(cfg, d);
      if got.Err? {
        return Rejected(got.error);
      }
      var left := d.e.header.exp - Seconds(d.at) + 1;
      var unseen := store.Remember(d.e.header.mid, if left > 1 then left else 1, d.at);
      if !unseen {
        return Rejected(Replayed);
      }
      r := Serve(cfg, d, got.value);
    }
  }

  // ---------- runs ----------

  function SeenAfter<P>(cfg: Config<P>, ds: seq<Delivery<P>>): Seen {
    if |ds| == 0 then map[] else Handled(cfg, SeenAfter(cfg, ds[..|ds| - 1]), ds[|ds| - 1]).0
  }

  function OutcomeAt<P>(cfg: Config<P>, ds: seq<Delivery<P>>, i: nat): Outcome
    requires i < |ds|
  {
    Handled(cfg, SeenAfter(cfg, ds[..i]), ds[i]).1
  }

  ghost predicate ClockForward<P>(ds: seq<Delivery<P>>) {
    forall i, j :: 0 <= i <= j < |ds| ==> ds[i].at <= ds[j].at
  }

  function TraceOf<P>(cfg: Config<P>, ds: seq<Delivery<P>>): (t: Trace)
    ensures |t| == |ds|
    ensures forall i :: 0 <= i < |ds| ==> t[i] == if Verify(cfg, ds[i]).Ok? then Some(ClaimOf(ds[i])) else None
  {
    seq(|ds|, i requires 0 <= i < |ds| => if Verify(cfg, ds[i]).Ok? then Some(ClaimOf(ds[i])) else None)
  }

  lemma VerifiedInTime<P>(cfg: Config<P>, d: Delivery<P>)
    requires Verify(cfg, d).Ok?
    ensures Seconds(d.at) <= d.e.header.exp
  {
    hide OpenRequest;
    AcceptedVerifies(cfg.suite, cfg.json, cfg.own, cfg.peers, d.e, Seconds(d.at));
  }

  lemma TraceOrderly<P>(cfg: Config<P>, ds: seq<Delivery<P>>)
    requires ClockForward(ds)
    ensures Orderly(TraceOf(cfg, ds))
  {
    hide Verify;
    forall i | 0 <= i < |ds| && Verify(cfg, ds[i]).Ok? ensures Seconds(ds[i].at) <= ds[i].e.header.exp {
      VerifiedInTime(cfg, ds[i]);
    }
  }

  /** The recipient's store is the store of its trace. */
  lemma {:induction false} StoreOfTrace<P>(cfg: Config<P>, ds: seq<Delivery<P>>)
    ensures StoreAfter(TraceOf(cfg, ds)) == SeenAfter(cfg, ds)
  {
    hide Verify, Serve, Claimed;
    if |ds| > 0 {
      StoreOfTrace(cfg, ds[..|ds| - 1]);
      assert TraceOf(cfg, ds)[..|ds| - 1] == TraceOf(cfg, ds[..|ds| - 1]);
    }
  }

  lemma DispatchIsWin<P>(cfg: Config<P>, ds: seq<Delivery<P>>, i: nat)
    requires i < |ds| && OutcomeAt(cfg, ds, i).dispatched.Some?
    ensures Won(TraceOf(cfg, ds), i)
  {
    hide Verify, Serve, Claimed;
    StoreOfTrace(cfg, ds[..i]);
    assert TraceOf(cfg, ds)[..i] == TraceOf(cfg, ds[..i]);
  }

  /**
   * Over any run of deliveries on a clock that does not run backwards, however often and by whatever way an
   * envelope is redelivered, two dispatches under one message identifier carry strictly increasing expiries;
   * so no envelope, and no header, is dispatched twice.
   */
  lemma DispatchedAtMostOnce<P>(cfg: Config<P>, ds: seq<Delivery<P>>, i: nat, k: nat)
    requires ClockForward(ds) && i < k < |ds| && ds[i].e.header.mid == ds[k].e.header.mid
    requires OutcomeAt(cfg, ds, i).dispatched.Some? && OutcomeAt(cfg, ds, k).dispatched.Some?
    ensures ds[i].e.header.exp < ds[k].e.header.exp
  {
    hide Verify, Serve, Claimed;
    TraceOrderly(cfg, ds);
    DispatchIsWin(cfg, ds, i);
    DispatchIsWin(cfg, ds, k);
    WonOnce(TraceOf(cfg, ds), i, k);
  }

  // ---------- each sealing is dispatched at most once ----------

  ghost predicate Genuine<P>(cfg: Config<P>, acts: seq<Act<P>>, keys: set<bytes>, wire: set<bytes>, ds: seq<Delivery<P>>) {
    && NoForgery(cfg.suite, cfg.json, acts, keys, wire)
    && (forall p :: p in cfg.peers ==> p.signing in keys)
    && (forall i :: 0 <= i < |ds| ==> FromBase64Url(ds[i].e.sig).Some? ==> FromBase64Url(ds[i].e.sig).value in wire)
  }

  /** The act behind a dispatch: a sealing by the named peer of this very header, ciphertext and tag. */
  lemma DispatchHasAct<P(!new)>(cfg: Config<P>, acts: seq<Act<P>>, keys: set<bytes>, wire: set<bytes>,
                                ds: seq<Delivery<P>>, i: nat) returns (a: nat)
    requires Genuine(cfg, acts, keys, wire, ds) && i < |ds| && OutcomeAt(cfg, ds, i).dispatched.Some?
    ensures a < |acts| && Peer(cfg.peers, ds[i].e.header.skid, Seconds(ds[i].at)).Ok?
    ensures SealedAs(cfg.suite, cfg.json, acts[a], ds[i].e,
                     Peer(cfg.peers, ds[i].e.header.skid, Seconds(ds[i].at)).value.signing)
  {
    hide OpenRequest, NoForgery, FromBase64Url, Peer, Claimed, Serve, SealRequest;
    var d := ds[i];
    assert OpenRequest(cfg.suite, cfg.json, cfg.own, cfg.peers, d.e, Seconds(d.at)).Ok?;
    AcceptedVerifies(cfg.suite, cfg.json, cfg.own, cfg.peers, d.e, Seconds(d.at));
    PeerIsConfigured(cfg.peers, d.e.header.skid, Seconds(d.at));
    a := RequestAuthentic(cfg.suite, cfg.json, acts, keys, wire, cfg.own, cfg.peers, d.e, Seconds(d.at));
  }

  lemma PeerIsConfigured(peers: Peers, keyId: string, now: int)
    requires Peer(peers, keyId, now).Ok?
    ensures Peer(peers, keyId, now).value in peers
  {
    FindPeerFinds(peers, keyId);
  }

  /** Every dispatch answers a sealing of its own: two dispatches never go back to the same act of sealing. */
  lemma OneDispatchPerSealing<P(!new)>(cfg: Config<P>, acts: seq<Act<P>>, ds: seq<Delivery<P>>, i: nat, k: nat, a: nat,
                                       key: bytes, key': bytes)
    requires ClockForward(ds) && i < k < |ds| && a < |acts|
    requires OutcomeAt(cfg, ds, i).dispatched.Some? && OutcomeAt(cfg, ds, k).dispatched.Some?
    ensures !(SealedAs(cfg.suite, cfg.json, acts[a], ds[i].e, key) && SealedAs(cfg.suite, cfg.json, acts[a], ds[k].e, key'))
  {
    hide OutcomeAt, SealRequest;
    if SealedAs(cfg.suite, cfg.json, acts[a], ds[i].e, key) && SealedAs(cfg.suite, cfg.json, acts[a], ds[k].e, key') {
      assert ds[i].e.header == ds[k].e.header;
      DispatchedAtMostOnce(cfg, ds, i, k);
    }
  }

  /** The confused-deputy defence: some capability serves the operation, its method and its path, with no way out of it. */
  ghost predicate Permitted<P>(cfg: Config<P>, inner: Inner) {
    && (exists cap :: cap in cfg.capabilities && cap.prefix + "." <= inner.op && inner.verb in cap.verbs && cap.allows(inner.path))
    && !Mentions(cfg.decodeUri(inner.path), "..") && !Mentions(cfg.decodeUri(inner.path), "\\")
  }

  /** Only authenticated messages touch the replay state, and only permitted requests among them are dispatched. */
  lemma OnlyPermittedDispatched<P>(cfg: Config<P>, seen: Seen, d: Delivery<P>)
    ensures Handled(cfg, seen, d).0 != seen ==> Verify(cfg, d).Ok?
    ensures Handled(cfg, seen, d).1.dispatched.Some? ==> Permitted(cfg, Handled(cfg, seen, d).1.dispatched.value)
  {
    hide Verify, Mentions;
    if Handled(cfg, seen, d).1.dispatched.Some? {
      var inner := Handled(cfg, seen, d).1.dispatched.value;
      assert CapabilityError(cfg, inner).None?;
      FoundServes(cfg.capabilities, inner.op);
    }
  }

  lemma {:induction false} FoundServes(caps: seq<Capability>, op: string)
    ensures FindCapability(caps, op).Some? ==> FindCapability(caps, op).value.prefix + "." <= op
  {
    if |caps| > 0 && !(caps[0].prefix + "." <= op) { FoundServes(caps[1..], op); }
  }

  /** A sealed request presented in its window, unseen, for a permitted operation, is dispatched. */
  lemma SealedIsDispatched<P(!new)>(cfg: Config<P>, seen: Seen, o: SealOptions<P>, d: Delivery<P>)
    requires Laws(cfg.suite) && JsonLaw(cfg.json) && Drawn(o) && SealRequest(cfg.suite, cfg.json, o).Ok?
    requires d.e == SealRequest(cfg.suite, cfg.json, o).value.0
    requires Paired(cfg.suite, o, cfg.own, cfg.peers, Seconds(d.at))
    requires o.now - CLOCK_SKEW_SECONDS <= Seconds(d.at) <= o.now + o.ttl
    requires d.e.header.mid !in Swept(seen, d.at)
    requires cfg.inner(o.payload).Some? && CapabilityError(cfg, cfg.inner(o.payload).value).None?
    ensures Handled(cfg, seen, d).1.dispatched == cfg.inner(o.payload)
  {
    hide SealRequest, OpenRequest, CapabilityError, Laws, SealResponse, RequestShape, Peer;
    SealThenOpen(cfg.suite, cfg.json, o, cfg.own, cfg.peers, Seconds(d.at));
    SealedShape(cfg.suite, cfg.json, o);
  }

  /** Capability i decides the operation: it is the first whose prefix, with its dot, begins it. */
  ghost predicate Decides(caps: seq<Capability>, op: string, i: int) {
    && 0 <= i < |caps| && caps[i].prefix + "." <= op
    && forall j :: 0 <= j < i ==> !(caps[j].prefix + "." <= op)
  }

  lemma {:induction false} FirstFound(caps: seq<Capability>, op: string)
    ensures FindCapability(caps, op).None? ==> forall i :: !Decides(caps, op, i)
    ensures FindCapability(caps, op).Some? ==> exists i :: Decides(caps, op, i) && caps[i] == FindCapability(caps, op).value
  {
    if |caps| > 0 {
      if caps[0].prefix + "." <= op {
        assert Decides(caps, op, 0);
      } else {
        var rest := caps[1..];
        FirstFound(rest, op);
        forall i | Decides(caps, op, i) ensures Decides(rest, op, i - 1) {
          assert forall j :: 0 <= j < i - 1 ==> rest[j] == caps[j + 1];
        }
        if FindCapability(rest, op).Some? {
          var i :| Decides(rest, op, i) && rest[i] == FindCapability(rest, op).value;
          assert forall j :: 1 <= j < |caps| ==> caps[j] == rest[j - 1];
          assert Decides(caps, op, i + 1);
        }
      }
    }
  }

  /**
   * A request is let through exactly when the first capability that serves its operation permits its method and its
   * path, and the decoded path holds neither ".." nor a backslash; whatever fails, the code is the same.
   */
  lemma LetThroughIff<P>(cfg: Config<P>, inner: Inner)
    ensures CapabilityError(cfg, inner) == None || CapabilityError(cfg, inner) == Some(RouteInvalid)
    ensures CapabilityError(cfg, inner).None? <==>
      && (exists i :: Decides(cfg.capabilities, inner.op, i) && inner.verb in cfg.capabilities[i].verbs
           && cfg.capabilities[i].allows(inner.path))
      && (forall k :: 0 <= k < |cfg.decodeUri(inner.path)| ==>
          cfg.decodeUri(inner.path)[k] != '\\' && !(".." <= cfg.decodeUri(inner.path)[k..]))
  {
    var caps, s := cfg.capabilities, cfg.decodeUri(inner.path);
    FirstFound(caps, inner.op);
    MentionsAt(s, "..");
    MentionsAt(s, "\\");
    assert forall k :: 0 <= k < |s| ==> ("\\" <= s[k..] <==> s[k] == '\\');
    hide Mentions, FindCapability;
    if FindCapability(caps, inner.op).Some? {
      var i :| Decides(caps, inner.op, i) && caps[i] == FindCapability(caps, inner.op).value;
      forall k | Decides(caps, inner.op, k) ensures k == i {}
    }
  }

  lemma {:induction false} MentionsAt(s: string, t: string)
    requires |t| > 0
    ensures Mentions(s, t) <==> exists k :: 0 <= k < |s| && t <= s[k..]
  {
    if |s| > 0 {
      MentionsAt(s[1..], t);
      assert s[0..] == s;
      forall k | 1 <= k < |s| ensures s[k..] == s[1..][k - 1..] {}
      if Mentions(s[1..], t) {
        var k :| 0 <= k < |s[1..]| && t <= s[1..][k..];
        assert t <= s[k + 1..];
      }
    }
  }

  /**
   * The reply to a genuine, permitted, fresh request reaches its sender: it is sealed under the request's own message
   * identifier and secret, so the sender opens it to exactly what the service answered.
   */
  lemma ReplyReachesSender<P(!new)>(cfg: Config<P>, seen: Seen, o: SealOptions<P>, d: Delivery<P>, inner: Inner, result: P)
    requires Laws(cfg.suite) && JsonLaw(cfg.json) && Drawn(o) && SealRequest(cfg.suite, cfg.json, o).Ok?
    requires d.e == SealRequest(cfg.suite, cfg.json, o).value.0
    requires Paired(cfg.suite, o, cfg.own, cfg.peers, Seconds(d.at))
    requires o.now - CLOCK_SKEW_SECONDS <= Seconds(d.at) <= o.now + o.ttl
    requires d.e.header.mid !in Swept(seen, d.at)
    requires cfg.inner(o.payload) == Some(inner) && CapabilityError(cfg, inner).None? && d.serve(inner) == Some(result)
    requires |d.nonce| == NONCE_BYTES && |cfg.json.stringify(result)| <= 65_532
    requires o.recipient.signing == cfg.suite.verifierOf(cfg.own.signing)
    ensures Handled(cfg, seen, d).1.reply.Ok?
    ensures OpenResponse(cfg.suite, cfg.json, o.recipient, SealRequest(cfg.suite, cfg.json, o).value.1, d.e.header.mid,
                         Handled(cfg, seen, d).1.reply.value) == Ok(result)
  {
    hide SealRequest, OpenRequest, OpenResponse, CapabilityError, Laws, SealResponse, Peer, KeyIdShape, Base64UrlShape;
    hide JsonLaw, Claimed;
    SealThenOpen(cfg.suite, cfg.json, o, cfg.own, cfg.peers, Seconds(d.at));
    SealedShape(cfg.suite, cfg.json, o);
    var secret := SealRequest(cfg.suite, cfg.json, o).value.1;
    var padded, aad, key, ct, tag, message := SealedParts(cfg.suite, cfg.json, o);
    var reply := ReplyOptions(cfg.own, secret, d.e.header.mid, result, d.nonce);
    ReplySucceedsIff(cfg.suite, cfg.json, reply);
    ReplyThenOpen(cfg.suite, cfg.json, reply, o.recipient, d.e.header.mid);
    Unseen(seen, d);
  }

  lemma Unseen<P>(seen: Seen, d: Delivery<P>)
    requires d.e.header.mid !in Swept(seen, d.at)
    ensures Claimed(seen, ClaimOf(d)).1
  {
  }

  /** What a message that is not dispatched is told, in the order of the checks. */
  lemma RejectedAs<P>(cfg: Config<P>, seen: Seen, d: Delivery<P>)
    requires Handled(cfg, seen, d).1.dispatched.None?
    ensures
      var opening := OpenRequest(cfg.suite, cfg.json, cfg.own, cfg.peers, d.e, Seconds(d.at));
      Handled(cfg, seen, d).1.reply == Err(
        if !RequestShape(d.e) then Malformed
        else if opening.Err? then (if opening.error.Sabcl? then opening.error.code else DecryptionFailed)
        else if d.e.header.mid in seen && seen[d.e.header.mid] > d.at then Replayed
        else if cfg.inner(opening.value.payload).None? then Malformed
        else RouteInvalid)
  {
    hide OpenRequest, RequestShape, SealResponse;
    if Verify(cfg, d).Ok? && cfg.inner(Verify(cfg, d).value.payload).Some? {
      LetThroughIff(cfg, cfg.inner(Verify(cfg, d).value.payload).value);
    }
    hide CapabilityError;
  }
}
