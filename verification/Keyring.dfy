/** Peer identities, rotation and revocation (keyring.ts, errors.ts). */
module Keyring {
  import opened Wrappers
  import opened Bytes
  import opened Text
  import Decimal

  datatype Code =
    | Malformed | UnsupportedVersion | Oversized | Expired | Replayed | SignatureInvalid | DecryptionFailed
    | UnknownSender | UnknownRecipient | KeyRevoked | RouteInvalid | HopLimitExceeded | RecipientUnavailable | NotConfigured

  /** A thrown SabclError, or one of the two library errors that can surface instead. */
  datatype Fault = Sabcl(code: Code) | RangeError | SchemaError

  datatype PrivateIdentity = PrivateIdentity(
    keyId: string, service: string, encryption: bytes, signing: bytes, notAfter: Option<int>)

  datatype PublicIdentity = PublicIdentity(
    keyId: string, service: string, encryption: bytes, signing: bytes, revoked: bool, notAfter: Option<int>)
  {
    predicate Live(now: int) { !revoked && (notAfter.None? || now <= notAfter.value) }

    /** `versionOfKeyId`: the digits after the last ".v". */
    function Version(): nat { VersionIn(keyId, |keyId|) }
  }

  function VersionIn(s: string, end: nat): nat
    requires end <= |s|
  {
    if end < 2 then 0
    else if s[end - 2..end] == ".v" then if Decimal.AllDigits(s[end..]) then Decimal.NatOf(s[end..]) else 0
    else VersionIn(s, end - 1)
  }

  type Peers = seq<PublicIdentity>

  predicate DistinctKeys(peers: Peers) {
    forall i, j :: 0 <= i < j < |peers| ==> peers[i].keyId != peers[j].keyId
  }

  /** The constructor: fills the map, refusing a key identifier it already holds. */
  method LoadPeers(peers: Peers) returns (r: Result<map<string, PublicIdentity>, Code>)
    ensures r.Ok? <==> DistinctKeys(peers)
    ensures r.Err? ==> r.error == NotConfigured
    ensures r.Ok? ==> forall k :: FindPeer(peers, k) == if k in r.value then Some(r.value[k]) else None
  {
    var loaded: map<string, PublicIdentity> := map[];
    for n := 0 to |peers|
      invariant DistinctKeys(peers[..n])
      invariant forall k :: k in loaded <==> exists i :: 0 <= i < n && peers[i].keyId == k
      invariant forall i :: 0 <= i < n ==> loaded[peers[i].keyId] == peers[i]
    {
      if peers[n].keyId in loaded {
        return Err(NotConfigured);
      }
      loaded := loaded[peers[n].keyId := peers[n]];
    }
    assert peers[..|peers|] == peers;
    forall k ensures FindPeer(peers, k) == if k in loaded then Some(loaded[k]) else None {
      FindPeerFinds(peers, k);
    }
    r := Ok(loaded);
  }

  function FindPeer(peers: Peers, keyId: string): (r: Option<PublicIdentity>) {
    if |peers| == 0 then None
    else if peers[0].keyId == keyId then Some(peers[0])
    else FindPeer(peers[1..], keyId)
  }

  lemma {:induction false} FindPeerFinds(peers: Peers, keyId: string)
    ensures FindPeer(peers, keyId).None? <==> forall i :: 0 <= i < |peers| ==> peers[i].keyId != keyId
    ensures FindPeer(peers, keyId).Some? ==>
      FindPeer(peers, keyId).value.keyId == keyId && FindPeer(peers, keyId).value in peers
    ensures DistinctKeys(peers) ==> forall p :: p in peers && p.keyId == keyId ==> FindPeer(peers, keyId) == Some(p)
  {
    if |peers| > 0 {
      var rest := peers[1..];
      FindPeerFinds(rest, keyId);
      assert forall p :: p in peers <==> p == peers[0] || p in rest;
      assert forall i :: 0 <= i < |rest| ==> rest[i] == peers[i + 1];
      assert (forall i :: 0 <= i < |peers| ==> peers[i].keyId != keyId)
        <==> peers[0].keyId != keyId && forall i :: 0 <= i < |rest| ==> rest[i].keyId != keyId by {
        forall i | 1 <= i < |peers| ensures peers[i] == rest[i - 1] {}
      }
    }
  }

  /** `peer`. */
  function Peer(peers: Peers, keyId: string, now: int): Result<PublicIdentity, Code> {
    match FindPeer(peers, keyId)
    case None => Err(UnknownSender)
    case Some(p) =>
      if p.revoked then Err(KeyRevoked)
      else if p.notAfter.Some? && now > p.notAfter.value then Err(KeyRevoked)
      else Ok(p)
  }

  // ---------- sending: the active key ----------

  predicate Serves(p: PublicIdentity, service: string, now: int) { p.service == service && p.Live(now) }

  function Candidates(peers: Peers, service: string, now: int): Peers {
    if |peers| == 0 then []
    else (if Serves(peers[0], service, now) then [peers[0]] else []) + Candidates(peers[1..], service, now)
  }

  /** The stable sort by descending version, one element at a time. */
  function Sorted(ps: Peers): Peers {
    if |ps| == 0 then [] else InsertPeer(ps[0], Sorted(ps[1..]))
  }

  function InsertPeer(p: PublicIdentity, sorted: Peers): Peers {
    if |sorted| == 0 || p.Version() >= sorted[0].Version() then [p] + sorted
    else [sorted[0]] + InsertPeer(p, sorted[1..])
  }

  /** `activePeerFor`. */
  function ActivePeerFor(peers: Peers, service: string, now: int): Result<PublicIdentity, Code> {
    var sorted := Sorted(Candidates(peers, service, now));
    if |sorted| == 0 then Err(UnknownRecipient) else Ok(sorted[0])
  }

  lemma {:induction false} CandidatesAre(peers: Peers, service: string, now: int)
    ensures forall p :: p in Candidates(peers, service, now) <==> p in peers && Serves(p, service, now)
  {
    if |peers| > 0 {
      CandidatesAre(peers[1..], service, now);
      assert forall p :: p in peers <==> p == peers[0] || p in peers[1..];
    }
  }

  /** The first of the sort is the earliest of the highest. */
  lemma {:induction false} SortedHead(ps: Peers) returns (i: nat)
    requires |ps| > 0
    ensures |Sorted(ps)| > 0 && i < |ps| && Sorted(ps)[0] == ps[i]
    ensures forall j :: 0 <= j < i ==> ps[j].Version() < ps[i].Version()
    ensures forall j :: i <= j < |ps| ==> ps[j].Version() <= ps[i].Version()
  {
    i := 0;
    if |ps| > 1 {
      var k := SortedHead(ps[1..]);
      assert forall j :: 1 <= j < |ps| ==> ps[j] == ps[1..][j - 1];
      if ps[0].Version() < Sorted(ps[1..])[0].Version() { i := k + 1; }
    }
  }

  /** The key a sender addresses is a live key of the service, of the highest version; there is one unless none is live. */
  lemma ActivePeerIsHighestLive(peers: Peers, service: string, now: int)
    ensures ActivePeerFor(peers, service, now).Err? <==> forall p :: p in peers ==> !Serves(p, service, now)
    ensures ActivePeerFor(peers, service, now).Ok? ==>
      var active := ActivePeerFor(peers, service, now).value;
      && active in peers && Serves(active, service, now)
      && forall p :: p in peers && Serves(p, service, now) ==> p.Version() <= active.Version()
  {
    var ps := Candidates(peers, service, now);
    CandidatesAre(peers, service, now);
    if |ps| > 0 {
      var i := SortedHead(ps);
      assert ps[i] in ps;
    } else {
      assert forall p :: p in peers && Serves(p, service, now) ==> p in ps;
    }
  }

  /** Rotation: two live keys of one service are both accepted, whichever of them is addressed. */
  lemma EveryLiveKeyAccepted(peers: Peers, keyId: string, now: int)
    requires DistinctKeys(peers)
    ensures Peer(peers, keyId, now).Ok? <==> exists p :: p in peers && p.keyId == keyId && p.Live(now)
    ensures forall service ::
      ActivePeerFor(peers, service, now).Ok? ==>
        var active := ActivePeerFor(peers, service, now).value;
        Peer(peers, active.keyId, now) == Ok(active)
  {
    FindPeerFinds(peers, keyId);
    forall service | ActivePeerFor(peers, service, now).Ok?
      ensures Peer(peers, ActivePeerFor(peers, service, now).value.keyId, now) == ActivePeerFor(peers, service, now)
    {
      ActivePeerIsHighestLive(peers, service, now);
      FindPeerFinds(peers, ActivePeerFor(peers, service, now).value.keyId);
    }
    if exists p :: p in peers && p.keyId == keyId && p.Live(now) {
      var p :| p in peers && p.keyId == keyId && p.Live(now);
      assert FindPeer(peers, keyId) == Some(p);
    }
  }

  // ---------- the operator's rotation view ----------

  datatype Rotation = Rotation(active: Option<string>, accepted: seq<string>, revoked: seq<string>)

  function KeysWhere(peers: Peers, service: string, now: int, live: bool): seq<string> {
    if |peers| == 0 then []
    else
      var rest := KeysWhere(peers[1..], service, now, live);
      if peers[0].service == service && peers[0].Live(now) == live then InsertId(peers[0].keyId, rest) else rest
  }

  /** `rotationState`, for one service. */
  function RotationOf(peers: Peers, service: string, now: int): Rotation {
    var active := ActivePeerFor(peers, service, now);
    Rotation(if active.Ok? then Some(active.value.keyId) else None,
      KeysWhere(peers, service, now, true), KeysWhere(peers, service, now, false))
  }

  lemma {:induction false} KeysWhereAre(peers: Peers, service: string, now: int, live: bool)
    ensures Ascending(KeysWhere(peers, service, now, live))
    ensures forall k :: k in KeysWhere(peers, service, now, live) <==>
      exists p :: p in peers && p.keyId == k && p.service == service && p.Live(now) == live
  {
    if |peers| > 0 {
      KeysWhereAre(peers[1..], service, now, live);
      InsertIdAscends(peers[0].keyId, KeysWhere(peers[1..], service, now, live));
      assert forall p :: p in peers <==> p == peers[0] || p in peers[1..];
      forall k ensures k in KeysWhere(peers, service, now, live) <==>
        exists p :: p in peers && p.keyId == k && p.service == service && p.Live(now) == live
      {
        if p :| p in peers && p.keyId == k && p.service == service && p.Live(now) == live {
          assert p == peers[0] || p in peers[1..];
        }
      }
    }
  }

  /** Accepted and revoked keys share nothing and cover the service; the active key is an accepted one. */
  lemma RotationPartitions(peers: Peers, service: string, now: int)
    requires DistinctKeys(peers)
    ensures
      var r := RotationOf(peers, service, now);
      && Ascending(r.accepted) && Ascending(r.revoked)
      && (forall k :: !(k in r.accepted && k in r.revoked))
      && (forall k :: k in r.accepted || k in r.revoked <==> exists p :: p in peers && p.keyId == k && p.service == service)
      && (r.active.None? <==> r.accepted == [])
      && (r.active.Some? ==> r.active.value in r.accepted)
  {
    KeysWhereAre(peers, service, now, true);
    KeysWhereAre(peers, service, now, false);
    ActivePeerIsHighestLive(peers, service, now);
    var r := RotationOf(peers, service, now);
    forall k | k in r.accepted ensures k !in r.revoked {
      var p :| p in peers && p.keyId == k && p.service == service && p.Live(now);
      forall q | q in peers && q.keyId == k ensures q == p { FindPeerFinds(peers, k); }
    }
    if r.accepted != [] {
      assert r.accepted[0] in r.accepted;
      var p :| p in peers && p.keyId == r.accepted[0] && p.service == service && p.Live(now);
      assert Serves(p, service, now);
    }
    if r.active.Some? {
      assert ActivePeerFor(peers, service, now).value in peers;
      assert r.active.value in r.accepted;
    }
  }

  /** An unknown identifier and a key that is revoked or past its time are told apart, and nothing else is refused. */
  lemma PeerCodes(peers: Peers, keyId: string, now: int)
    requires DistinctKeys(peers)
    ensures Peer(peers, keyId, now) == Err(UnknownSender) <==> forall p :: p in peers ==> p.keyId != keyId
    ensures Peer(peers, keyId, now) == Err(KeyRevoked) <==> exists p :: p in peers && p.keyId == keyId && !p.Live(now)
  {
    FindPeerFinds(peers, keyId);
    if exists p :: p in peers && p.keyId == keyId && !p.Live(now) {
      var p :| p in peers && p.keyId == keyId && !p.Live(now);
      assert FindPeer(peers, keyId) == Some(p);
    }
    forall p | p in peers && p.keyId == keyId ensures FindPeer(peers, keyId) == Some(p) {}
    assert (forall i :: 0 <= i < |peers| ==> peers[i].keyId != keyId) <==> forall p :: p in peers ==> p.keyId != keyId by {
      forall i | 0 <= i < |peers| ensures peers[i] in peers {}
    }
  }

  /** The version of a key identifier is the number its last ".v" is followed by. */
  lemma VersionReads(p: PublicIdentity, service: string, digits: string)
    requires p.keyId == service + ".v" + digits && Decimal.AllDigits(digits)
    ensures p.Version() == Decimal.NatOf(digits)
  {
    LastDot(p.keyId, |service| + 2, |p.keyId|);
    assert p.keyId[|service| + 2..] == digits && p.keyId[|service|..|service| + 2] == ".v";
  }

  lemma {:induction false} LastDot(s: string, at: nat, end: nat)
    requires 2 <= at <= end <= |s| && forall i :: at <= i < |s| ==> Decimal.IsDigit(s[i])
    requires s[at - 2..at] == ".v"
    ensures VersionIn(s, end) == VersionIn(s, at)
  {
    if end > at {
      assert s[end - 2..end][1] == s[end - 1] && Decimal.IsDigit(s[end - 1]);
      LastDot(s, at, end - 1);
    }
  }
}
