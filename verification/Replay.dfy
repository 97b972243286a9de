/** The replay claim (replay-store.ts, sabcl-recipient.ts, router redis.service.ts) and why it is long enough. */
module Replay {
  import opened Wrappers

  /** Message identifier to expiry instant, in milliseconds. */
  type Seen = map<string, int>

  function Swept(seen: Seen, now: int): Seen {
    map k | k in seen && seen[k] > now :: seen[k]
  }

  /** The claim on an identifier: the store afterwards, and whether the identifier was unseen. */
  function Remembered(seen: Seen, id: string, ttl: int, now: int): (Seen, bool) {
    var live := Swept(seen, now);
    if id in live then (live, false) else (live[id := now + ttl * 1000], true)
  }

  class InMemoryReplayStore {
    var seen: Seen

    constructor ()
      ensures seen == map[]
    {
      seen := map[];
    }

    /** `remember`: sweeps every expired entry out of the map, then claims. */
    method Remember(id: string, ttl: int, now: int) returns (unseen: bool)
      modifies this
      ensures (seen, unseen) == Remembered(old(seen), id, ttl, now)
    {
      var todo := seen.Keys;
      while todo != {}
        invariant todo <= seen.Keys
        invariant forall k :: k in seen <==> k in old(seen) && (k in todo || old(seen)[k] > now)
        invariant forall k :: k in seen ==> seen[k] == old(seen)[k]
        decreases |todo|
      {
        var key :| key in todo;
        if seen[key] <= now {
          seen := seen - {key};
        }
        todo := todo - {key};
      }
      assert seen == Swept(old(seen), now);
      if id in seen {
        return false;
      }
      seen := seen[id := now + ttl * 1000];
      return true;
    }
  }

  // ---------- runs of claims ----------

  /** A message accepted at an instant (milliseconds) by a gate that compares whole seconds with its expiry. */
  datatype Claim = Claim(id: string, exp: int, at: int)

  function Seconds(ms: int): int { ms / 1000 }

  /** The validity window the claim must cover, at least one second. */
  function Ttl(c: Claim): int {
    var left := c.exp - Seconds(c.at) + 1;
    if left > 1 then left else 1
  }

  function Claimed(seen: Seen, c: Claim): (Seen, bool) { Remembered(seen, c.id, Ttl(c), c.at) }

  /** What a gate made of each message in turn: refused before the claim, or claimed. */
  type Trace = seq<Option<Claim>>

  function StoreAfter(t: Trace): Seen {
    if |t| == 0 then map[]
    else
      var before := StoreAfter(t[..|t| - 1]);
      match t[|t| - 1] case None => before case Some(c) => Claimed(before, c).0
  }

  predicate Won(t: Trace, i: nat)
    requires i < |t|
  {
    t[i].Some? && Claimed(StoreAfter(t[..i]), t[i].value).1
  }

  /** A clock that never runs backwards, and a gate that refuses expired messages before claiming. */
  ghost predicate Orderly(t: Trace) {
    && (forall i, j :: 0 <= i <= j < |t| && t[i].Some? && t[j].Some? ==> t[i].value.at <= t[j].value.at)
    && (forall i :: 0 <= i < |t| && t[i].Some? ==> Seconds(t[i].value.at) <= t[i].value.exp)
  }

  /** The claim is held at every instant at which a message with this expiry could still be accepted. */
  ghost predicate Held(seen: Seen, id: string, exp: int, now: int) {
    now >= (exp + 1) * 1000 || (id in seen && seen[id] >= (exp + 1) * 1000)
  }

  lemma ClaimKeepsHeld(seen: Seen, c: Claim, id: string, exp: int)
    requires Held(seen, id, exp, c.at) && Seconds(c.at) <= c.exp
    ensures Held(Claimed(seen, c).0, id, exp, c.at)
  {
  }

  lemma WonIsHeld(seen: Seen, c: Claim)
    requires Seconds(c.at) <= c.exp && Claimed(seen, c).1
    ensures Held(Claimed(seen, c).0, c.id, c.exp, c.at)
  {
    assert Ttl(c) == c.exp - Seconds(c.at) + 1;
    assert c.at >= Seconds(c.at) * 1000;
  }

  lemma {:induction false} WonStaysHeld(t: Trace, i: nat, k: nat, now: int)
    requires Orderly(t) && i < k <= |t| && Won(t, i)
    requires forall j :: 0 <= j < k && t[j].Some? ==> t[j].value.at <= now
    ensures Held(StoreAfter(t[..k]), t[i].value.id, t[i].value.exp, now)
  {
    assert t[..k][..k - 1] == t[..k - 1];
    if k == i + 1 {
      WonIsHeld(StoreAfter(t[..i]), t[i].value);
    } else if t[k - 1].None? {
      WonStaysHeld(t, i, k - 1, now);
    } else {
      WonStaysHeld(t, i, k - 1, t[k - 1].value.at);
      ClaimKeepsHeld(StoreAfter(t[..k - 1]), t[k - 1].value, t[i].value.id, t[i].value.exp);
    }
  }

  /** An identifier is won twice only by messages of strictly later expiry: no message is ever won twice. */
  lemma WonOnce(t: Trace, i: nat, k: nat)
    requires Orderly(t) && i < k < |t| && Won(t, i) && Won(t, k) && t[i].value.id == t[k].value.id
    ensures t[i].value.exp < t[k].value.exp
  {
    WonStaysHeld(t, i, k, t[k].value.at);
    assert t[k].value.at >= (t[i].value.exp + 1) * 1000;
    assert Seconds(t[k].value.at) >= t[i].value.exp + 1;
  }
}
