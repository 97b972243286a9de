/** The blind router (router.service.ts, redis.service.ts): the gates before forwarding. */
module Router {
  import opened Wrappers
  import opened Envelope
  import opened Keyring
  import opened Replay
  import opened RouteTable
  import opened Seal
  import opened SealTheorems

  const WINDOW_MS := 60_000

  datatype Config = Config(maxBytes: nat, peers: Peers, rateLimit: nat)

  /** A fixed-window counter of one sender key. */
  datatype Window = Window(count: nat, until: int)

  type Rates = map<string, Window>

  /** One call of `route`: the envelope, its raw size, the instant, and what the destination would answer. */
  datatype Arrival = Arrival(e: Request, size: nat, at: int, upstream: Upstream)

  datatype Upstream = Unreachable | Failed(code: Option<Code>) | Answered(body: Option<Response>)

  datatype Outcome = Outcome(forwardedTo: Option<string>, reply: Result<Response, Code>)

  function Refused(code: Code): Outcome { Outcome(None, Err(code)) }

  /** The checks that touch no state. */
  function Gate(cfg: Config, a: Arrival): Option<Code> {
    var h, now := a.e.header, Seconds(a.at);
    if a.size > cfg.maxBytes then Some(Oversized)
    else if !RequestShape(a.e) then Some(Malformed)
    else if h.v != VERSION then Some(UnsupportedVersion)
    else if now > h.exp then Some(Expired)
    else if h.iat > now + CLOCK_SKEW_SECONDS then Some(Expired)
    else if h.exp - h.iat > MAX_TTL_SECONDS then Some(Malformed)
    else
      match Peer(cfg.peers, h.skid, now)
      case Err(code) => Some(code)
      case Ok(_) => if h.hl <= 0 then Some(HopLimitExceeded) else None
  }

  /** `incrementRate`: the window is started by its first message and not extended. */
  function Incremented(rates: Rates, key: string, now: int): Window {
    if key in rates && rates[key].until > now then rates[key].(count := rates[key].count + 1)
    else Window(1, now + WINDOW_MS)
  }

  /** `forward`: only a response envelope or a known protocol code comes back. */
  function Relayed(upstream: Upstream): Result<Response, Code> {
    match upstream
    case Unreachable => Err(RecipientUnavailable)
    case Failed(Some(code)) => Err(code)
    case Failed(None) => Err(RecipientUnavailable)
    case Answered(None) => Err(RecipientUnavailable)
    case Answered(Some(r)) => if ResponseShape(r) then Ok(r) else Err(RecipientUnavailable)
  }

  function ClaimOf(a: Arrival): Claim { Claim(a.e.header.mid, a.e.header.exp, a.at) }

  datatype State = State(seen: Seen, rates: Rates)

  /** The whole of `route` on the router's state. */
  function Routed(cfg: Config, byToken: map<string, Route>, s: State, a: Arrival): (State, Outcome) {
    match Gate(cfg, a)
    case Some(code) => (s, Refused(code))
    case None =>
      var key := a.e.header.skid;
      var window := Incremented(s.rates, key, a.at);
      var s1 := s.(rates := s.rates[key := window]);
      if window.count > cfg.rateLimit then (s1, Refused(RouteInvalid))
      else
        match Lookup(byToken, a.e.header.rt)
        case Err(code) => (s1, Refused(code))
        case Ok(route) =>
          var (seen', unseen) := Claimed(s.seen, ClaimOf(a));
          var s2 := s1.(seen := seen');
          if !unseen then (s2, Refused(Replayed))
          else (s2, Outcome(Some(route.destination), Relayed(a.upstream)))
  }

  class RouterService {
    const cfg: Config
    const routes: SabclRouteTable
    const replay: InMemoryReplayStore
    var rates: Rates

    constructor (cfg: Config, routes: SabclRouteTable)
      ensures this.cfg == cfg && this.routes == routes && fresh(replay)
      ensures replay.seen == map[] && rates == map[]
    {
      this.cfg := cfg;
      this.routes := routes;
      rates := map[];
      replay := new InMemoryReplayStore();
    }

    function Contents(): State
      reads this, replay
    {
      State(replay.seen, rates)
    }

    /** `route`. */
    method Route(a: Arrival) returns (r: Outcome)
      requires routes.Valid()
      modifies this, replay
      ensures (Contents(), r) == Routed(cfg, old(routes.byToken), old(Contents()), a)
      ensures routes.Valid() && routes.byToken == old(routes.byToken)
    {
      var refusal := Gate(cfg, a);
      if refusal.Some? {
        return Refused(refusal.value);
      }
      var window := Incremented(rates, a.e.header.skid, a.at);
      rates := rates[a.e.header.skid := window];
      if window.count > cfg.rateLimit {
        return Refused(RouteInvalid);
      }
      var route := routes.Resolve(a.e.header.rt);
      if route.Err? {
        return Refused(route.error);
      }
      var left := a.e.header.exp - Seconds(a.at) + 1;
      var unseen := replay.Remember(a.e.header.mid, if left > 1 then left else 1, a.at);
      if !unseen {
        return Refused(Replayed);
      }
      r := Outcome(Some(route.value.destination), Relayed(a.upstream));
    }
  }

  // ---------- runs ----------

  function StateAfter(cfg: Config, byToken: map<string, Route>, xs: seq<Arrival>): State {
    if |xs| == 0 then State(map[], map[])
    else Routed(cfg, byToken, StateAfter(cfg, byToken, xs[..|xs| - 1]), xs[|xs| - 1]).0
  }

  function OutcomeAt(cfg: Config, byToken: map<string, Route>, xs: seq<Arrival>, i: nat): Outcome
    requires i < |xs|
  {
    Routed(cfg, byToken, StateAfter(cfg, byToken, xs[..i]), xs[i]).1
  }

  ghost predicate ClockForward(xs: seq<Arrival>) {
    forall i, j :: 0 <= i <= j < |xs| ==> xs[i].at <= xs[j].at
  }

  /** The arrival got as far as its replay claim. */
  predicate Reaches(cfg: Config, byToken: map<string, Route>, s: State, a: Arrival) {
    Gate(cfg, a).None? && Incremented(s.rates, a.e.header.skid, a.at).count <= cfg.rateLimit
    && Lookup(byToken, a.e.header.rt).Ok?
  }

  function StepOf(cfg: Config, byToken: map<string, Route>, s: State, a: Arrival): Option<Claim> {
    if Reaches(cfg, byToken, s, a) then Some(ClaimOf(a)) else None
  }

  function TraceOf(cfg: Config, byToken: map<string, Route>, xs: seq<Arrival>): (t: Trace)
    ensures |t| == |xs|
    ensures forall i :: 0 <= i < |xs| ==> t[i] == StepOf(cfg, byToken, StateAfter(cfg, byToken, xs[..i]), xs[i])
  {
    seq(|xs|, i requires 0 <= i < |xs| => StepOf(cfg, byToken, StateAfter(cfg, byToken, xs[..i]), xs[i]))
  }

  lemma TracePrefix(cfg: Config, byToken: map<string, Route>, xs: seq<Arrival>, i: nat)
    requires i <= |xs|
    ensures TraceOf(cfg, byToken, xs[..i]) == TraceOf(cfg, byToken, xs)[..i]
  {
    hide StepOf, StateAfter;
    assert forall j :: 0 <= j < i ==> xs[..i][..j] == xs[..j];
  }

  lemma RoutedSeen(cfg: Config, byToken: map<string, Route>, s: State, a: Arrival)
    ensures
      Routed(cfg, byToken, s, a).0.seen ==
      match StepOf(cfg, byToken, s, a) case None => s.seen case Some(c) => Claimed(s.seen, c).0
  {
    hide Gate, Incremented, Lookup, Claimed, Relayed;
  }

  lemma {:induction false} StoreOfTrace(cfg: Config, byToken: map<string, Route>, xs: seq<Arrival>)
    ensures StoreAfter(TraceOf(cfg, byToken, xs)) == StateAfter(cfg, byToken, xs).seen
  {
    hide StepOf, Routed, Claimed;
    if |xs| > 0 {
      var init := xs[..|xs| - 1];
      StoreOfTrace(cfg, byToken, init);
      TracePrefix(cfg, byToken, xs, |init|);
      RoutedSeen(cfg, byToken, StateAfter(cfg, byToken, init), xs[|xs| - 1]);
    }
  }

  lemma ForwardIsWin(cfg: Config, byToken: map<string, Route>, xs: seq<Arrival>, i: nat)
    requires i < |xs| && OutcomeAt(cfg, byToken, xs, i).forwardedTo.Some?
    ensures TraceOf(cfg, byToken, xs)[i] == Some(ClaimOf(xs[i])) && Won(TraceOf(cfg, byToken, xs), i)
  {
    hide Gate, Incremented, Lookup, Claimed, Relayed;
    StoreOfTrace(cfg, byToken, xs[..i]);
    TracePrefix(cfg, byToken, xs, i);
  }

  lemma TraceOrderly(cfg: Config, byToken: map<string, Route>, xs: seq<Arrival>)
    requires ClockForward(xs)
    ensures Orderly(TraceOf(cfg, byToken, xs))
  {
    hide StateAfter, Incremented, Lookup;
    forall i | 0 <= i < |xs| && TraceOf(cfg, byToken, xs)[i].Some?
      ensures Seconds(xs[i].at) <= xs[i].e.header.exp && TraceOf(cfg, byToken, xs)[i].value == ClaimOf(xs[i])
    {
    }
  }

  /**
   * The router, too, forwards each message at most once; and it is no general proxy: what it forwards goes to the
   * destination of a live route that the token names in its own table.
   */
  lemma ForwardedAtMostOnce(cfg: Config, byToken: map<string, Route>, xs: seq<Arrival>, i: nat, k: nat)
    requires ClockForward(xs) && i < k < |xs| && xs[i].e.header.mid == xs[k].e.header.mid
    requires OutcomeAt(cfg, byToken, xs, i).forwardedTo.Some? && OutcomeAt(cfg, byToken, xs, k).forwardedTo.Some?
    ensures xs[i].e.header.exp < xs[k].e.header.exp
    ensures forall m: nat :: m < |xs| && OutcomeAt(cfg, byToken, xs, m).forwardedTo.Some? ==>
      Lookup(byToken, xs[m].e.header.rt).Ok?
      && OutcomeAt(cfg, byToken, xs, m).forwardedTo == Some(Lookup(byToken, xs[m].e.header.rt).value.destination)
  {
    hide OutcomeAt, TraceOf;
    TraceOrderly(cfg, byToken, xs);
    ForwardIsWin(cfg, byToken, xs, i);
    ForwardIsWin(cfg, byToken, xs, k);
    WonOnce(TraceOf(cfg, byToken, xs), i, k);
    forall m: nat | m < |xs| && OutcomeAt(cfg, byToken, xs, m).forwardedTo.Some?
      ensures Lookup(byToken, xs[m].e.header.rt).Ok?
      ensures OutcomeAt(cfg, byToken, xs, m).forwardedTo == Some(Lookup(byToken, xs[m].e.header.rt).value.destination)
    {
      ForwardsOnlyToTable(cfg, byToken, xs, m);
    }
  }

  lemma ForwardsOnlyToTable(cfg: Config, byToken: map<string, Route>, xs: seq<Arrival>, m: nat)
    requires m < |xs| && OutcomeAt(cfg, byToken, xs, m).forwardedTo.Some?
    ensures Lookup(byToken, xs[m].e.header.rt).Ok?
    ensures OutcomeAt(cfg, byToken, xs, m).forwardedTo == Some(Lookup(byToken, xs[m].e.header.rt).value.destination)
  {
    hide Gate, Incremented, Claimed, StateAfter, Lookup;
  }

  /** Nothing a known sender seals within the protocol's bounds is stopped by the gate while it is valid. */
  lemma SealedPassesGate<P>(cfg: Config, c: Suite, j: Json<P>, o: SealOptions<P>, a: Arrival)
    requires Laws(c) && Drawn(o) && SealRequest(c, j, o).Ok? && a.e == SealRequest(c, j, o).value.0
    requires a.size <= cfg.maxBytes && Peer(cfg.peers, o.sender.keyId, Seconds(a.at)).Ok?
    ensures Gate(cfg, a).None? <==> o.now - CLOCK_SKEW_SECONDS <= Seconds(a.at) <= o.now + o.ttl
  {
    hide SealRequest, Laws, RequestShape, Peer;
    SealedShape(c, j, o);
    SealedTtl(c, j, o);
    SealedHops(c, j, o);
    ShapeSaysVersion(a.e);
  }

  lemma SealedHops<P>(c: Suite, j: Json<P>, o: SealOptions<P>)
    requires SealRequest(c, j, o).Ok?
    ensures 1 <= o.hopLimit <= MAX_HOP_LIMIT
  {
  }

  lemma ShapeSaysVersion(e: Request)
    requires RequestShape(e)
    ensures e.header.v == VERSION
  {
  }

  // ---------- what the gates refuse ----------

  /** The stateless gates, in their order, with their codes. */
  lemma GateRefusesAs(cfg: Config, a: Arrival)
    ensures
      var h, now := a.e.header, a.at / 1000;
      Gate(cfg, a) ==
        if a.size > cfg.maxBytes then Some(Oversized)
        else if !RequestShape(a.e) then Some(Malformed)
        else if !(h.iat - 5 <= now <= h.exp) then Some(Expired)
        else if h.exp > h.iat + 120 then Some(Malformed)
        else if Peer(cfg.peers, h.skid, now).Err? then Some(Peer(cfg.peers, h.skid, now).error)
        else if h.hl <= 0 then Some(HopLimitExceeded)
        else None
  {
    hide Peer, RequestShape;
    if RequestShape(a.e) { ShapeSaysVersion(a.e); }
  }

  /** A forwarded message is answered with the destination's own response envelope, a protocol code it gave, or "unavailable". */
  lemma RelayedAs(cfg: Config, byToken: map<string, Route>, s: State, a: Arrival)
    requires Routed(cfg, byToken, s, a).1.forwardedTo.Some?
    ensures
      var reply := Routed(cfg, byToken, s, a).1.reply;
      && (forall r :: reply == Ok(r) <==> a.upstream == Answered(Some(r)) && ResponseShape(r))
      && (reply.Err? ==> reply.error == if a.upstream.Failed? && a.upstream.code.Some? then a.upstream.code.value else RecipientUnavailable)
  {
    hide Gate, Incremented, Lookup, Claimed, ResponseShape;
  }

  // ---------- the rate gate, by counting arrivals ----------

  /** An arrival that counts against its sender's allowance. */
  predicate Counts(cfg: Config, a: Arrival, key: string) {
    Gate(cfg, a).None? && a.e.header.skid == key
  }

  /** When the sender's latest window started: with the first counting arrival that came 60 seconds or more after the last start. */
  function WindowStart(cfg: Config, xs: seq<Arrival>, key: string): Option<int> {
    if |xs| == 0 then None
    else
      var before, last := WindowStart(cfg, xs[..|xs| - 1], key), xs[|xs| - 1];
      if Counts(cfg, last, key) && (before.None? || last.at >= before.value + 60_000) then Some(last.at) else before
  }

  /** How many counting arrivals there were from an instant on. */
  function CountSince(cfg: Config, xs: seq<Arrival>, key: string, from: int): nat {
    if |xs| == 0 then 0
    else
      var last := xs[|xs| - 1];
      CountSince(cfg, xs[..|xs| - 1], key, from) + if Counts(cfg, last, key) && last.at >= from then 1 else 0
  }

  /** The router's counter of a sender is the count of its current window. */
  ghost predicate RateExact(cfg: Config, xs: seq<Arrival>, rates: Rates, key: string) {
    match WindowStart(cfg, xs, key)
    case None => key !in rates
    case Some(start) => key in rates && rates[key] == Window(CountSince(cfg, xs, key, start), start + 60_000)
  }

  lemma {:induction false} NoneSince(cfg: Config, xs: seq<Arrival>, key: string, from: int)
    requires forall i :: 0 <= i < |xs| && Counts(cfg, xs[i], key) ==> xs[i].at < from
    ensures CountSince(cfg, xs, key, from) == 0
  {
    hide Gate;
    if |xs| > 0 { NoneSince(cfg, xs[..|xs| - 1], key, from); }
  }

  /** Counting arrivals lie in windows: each is before the end of the latest. */
  lemma {:induction false} WithinWindow(cfg: Config, xs: seq<Arrival>, key: string)
    requires ClockForward(xs)
    ensures forall i :: 0 <= i < |xs| && Counts(cfg, xs[i], key) ==>
      WindowStart(cfg, xs, key).Some? && xs[i].at < WindowStart(cfg, xs, key).value + 60_000
    ensures WindowStart(cfg, xs, key).Some? ==> |xs| > 0 && WindowStart(cfg, xs, key).value <= xs[|xs| - 1].at
  {
    hide Counts;
    if |xs| > 0 {
      var init := xs[..|xs| - 1];
      WithinWindow(cfg, init, key);
      if |init| > 0 { assert init[|init| - 1].at <= xs[|xs| - 1].at; }
      forall i | 0 <= i < |xs| && Counts(cfg, xs[i], key)
        ensures WindowStart(cfg, xs, key).Some? && xs[i].at < WindowStart(cfg, xs, key).value + 60_000
      {
        if i < |init| { assert init[i] == xs[i]; }
      }
    }
  }

  lemma {:induction false} RatesAreExact(cfg: Config, byToken: map<string, Route>, xs: seq<Arrival>, key: string)
    requires ClockForward(xs)
    ensures RateExact(cfg, xs, StateAfter(cfg, byToken, xs).rates, key)
  {
    if |xs| > 0 {
      var init, last := xs[..|xs| - 1], xs[|xs| - 1];
      RatesAreExact(cfg, byToken, init, key);
      RoutedRates(cfg, byToken, StateAfter(cfg, byToken, init), last, key);
      OneMoreExact(cfg, xs, StateAfter(cfg, byToken, init).rates, key);
    }
  }

  lemma RoutedRates(cfg: Config, byToken: map<string, Route>, s: State, a: Arrival, key: string)
    ensures
      var rates' := Routed(cfg, byToken, s, a).0.rates;
      && (Counts(cfg, a, key) ==> rates' == s.rates[key := Incremented(s.rates, key, a.at)])
      && (!Counts(cfg, a, key) ==> (key in rates' <==> key in s.rates) && (key in s.rates ==> rates'[key] == s.rates[key]))
  {
    hide Gate, Incremented, Claimed, Lookup, Relayed;
  }

  lemma OneMoreExact(cfg: Config, xs: seq<Arrival>, rates: Rates, key: string)
    requires ClockForward(xs) && |xs| > 0 && RateExact(cfg, xs[..|xs| - 1], rates, key)
    ensures
      var last := xs[|xs| - 1];
      RateExact(cfg, xs, if Counts(cfg, last, key) then rates[key := Incremented(rates, key, last.at)] else rates, key)
  {
    hide Counts;
    var init, last := xs[..|xs| - 1], xs[|xs| - 1];
    WithinWindow(cfg, init, key);
    if |init| > 0 { assert init[|init| - 1].at <= last.at; }
    if Counts(cfg, last, key) && (WindowStart(cfg, init, key).None? || last.at >= WindowStart(cfg, init, key).value + 60_000) {
      forall i | 0 <= i < |init| && Counts(cfg, init[i], key) ensures init[i].at < last.at {
        assert WindowStart(cfg, init, key).Some?;
      }
      NoneSince(cfg, init, key, last.at);
    }
  }

  /**
   * On a clock that does not run backwards, a message past the stateless gates is refused for its sender's rate exactly
   * when more than the limit of the sender's such messages, itself included, have arrived in the current window, which
   * started with the first of them after the previous window and lasts 60 seconds. Within the limit it goes on to
   * its route and its replay claim; beyond it, neither is touched.
   */
  lemma RateRefusesIff(cfg: Config, byToken: map<string, Route>, xs: seq<Arrival>, i: nat)
    requires ClockForward(xs) && i < |xs| && Gate(cfg, xs[i]).None?
    ensures WindowStart(cfg, xs[..i + 1], xs[i].e.header.skid).Some?
    ensures
      var key := xs[i].e.header.skid;
      var start := WindowStart(cfg, xs[..i + 1], key).value;
      var count := CountSince(cfg, xs[..i + 1], key, start);
      var r := OutcomeAt(cfg, byToken, xs, i);
      && start <= xs[i].at < start + 60_000
      && (count > cfg.rateLimit ==> r == Outcome(None, Err(RouteInvalid)))
      && (count > cfg.rateLimit ==> StateAfter(cfg, byToken, xs[..i + 1]).seen == StateAfter(cfg, byToken, xs[..i]).seen)
      && (Lookup(byToken, xs[i].e.header.rt).Ok? ==>
          (count <= cfg.rateLimit <==> r.forwardedTo.Some? || r == Outcome(None, Err(Replayed))))
  {
    var here, key := xs[..i + 1], xs[i].e.header.skid;
    var s := StateAfter(cfg, byToken, xs[..i]);
    assert here[..i] == xs[..i] && here[i] == xs[i];
    assert Counts(cfg, xs[i], key);
    WithinWindow(cfg, here, key);
    RatesAreExact(cfg, byToken, here, key);
    RoutedRates(cfg, byToken, s, xs[i], key);
    PastRate(cfg, byToken, s, xs[i]);
    hide Gate, Incremented, Claimed, Lookup, Relayed, WindowStart, CountSince, Counts, Routed;
  }

  lemma PastRate(cfg: Config, byToken: map<string, Route>, s: State, a: Arrival)
    requires Gate(cfg, a).None?
    ensures
      var (s', r) := Routed(cfg, byToken, s, a);
      var count := Incremented(s.rates, a.e.header.skid, a.at).count;
      && (count > cfg.rateLimit ==> r == Outcome(None, Err(RouteInvalid)) && s'.seen == s.seen)
      && (Lookup(byToken, a.e.header.rt).Ok? && count <= cfg.rateLimit ==> r.forwardedTo.Some? || r == Outcome(None, Err(Replayed)))
  {
    hide Gate, Incremented, Claimed, Relayed, Lookup;
  }
}
