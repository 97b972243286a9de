/** The router's table of opaque route tokens (route-token.ts). */
module RouteTable {
  import opened Wrappers
  import opened Bytes
  import opened Base64Url
  import opened Keyring

  datatype Route = Route(routeId: string, service: string, destination: string, revoked: bool)

  datatype ResolvedRoute = ResolvedRoute(routeId: string, service: string, destination: string)

  predicate IsName(s: string) {
    |s| > 0 && 'a' <= s[0] <= 'z' && forall i :: 0 <= i < |s| ==> 'a' <= s[i] <= 'z' || '0' <= s[i] <= '9' || s[i] == '-'
  }

  /** ROUTE_ID_PATTERN: two names joined by a dot. */
  predicate RouteIdShape(s: string) {
    exists dot :: 0 <= dot < |s| && s[dot] == '.' && IsName(s[..dot]) && IsName(s[dot + 1..])
  }

  /** HMAC-SHA-256 of a route identifier under the route secret; 32 bytes. */
  type Mac = string -> bytes

  ghost predicate MacLaw(mac: Mac) {
    forall id :: |mac(id)| == 32
  }

  function Token(mac: Mac, routeId: string): string { ToBase64Url(mac(routeId)) }

  function IsHttp(destination: string): bool { "http:" <= destination || "https:" <= destination }

  ghost predicate WellShaped(routes: seq<Route>) {
    forall i :: 0 <= i < |routes| ==> RouteIdShape(routes[i].routeId) && IsHttp(routes[i].destination)
  }

  ghost predicate DistinctTokens(mac: Mac, routes: seq<Route>) {
    forall i, j :: 0 <= i < j < |routes| ==> Token(mac, routes[i].routeId) != Token(mac, routes[j].routeId)
  }

  /** What the constructor demands of its routes. */
  ghost predicate Loadable(mac: Mac, secretLength: nat, routes: seq<Route>) {
    |routes| > 0 && secretLength >= 32 && WellShaped(routes) && DistinctTokens(mac, routes)
  }

  /** The map holds each route under its own token, and nothing else. */
  ghost predicate Filled(byToken: map<string, Route>, mac: Mac, routes: seq<Route>) {
    && (forall t :: t in byToken ==> exists i :: 0 <= i < |routes| && Token(mac, routes[i].routeId) == t)
    && (forall i :: 0 <= i < |routes| ==>
        Token(mac, routes[i].routeId) in byToken && byToken[Token(mac, routes[i].routeId)] == routes[i])
  }

  lemma FillOne(byToken: map<string, Route>, mac: Mac, routes: seq<Route>, route: Route)
    requires Filled(byToken, mac, routes) && DistinctTokens(mac, routes) && Token(mac, route.routeId) !in byToken
    ensures Filled(byToken[Token(mac, route.routeId) := route], mac, routes + [route])
    ensures DistinctTokens(mac, routes + [route])
  {
    hide Token;
    var all, token := routes + [route], Token(mac, route.routeId);
    var byToken' := byToken[token := route];
    forall t | t in byToken' ensures exists i :: 0 <= i < |all| && Token(mac, all[i].routeId) == t {
      if t == token {
        assert all[|routes|] == route;
      } else {
        var i :| 0 <= i < |routes| && Token(mac, routes[i].routeId) == t;
        assert all[i] == routes[i];
      }
    }
  }

  /** The live route of a token, by plain lookup. */
  function Lookup(byToken: map<string, Route>, token: string): Result<ResolvedRoute, Code> {
    if token in byToken && !byToken[token].revoked
    then Ok(ResolvedRoute(byToken[token].routeId, byToken[token].service, byToken[token].destination))
    else Err(RouteInvalid)
  }

  class SabclRouteTable {
    var byToken: map<string, Route>

    constructor ()
      ensures byToken == map[]
    {
      byToken := map[];
    }

    ghost predicate Valid()
      reads this
    {
      forall t :: t in byToken ==> CanonicalText(t)
    }

    /** The constructor's loop over the configured routes. */
    method Load(mac: Mac, secretLength: nat, routes: seq<Route>) returns (error: Option<Code>)
      requires byToken == map[] && MacLaw(mac)
      modifies this
      ensures error.None? <==> Loadable(mac, secretLength, routes)
      ensures error.Some? ==> error.value == NotConfigured || error.value == RouteInvalid
      ensures error.None? ==> Valid() && Filled(byToken, mac, routes)
    {
      hide Token, IsHttp, RouteIdShape, CanonicalText, FromBase64Url;
      if |routes| == 0 {
        return Some(NotConfigured);
      }
      for n := 0 to |routes|
        invariant WellShaped(routes[..n]) && DistinctTokens(mac, routes[..n]) && (n > 0 ==> secretLength >= 32)
        invariant Filled(byToken, mac, routes[..n]) && Valid()
      {
        var route := routes[n];
        assert routes[..n + 1] == routes[..n] + [route];
        if !RouteIdShape(route.routeId) {
          return Some(RouteInvalid);
        }
        if !IsHttp(route.destination) || secretLength < 32 {
          return Some(NotConfigured);
        }
        var token := Token(mac, route.routeId);
        if token in byToken {
          var i :| 0 <= i < n && Token(mac, routes[..n][i].routeId) == token;
          assert Token(mac, routes[i].routeId) == Token(mac, routes[n].routeId);
          return Some(NotConfigured);
        }
        TokenIsCanonical(mac, route.routeId);
        FillOne(byToken, mac, routes[..n], route);
        byToken := byToken[token := route];
      }
      assert routes[..|routes|] == routes;
      error := None;
    }

    /**
     * `resolve`: compares the decoded token with every candidate and runs to completion. The answer is the plain
     * lookup of a live token, because decoding is injective on the texts it accepts.
     */
    method Resolve(token: string) returns (r: Result<ResolvedRoute, Code>)
      requires Valid()
      ensures r == Lookup(byToken, token)
    {
      var supplied := FromBase64Url(token);
      if supplied.None? {
        AcceptedIffCanonical(token);
        return Err(RouteInvalid);
      }
      var found: Option<Route> := None;
      var todo := byToken.Keys;
      while todo != {}
        invariant todo <= byToken.Keys
        invariant found.Some? <==> token in byToken && token !in todo && !byToken[token].revoked
        invariant found.Some? ==> found.value == byToken[token]
        decreases |todo|
      {
        var candidateToken :| candidateToken in todo;
        var route := byToken[candidateToken];
        CandidateDecodes(candidateToken);
        if supplied.value == LenientDecode(candidateToken) && !route.revoked {
          DecodeInjective(token, candidateToken);
          found := Some(route);
        }
        todo := todo - {candidateToken};
      }
      if found.None? {
        return Err(RouteInvalid);
      }
      r := Ok(ResolvedRoute(found.value.routeId, found.value.service, found.value.destination));
    }
  }

  lemma TokenIsCanonical(mac: Mac, routeId: string)
    requires MacLaw(mac)
    ensures CanonicalText(Token(mac, routeId))
  {
    assert |mac(routeId)| == 32;
    RoundTrip(mac(routeId));
  }

  lemma CandidateDecodes(t: string)
    requires CanonicalText(t)
    ensures FromBase64Url(t) == Some(LenientDecode(t))
  {
    AcceptedIffCanonical(t);
  }
}
