/** The browser's API client (frontend/src/services/api.js): an axios instance
    with a request hook that attaches the stored bearer token and a response
    hook that, on a 401, refreshes the access token once and re-sends the
    request. `localStorage` is the map `store`, `window.location.href`
    assignments are the list `redirects`, and the network is given as the
    replies it will produce. */
module ApiClient {
  import opened Wrappers

  const AccessKey := "access_token"
  const RefreshKey := "refresh_token"
  const AuthHeader := "Authorization"
  const ContentTypeHeader := "Content-Type"
  const JsonType := "application/json"
  const LoginRoute := "/login"

  /** One HTTP exchange: a response with its status (and, for the refresh
      endpoint, the `access` field of its body), or no response at all. */
  datatype Reply = Response(status: int, access: string) | NoResponse

  /** axios fulfils 2xx responses and rejects everything else. */
  predicate Fulfils(r: Reply)
  {
    r.Response? && 200 <= r.status < 300
  }

  predicate IsUnauthorized(r: Reply)
  {
    r.Response? && r.status == 401
  }

  /** How a call settles: fulfilled with a response, or rejected with the
      error of the given attempt (0 for the original send, 1 for the re-send). */
  datatype Settled = Fulfilled(response: Reply) | Rejected(error: Reply, attempt: nat)

  function Bearer(token: string): string
  {
    "Bearer " + token
  }

  /** `localStorage.getItem(key)` read as JavaScript truth: an absent key and
      the empty string both count as no token. */
  function StoredToken(store: map<string, string>, key: string): (t: Option<string>)
    ensures t.Some? <==> key in store && store[key] != ""
    ensures t.Some? ==> t.value == store[key]
  {
    if key in store && store[key] != "" then Some(store[key]) else None
  }

  /** The request hook: sets `Authorization: Bearer <token>` when an access
      token is stored and leaves the headers alone otherwise. */
  function WithToken(headers: map<string, string>, store: map<string, string>): (h: map<string, string>)
    ensures StoredToken(store, AccessKey).Some? ==>
      AuthHeader in h && h[AuthHeader] == Bearer(store[AccessKey]) &&
      forall k :: k != AuthHeader ==> (k in h <==> k in headers) && (k in h ==> h[k] == headers[k])
    ensures StoredToken(store, AccessKey).None? ==> h == headers
  {
    match StoredToken(store, AccessKey)
    case Some(token) => headers[AuthHeader := Bearer(token)]
    case None => headers
  }

  /** A request as it went on the wire. */
  datatype Sent = Sent(url: string, headers: map<string, string>)

  /** Everything the client touches outside one request: the storage, the
      instance's default headers, the navigations, the requests sent through
      the instance and the refresh tokens posted to `/api/auth/refresh/`
      (every refresh call goes to that one URL, so only its token is kept). */
  datatype ClientState = ClientState(
    store: map<string, string>,
    defaults: map<string, string>,
    redirects: seq<string>,
    wire: seq<Sent>,
    refreshCalls: seq<string>)

  /** A request configuration: its URL, its headers and the `_retry` marker. */
  datatype Request = Request(url: string, headers: map<string, string>, retry: bool)

  /** The replies the network gives: to the original send, to the refresh call
      and to the re-send. */
  datatype Network = Network(first: Reply, refresh: Reply, resend: Reply)

  datatype Step = Step(client: ClientState, request: Request, outcome: Settled)

  /** The configuration axios hands to the request hook and then to the
      transport: the instance defaults overridden by the request's own headers,
      then the request hook. The marker travels with it. */
  function Outgoing(c: ClientState, r: Request): (o: Request)
    ensures o.url == r.url && o.retry == r.retry
    ensures o.headers == WithToken(c.defaults + r.headers, c.store)
  {
    r.(headers := WithToken(c.defaults + r.headers, c.store))
  }

  /** Sending a request through the instance: the request hook, the transport,
      then the response hook. */
  function Dispatched(c: ClientState, r: Request, reply: Reply, attempt: nat, net: Network): (s: Step)
    decreases if r.retry then 0 else 1, 1
    ensures |c.wire| < |s.client.wire| <= |c.wire| + (if r.retry then 1 else 2)
    ensures c.wire <= s.client.wire
    ensures s.client.wire[|c.wire|] == Sent(r.url, WithToken(c.defaults + r.headers, c.store))
    ensures |s.client.refreshCalls| <= |c.refreshCalls| + (if r.retry then 0 else 1)
    ensures c.refreshCalls <= s.client.refreshCalls
    ensures |s.client.redirects| <= |c.redirects| + (if r.retry then 0 else 1)
    ensures c.redirects <= s.client.redirects
    ensures r.retry ==> s.request.retry
    ensures r.retry ==>
      s.client.store == c.store && s.client.defaults == c.defaults &&
      s.client.redirects == c.redirects && s.client.refreshCalls == c.refreshCalls
    ensures s.request.url == r.url
  {
    var o := Outgoing(c, r);
    var c1 := c.(wire := c.wire + [Sent(o.url, o.headers)]);
    if Fulfils(reply) then Step(c1, o, Fulfilled(reply))
    else Handled(c1, o, reply, attempt, net)
  }

  /** The response hook's error branch. Only a 401 on a request without the
      marker is handled: the marker is set; without a refresh token the page
      goes to the login route; otherwise the refresh token is posted, and a 200
      stores the new access token, updates the default header and re-sends
      the request, while a throwing refresh wipes both tokens and goes to the
      login route. Every path that does not re-send rejects with the error it
      was given. */
  function Handled(c: ClientState, r: Request, err: Reply, attempt: nat, net: Network): (s: Step)
    decreases if r.retry then 0 else 1, 0
    ensures |c.wire| <= |s.client.wire| <= |c.wire| + (if r.retry then 0 else 1)
    ensures c.wire <= s.client.wire
    ensures |s.client.refreshCalls| <= |c.refreshCalls| + (if r.retry then 0 else 1)
    ensures c.refreshCalls <= s.client.refreshCalls
    ensures |s.client.redirects| <= |c.redirects| + (if r.retry then 0 else 1)
    ensures c.redirects <= s.client.redirects
    ensures r.retry ==> s == Step(c, r, Rejected(err, attempt))
    ensures !IsUnauthorized(err) ==> s == Step(c, r, Rejected(err, attempt))
    ensures IsUnauthorized(err) || r.retry ==> s.request.retry
    ensures s.request.url == r.url
  {
    if IsUnauthorized(err) && !r.retry then
      var marked := r.(retry := true);
      match StoredToken(c.store, RefreshKey)
      case None =>
        Step(c.(redirects := c.redirects + [LoginRoute]), marked, Rejected(err, attempt))
      case Some(refreshToken) =>
        var c1 := c.(refreshCalls := c.refreshCalls + [refreshToken]);
        if !Fulfils(net.refresh) then
          Step(c1.(store := c1.store - {AccessKey, RefreshKey}, redirects := c1.redirects + [LoginRoute]),
               marked, Rejected(err, attempt))
        else if net.refresh.status == 200 then
          var token := net.refresh.access;
          var c2 := c1.(store := c1.store[AccessKey := token], defaults := c1.defaults[AuthHeader := Bearer(token)]);
          Dispatched(c2, marked, net.resend, attempt + 1, net)
        else
          Step(c1, marked, Rejected(err, attempt))
    else
      Step(c, r, Rejected(err, attempt))
  }

  /** A call through the instance, from its first send to its settlement. */
  function Call(c: ClientState, r: Request, net: Network): (s: Step)
    ensures 1 <= |s.client.wire| - |c.wire| <= 2
    ensures |s.client.refreshCalls| - |c.refreshCalls| <= 1
    ensures r.retry ==> |s.client.wire| - |c.wire| == 1 && |s.client.refreshCalls| == |c.refreshCalls|
  {
    Dispatched(c, r, net.first, 0, net)
  }

  /** A fulfilled first send is returned as it is, with no effect but the send. */
  lemma SuccessPassesThrough(c: ClientState, r: Request, net: Network)
    requires Fulfils(net.first)
    ensures Call(c, r, net).outcome == Fulfilled(net.first)
    ensures Call(c, r, net).client == c.(wire := c.wire + [Sent(r.url, WithToken(c.defaults + r.headers, c.store))])
  {
  }

  /** Any failure other than a 401 on an unmarked request, including a
      network error without a response, is rejected untouched: no refresh, no
      storage change, no redirect. */
  lemma OtherErrorsPassThrough(c: ClientState, r: Request, net: Network)
    requires !Fulfils(net.first) && !(IsUnauthorized(net.first) && !r.retry)
    ensures Call(c, r, net).outcome == Rejected(net.first, 0)
    ensures Call(c, r, net).client == c.(wire := c.wire + [Sent(r.url, WithToken(c.defaults + r.headers, c.store))])
  {
  }

  /** A failed first send is handed, as it went on the wire, to the error
      branch. */
  lemma FailedCallIsHandled(c: ClientState, r: Request, net: Network)
    requires !Fulfils(net.first)
    ensures Call(c, r, net) ==
      Handled(c.(wire := c.wire + [Sent(r.url, Outgoing(c, r).headers)]), Outgoing(c, r), net.first, 0, net)
  {
  }

  /** A 401 without a stored refresh token: the page goes to the login route,
      nothing is posted, the storage is untouched and the original error is
      rejected. */
  lemma MissingRefreshTokenRedirects(c: ClientState, r: Request, net: Network)
    requires IsUnauthorized(net.first) && !r.retry
    requires StoredToken(c.store, RefreshKey).None?
    ensures Call(c, r, net).outcome == Rejected(net.first, 0)
    ensures Call(c, r, net).client.store == c.store
    ensures Call(c, r, net).client.redirects == c.redirects + [LoginRoute]
    ensures Call(c, r, net).client.refreshCalls == c.refreshCalls
    ensures |Call(c, r, net).client.wire| == |c.wire| + 1
    ensures Call(c, r, net).request.retry
  {
    FailedCallIsHandled(c, r, net);
  }

  /** A refresh answered with 200: the new access token is stored, the default
      header carries it, and the same request is sent once more and settles
      the call. The re-send carries the new token; a second 401 is rejected
      without a second refresh. */
  lemma RefreshedRequestIsResentOnce(c: ClientState, r: Request, net: Network)
    requires IsUnauthorized(net.first) && !r.retry
    requires StoredToken(c.store, RefreshKey).Some?
    requires net.refresh.Response? && net.refresh.status == 200
    ensures var s := Call(c, r, net);
      s.client.refreshCalls == c.refreshCalls + [c.store[RefreshKey]] &&
      s.client.store == c.store[AccessKey := net.refresh.access] &&
      s.client.defaults == c.defaults[AuthHeader := Bearer(net.refresh.access)] &&
      s.client.redirects == c.redirects &&
      |s.client.wire| == |c.wire| + 2 &&
      s.client.wire[|c.wire| + 1].url == r.url &&
      s.request.retry &&
      s.outcome == (if Fulfils(net.resend) then Fulfilled(net.resend) else Rejected(net.resend, 1))
    ensures net.refresh.access != "" ==>
      var h := Call(c, r, net).client.wire[|c.wire| + 1].headers;
      AuthHeader in h && h[AuthHeader] == Bearer(net.refresh.access)
  {
    var first := Outgoing(c, r);
    var c1 := c.(wire := c.wire + [Sent(first.url, first.headers)]);
    var marked := first.(retry := true);
    var c2 := c1.(refreshCalls := c1.refreshCalls + [c.store[RefreshKey]]);
    var c3 := c2.(store := c2.store[AccessKey := net.refresh.access],
                  defaults := c2.defaults[AuthHeader := Bearer(net.refresh.access)]);
    FailedCallIsHandled(c, r, net);
    assert Call(c, r, net) == Dispatched(c3, marked, net.resend, 1, net);
    assert StoredToken(c3.store, AccessKey).Some? <==> net.refresh.access != "";
  }

  /** A refresh that throws (a non-2xx answer or no answer): both tokens are
      removed, the page goes to the login route, and the call rejects with the
      original 401, not with the refresh error. */
  lemma FailedRefreshLogsOut(c: ClientState, r: Request, net: Network)
    requires IsUnauthorized(net.first) && !r.retry
    requires StoredToken(c.store, RefreshKey).Some?
    requires !Fulfils(net.refresh)
    ensures var s := Call(c, r, net);
      s.outcome == Rejected(net.first, 0) &&
      s.client.store == c.store - {AccessKey, RefreshKey} &&
      AccessKey !in s.client.store && RefreshKey !in s.client.store &&
      s.client.redirects == c.redirects + [LoginRoute] &&
      s.client.refreshCalls == c.refreshCalls + [c.store[RefreshKey]] &&
      |s.client.wire| == |c.wire| + 1
  {
    FailedCallIsHandled(c, r, net);
  }

  /** A refresh that succeeds with a status other than 200 falls through: no
      storage change, no redirect, the original 401 is rejected. */
  lemma OddRefreshStatusFallsThrough(c: ClientState, r: Request, net: Network)
    requires IsUnauthorized(net.first) && !r.retry
    requires StoredToken(c.store, RefreshKey).Some?
    requires Fulfils(net.refresh) && net.refresh.status != 200
    ensures var s := Call(c, r, net);
      s.outcome == Rejected(net.first, 0) &&
      s.client.store == c.store && s.client.defaults == c.defaults &&
      s.client.redirects == c.redirects && |s.client.wire| == |c.wire| + 1
  {
    FailedCallIsHandled(c, r, net);
  }

  /** The first send carries the stored access token, when there is one. */
  lemma FirstSendCarriesStoredToken(c: ClientState, r: Request, net: Network)
    requires StoredToken(c.store, AccessKey).Some?
    ensures var h := Call(c, r, net).client.wire[|c.wire|].headers;
      AuthHeader in h && h[AuthHeader] == Bearer(c.store[AccessKey])
  {
  }

  /** A stored access token that the server no longer accepts, with a valid
      refresh token: one refresh call, the new token stored, the re-send
      authorised with it, no navigation, and the re-send's reply returned. */
  lemma ExpiredAccessTokenIsReplaced(c: ClientState, r: Request, expired: string, refresh: string,
                                     renewed: string, listing: Reply)
    requires c.store == map[AccessKey := expired, RefreshKey := refresh] && c.redirects == [] &&
             c.wire == [] && c.refreshCalls == []
    requires expired != "" && refresh != "" && renewed != "" && !r.retry && Fulfils(listing)
    ensures var s := Call(c, r, Network(Response(401, ""), Response(200, renewed), listing));
      s.outcome == Fulfilled(listing) &&
      s.client.refreshCalls == [refresh] &&
      AccessKey in s.client.store && s.client.store[AccessKey] == renewed &&
      |s.client.wire| == 2 &&
      AuthHeader in s.client.wire[0].headers && s.client.wire[0].headers[AuthHeader] == Bearer(expired) &&
      AuthHeader in s.client.wire[1].headers && s.client.wire[1].headers[AuthHeader] == Bearer(renewed) &&
      s.client.redirects == []
  {
    var net := Network(Response(401, ""), Response(200, renewed), listing);
    assert AccessKey != RefreshKey;
    assert StoredToken(c.store, RefreshKey) == Some(refresh);
    assert StoredToken(c.store, AccessKey) == Some(expired);
    RefreshedRequestIsResentOnce(c, r, net);
    FirstSendCarriesStoredToken(c, r, net);
  }

  /** The walk-through of an expired token: the list request gets a 401, the
      refresh token is posted and answered with a new access token, and the
      re-sent list request carries that token and settles the call. */
  lemma ExpiredTokenScenario(listing: Reply)
    requires Fulfils(listing)
    ensures var c := ClientState(map[AccessKey := "expired123", RefreshKey := "validRefresh"],
                                 map[ContentTypeHeader := JsonType], [], [], []);
      var net := Network(Response(401, ""), Response(200, "newToken456"), listing);
      var s := Call(c, Request("/sessions/", map[], false), net);
      s.outcome == Fulfilled(listing) &&
      s.client.refreshCalls == ["validRefresh"] &&
      AccessKey in s.client.store && s.client.store[AccessKey] == "newToken456" &&
      |s.client.wire| == 2 &&
      AuthHeader in s.client.wire[0].headers && s.client.wire[0].headers[AuthHeader] == Bearer("expired123") &&
      AuthHeader in s.client.wire[1].headers && s.client.wire[1].headers[AuthHeader] == Bearer("newToken456") &&
      s.client.redirects == []
  {
    var c := ClientState(map[AccessKey := "expired123", RefreshKey := "validRefresh"],
                         map[ContentTypeHeader := JsonType], [], [], []);
    ExpiredAccessTokenIsReplaced(c, Request("/sessions/", map[], false), "expired123", "validRefresh",
                                 "newToken456", listing);
  }

  /** One request configuration: its headers and the `_retry` marker are
      mutated by the hooks. */
  class RequestConfig {
    const url: string
    var headers: map<string, string>
    var retry: bool

    constructor (url: string, headers: map<string, string>)
      ensures View() == Request(url, headers, false)
    {
      this.url := url;
      this.headers := headers;
      this.retry := false;
    }

    function View(): Request
      reads this
    {
      Request(url, headers, retry)
    }
  }

  /** The axios instance together with the browser state it works on. */
  class Client {
    var store: map<string, string>
    var defaults: map<string, string>
    var redirects: seq<string>
    var wire: seq<Sent>
    var refreshCalls: seq<string>

    function State(): ClientState
      reads this
    {
      ClientState(store, defaults, redirects, wire, refreshCalls)
    }

    /** `axios.create`: JSON content type by default; the storage is whatever
        the browser already holds. */
    constructor (store: map<string, string>)
      ensures State() == ClientState(store, map[ContentTypeHeader := JsonType], [], [], [])
    {
      this.store := store;
      this.defaults := map[ContentTypeHeader := JsonType];
      this.redirects := [];
      this.wire := [];
      this.refreshCalls := [];
    }

    /** The login of the auth context: both tokens are written. */
    method Login(access: string, refresh: string)
      modifies this`store
      ensures store == old(store)[AccessKey := access][RefreshKey := refresh]
    {
      store := store[AccessKey := access];
      store := store[RefreshKey := refresh];
    }

    /** The logout of the auth context: both tokens are removed and the page
        goes to the login route. */
    method Logout()
      modifies this`store, this`redirects
      ensures store == old(store) - {AccessKey, RefreshKey}
      ensures redirects == old(redirects) + [LoginRoute]
    {
      store := store - {AccessKey};
      store := store - {RefreshKey};
      redirects := redirects + [LoginRoute];
    }

    /** The request hook on a configuration. */
    method AttachToken(config: RequestConfig)
      modifies config`headers
      ensures config.headers == WithToken(old(config.headers), store)
    {
      var token := StoredToken(store, AccessKey);
      if token.Some? {
        config.headers := config.headers[AuthHeader := Bearer(token.value)];
      }
    }

    /** `api(config)`: merge the defaults in, run the request hook, send, and
        hand a failure to the response hook. */
    method Dispatch(config: RequestConfig, reply: Reply, attempt: nat, net: Network) returns (outcome: Settled)
      modifies this, config
      decreases if config.retry then 0 else 1, 1
      ensures Step(State(), config.View(), outcome) == Dispatched(old(State()), old(config.View()), reply, attempt, net)
    {
      config.headers := defaults + config.headers;
      AttachToken(config);
      wire := wire + [Sent(config.url, config.headers)];
      if Fulfils(reply) {
        outcome := Fulfilled(reply);
      } else {
        outcome := HandleError(config, reply, attempt, net);
      }
    }

    /** The response hook's error branch. */
    method HandleError(config: RequestConfig, err: Reply, attempt: nat, net: Network) returns (outcome: Settled)
      modifies this, config
      decreases if config.retry then 0 else 1, 0
      ensures Step(State(), config.View(), outcome) == Handled(old(State()), old(config.View()), err, attempt, net)
    {
      outcome := Rejected(err, attempt);
      if IsUnauthorized(err) && !config.retry {
        config.retry := true;
        var refreshToken := StoredToken(store, RefreshKey);
        if refreshToken.None? {
          redirects := redirects + [LoginRoute];
          return;
        }
        refreshCalls := refreshCalls + [refreshToken.value];
        if !Fulfils(net.refresh) {
          store := store - {AccessKey};
          store := store - {RefreshKey};
          redirects := redirects + [LoginRoute];
        } else if net.refresh.status == 200 {
          store := store[AccessKey := net.refresh.access];
          defaults := defaults[AuthHeader := Bearer(net.refresh.access)];
          outcome := Dispatch(config, net.resend, attempt + 1, net);
        }
      }
    }

    /** A call made through the instance. */
    method Request(config: RequestConfig, net: Network) returns (outcome: Settled)
      modifies this, config
      ensures Step(State(), config.View(), outcome) == Call(old(State()), old(config.View()), net)
    {
      outcome := Dispatch(config, net.first, 0, net);
    }
  }
}
