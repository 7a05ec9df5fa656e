/** `apiRequest` and `refreshAuthToken` (vis-core-fe/src/services/api.js, lines 32-136 and
    230-255): header construction, the single refresh-then-replay on 401, and the result
    or error of a call. Each operation has a specification function over the store state,
    the number of requests already sent and the network oracle, and a method that performs
    the same steps on a `Store` and a `Network` and is proved to agree with it. */
module RequestLayer {
  import opened Wrappers
  import opened Json
  import opened Http
  import opened TokenStore
  import opened ErrorNormalizer

  const RefreshPath: string := "/api/auth/refresh/"

  /** The `options` argument: the HTTP method, the body and the caller's headers. */
  datatype Options = Options(verb: string, body: Body, headers: map<string, string>)

  /** What a call gives its caller: a value, or a thrown Error with its message. */
  datatype ApiResult = Returned(value: JsonValue) | Thrown(message: string)

  /** A whole call: its result, the store afterwards and the requests it sent, in order. */
  datatype Run = Run(result: ApiResult, store: StoreState, fetched: seq<Request>)

  datatype RefreshRun = RefreshRun(refreshed: bool, store: StoreState, fetched: seq<Request>)

  /** The headers `apiRequest` puts in `config`: the defaults, overridden by the caller's. */
  function BuildHeaders(body: Body, token: Option<string>, custom: map<string, string>): (h: map<string, string>)
    ensures forall k :: k in custom ==> k in h && h[k] == custom[k]
    ensures "Content-Type" !in custom ==>
              ("Content-Type" in h <==> !body.FormBody?)
              && (!body.FormBody? ==> h["Content-Type"] == "application/json")
    ensures "Authorization" !in custom ==>
              ("Authorization" in h <==> Present(token))
              && (Present(token) ==> h["Authorization"] == "Bearer " + token.value)
    ensures forall k :: k in h ==> k in custom || k == "Content-Type" || k == "Authorization"
  {
    var contentType: map<string, string> :=
      if body.FormBody? then map[] else map["Content-Type" := "application/json"];
    var authorization: map<string, string> :=
      if Present(token) then map["Authorization" := "Bearer " + token.value] else map[];
    (contentType + authorization) + custom
  }

  /** The request `apiRequest` first sends for `endpoint` when the stored access token is `token`. */
  function BuildRequest(token: Option<string>, endpoint: string, options: Options): Request
  {
    Request(options.verb, BaseUrl + endpoint, BuildHeaders(options.body, token, options.headers), options.body)
  }

  /** The refresh call: a JSON POST carrying `{ refresh }`, outside `apiRequest`. */
  function RefreshRequest(refreshToken: string): Request
  {
    Request("POST", BaseUrl + RefreshPath, map["Content-Type" := "application/json"],
            JsonBody(JObj([("refresh", JStr(refreshToken))])))
  }

  /** `refreshAuthToken()`: with no refresh token, false without any request; otherwise one
      request, and on a 2xx response whose body parses to a value other than `null`, the
      body's `access` is written to `access_token` (as `setItem` renders it) and the result
      is true. Every failure (transport error, non-2xx, unparsable body) gives false with
      the store untouched. Only `access_token` ever changes. */
  function RefreshSpec(st: StoreState, n: nat, respond: (nat, Request) -> Reply): (r: RefreshRun)
    ensures !Present(st.refresh) ==> !r.refreshed && r.fetched == []
    ensures Present(st.refresh) ==> r.fetched == [RefreshRequest(st.refresh.value)]
    ensures r.store.refresh == st.refresh && r.store.user == st.user
    ensures !r.refreshed ==> r.store == st
    ensures r.refreshed <==>
              Present(st.refresh)
              && var reply := respond(n, RefreshRequest(st.refresh.value));
              reply.Response? && IsOk(reply.status) && reply.body.Parsed? && !reply.body.value.JNull?
    ensures r.refreshed ==>
              r.store.access == Some(StoredText(Member(respond(n, RefreshRequest(st.refresh.value)).body.value, "access")))
  {
    if !Present(st.refresh) then RefreshRun(false, st, [])
    else
      var request := RefreshRequest(st.refresh.value);
      match respond(n, request)
      case TransportError(_) => RefreshRun(false, st, [request])
      case Response(status, _, _, body) =>
        if !IsOk(status) then RefreshRun(false, st, [request])
        else match body
          case SyntaxError(_) => RefreshRun(false, st, [request])
          case Parsed(data) =>
            if data.JNull? then RefreshRun(false, st, [request])
            else RefreshRun(true, st.(access := Some(StoredText(Member(data, "access")))), [request])
  }

  /** Lines 74-131: the result of a call once its final reply is known. */
  function Settle(reply: Reply): ApiResult
  {
    match reply
    case TransportError(message) => Thrown(message)
    case Response(status, statusText, contentType, body) =>
      if !IsOk(status) then Thrown(ErrorMessage(status, statusText, contentType, body))
      else if status == 204 then Returned(SuccessSentinel)
      else if IsJsonContentType(contentType) then
        match body
        case Parsed(v) => Returned(v)
        case SyntaxError(message) => Thrown(message)
      else Returned(SuccessSentinel)
  }

  /** The first reply asks for a refresh: a 401 to a request that carried a stored token. */
  predicate NeedsRefresh(reply: Reply, token: Option<string>)
  {
    reply.Response? && reply.status == 401 && Present(token)
  }

  /** `apiRequest(endpoint, options)`. One request; on a 401 with a stored access token, one
      refresh and, if it succeeded, one replay of the same request with the new token, whose
      outcome is final; if the refresh failed, every stored entry is removed and the call
      throws "Authentication failed". Without a refresh the store is not touched. */
  function ApiSpec(st: StoreState, n: nat, respond: (nat, Request) -> Reply,
                   endpoint: string, options: Options): (run: Run)
    ensures 1 <= |run.fetched| <= 3
    ensures run.fetched[0] == BuildRequest(st.access, endpoint, options)
    ensures !NeedsRefresh(respond(n, run.fetched[0]), st.access) ==>
              |run.fetched| == 1 && run.store == st && run.result == Settle(respond(n, run.fetched[0]))
    ensures |run.fetched| > 1 ==>
              NeedsRefresh(respond(n, run.fetched[0]), st.access)
              && Present(st.refresh) && run.fetched[1] == RefreshRequest(st.refresh.value)
    ensures |run.fetched| == 3 ==>
              && run.store == st.(access := run.store.access)
              && run.store.access.Some?
              && run.fetched[2] == run.fetched[0].(headers :=
                   run.fetched[0].headers["Authorization" := "Bearer " + run.store.access.value])
              && run.result == Settle(respond(n + 2, run.fetched[2]))
    ensures NeedsRefresh(respond(n, run.fetched[0]), st.access) && |run.fetched| < 3 ==>
              run.store == Cleared && run.result == Thrown(AuthenticationFailed)
    ensures NeedsRefresh(respond(n, run.fetched[0]), st.access) ==>
              (|run.fetched| > 1 <==> Present(st.refresh))
              && (|run.fetched| == 3 <==> RefreshSpec(st, n + 1, respond).refreshed)
    ensures |run.fetched| == 3 ==> run.store == RefreshSpec(st, n + 1, respond).store
  {
    var request := BuildRequest(st.access, endpoint, options);
    var reply := respond(n, request);
    if NeedsRefresh(reply, st.access) then
      var refresh := RefreshSpec(st, n + 1, respond);
      if refresh.refreshed then
        var replay := request.(headers := request.headers["Authorization" := "Bearer " + refresh.store.access.value]);
        Run(Settle(respond(n + 1 + |refresh.fetched|, replay)), refresh.store, [request] + refresh.fetched + [replay])
      else
        Run(Thrown(AuthenticationFailed), Cleared, [request] + refresh.fetched)
    else
      Run(Settle(reply), st, [request])
  }

  /** The refresh-and-retry scenario 401, successful refresh, 401: exactly one refresh and one
      replay, and the second 401 is surfaced as an error instead of refreshing again. */
  lemma {:induction false} SingleRetry(st: StoreState, n: nat, respond: (nat, Request) -> Reply,
                                       endpoint: string, options: Options)
    requires Present(st.access) && Present(st.refresh)
    requires var first := respond(n, BuildRequest(st.access, endpoint, options));
             first.Response? && first.status == 401
    requires RefreshSpec(st, n + 1, respond).refreshed
    requires forall k: nat, r: Request :: k == n + 2 ==>
               respond(k, r).Response? && respond(k, r).status == 401
    ensures var run := ApiSpec(st, n, respond, endpoint, options);
            var last := respond(n + 2, run.fetched[2]);
            && |run.fetched| == 3
            && run.fetched[1] == RefreshRequest(st.refresh.value)
            && run.result == Thrown(ErrorMessage(401, last.statusText, last.contentType, last.body))
  {
    var run := ApiSpec(st, n, respond, endpoint, options);
    assert |run.fetched| == 3;
    var last := respond(n + 2, run.fetched[2]);
    assert last.Response? && last.status == 401;
  }

  /** Success results: a 204 is the sentinel whatever its body; a JSON 2xx is its parsed body;
      any other 2xx is the sentinel. */
  lemma SuccessResults(status: int, statusText: string, contentType: Option<string>, body: Parse)
    requires IsOk(status)
    ensures status == 204 ==> Settle(Response(status, statusText, contentType, body)) == Returned(SuccessSentinel)
    ensures status != 204 && IsJsonContentType(contentType) && body.Parsed? ==>
              Settle(Response(status, statusText, contentType, body)) == Returned(body.value)
    ensures status != 204 && !IsJsonContentType(contentType) ==>
              Settle(Response(status, statusText, contentType, body)) == Returned(SuccessSentinel)
  {
  }

  /** `refreshAuthToken()` on the store and the network. */
  method RefreshAuthToken(store: Store, net: Network) returns (refreshed: bool)
    modifies store, net`sent
    ensures var spec := RefreshSpec(old(store.State()), |old(net.sent)|, net.respond);
            refreshed == spec.refreshed && store.State() == spec.store && net.sent == old(net.sent) + spec.fetched
  {
    var refreshToken := store.refresh;
    if !Present(refreshToken) {
      return false;
    }
    var reply := net.Fetch(RefreshRequest(refreshToken.value));
    refreshed := false;
    if reply.Response? && IsOk(reply.status) {
      match reply.body {
        case Parsed(data) =>
          if !data.JNull? {
            store.SetAccessToken(StoredText(Member(data, "access")));
            refreshed := true;
          }
        case SyntaxError(_) =>
      }
    }
  }

  /** `apiRequest(endpoint, options)` on the store and the network. */
  method ApiRequest(store: Store, net: Network, endpoint: string, options: Options) returns (result: ApiResult)
    modifies store, net`sent
    ensures var run := ApiSpec(old(store.State()), |old(net.sent)|, net.respond, endpoint, options);
            result == run.result && store.State() == run.store && net.sent == old(net.sent) + run.fetched
  {
    var token := store.access;
    var request := BuildRequest(token, endpoint, options);
    var reply := net.Fetch(request);
    if NeedsRefresh(reply, token) {
      var refreshed := RefreshAuthToken(store, net);
      if refreshed {
        var replay := request.(headers := request.headers["Authorization" := "Bearer " + store.access.value]);
        reply := net.Fetch(replay);
      } else {
        store.RemoveTokens();
        return Thrown(AuthenticationFailed);
      }
    }
    result := Settle(reply);
  }
}
