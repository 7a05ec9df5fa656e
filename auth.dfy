/** The façades of the request layer that decide when the token store is written or
    cleared: `authAPI.login`, `authAPI.register`, `authAPI.logout`
    (vis-core-fe/src/services/api.js, lines 139-204). */
module AuthApi {
  import opened Wrappers
  import opened Json
  import opened Http
  import opened TokenStore
  import opened ErrorNormalizer
  import opened RequestLayer

  const LoginPath: string := "/api/auth/login/"
  const RegisterPath: string := "/api/auth/register/"
  const LogoutPath: string := "/api/auth/logout/"

  /** The registration form. A missing full name or phone is sent as "". */
  datatype RegisterForm = RegisterForm(username: string, email: string, fullName: Option<string>,
                                       phone: Option<string>, password: string, passwordConfirm: string)

  /** `cleanData`: the six fields the register call sends. */
  function RegisterBody(form: RegisterForm): JsonValue
  {
    JObj([("username", JStr(form.username)), ("email", JStr(form.email)),
          ("full_name", JStr(form.fullName.GetOr(""))), ("phone", JStr(form.phone.GetOr(""))),
          ("password", JStr(form.password)), ("password_confirm", JStr(form.passwordConfirm))])
  }

  /** What `setUserData(response.user)` stores: `JSON.stringify` of the profile, or the text
      "undefined" when the response has no `user`. */
  function UserText(user: Option<JsonValue>, stringify: JsonValue -> string): string
  {
    match user
    case None => "undefined"
    case Some(u) => stringify(u)
  }

  /** The store after a response carrying truthy `tokens` is accepted: both tokens (as
      `setItem` renders them) and the serialised user. */
  function WithSession(st: StoreState, response: JsonValue, stringify: JsonValue -> string): StoreState
    requires Truthy(Member(response, "tokens"))
  {
    var tokens := Member(response, "tokens").value;
    StoreState(Some(StoredText(Member(tokens, "access"))), Some(StoredText(Member(tokens, "refresh"))),
               Some(UserText(Member(response, "user"), stringify)))
  }

  /** Login and register: a JSON POST through `apiRequest`; a response with truthy `tokens`
      writes both tokens and the user, any other response leaves the store as the request
      left it; an error is rethrown with its message, or `fallback` when that is empty. */
  function SessionSpec(st: StoreState, n: nat, respond: (nat, Request) -> Reply, stringify: JsonValue -> string,
                       path: string, body: JsonValue, fallback: string): (run: Run)
    requires fallback != ""
    ensures var call := ApiSpec(st, n, respond, path, Options("POST", JsonBody(body), map[]));
      && run.fetched == call.fetched
      && (run.result.Thrown? ==> run.result.message != "" && run.store == call.store)
      && (call.result.Thrown? ==>
            run.result == Thrown(if call.result.message != "" then call.result.message else fallback))
      && (call.result.Returned? && call.result.value.JNull? ==> run.result == Thrown(NullReadMessage("tokens")))
      && (call.result.Returned? && !call.result.value.JNull? ==>
            && run.result == call.result
            && (Truthy(Member(call.result.value, "tokens")) ==> run.store == WithSession(call.store, call.result.value, stringify))
            && (!Truthy(Member(call.result.value, "tokens")) ==> run.store == call.store))
  {
    var call := ApiSpec(st, n, respond, path, Options("POST", JsonBody(body), map[]));
    match call.result
    case Thrown(message) =>
      Run(Thrown(if message != "" then message else fallback), call.store, call.fetched)
    case Returned(response) =>
      if response.JNull? then Run(Thrown(NullReadMessage("tokens")), call.store, call.fetched)
      else if Truthy(Member(response, "tokens")) then
        Run(call.result, WithSession(call.store, response, stringify), call.fetched)
      else Run(call.result, call.store, call.fetched)
  }

  /** `authAPI.logout()`: a logout request only when a refresh token is stored, its errors
      swallowed, and every entry removed afterwards in all cases. */
  function LogoutSpec(st: StoreState, n: nat, respond: (nat, Request) -> Reply): (r: (StoreState, seq<Request>))
    ensures r.0 == Cleared
    ensures r.1 == [] <==> !Present(st.refresh)
    ensures Present(st.refresh) ==>
              r.1[0] == BuildRequest(st.access, LogoutPath,
                                     Options("POST", JsonBody(JObj([("refresh", JStr(st.refresh.value))])), map[]))
  {
    if Present(st.refresh) then
      var call := ApiSpec(st, n, respond, LogoutPath,
                          Options("POST", JsonBody(JObj([("refresh", JStr(st.refresh.value))])), map[]));
      (Cleared, call.fetched)
    else (Cleared, [])
  }

  /** After a login whose response carries `tokens` with a non-empty string `access`, the
      user is authenticated, and reading the user back gives the profile the server sent
      whenever `JSON.parse` inverts `JSON.stringify` on it. */
  lemma {:induction false} LoginEstablishesSession(st: StoreState, n: nat, respond: (nat, Request) -> Reply,
                                                   stringify: JsonValue -> string, parse: string -> Parse,
                                                   credentials: JsonValue, access: string, user: JsonValue)
    requires var call := ApiSpec(st, n, respond, LoginPath, Options("POST", JsonBody(credentials), map[]));
             call.result.Returned?
             && Member(call.result.value, "tokens").Some?
             && Member(call.result.value, "tokens").value.JObj?
             && Member(Member(call.result.value, "tokens").value, "access") == Some(JStr(access))
             && Member(call.result.value, "user") == Some(user)
    requires access != ""
    requires stringify(user) != "" && parse(stringify(user)) == Parsed(user)
    ensures var run := SessionSpec(st, n, respond, stringify, LoginPath, credentials, "Login failed");
            && run.store.access == Some(access)
            && Present(run.store.access)
            && UserData(run.store, parse) == Parsed(user)
  {
    var call := ApiSpec(st, n, respond, LoginPath, Options("POST", JsonBody(credentials), map[]));
    var response := call.result.value;
    assert Truthy(Member(response, "tokens"));
    var run := SessionSpec(st, n, respond, stringify, LoginPath, credentials, "Login failed");
    assert run.store == WithSession(call.store, response, stringify);
    assert StoredText(Some(JStr(access))) == access;
  }

  /** `authAPI.login(credentials)`. */
  method Login(store: Store, net: Network, stringify: JsonValue -> string, credentials: JsonValue)
    returns (result: ApiResult)
    modifies store, net`sent
    ensures var run := SessionSpec(old(store.State()), |old(net.sent)|, net.respond, stringify,
                                   LoginPath, credentials, "Login failed");
            result == run.result && store.State() == run.store && net.sent == old(net.sent) + run.fetched
  {
    result := Authenticate(store, net, stringify, LoginPath, credentials, "Login failed");
  }

  /** `authAPI.register(userData)`. */
  method Register(store: Store, net: Network, stringify: JsonValue -> string, form: RegisterForm)
    returns (result: ApiResult)
    modifies store, net`sent
    ensures var run := SessionSpec(old(store.State()), |old(net.sent)|, net.respond, stringify,
                                   RegisterPath, RegisterBody(form), "Registration failed");
            result == run.result && store.State() == run.store && net.sent == old(net.sent) + run.fetched
  {
    result := Authenticate(store, net, stringify, RegisterPath, RegisterBody(form), "Registration failed");
  }

  /** The body shared by `login` and `register`. */
  method Authenticate(store: Store, net: Network, stringify: JsonValue -> string,
                      path: string, body: JsonValue, fallback: string) returns (result: ApiResult)
    requires fallback != ""
    modifies store, net`sent
    ensures var run := SessionSpec(old(store.State()), |old(net.sent)|, net.respond, stringify, path, body, fallback);
            result == run.result && store.State() == run.store && net.sent == old(net.sent) + run.fetched
  {
    result := ApiRequest(store, net, path, Options("POST", JsonBody(body), map[]));
    match result {
      case Thrown(message) =>
        result := Thrown(if message != "" then message else fallback);
      case Returned(response) =>
        if response.JNull? {
          result := Thrown(NullReadMessage("tokens"));
        } else if Truthy(Member(response, "tokens")) {
          var tokens := Member(response, "tokens").value;
          store.SetTokens(StoredText(Member(tokens, "access")), StoredText(Member(tokens, "refresh")));
          store.SetUserData(UserText(Member(response, "user"), stringify));
        }
    }
  }

  /** `authAPI.logout()`. */
  method Logout(store: Store, net: Network)
    modifies store, net`sent
    ensures var r := LogoutSpec(old(store.State()), |old(net.sent)|, net.respond);
            store.State() == r.0 && net.sent == old(net.sent) + r.1
  {
    var refreshToken := store.refresh;
    if Present(refreshToken) {
      var ignored := ApiRequest(store, net, LogoutPath,
                                Options("POST", JsonBody(JObj([("refresh", JStr(refreshToken.value))])), map[]));
    }
    store.RemoveTokens();
  }
}
