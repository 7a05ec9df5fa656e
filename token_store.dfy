/** The browser-local token store: three string entries, `access_token`, `refresh_token`
    and `user_data` (vis-core-fe/src/services/api.js, lines 4-30). */
module TokenStore {
  import opened Wrappers
  import opened Json

  /** The three entries; `None` is an entry `localStorage.getItem` reports as missing. */
  datatype StoreState = StoreState(access: Option<string>, refresh: Option<string>, user: Option<string>)

  const Cleared: StoreState := StoreState(None, None, None)

  /** JavaScript truthiness of a `getItem` result: present and not the empty string. */
  predicate Present(entry: Option<string>)
  {
    entry.Some? && entry.value != ""
  }

  /** `getUserData()` over a store state: `null` when the entry is missing or empty,
      otherwise whatever `JSON.parse` makes of it, which may be a SyntaxError. */
  function UserData(st: StoreState, parse: string -> Parse): Parse
  {
    if Present(st.user) then parse(st.user.value) else Parsed(JNull)
  }

  class Store {
    var access: Option<string>
    var refresh: Option<string>
    var user: Option<string>

    function State(): StoreState
      reads this
    {
      StoreState(access, refresh, user)
    }

    constructor (initial: StoreState)
      ensures State() == initial
    {
      access, refresh, user := initial.access, initial.refresh, initial.user;
    }

    /** `setTokens(accessToken, refreshToken)`: overwrites both tokens, keeps `user_data`. */
    method SetTokens(accessToken: string, refreshToken: string)
      modifies this
      ensures State() == old(State()).(access := Some(accessToken), refresh := Some(refreshToken))
    {
      access := Some(accessToken);
      refresh := Some(refreshToken);
    }

    /** `localStorage.setItem('access_token', text)` as done by a successful refresh. */
    method SetAccessToken(text: string)
      modifies this
      ensures State() == old(State()).(access := Some(text))
    {
      access := Some(text);
    }

    /** `setUserData`: stores the serialised profile. */
    method SetUserData(text: string)
      modifies this
      ensures State() == old(State()).(user := Some(text))
    {
      user := Some(text);
    }

    /** `removeTokens()`: removes all three entries, whatever they held. */
    method RemoveTokens()
      modifies this
      ensures State() == Cleared
    {
      access := None;
      refresh := None;
      user := None;
    }

    /** `authAPI.isAuthenticated()`: an access token is stored and is not empty. */
    function IsAuthenticated(): (b: bool)
      reads this
      ensures b <==> exists t :: access == Some(t) && t != ""
    {
      Present(access)
    }

    /** `getUserData()` / `authAPI.getCurrentUser()`. */
    function GetUserData(parse: string -> Parse): (r: Parse)
      reads this
      ensures !Present(user) ==> r == Parsed(JNull)
      ensures Present(user) ==> r == parse(user.value)
    {
      UserData(State(), parse)
    }
  }
}
