/** The authentication state of auth.rs: one optional token, stored and
    read back by the commands. */
module Auth {
  import opened Base

  /** `AppState`. */
  class AppState {
    var token: Option<string>

    /** `AppState::new`: no token. */
    constructor ()
      ensures token.None?
    {
      token := None;
    }

    /** `store_token` (and the `store_auth_token` command): replaces any
        previous token. */
    method StoreToken(t: string)
      modifies this
      ensures token == Some(t)
    {
      token := Some(t);
    }

    /** `get_token` (and `get_auth_token` and `get_token_from_state`): the
        stored token; reading changes nothing. */
    function GetToken(): (r: Option<string>)
      reads this
      ensures r == token
    {
      token
    }

    /** `has_auth_token`: whether a token is stored. */
    function HasAuthToken(): (r: bool)
      reads this
      ensures r <==> GetToken().Some?
    {
      GetToken().Some?
    }
  }

  /** A fresh state has no token; on a state, storing a token makes
      `get_token` return it and `has_auth_token` true, and a second store
      replaces it. */
  method StoreThenGet(state: AppState, first: string, second: string)
    returns (freshHas: bool, afterFirst: Option<string>, hasAfterFirst: bool, afterSecond: Option<string>)
    modifies state
    ensures !freshHas
    ensures afterFirst == Some(first) && hasAfterFirst
    ensures afterSecond == Some(second) && state.token == Some(second)
  {
    var initial := new AppState();
    freshHas := initial.HasAuthToken();
    state.StoreToken(first);
    afterFirst := state.GetToken();
    hasAfterFirst := state.HasAuthToken();
    state.StoreToken(second);
    afterSecond := state.GetToken();
  }
}
