/**
 * The frontend's authentication store: the signed-in user, the access token
 * and the copy of the token kept in the browser's local storage under
 * "access_token". The user object is whatever the login response carried; it
 * is a type parameter here.
 */
module AuthSession {
  import opened Common

  /** The store's two fields and the persisted token (None when the storage key is absent). */
  datatype AuthState<U> = AuthState(user: Option<U>, accessToken: string, stored: Option<string>)

  /** `token || ''` for a token that may be null or undefined. */
  function TokenOrEmpty(token: Option<string>): (r: string)
    ensures r == "" <==> token.None? || token.value == ""
    ensures r != "" ==> token == Some(r)
  {
    if token.Some? then token.value else ""
  }

  /** `isAuthenticated`: the token is truthy. */
  predicate IsAuthenticated<U>(st: AuthState<U>) {
    st.accessToken != ""
  }

  /**
   * `setSession`: the user and the token (or '') are stored; the token is
   * persisted only when it is truthy, so a falsy token leaves whatever was
   * persisted before.
   */
  function SetSession<U>(st: AuthState<U>, user: Option<U>, token: Option<string>): (r: AuthState<U>)
    ensures r.user == user
    ensures r.accessToken == TokenOrEmpty(token)
    ensures IsAuthenticated(r) <==> token.Some? && token.value != ""
    ensures r.stored == if IsAuthenticated(r) then Some(r.accessToken) else st.stored
  {
    var t := TokenOrEmpty(token);
    AuthState(user, t, if t != "" then Some(t) else st.stored)
  }

  /** `clearSession`: back to no user and no token, and the persisted token removed. */
  function ClearSession<U>(st: AuthState<U>): (r: AuthState<U>)
    ensures !IsAuthenticated(r) && r.user.None? && r.stored.None?
  {
    AuthState(None, "", None)
  }

  /** `hydrateFromStorage`: a non-empty persisted token becomes the access token; the user is never touched. */
  function HydrateFromStorage<U>(st: AuthState<U>): (r: AuthState<U>)
    ensures r.user == st.user && r.stored == st.stored
    ensures r.accessToken == if TokenOrEmpty(st.stored) != "" then st.stored.value else st.accessToken
  {
    var token := TokenOrEmpty(st.stored);
    if token != "" then st.(accessToken := token) else st
  }

  /** The state of a freshly loaded page: no user, no token, and whatever the storage still holds. */
  function Reloaded<U>(st: AuthState<U>): AuthState<U> {
    AuthState(None, "", st.stored)
  }

  /** A signed-in session survives a page reload: hydrating restores the token it was set with. */
  lemma SignInSurvivesReload<U>(st: AuthState<U>, user: Option<U>, token: string)
    requires token != ""
    ensures var after := HydrateFromStorage(Reloaded(SetSession(st, user, Some(token))));
            IsAuthenticated(after) && after.accessToken == token && after.user.None?
  {
  }

  /**
   * Setting a session with an empty token does not remove a token persisted
   * earlier: after a reload the page is authenticated with that older token.
   */
  lemma EmptyTokenKeepsStaleLogin<U>(st: AuthState<U>, user: Option<U>, older: string)
    requires older != "" && st.stored == Some(older)
    ensures var cleared := SetSession(st, user, Some(""));
            && !IsAuthenticated(cleared)
            && HydrateFromStorage(Reloaded(cleared)).accessToken == older
  {
  }

  /** After signing out, neither the store nor a reload is authenticated. */
  lemma SignOutIsFinal<U>(st: AuthState<U>)
    ensures !IsAuthenticated(HydrateFromStorage(ClearSession(st)))
    ensures !IsAuthenticated(HydrateFromStorage(Reloaded(ClearSession(st))))
  {
  }

  /** Hydrating twice is hydrating once. */
  lemma HydrateIdempotent<U>(st: AuthState<U>)
    ensures HydrateFromStorage(HydrateFromStorage(st)) == HydrateFromStorage(st)
  {
  }

}

/** The store object, whose actions are proved to leave the states `AuthSession` describes. */
module AuthStore {
  import opened Common
  import AuthSession

  /** `stored` stands for the local-storage entry. */
  class Store<U> {
    var user: Option<U>
    var accessToken: string
    var stored: Option<string>

    function State(): AuthSession.AuthState<U>
      reads this
    {
      AuthSession.AuthState(user, accessToken, stored)
    }

    /** The initial store, over whatever the storage holds. */
    constructor(stored: Option<string>)
      ensures State() == AuthSession.AuthState(None, "", stored)
    {
      user := None;
      accessToken := "";
      this.stored := stored;
    }

    function IsAuthenticated(): (r: bool)
      reads this
      ensures r <==> AuthSession.IsAuthenticated(State())
    {
      accessToken != ""
    }

    method SetSession(user: Option<U>, token: Option<string>)
      modifies this
      ensures State() == AuthSession.SetSession(old(State()), user, token)
    {
      if token.Some? && token.value != "" {
        stored := token;
      }
      this.user := user;
      accessToken := if token.Some? then token.value else "";
    }

    method ClearSession()
      modifies this
      ensures State() == AuthSession.ClearSession(old(State()))
    {
      stored := None;
      user := None;
      accessToken := "";
    }

    method HydrateFromStorage()
      modifies this
      ensures State() == AuthSession.HydrateFromStorage(old(State()))
    {
      var token := if stored.Some? then stored.value else "";
      if token != "" {
        accessToken := token;
      }
    }
  }
}
