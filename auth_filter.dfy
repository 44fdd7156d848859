/**
 * The JWT authentication filter: it reads a bearer token, and for a token
 * naming a known user that validates, it sets the security context's
 * authentication and the request attributes "userId" and "username". It
 * never rejects a request itself.
 */
module AuthFilter {
  import opened Common
  import opened Text
  import opened Jwt
  import opened Users
  import opened SecurityUtil

  const BearerPrefix: string := "Bearer "

  /** The token of an Authorization header: what follows "Bearer ", when the header starts with it. */
  function BearerToken(header: Option<string>): (r: Option<string>)
    ensures r.Some? <==> header.Some? && StartsWith(header.value, BearerPrefix)
    ensures r.Some? ==> header.value == BearerPrefix + r.value
  {
    if header.Some? && StartsWith(header.value, BearerPrefix) then
      assert header.value == header.value[..7] + header.value[7..];
      Some(header.value[7..])
    else None
  }

  /** The username read from the token; a failure to read it is swallowed and reads as null. */
  function TokenUsername(header: Option<string>, codec: Codec, config: JwtConfig, now: int): (r: Option<string>)
    ensures r.Some? ==> BearerToken(header).Some?
    ensures r.Some? ==> UsernameFromToken(codec, config, BearerToken(header).value, now) == Ok(r)
  {
    match BearerToken(header)
    case None => None
    case Some(token) =>
      match UsernameFromToken(codec, config, token, now)
      case Ok(subject) => subject
      case Err(_) => None
  }

  /** The authentication the filter installs: the user's details, no credentials. */
  datatype Authentication = Authentication(principal: UserDetails)

  /** What the filter decides for a request. */
  datatype Decision =
    | Anonymous
    | Authenticate(details: UserDetails, userId: Option<int>, username: string)
    | Throws(error: LoadError)

  /**
   * The decision: anonymous unless a username was read and no authentication
   * exists yet; then the user is loaded (outside any try, so a missing user
   * propagates), and the request is authenticated only if the token validates
   * for the loaded username.
   */
  function Decide(header: Option<string>, authenticated: bool, users: seq<User>, codec: Codec, config: JwtConfig, now: int): (d: Decision)
    ensures d.Throws? <==>
      TokenUsername(header, codec, config, now).Some? && !authenticated
      && LoadUserByUsername(users, TokenUsername(header, codec, config, now).value).Err?
    ensures d.Authenticate? <==>
      TokenUsername(header, codec, config, now).Some? && !authenticated
      && LoadUserByUsername(users, TokenUsername(header, codec, config, now).value).Ok?
      && ValidateToken(codec, config, BearerToken(header).value, TokenUsername(header, codec, config, now).value, now)
    ensures d.Authenticate? ==>
      && d.username == TokenUsername(header, codec, config, now).value
      && d.details == LoadUserByUsername(users, d.username).value
      && d.userId == ClaimsFromToken(codec, config, BearerToken(header).value, now).value.userId
  {
    var username := TokenUsername(header, codec, config, now);
    if username.None? || authenticated then Anonymous
    else
      match LoadUserByUsername(users, username.value)
      case Err(e) => Throws(e)
      case Ok(details) =>
        var token := BearerToken(header).value;
        if ValidateToken(codec, config, token, details.username, now) then
          Authenticate(details, ClaimsFromToken(codec, config, token, now).value.userId, username.value)
        else Anonymous
  }

  /** What the filter can change: the request's attributes and the context's authentication. */
  datatype FilterState = FilterState(attributes: Attributes, authentication: Option<Authentication>)

  /** How the request leaves the filter: passed down the chain, or with an exception. */
  datatype Outcome = PassedOn | Propagated(error: LoadError)

  /** The state after the filter and how the request leaves it. */
  function Filtered(st: FilterState, header: Option<string>, users: seq<User>, codec: Codec, config: JwtConfig, now: int): (r: (FilterState, Outcome))
    ensures r.1 == PassedOn <==> !Decide(header, st.authentication.Some?, users, codec, config, now).Throws?
    ensures r.0 != st ==> Decide(header, st.authentication.Some?, users, codec, config, now).Authenticate?
  {
    match Decide(header, st.authentication.Some?, users, codec, config, now)
    case Anonymous => (st, PassedOn)
    case Throws(e) => (st, Propagated(e))
    case Authenticate(details, userId, username) =>
      var withId := SetAttribute(st.attributes, UserIdAttribute, if userId.Some? then Some(LongValue(userId.value)) else None);
      (FilterState(SetAttribute(withId, UsernameAttribute, Some(StringValue(username))), Some(Authentication(details))), PassedOn)
  }

  /** The servlet request, as far as the filter reads and writes it. */
  class HttpRequest {
    const authorization: Option<string>
    var attributes: Attributes

    constructor(authorization: Option<string>, attributes: Attributes)
      ensures this.authorization == authorization && this.attributes == attributes
    {
      this.authorization := authorization;
      this.attributes := attributes;
    }
  }

  /** The thread's security context. */
  class SecurityContext {
    var authentication: Option<Authentication>

    constructor()
      ensures authentication.None?
    {
      authentication := None;
    }
  }

  /** `doFilterInternal`. */
  method DoFilterInternal(request: HttpRequest, context: SecurityContext, users: seq<User>, codec: Codec, config: JwtConfig, now: int)
    returns (outcome: Outcome)
    modifies request, context
    ensures (FilterState(request.attributes, context.authentication), outcome)
         == Filtered(FilterState(old(request.attributes), old(context.authentication)), request.authorization, users, codec, config, now)
  {
    var token: Option<string> := None;
    var username: Option<string> := None;
    if request.authorization.Some? && StartsWith(request.authorization.value, BearerPrefix) {
      token := Some(request.authorization.value[7..]);
      var read := UsernameFromToken(codec, config, token.value, now);
      if read.Ok? {
        username := read.value;
      }
    }
    if username.Some? && context.authentication.None? {
      var loaded := LoadUserByUsername(users, username.value);
      if loaded.Err? {
        return Propagated(loaded.error);
      }
      var details := loaded.value;
      if ValidateToken(codec, config, token.value, details.username, now) {
        context.authentication := Some(Authentication(details));
        var userId := UserIdFromToken(codec, config, token.value, now);
        request.attributes := SetAttribute(request.attributes, UserIdAttribute,
                                           if userId.value.Some? then Some(LongValue(userId.value.value)) else None);
        request.attributes := SetAttribute(request.attributes, UsernameAttribute, Some(StringValue(username.value)));
      }
    }
    outcome := PassedOn;
  }

  /**
   * A token issued for a registered user, presented before it expires on a
   * request without prior authentication, authenticates that user: the
   * controllers then read back the user's id and name.
   */
  lemma {:induction false} IssuedTokenAuthenticates(st: FilterState, t: Table, user: User, codec: Codec, config: JwtConfig, issued: int, now: int)
    requires RoundTrips(codec) && TableValid(t) && user in t.users
    requires st.authentication.None? && now <= issued + config.expiration
    ensures var header := Some(BearerPrefix + GenerateToken(codec, config, Some(user.id), Some(user.username), issued));
            var (after, outcome) := Filtered(st, header, t.users, codec, config, now);
            && outcome == PassedOn
            && CurrentUserId(Some(after.attributes)) == Some(user.id)
            && CurrentUsername(Some(after.attributes)) == Some(user.username)
            && after.authentication == Some(Authentication(UserDetails(user.username, user.password, [])))
  {
    var token := GenerateToken(codec, config, Some(user.id), Some(user.username), issued);
    var header := Some(BearerPrefix + token);
    assert (BearerPrefix + token)[..7] == BearerPrefix;
    assert (BearerPrefix + token)[7..] == token;
    GeneratedTokenRoundTrip(codec, config, Some(user.id), Some(user.username), issued, now);
    GeneratedTokenValidates(codec, config, Some(user.id), user.username, user.username, issued, now);
    assert TokenUsername(header, codec, config, now) == Some(user.username);
    UniqueLookups(t, user.username, "");
    assert FindByUsername(t.users, user.username) == Found(user) by {
      var byName := (u: User) => u.username == user.username;
      var l := FindByUsername(t.users, user.username);
      assert l != NoUser by { assert byName(user); }
      SingleMatch(t, user);
    }
    LookupsAfterSet(st.attributes, Some(user.id), user.username);
  }

  /** In a valid table, the only row carrying a user's name is that user's row. */
  lemma SingleMatch(t: Table, user: User)
    requires TableValid(t) && user in t.users
    ensures FindByUsername(t.users, user.username) == Found(user)
  {
    UniqueLookups(t, user.username, "");
    var l := FindByUsername(t.users, user.username);
    var i :| 0 <= i < |t.users| && t.users[i] == user;
    if l.Found? {
      var j :| 0 <= j < |t.users| && t.users[j] == l.user;
      assert t.users[j].username == t.users[i].username;
      assert i == j;
    }
  }

  /** A readable token naming a user the table does not hold makes the request fail with the not-found exception. */
  lemma UnknownUserPropagates(st: FilterState, header: Option<string>, users: seq<User>, codec: Codec, config: JwtConfig, now: int)
    requires st.authentication.None? && TokenUsername(header, codec, config, now).Some?
    requires forall u | u in users :: u.username != TokenUsername(header, codec, config, now).value
    ensures Filtered(st, header, users, codec, config, now)
         == (st, Propagated(UsernameNotFound("User not found with username: " + TokenUsername(header, codec, config, now).value)))
  {
  }

  /** A request that is already authenticated, or carries no readable token, passes through unchanged. */
  lemma NothingToDo(st: FilterState, header: Option<string>, users: seq<User>, codec: Codec, config: JwtConfig, now: int)
    requires st.authentication.Some? || TokenUsername(header, codec, config, now).None?
    ensures Filtered(st, header, users, codec, config, now) == (st, PassedOn)
  {
  }
}
