/**
 * User accounts: the user service's lookups over the user table and the user
 * controller's register, login, read and update endpoints, with the request
 * validation constraints. Password hashing is an abstract encoder; tokens
 * are issued by the JWT utility.
 */
module Users {
  import opened Common
  import opened Text
  import opened Sorting
  import opened Jwt

  /** A row of the user table. */
  datatype User = User(
    id: int,
    username: string,
    email: string,
    password: string,
    nickname: Option<string>,
    avatar: Option<string>)

  /** The user table and the next id the database assigns. */
  datatype Table = Table(users: seq<User>, nextId: int)

  /** `getOne` on a query: no row (null), exactly one row, or more than one (the mapper throws). */
  datatype Lookup = NoUser | Found(user: User) | TooMany

  /** What the security framework gets for a user: name, password hash and no authorities. */
  datatype UserDetails = UserDetails(username: string, password: string, authorities: seq<string>)

  datatype LoadError = UsernameNotFound(message: string) | TooManyResults

  /** The password encoder: `encode` hashes a raw password, `matches(raw, hash)` checks one. */
  datatype Encoder = Encoder(encode: string -> string, matches: (string, string) -> bool)

  /** What the application assumes of the encoder: a password matches its own hash. */
  ghost predicate EncoderSound(encoder: Encoder) {
    forall raw: string :: encoder.matches(raw, encoder.encode(raw))
  }

  /**
   * The table keeps its ids below the next one, and no two rows share an id,
   * a username or an email (registration refuses duplicates).
   */
  ghost predicate TableValid(t: Table) {
    && 1 <= t.nextId
    && (forall i | 0 <= i < |t.users| :: 1 <= t.users[i].id < t.nextId)
    && (forall i, j | 0 <= i < j < |t.users| ::
          && t.users[i].id != t.users[j].id
          && t.users[i].username != t.users[j].username
          && t.users[i].email != t.users[j].email)
  }

  // ------------------------------------------------------------ user service

  /** `getOne` over the rows a condition selects. */
  function FindBy(users: seq<User>, matches: User -> bool): (r: Lookup)
    ensures r.NoUser? <==> forall u | u in users :: !matches(u)
    ensures r.Found? ==> r.user in users && matches(r.user) && |Filter(users, matches)| == 1
    ensures r.TooMany? <==> |Filter(users, matches)| >= 2
  {
    var rows := Filter(users, matches);
    FilterMembers(users, matches);
    assert |rows| > 0 ==> rows[0] in rows && rows[0] in users && matches(rows[0]);
    if |rows| == 0 then NoUser
    else if |rows| == 1 then Found(rows[0])
    else TooMany
  }

  /** `count(condition) > 0`. */
  function ExistsBy(users: seq<User>, matches: User -> bool): (r: bool)
    ensures r <==> exists u | u in users :: matches(u)
  {
    var rows := Filter(users, matches);
    FilterMembers(users, matches);
    assert |rows| > 0 ==> rows[0] in rows;
    |rows| > 0
  }

  function FindByUsername(users: seq<User>, username: string): Lookup {
    FindBy(users, (u: User) => u.username == username)
  }

  function FindByEmail(users: seq<User>, email: string): Lookup {
    FindBy(users, (u: User) => u.email == email)
  }

  function ExistsByUsername(users: seq<User>, username: string): bool {
    ExistsBy(users, (u: User) => u.username == username)
  }

  function ExistsByEmail(users: seq<User>, email: string): bool {
    ExistsBy(users, (u: User) => u.email == email)
  }

  /** `getById`: the row with that primary key, or null. */
  function FindById(users: seq<User>, id: int): (r: Option<User>)
    ensures r.None? <==> forall i | 0 <= i < |users| :: users[i].id != id
    ensures r.Some? ==> r.value in users && r.value.id == id
  {
    if users == [] then None
    else if users[0].id == id then Some(users[0])
    else
      var r := FindById(users[1..], id);
      assert forall i | 1 <= i < |users| :: users[i] == users[1..][i - 1];
      r
  }

  /** `loadUserByUsername`: the stored name and hash, or the not-found exception. */
  function LoadUserByUsername(users: seq<User>, username: string): (r: Result<UserDetails, LoadError>)
    ensures r.Ok? <==> FindByUsername(users, username).Found?
    ensures r.Ok? ==> var u := FindByUsername(users, username).user;
                      r.value == UserDetails(u.username, u.password, []) && r.value.username == username
    ensures FindByUsername(users, username).NoUser? ==>
              r == Err(UsernameNotFound("User not found with username: " + username))
  {
    match FindByUsername(users, username)
    case NoUser => Err(UsernameNotFound("User not found with username: " + username))
    case TooMany => Err(TooManyResults)
    case Found(u) => Ok(UserDetails(u.username, u.password, []))
  }

  /** Among rows that pairwise disagree on a condition, at most one satisfies it. */
  lemma {:induction false} FilterAtMostOne(users: seq<User>, matches: User -> bool)
    requires forall i, j | 0 <= i < j < |users| :: !(matches(users[i]) && matches(users[j]))
    ensures |Filter(users, matches)| <= 1
  {
    if users != [] {
      var rest := users[1..];
      assert forall i, j | 0 <= i < j < |rest| :: !(matches(rest[i]) && matches(rest[j])) by {
        forall i, j | 0 <= i < j < |rest| ensures !(matches(rest[i]) && matches(rest[j])) {
          assert rest[i] == users[i + 1] && rest[j] == users[j + 1];
        }
      }
      FilterAtMostOne(rest, matches);
      if matches(users[0]) {
        forall u | u in rest ensures !matches(u) {
          var k :| 0 <= k < |rest| && rest[k] == u;
          assert users[k + 1] == u;
        }
        FilterNone(rest, matches);
      }
    }
  }

  lemma {:induction false} FilterNone(users: seq<User>, matches: User -> bool)
    requires forall u | u in users :: !matches(u)
    ensures Filter(users, matches) == []
  {
    if users != [] {
      assert forall u | u in users[1..] :: u in users;
      FilterNone(users[1..], matches);
    }
  }

  /** In a valid table a username or an email selects at most one row, so the lookups never throw. */
  lemma UniqueLookups(t: Table, username: string, email: string)
    requires TableValid(t)
    ensures !FindByUsername(t.users, username).TooMany?
    ensures !FindByEmail(t.users, email).TooMany?
  {
    FilterAtMostOne(t.users, (u: User) => u.username == username);
    FilterAtMostOne(t.users, (u: User) => u.email == email);
  }

  // ------------------------------------------------------------- validation

  const UsernameBlank: string := "用户名不能为空"
  const UsernameSize: string := "用户名长度必须在3-20之间"
  const EmailBlank: string := "邮箱不能为空"
  const EmailFormat: string := "邮箱格式不正确"
  const PasswordBlank: string := "密码不能为空"
  const PasswordSize: string := "密码长度必须在6-20之间"

  /** `@NotBlank`: present and not only whitespace. */
  predicate NotBlank(s: Option<string>) {
    s.Some? && !IsBlank(s.value)
  }

  /** `@Size(min, max)`: absent, or a `String.length()` within the bounds. */
  predicate SizeWithin(s: Option<string>, min: nat, max: nat) {
    s.None? || min <= Utf16Length(s.value) <= max
  }

  /**
   * A character of a local-part atom or a domain label (where a '-' may not
   * start or end the label): an ASCII letter or digit, one of
   * ``!#$%&'*+/=?^_`{|}~-``, or a char from U+0080 to U+FFFF. The validator's
   * regex matches by code point, so a char beyond U+FFFF is refused.
   */
  predicate AddressChar(c: char) {
    || 'a' <= c <= 'z' || 'A' <= c <= 'Z' || '0' <= c <= '9' || ('\U{80}' <= c <= '\U{FFFF}')
    || c == '!' || ('#' <= c <= '\'') || c == '*' || c == '+' || c == '-' || c == '/' || c == '='
    || c == '?' || ('^' <= c <= '`') || ('{' <= c <= '~')
  }

  /** Dot-separated non-empty runs of `ok` characters: no leading, trailing or doubled dot. */
  predicate DotAtoms(s: string, ok: char -> bool) {
    && s != [] && s[0] != '.' && s[|s| - 1] != '.'
    && (forall i | 0 <= i < |s| :: s[i] == '.' || ok(s[i]))
    && (forall i | 0 <= i < |s| - 1 :: !(s[i] == '.' && s[i + 1] == '.'))
  }

  /** Domain labels do not start or end with a hyphen. */
  predicate HyphensInside(s: string) {
    && (forall i | 0 <= i < |s| :: s[i] == '-' ==> 0 < i < |s| - 1)
    && (forall i | 0 <= i < |s| - 1 :: s[i] == '.' ==> s[i + 1] != '-')
    && (forall i | 1 <= i < |s| :: s[i] == '.' ==> s[i - 1] != '-')
  }

  /**
   * `@Email`: absent or empty is accepted; otherwise the text is split at its
   * last '@' into a dotted local part of at most 64 UTF-16 code units and a
   * dotted domain of at most 255 chars.
   */
  predicate WellFormedEmail(s: Option<string>) {
    s.None? || s.value == [] || exists at | 0 <= at < |s.value| :: SplitsAt(s.value, at)
  }

  /** `at` is the last '@' of `e`, with a valid local part before it and a valid domain after it. */
  predicate SplitsAt(e: string, at: int)
    requires 0 <= at < |e|
  {
    && e[at] == '@'
    && (forall k | at < k < |e| :: e[k] != '@')
    && Utf16Length(e[..at]) <= 64 && DotAtoms(e[..at], AddressChar)
    && |e[at + 1..]| <= 255 && DotAtoms(e[at + 1..], AddressChar) && HyphensInside(e[at + 1..])
  }

  /** The body of `POST /users/register`. */
  datatype RegisterRequest = RegisterRequest(
    username: Option<string>, email: Option<string>, password: Option<string>, nickname: Option<string>)

  /** The body of `POST /users/login`. */
  datatype LoginRequest = LoginRequest(username: Option<string>, password: Option<string>)

  /** The body of `PUT /users/{id}`: both fields optional, no constraints. */
  datatype UpdateUserRequest = UpdateUserRequest(nickname: Option<string>, avatar: Option<string>)

  /** A registration body that passes every constraint. */
  predicate ValidRegistration(req: RegisterRequest) {
    && req.username.Some? && !IsBlank(req.username.value) && 3 <= Utf16Length(req.username.value) <= 20
    && req.email.Some? && !IsBlank(req.email.value) && WellFormedEmail(req.email)
    && req.password.Some? && !IsBlank(req.password.value) && 6 <= Utf16Length(req.password.value) <= 20
  }

  /** The messages of the registration constraints the body violates. */
  function RegisterViolations(req: RegisterRequest): (r: set<string>)
    ensures r == {} <==> ValidRegistration(req)
  {
    (if NotBlank(req.username) then {} else {UsernameBlank})
    + (if SizeWithin(req.username, 3, 20) then {} else {UsernameSize})
    + (if NotBlank(req.email) then {} else {EmailBlank})
    + (if WellFormedEmail(req.email) then {} else {EmailFormat})
    + (if NotBlank(req.password) then {} else {PasswordBlank})
    + (if SizeWithin(req.password, 6, 20) then {} else {PasswordSize})
  }

  /** Domain labels take the specials too: "a@b!c" is accepted. */
  lemma DomainSpecialsAccepted()
    ensures WellFormedEmail(Some("a@b!c"))
  {
    var e := "a@b!c";
    assert e[..1] == "a";
    assert e[2..] == "b!c";
    assert SplitsAt(e, 1);
  }

  /** A char beyond U+FFFF is refused: "😀@b" is not an address. */
  lemma SupplementaryRefused()
    ensures !WellFormedEmail(Some("\U{1F600}@b"))
  {
    var e := "\U{1F600}@b";
    forall at | 0 <= at < |e| ensures !SplitsAt(e, at) {
      if at == 1 {
        assert !AddressChar(e[..at][0]);
      } else {
        assert e[at] != '@';
      }
    }
  }

  /** A char beyond U+FFFF counts twice: a two-char username with one emoji passes the 3-20 size check. */
  lemma SizeCountsCodeUnits()
    ensures SizeWithin(Some("a\U{1F600}"), 3, 20)
    ensures !SizeWithin(Some("ab"), 3, 20)
  {
    assert "a\U{1F600}"[1..] == "\U{1F600}";
  }

  function LoginViolations(req: LoginRequest): (r: set<string>)
    ensures r == {} <==> NotBlank(req.username) && NotBlank(req.password)
  {
    (if NotBlank(req.username) then {} else {UsernameBlank})
    + (if NotBlank(req.password) then {} else {PasswordBlank})
  }

  // ------------------------------------------------------------ controller

  const UsernameTaken: string := "用户名已存在"
  const EmailTaken: string := "邮箱已被注册"
  const UnknownUser: string := "用户不存在"
  const WrongPassword: string := "密码错误"

  /** The user as the endpoints return it: never the password. */
  datatype UserResponse = UserResponse(id: int, username: string, email: string, nickname: Option<string>, avatar: Option<string>)

  datatype LoginResponse = LoginResponse(userId: int, username: string, nickname: Option<string>, token: string)

  /**
   * How a request ends: refused by bean validation before the handler runs,
   * answered by the handler, or an exception thrown out of it.
   */
  datatype Reply<T> = Rejected(violations: set<string>) | Answered(response: Response<T>) | Threw

  /** `register`: the table after the request and the reply. */
  function Registration(t: Table, req: RegisterRequest, encoder: Encoder): (Table, Reply<UserResponse>) {
    if !ValidRegistration(req) then (t, Rejected(RegisterViolations(req)))
    else Admit(t, req, encoder)
  }

  /** The handler body of `register`, for a body that passed validation. */
  function Admit(t: Table, req: RegisterRequest, encoder: Encoder): (Table, Reply<UserResponse>)
    requires req.username.Some? && req.email.Some? && req.password.Some?
  {
    if ExistsByUsername(t.users, req.username.value) then (t, Answered(Failure(UsernameTaken)))
    else if ExistsByEmail(t.users, req.email.value) then (t, Answered(Failure(EmailTaken)))
    else
      var user := NewUser(t, req, encoder);
      (Table(t.users + [user], t.nextId + 1),
       Answered(Success(UserResponse(user.id, user.username, user.email, user.nickname, None))))
  }

  /** A valid body whose username and email are both unused is saved as a new row and echoed back. */
  lemma AdmitNewUser(t: Table, req: RegisterRequest, encoder: Encoder)
    requires req.username.Some? && req.email.Some? && req.password.Some?
    requires !ExistsByUsername(t.users, req.username.value) && !ExistsByEmail(t.users, req.email.value)
    ensures var user := NewUser(t, req, encoder);
            Admit(t, req, encoder)
              == (Table(t.users + [user], t.nextId + 1),
                  Answered(Success(UserResponse(user.id, user.username, user.email, user.nickname, None))))
  {
  }

  /** The row `register` saves: the next id, the encoded password, no avatar. */
  function NewUser(t: Table, req: RegisterRequest, encoder: Encoder): User
    requires req.username.Some? && req.email.Some? && req.password.Some?
  {
    User(t.nextId, req.username.value, req.email.value, encoder.encode(req.password.value), req.nickname, None)
  }

  /** `login`: a token for (id, username) when the name exists and the password matches its hash. */
  function Login(t: Table, req: LoginRequest, encoder: Encoder, codec: Codec, config: JwtConfig, now: int): Reply<LoginResponse> {
    var violations := LoginViolations(req);
    if violations != {} then Rejected(violations)
    else
      match FindByUsername(t.users, req.username.value)
      case NoUser => Answered(Failure(UnknownUser))
      case TooMany => Threw
      case Found(u) =>
        if !encoder.matches(req.password.value, u.password) then Answered(Failure(WrongPassword))
        else
          var token := GenerateToken(codec, config, Some(u.id), Some(u.username), now);
          Answered(Success(LoginResponse(u.id, u.username, u.nickname, token)))
  }

  function ToResponse(u: User): UserResponse {
    UserResponse(u.id, u.username, u.email, u.nickname, u.avatar)
  }

  /** `getUserInfo`. */
  function GetUserInfo(t: Table, id: int): (r: Response<UserResponse>)
    ensures r.Failure? <==> forall i | 0 <= i < |t.users| :: t.users[i].id != id
    ensures r.Failure? ==> r.message == UnknownUser
    ensures r.Success? ==> r.data.id == id && exists u | u in t.users :: ToResponse(u) == r.data
  {
    match FindById(t.users, id)
    case None => Failure(UnknownUser)
    case Some(u) => Success(ToResponse(u))
  }

  /** The row after an update: nickname and avatar replaced only by non-null values. */
  function Updated(u: User, req: UpdateUserRequest): (r: User)
    ensures r.id == u.id && r.username == u.username && r.email == u.email && r.password == u.password
    ensures r.nickname == (if req.nickname.Some? then req.nickname else u.nickname)
    ensures r.avatar == (if req.avatar.Some? then req.avatar else u.avatar)
  {
    var u := if req.nickname.Some? then u.(nickname := req.nickname) else u;
    if req.avatar.Some? then u.(avatar := req.avatar) else u
  }

  /** `updateById`: every row with that primary key becomes `row`. */
  function ReplaceById(users: seq<User>, id: int, row: User): (r: seq<User>)
    ensures |r| == |users|
    ensures forall i | 0 <= i < |users| :: r[i] == if users[i].id == id then row else users[i]
  {
    seq(|users|, i requires 0 <= i < |users| => if users[i].id == id then row else users[i])
  }

  /** `updateUser`: the table after the request and the reply. */
  function UserUpdate(t: Table, id: int, req: UpdateUserRequest): (Table, Response<UserResponse>) {
    match FindById(t.users, id)
    case None => (t, Failure(UnknownUser))
    case Some(u) =>
      var row := Updated(u, req);
      (t.(users := ReplaceById(t.users, id, row)), Success(ToResponse(row)))
  }

  /** Registration checks the username before the email, and a refused registration saves nothing. */
  lemma RegisterRefusals(t: Table, req: RegisterRequest, encoder: Encoder)
    requires ValidRegistration(req)
    ensures var (t', r) := Registration(t, req, encoder);
            && (ExistsByUsername(t.users, req.username.value) ==> r == Answered(Failure(UsernameTaken)))
            && (!ExistsByUsername(t.users, req.username.value) && ExistsByEmail(t.users, req.email.value) ==>
                  r == Answered(Failure(EmailTaken)))
            && (t' != t ==> r.Answered? && r.response.Success?)
  {
  }

  /**
   * A successful registration appends exactly one row, holding the encoder's
   * output for the password, and answers with that row minus the password.
   */
  lemma RegisterStoresHash(t: Table, req: RegisterRequest, encoder: Encoder)
    requires Registration(t, req, encoder).1.Answered? && Registration(t, req, encoder).1.response.Success?
    ensures var (t', r) := Registration(t, req, encoder);
            && |t'.users| == |t.users| + 1 && t'.users[..|t.users|] == t.users
            && var row := t'.users[|t.users|];
               && row.password == encoder.encode(req.password.value)
               && row.username == req.username.value && row.email == req.email.value
               && r.response.data == UserResponse(row.id, row.username, row.email, row.nickname, None)
  {
    var t' := Registration(t, req, encoder).0;
    assert t'.users == t.users + [t'.users[|t.users|]];
  }

  /** Registration keeps the table valid: ids fresh, usernames and emails still unique. */
  lemma RegisterKeepsValid(t: Table, req: RegisterRequest, encoder: Encoder)
    requires TableValid(t)
    ensures TableValid(Registration(t, req, encoder).0)
  {
    if ValidRegistration(req) {
      AdmitKeepsValid(t, req, encoder);
    }
  }

  lemma {:induction false} AdmitKeepsValid(t: Table, req: RegisterRequest, encoder: Encoder)
    requires TableValid(t) && req.username.Some? && req.email.Some? && req.password.Some?
    ensures TableValid(Admit(t, req, encoder).0)
  {
    if !ExistsByUsername(t.users, req.username.value) && !ExistsByEmail(t.users, req.email.value) {
      var row := NewUser(t, req, encoder);
      assert Admit(t, req, encoder).0 == Table(t.users + [row], t.nextId + 1);
      AppendFreshRow(t, row);
    }
  }

  /** A row with the next id and an unused username and email can be appended to a valid table. */
  lemma AppendFreshRow(t: Table, row: User)
    requires TableValid(t) && row.id == t.nextId
    requires forall u | u in t.users :: u.username != row.username && u.email != row.email
    ensures TableValid(Table(t.users + [row], t.nextId + 1))
  {
    var users := t.users + [row];
    forall i, j | 0 <= i < j < |users|
      ensures users[i].id != users[j].id
      ensures users[i].username != users[j].username
      ensures users[i].email != users[j].email
    {
      if j == |t.users| {
        assert users[i] == t.users[i] && t.users[i] in t.users;
      }
    }
  }

  /** An update changes at most the matching row's nickname and avatar, and keeps the table valid. */
  lemma {:induction false} UpdateKeepsValid(t: Table, id: int, req: UpdateUserRequest)
    requires TableValid(t)
    ensures var (t', _) := UserUpdate(t, id, req);
            && TableValid(t') && t'.nextId == t.nextId && |t'.users| == |t.users|
            && forall i | 0 <= i < |t.users| ::
                 && t'.users[i].id == t.users[i].id && t'.users[i].username == t.users[i].username
                 && t'.users[i].email == t.users[i].email && t'.users[i].password == t.users[i].password
  {
  }

  /** An unknown id reads and writes nothing. */
  lemma UnknownIdUntouched(t: Table, id: int, req: UpdateUserRequest)
    requires forall i | 0 <= i < |t.users| :: t.users[i].id != id
    ensures GetUserInfo(t, id) == Failure(UnknownUser)
    ensures UserUpdate(t, id, req) == (t, Failure(UnknownUser))
  {
  }

  /**
   * With a sound encoder, a user who just registered can log in with the same
   * name and password; the token names the new row's id and username.
   */
  lemma {:induction false} RegisterThenLogin(t: Table, req: RegisterRequest, encoder: Encoder, codec: Codec, config: JwtConfig, now: int)
    requires EncoderSound(encoder)
    requires Registration(t, req, encoder).1.Answered? && Registration(t, req, encoder).1.response.Success?
    ensures var t' := Registration(t, req, encoder).0;
            Login(t', LoginRequest(req.username, req.password), encoder, codec, config, now)
              == Answered(Success(LoginResponse(t.nextId, req.username.value, req.nickname,
                                   GenerateToken(codec, config, Some(t.nextId), req.username, now))))
  {
    assert ValidRegistration(req);
    var row := NewUser(t, req, encoder);
    assert !ExistsByUsername(t.users, row.username) && !ExistsByEmail(t.users, row.email);
    AdmitNewUser(t, req, encoder);
    assert Registration(t, req, encoder).0 == Table(t.users + [row], t.nextId + 1);
    assert encoder.matches(req.password.value, row.password);
    LoginFindsNewRow(t.users, row, t.nextId + 1, LoginRequest(req.username, req.password), encoder, codec, config, now);
  }

  /** A login with the name of a freshly appended row and a password matching its hash is answered with that row. */
  lemma LoginFindsNewRow(users: seq<User>, row: User, nextId: int, req: LoginRequest, encoder: Encoder,
                         codec: Codec, config: JwtConfig, now: int)
    requires !ExistsByUsername(users, row.username)
    requires NotBlank(req.username) && NotBlank(req.password) && req.username.value == row.username
    requires encoder.matches(req.password.value, row.password)
    ensures Login(Table(users + [row], nextId), req, encoder, codec, config, now)
         == Answered(Success(LoginResponse(row.id, row.username, row.nickname,
                              GenerateToken(codec, config, Some(row.id), Some(row.username), now))))
  {
    FreshNameFound(users, row);
  }

  /** A row whose username no other row has is the one row found by that name once appended. */
  lemma {:induction false} FreshNameFound(users: seq<User>, row: User)
    requires !ExistsByUsername(users, row.username)
    ensures FindByUsername(users + [row], row.username) == Found(row)
  {
    var byName := (u: User) => u.username == row.username;
    FilterAppend(users, [row], byName);
    FilterNone(users, byName);
    assert Filter([row], byName) == [row];
  }

  /** Login answers "unknown user" and "wrong password" as the table and the encoder dictate, after validation. */
  lemma LoginFailures(t: Table, req: LoginRequest, encoder: Encoder, codec: Codec, config: JwtConfig, now: int)
    requires LoginViolations(req) == {}
    ensures (forall u | u in t.users :: u.username != req.username.value) ==>
              Login(t, req, encoder, codec, config, now) == Answered(Failure(UnknownUser))
    ensures FindByUsername(t.users, req.username.value).Found? &&
            !encoder.matches(req.password.value, FindByUsername(t.users, req.username.value).user.password) ==>
              Login(t, req, encoder, codec, config, now) == Answered(Failure(WrongPassword))
  {
  }

  /** The user table as the service updates it. */
  class UserStore {
    var users: seq<User>
    var nextId: int

    function State(): Table
      reads this
    {
      Table(users, nextId)
    }

    ghost predicate Valid()
      reads this
    {
      TableValid(State())
    }

    constructor()
      ensures State() == Table([], 1) && Valid()
    {
      users := [];
      nextId := 1;
    }

    /** `register` on the live table. */
    method Register(req: RegisterRequest, encoder: Encoder) returns (r: Reply<UserResponse>)
      requires Valid()
      modifies this
      ensures (State(), r) == Registration(old(State()), req, encoder)
      ensures Valid()
    {
      RegisterKeepsValid(State(), req, encoder);
      if !ValidRegistration(req) {
        return Rejected(RegisterViolations(req));
      }
      r := AdmitRegistration(req, encoder);
    }

    /** The handler body of `register`, once the body passed validation. */
    method AdmitRegistration(req: RegisterRequest, encoder: Encoder) returns (r: Reply<UserResponse>)
      requires req.username.Some? && req.email.Some? && req.password.Some?
      modifies this
      ensures (State(), r) == Admit(old(State()), req, encoder)
    {
      ghost var before := State();
      if ExistsByUsername(users, req.username.value) {
        return Answered(Failure(UsernameTaken));
      }
      if ExistsByEmail(users, req.email.value) {
        return Answered(Failure(EmailTaken));
      }
      var user := NewUser(State(), req, encoder);
      AdmitNewUser(before, req, encoder);
      users := users + [user];
      nextId := nextId + 1;
      r := Answered(Success(UserResponse(user.id, user.username, user.email, user.nickname, None)));
    }

    /** `updateUser` on the live table. */
    method UpdateUser(id: int, req: UpdateUserRequest) returns (r: Response<UserResponse>)
      requires Valid()
      modifies this
      ensures (State(), r) == UserUpdate(old(State()), id, req)
      ensures Valid()
    {
      UpdateKeepsValid(State(), id, req);
      var found := FindById(users, id);
      if found.None? {
        return Failure(UnknownUser);
      }
      var row := found.value;
      if req.nickname.Some? {
        row := row.(nickname := req.nickname);
      }
      if req.avatar.Some? {
        row := row.(avatar := req.avatar);
      }
      users := ReplaceById(users, id, row);
      r := Success(ToResponse(row));
    }
  }
}
