/**
 * app/api/auth/login/route.ts: `POST /api/auth/login`. The body is parsed and validated, the
 * user looked up by username, a disabled account refused, the password checked, and only
 * then is `lastLoginAt` written and a token issued.
 *
 * Password verification (`verifyPassword`) and token signing (`createToken`) are parameters.
 * The user table is keyed by username, which the database keeps unique.
 */
module Login {
  import opened Wrappers
  import opened Types
  import opened ApiResponse
  import opened Validations
  import opened Decimal

  /** A user row with its roles (`include: { userRoles: { include: { role: true } } }`), in link order. */
  datatype UserRecord = UserRecord(
    id: int,
    username: string,
    passwordHash: string,
    email: Option<string>,
    realName: Option<string>,
    avatar: Option<string>,
    status: int,
    userRoles: seq<Role>,
    lastLoginAt: Option<int>)

  /** The `user` object of the success body; `None` in an optional field is a JSON null. */
  datatype UserView = UserView(
    id: string,
    username: string,
    email: Option<string>,
    realName: Option<string>,
    avatar: Option<string>,
    roles: seq<Role>)

  datatype LoginData = LoginData(token: string, user: UserView)

  const InvalidCredentialsMessage := "用户名或密码错误"
  const DisabledMessage := "账号已被禁用"
  const LoginFailedMessage := "登录失败"
  const ActiveStatus := 1

  /** `verifyPassword(password, hash)` */
  type PasswordCheck = (string, string) -> bool

  /** `createToken(payload)` */
  type Signer = JwtPayload -> string

  /** The username and password of a body the login schema accepts. */
  function Credentials(v: JsValue): (c: (string, string))
    requires LoginAccepts(v)
    ensures v.fields["username"] == JsString(c.0) && v.fields["password"] == JsString(c.1)
    ensures Utf16Length(c.0) >= 1 && Utf16Length(c.1) >= 6
  {
    (v.fields["username"].s, v.fields["password"].s)
  }

  /** `user.userRoles.map(ur => ur.role.code)` */
  function RoleCodes(roles: seq<Role>): (codes: seq<string>)
    ensures |codes| == |roles|
    ensures forall i :: 0 <= i < |roles| ==> codes[i] == roles[i].code
  {
    if roles == [] then [] else RoleCodes(roles[..|roles| - 1]) + [roles[|roles| - 1].code]
  }

  /** The token payload: the id as decimal text, the username and the role codes in order. */
  function Payload(u: UserRecord): (p: JwtPayload)
    ensures ParseBigInt(p.userId) == Some(u.id)
    ensures p.username == u.username
    ensures |p.roles| == |u.userRoles| && forall i :: 0 <= i < |p.roles| ==> p.roles[i] == u.userRoles[i].code
  {
    DecimalRoundTrip(u.id);
    JwtPayload(ToDecimal(u.id), u.username, RoleCodes(u.userRoles))
  }

  /** The `user` object sent back: the id as text, the row's profile fields and its full roles. */
  function View(u: UserRecord): (w: UserView)
    ensures ParseBigInt(w.id) == Some(u.id)
    ensures w.username == u.username && w.roles == u.userRoles
    ensures w.email == u.email && w.realName == u.realName && w.avatar == u.avatar
  {
    DecimalRoundTrip(u.id);
    UserView(ToDecimal(u.id), u.username, u.email, u.realName, u.avatar, u.userRoles)
  }

  /** `{ success: false, error: message }` with the given status. */
  function Refuse(status: int, message: string): (r: Response<LoginData>)
    ensures r.status == status && IsFailureBody(r.body) && r.body.error == Some(message)
  {
    Response(status, Failed(message))
  }

  /**
   * The response of the handler. `body` is `None` when `request.json()` throws; that error is
   * not a ZodError, so it ends in the 500 branch of the catch.
   */
  function Respond(body: Option<JsValue>, users: map<string, UserRecord>, verify: PasswordCheck, sign: Signer): (r: Response<LoginData>)
    ensures r.status == 200 <==>
      body.Some? && LoginAccepts(body.value) && Credentials(body.value).0 in users
      && users[Credentials(body.value).0].status == ActiveStatus
      && verify(Credentials(body.value).1, users[Credentials(body.value).0].passwordHash)
    ensures r.status == 200 ==>
      var u := users[Credentials(body.value).0];
      r.body.success && r.body.data == Some(LoginData(sign(Payload(u)), View(u)))
    ensures r.status != 200 ==> IsFailureBody(r.body) && r.body.data.None?
  {
    if body.None? then Refuse(500, LoginFailedMessage)
    else
      var issue := LoginFirstIssue(body.value);
      if issue.Some? then Refuse(400, issue.value)
      else
        var (username, password) := Credentials(body.value);
        if username !in users then Refuse(401, InvalidCredentialsMessage)
        else
          var u := users[username];
          if u.status != ActiveStatus then Refuse(403, DisabledMessage)
          else if !verify(password, u.passwordHash) then Refuse(401, InvalidCredentialsMessage)
          else SuccessResponse(LoginData(sign(Payload(u)), View(u)), None)
  }

  /** A body that is not JSON ends in 500 "登录失败", whatever the table holds. */
  lemma UnparsableBody(users: map<string, UserRecord>, verify: PasswordCheck, sign: Signer)
    ensures Respond(None, users, verify, sign) == Refuse(500, LoginFailedMessage)
  {
  }

  /**
   * A body the schema rejects gets 400 with zod's first message, and the answer does not
   * depend on the user table or the password check: validation comes before any lookup.
   */
  lemma ValidationBeforeLookup(v: JsValue, users1: map<string, UserRecord>, users2: map<string, UserRecord>,
                               verify1: PasswordCheck, verify2: PasswordCheck, sign: Signer)
    requires !LoginAccepts(v)
    ensures LoginFirstIssue(v).Some?
    ensures Respond(Some(v), users1, verify1, sign) == Refuse(400, LoginFirstIssue(v).value)
    ensures Respond(Some(v), users1, verify1, sign) == Respond(Some(v), users2, verify2, sign)
  {
  }

  /** An unknown username gets 401 "用户名或密码错误" without consulting the password check. */
  lemma UnknownUser(v: JsValue, users: map<string, UserRecord>, verify: PasswordCheck, sign: Signer)
    requires LoginAccepts(v) && Credentials(v).0 !in users
    ensures Respond(Some(v), users, verify, sign) == Refuse(401, InvalidCredentialsMessage)
  {
  }

  /**
   * An account whose status is not 1 gets 403 "账号已被禁用" whatever the password: the
   * status is checked before the password, so the answer does not depend on the check.
   */
  lemma DisabledBeforePassword(v: JsValue, users: map<string, UserRecord>,
                               verify1: PasswordCheck, verify2: PasswordCheck, sign: Signer)
    requires LoginAccepts(v) && Credentials(v).0 in users && users[Credentials(v).0].status != ActiveStatus
    ensures Respond(Some(v), users, verify1, sign) == Refuse(403, DisabledMessage)
    ensures Respond(Some(v), users, verify1, sign) == Respond(Some(v), users, verify2, sign)
  {
  }

  /**
   * A wrong password for an active account is answered exactly as if the username did not
   * exist, so the response does not reveal which usernames are taken.
   */
  lemma WrongPasswordLooksLikeUnknownUser(v: JsValue, users: map<string, UserRecord>, verify: PasswordCheck, sign: Signer)
    requires LoginAccepts(v) && Credentials(v).0 in users
    requires users[Credentials(v).0].status == ActiveStatus
    requires !verify(Credentials(v).1, users[Credentials(v).0].passwordHash)
    ensures Respond(Some(v), users, verify, sign) == Refuse(401, InvalidCredentialsMessage)
    ensures Respond(Some(v), users, verify, sign) == Respond(Some(v), users - {Credentials(v).0}, verify, sign)
  {
    UnknownUser(v, users - {Credentials(v).0}, verify, sign);
  }

  /**
   * End to end: when the verifier decodes what the signer produced, the token of a successful
   * login authenticates later requests as that user, and `BigInt(userId)` is the user's id.
   */
  lemma {:induction false} IssuedTokenAuthenticates(v: JsValue, users: map<string, UserRecord>, verify: PasswordCheck,
                                                    sign: Signer, jwtVerify: string -> JwtOutcome)
    requires forall p :: sign(p) != "" && jwtVerify(sign(p)) == Decoded(p)
    requires Respond(Some(v), users, verify, sign).status == 200
    ensures var r := Respond(Some(v), users, verify, sign);
      var u := users[Credentials(v).0];
      var auth := GetAuthUser(Some(BearerPrefix + r.body.data.value.token), jwtVerify);
      auth == Some(Payload(u)) && ParseBigInt(auth.value.userId) == Some(u.id)
  {
    var r := Respond(Some(v), users, verify, sign);
    var u := users[Credentials(v).0];
    var t := r.body.data.value.token;
    assert t == sign(Payload(u));
    assert jwtVerify(t) == Decoded(Payload(u));
    var h := BearerPrefix + t;
    assert h[|BearerPrefix|..] == t;
  }

  /** The users table, whose rows the handler reads and whose `lastLoginAt` it writes. */
  class UserTable {
    var users: map<string, UserRecord>

    constructor (initial: map<string, UserRecord>)
      ensures users == initial
    {
      users := initial;
    }

    /**
     * The handler. `now` is `new Date()`. The row's `lastLoginAt` is written after every check
     * has passed and before the token is made; on every other path the table is unchanged.
     */
    method Login(body: Option<JsValue>, verify: PasswordCheck, sign: Signer, now: int) returns (r: Response<LoginData>)
      modifies this
      ensures r == Respond(body, old(users), verify, sign)
      ensures r.status == 200 ==>
        var name := Credentials(body.value).0;
        users == old(users)[name := old(users)[name].(lastLoginAt := Some(now))]
      ensures r.status != 200 ==> users == old(users)
    {
      if body.None? {
        return Refuse(500, LoginFailedMessage);
      }
      var issue := LoginFirstIssue(body.value);
      if issue.Some? {
        return Refuse(400, issue.value);
      }
      var (username, password) := Credentials(body.value);
      if username !in users {
        return Refuse(401, InvalidCredentialsMessage);
      }
      var u := users[username];
      if u.status != ActiveStatus {
        return Refuse(403, DisabledMessage);
      }
      var isValid := verify(password, u.passwordHash);
      if !isValid {
        return Refuse(401, InvalidCredentialsMessage);
      }
      users := users[username := u.(lastLoginAt := Some(now))];
      var token := sign(Payload(u));
      r := SuccessResponse(LoginData(token, View(u)), None);
    }
  }
}
