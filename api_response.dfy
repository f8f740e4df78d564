/**
 * lib/api-response.ts: bearer-token extraction, the authenticated-user lookup and the
 * JSON envelope helpers. The JWT library is a parameter: `jwtVerify` is `jwt.verify`
 * with the server's secret, either decoding a payload or throwing.
 */
module ApiResponse {
  import opened Wrappers
  import opened Types

  /** What `jwt.verify(token, secret)` does: return the decoded payload, or throw. */
  datatype JwtOutcome = Decoded(payload: JwtPayload) | Thrown

  /** `verifyToken`: the try/catch turns every verification failure into `null`. */
  function VerifyToken(jwtVerify: string -> JwtOutcome, token: string): (r: Option<JwtPayload>)
    ensures r.Some? <==> jwtVerify(token).Decoded?
    ensures r.Some? ==> r.value == jwtVerify(token).payload
  {
    match jwtVerify(token)
    case Decoded(p) => Some(p)
    case Thrown => None
  }

  /** The authentication scheme prefix, matched case-sensitively and including its one space. */
  const BearerPrefix := "Bearer "

  /**
   * `getTokenFromRequest`, given the `authorization` header (`None` when absent).
   * `substring(7)` counts UTF-16 units; the seven prefix characters are ASCII, so it drops
   * exactly the prefix.
   */
  function GetTokenFromRequest(authorization: Option<string>): (token: Option<string>)
    ensures token.Some? <==> authorization.Some? && BearerPrefix <= authorization.value
    ensures token.Some? ==> authorization.value == BearerPrefix + token.value
  {
    if authorization.Some? && BearerPrefix <= authorization.value
    then
      var h := authorization.value;
      assert h == h[..7] + h[7..];
      Some(h[7..])
    else None
  }

  /** The token a client put after "Bearer " is exactly the token the server reads back. */
  lemma {:induction false} BearerRoundTrip(t: string)
    ensures GetTokenFromRequest(Some(BearerPrefix + t)) == Some(t)
  {
    var h := BearerPrefix + t;
    assert h[..7] == BearerPrefix;
    assert h[7..] == t;
  }

  /** A missing header, a lower-case scheme or another scheme yields no token. */
  lemma OtherSchemesYieldNoToken(rest: string)
    ensures GetTokenFromRequest(None) == None
    ensures GetTokenFromRequest(Some("bearer " + rest)) == None
    ensures GetTokenFromRequest(Some("Basic " + rest)) == None
    ensures GetTokenFromRequest(Some("Bearer")) == None
  {
    assert ("bearer " + rest)[0] != BearerPrefix[0];
    assert ("Basic " + rest)[1] != BearerPrefix[1];
  }

  /**
   * `getAuthUser`: a token that is missing or empty gives `null` without consulting the
   * verifier; otherwise the verifier's answer, failures becoming `null`.
   */
  function GetAuthUser(authorization: Option<string>, jwtVerify: string -> JwtOutcome): (user: Option<JwtPayload>)
    ensures user.Some? <==>
      authorization.Some? && |authorization.value| > |BearerPrefix| && BearerPrefix <= authorization.value
      && jwtVerify(authorization.value[|BearerPrefix|..]).Decoded?
    ensures user.Some? ==> jwtVerify(authorization.value[|BearerPrefix|..]) == Decoded(user.value)
  {
    var token := GetTokenFromRequest(authorization);
    if token.None? || token.value == "" then None
    else
      assert token.value == authorization.value[|BearerPrefix|..];
      VerifyToken(jwtVerify, token.value)
  }

  /** Without a non-empty bearer token, the answer does not depend on the verifier at all. */
  lemma {:induction false} NoTokenNoVerification(authorization: Option<string>, v1: string -> JwtOutcome, v2: string -> JwtOutcome)
    requires GetTokenFromRequest(authorization) in {None, Some("")}
    ensures GetAuthUser(authorization, v1) == None && GetAuthUser(authorization, v2) == None
  {
  }

  // ---------------------------------------------------------------------------
  // Envelopes

  /** The JSON body `{ success, data?, message?, error?, errors? }`; `None` is an omitted key. */
  datatype Envelope<T> = Envelope(
    success: bool,
    data: Option<T>,
    message: Option<string>,
    error: Option<string>,
    errors: Option<map<string, seq<string>>>)

  /** `NextResponse.json(body, { status })`; the status defaults to 200. */
  datatype Response<T> = Response(status: int, body: Envelope<T>)

  const DefaultStatus := 200
  const UnauthorizedMessage := "未授权访问"
  const ForbiddenMessage := "权限不足"
  const ValidationFailedMessage := "验证失败"

  /** `{ success: false, error: message }`, the body every failure helper sends. */
  function Failed<T>(message: string): Envelope<T> {
    Envelope(false, None, None, Some(message), None)
  }

  /** A failure body: no data, an error text. */
  predicate IsFailureBody<T>(b: Envelope<T>) {
    !b.success && b.data.None? && b.error.Some?
  }

  function UnauthorizedResponse<T>(message: Option<string>): (r: Response<T>)
    ensures r.status == 401 && IsFailureBody(r.body)
    ensures r.body.error == Some(message.GetOr(UnauthorizedMessage))
  {
    Response(401, Failed(message.GetOr(UnauthorizedMessage)))
  }

  function ForbiddenResponse<T>(message: Option<string>): (r: Response<T>)
    ensures r.status == 403 && IsFailureBody(r.body)
    ensures r.body.error == Some(message.GetOr(ForbiddenMessage))
  {
    Response(403, Failed(message.GetOr(ForbiddenMessage)))
  }

  function SuccessResponse<T>(data: T, message: Option<string>): (r: Response<T>)
    ensures r.status == DefaultStatus && r.body.success && !IsFailureBody(r.body)
    ensures r.body.data == Some(data) && r.body.message == message && r.body.error.None?
  {
    Response(DefaultStatus, Envelope(true, Some(data), message, None, None))
  }

  function ErrorResponse<T>(message: string, status: Option<int>): (r: Response<T>)
    ensures r.status == status.GetOr(500) && IsFailureBody(r.body)
    ensures r.body.error == Some(message)
  {
    Response(status.GetOr(500), Failed(message))
  }

  function ValidationErrorResponse<T>(errors: map<string, seq<string>>): (r: Response<T>)
    ensures r.status == 400 && IsFailureBody(r.body)
    ensures r.body.error == Some(ValidationFailedMessage) && r.body.errors == Some(errors)
  {
    Response(400, Envelope(false, None, None, Some(ValidationFailedMessage), Some(errors)))
  }
}
