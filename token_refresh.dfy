/** The token-refresh view: the refresh token comes from its cookie (never
    from the body), the serializer turns it into a new access token, and the
    view sets that token as the access cookie. Only an invalid token is
    answered 400; any other exception of the serializer escapes the view. */
module CustomTokenRefresh {
  import opened Http
  import opened TokenCookies

  const MissingMessage: string := "Refresh token missing"

  /** What `is_valid(raise_exception=True)` does with the serializer's input:
      yields the validated data, raises `InvalidToken` with its text, or
      raises some other exception. */
  datatype Validation = Validated(data: map<string, string>) | InvalidToken(message: string) | OtherError(message: string)

  /** `Err` carries the text of an exception that leaves the view uncaught. */
  method Post(request: Request, validate: map<string, string> -> Validation) returns (result: Result<Response, string>)
    ensures !Truthy(Get(request.cookies, RefreshCookieName)) ==> result == Ok(BadRequest(MissingMessage))
    ensures Truthy(Get(request.cookies, RefreshCookieName)) ==>
      var outcome := validate(map["refresh" := request.cookies[RefreshCookieName]]);
      && (outcome.InvalidToken? ==> result == Ok(BadRequest(outcome.message)))
      && (outcome.OtherError? ==> result == Err(outcome.message))
      && (outcome.Validated? ==>
            result.Ok? && result.value.status == 200
            && result.value.cookies == map[AccessCookieName := TokenCookie(PyStr(Get(outcome.data, "access")), AccessMaxAge)]
            && result.value.content == Data(outcome.data - {"refresh", "access"}))
  {
    var refreshToken := Get(request.cookies, RefreshCookieName);
    if refreshToken.None? || refreshToken.value == "" {
      return Ok(BadRequest("Refresh token missing"));
    }
    var outcome := validate(map["refresh" := refreshToken.value]);
    if outcome.OtherError? {
      return Err(outcome.message);
    }
    if outcome.InvalidToken? {
      return Ok(BadRequest(outcome.message));
    }
    var response := DataResponse(outcome.data, 200);
    var access := Get(outcome.data, "access");
    response := SetCookie(response, AccessCookieName, TokenCookie(PyStr(access), AccessMaxAge));
    var body := response.content.data;
    body := body - {"refresh"};
    body := body - {"access"};
    response := response.(content := Data(body));
    return Ok(response);
  }

  /** A refresh never re-issues the refresh cookie, and a validated result
      without an access token still sets the cookie, to the text `None`. */
  lemma OnlyAccessCookie(data: map<string, string>, response: Response)
    requires response.cookies == map[AccessCookieName := TokenCookie(PyStr(Get(data, "access")), AccessMaxAge)]
    ensures RefreshCookieName !in response.cookies
    ensures "access" !in data ==> response.cookies[AccessCookieName].value == "None"
    ensures "access" in data ==> response.cookies[AccessCookieName].value == data["access"]
  {
  }
}
