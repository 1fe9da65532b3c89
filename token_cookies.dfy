/** The cookie settings both token views share; each view's source declares
    the same four constants. Tokens travel in `httponly`, `secure`,
    `SameSite=None` cookies whose lifetime is given as `max_age`. */
module TokenCookies {
  import opened Http

  const AccessCookieName: string := "accessToken"
  const RefreshCookieName: string := "refreshToken"
  const AccessMaxAge: int := 3600
  const RefreshMaxAge: int := 3600 * 24

  /** `set_cookie(name, token, httponly=True, secure=True, samesite='None',
      max_age=maxAge)` */
  function TokenCookie(token: string, maxAge: int): Cookie
  {
    Cookie(token, Some(maxAge), None, true, true, Some("None"))
  }

  /** The `{'detail': message}` body of a 400 answer. */
  function BadRequest(message: string): Response
  {
    DataResponse(map["detail" := message], 400)
  }
}
