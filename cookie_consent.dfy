/** The cookie-consent default: when the request carries no (or an empty)
    `cookie_consent` cookie, the handler's response sets it to `true`,
    expiring 365 days from now; a request that has any non-empty value, even
    `false`, gets the handler's response untouched. The handler is called
    exactly once either way and the request's own cookies are not touched. */
module CookieConsent {
  import opened Http

  const CookieName: string := "cookie_consent"

  /** Seconds in the cookie's lifetime of 365 days. */
  const OneYear: int := 365 * 24 * 60 * 60

  /** The cookie `set_cookie('cookie_consent', 'true', expires=now + 365 days)`
      records; times are whole seconds. */
  function Consent(now: int): (c: Cookie)
    ensures c.value == "true" && c.expires == Some(now + OneYear)
    ensures c.maxAge == None && !c.httpOnly && !c.secure && c.sameSite == None
  {
    Cookie("true", None, Some(now + OneYear), false, false, None)
  }

  method Call(request: Request, now: int, next: Request -> Response) returns (response: Response)
    ensures !Truthy(Get(request.cookies, CookieName)) ==>
      response == next(request).(cookies := response.cookies)
      && response.cookies.Keys == next(request).cookies.Keys + {CookieName}
      && response.cookies[CookieName] == Consent(now)
      && response.cookies[CookieName].value == "true"
      && response.cookies[CookieName].expires == Some(now + OneYear)
      && (forall k :: k in next(request).cookies && k != CookieName ==> response.cookies[k] == next(request).cookies[k])
    ensures Truthy(Get(request.cookies, CookieName)) ==> response == next(request)
  {
    var consent := Get(request.cookies, CookieName);
    if consent.None? || consent.value == "" {
      response := next(request);
      response := response.(cookies := response.cookies[CookieName := Consent(now)]);
      return;
    }
    response := next(request);
  }
}
