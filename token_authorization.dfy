/** Transfer of the access token from its cookie to the Authorization header:
    a non-empty `accessToken` cookie becomes META `HTTP_AUTHORIZATION` =
    `Bearer <token>` (the scheme of section 2.1 of RFC 6750), replacing any
    value already there. The request always goes on. */
module TokenToAuthorizationHeader {
  import opened Http

  const CookieName: string := "accessToken"
  const HeaderKey: string := "HTTP_AUTHORIZATION"
  const Scheme: string := "Bearer "

  method Call(request: Request) returns (step: Step)
    ensures step.Forward?
    ensures !Truthy(Get(request.cookies, CookieName)) ==> step.request == request
    ensures Truthy(Get(request.cookies, CookieName)) ==>
      step.request == request.(meta := step.request.meta)
      && HeaderKey in step.request.meta
      && step.request.meta[HeaderKey] == Scheme + request.cookies[CookieName]
      && step.request.meta.Keys == request.meta.Keys + {HeaderKey}
      && (forall k :: k in request.meta && k != HeaderKey ==> step.request.meta[k] == request.meta[k])
  {
    var req := request;
    var token := Get(request.cookies, CookieName);
    if token.Some? && token.value != "" {
      req := req.(meta := req.meta[HeaderKey := "Bearer " + token.value]);
    }
    step := Forward(req);
  }

  /** The header gives the cookie back once its 7-character scheme is dropped;
      the token's characters are not checked. */
  lemma HeaderCarriesToken(request: Request, step: Step)
    requires Truthy(Get(request.cookies, CookieName))
    requires step.Forward? && HeaderKey in step.request.meta
    requires step.request.meta[HeaderKey] == Scheme + request.cookies[CookieName]
    ensures |Scheme| == 7 && StartsWith(step.request.meta[HeaderKey], Scheme)
    ensures step.request.meta[HeaderKey][7..] == request.cookies[CookieName]
  {
  }
}
