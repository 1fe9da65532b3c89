/** The request and response world shared by every middleware, view and model
    of the project: plain records for what the framework hands around, the
    decision a request filter takes, and a few string helpers with Python's
    meaning. */
module Http {

  datatype Option<T> = None | Some(value: T)

  datatype Result<T, E> = Ok(value: T) | Err(error: E)

  /** A cookie as `set_cookie` records it on a response. */
  datatype Cookie = Cookie(
    value: string,
    maxAge: Option<int>,
    expires: Option<int>,
    httpOnly: bool,
    secure: bool,
    sameSite: Option<string>)

  /** The body of a response: plain text content, the `data` dictionary of a
      REST-framework response (rendered later), or a JSON response built from
      a dictionary (the encoding itself is not modelled). */
  datatype Content = Text(text: string) | Data(data: map<string, string>) | JsonOf(json: map<string, string>)

  datatype Response = Response(
    status: int,
    headers: map<string, string>,
    cookies: map<string, Cookie>,
    content: Content)

  /** An incoming request: its path and HTTP method, the META dictionary (CGI-style
      header names), cookies, POST data, whether it arrived over TLS, whether
      its user is authenticated, its session (values are times in seconds) and
      the `version` attribute some middleware attaches. */
  datatype Request = Request(
    path: string,
    httpMethod: string,
    meta: map<string, string>,
    cookies: map<string, string>,
    post: map<string, string>,
    secure: bool,
    authenticated: bool,
    session: map<string, int>,
    version: Option<string>)

  /** What a request filter does: hand a (possibly updated) request to the
      next handler, or answer on its own without calling it. */
  datatype Step = Forward(request: Request) | Reply(response: Response)

  /** The response a filter's step produces; the next handler is applied only
      to a forwarded request. */
  function Run(step: Step, next: Request -> Response): Response
  {
    match step
    case Forward(r) => next(r)
    case Reply(resp) => resp
  }

  /** The Content-Type every framework response gets unless told otherwise. */
  const DefaultContentType: string := "text/html; charset=utf-8"

  /** `HttpResponse(text, status=status, content_type=contentType)` */
  function TextResponse(text: string, status: int, contentType: string): Response
  {
    Response(status, map["Content-Type" := contentType], map[], Text(text))
  }

  /** `HttpResponsePermanentRedirect(url)` (301) or `HttpResponseRedirect(url)` (302). */
  function Redirect(url: string, permanent: bool): Response
  {
    Response(if permanent then 301 else 302,
             map["Content-Type" := DefaultContentType, "Location" := url], map[], Text(""))
  }

  /** A REST-framework `Response(data, status=status)`. */
  function DataResponse(data: map<string, string>, status: int): Response
  {
    Response(status, map[], map[], Data(data))
  }

  /** `d.get(key)` on a string dictionary. */
  function Get(m: map<string, string>, key: string): Option<string>
  {
    if key in m then Some(m[key]) else None
  }

  /** Python's `str(x)` of an optional string: an absent value prints as "None". */
  function PyStr(o: Option<string>): string
  {
    if o.None? then "None" else o.value
  }

  /** Python truthiness of an optional string: present and non-empty. */
  predicate Truthy(o: Option<string>)
  {
    o.Some? && o.value != ""
  }

  /** `s.startswith(prefix)` */
  predicate StartsWith(s: string, prefix: string)
  {
    prefix <= s
  }

  /** `s.endswith(suffix)` */
  predicate EndsWith(s: string, suffix: string)
  {
    |suffix| <= |s| && s[|s| - |suffix|..] == suffix
  }

  /** `w in s` for strings: `w` occurs somewhere in `s` as a substring. */
  predicate Contains(s: string, w: string)
    decreases |s|
  {
    w <= s || (s != [] && Contains(s[1..], w))
  }

  /** The position of the first `c` in `s` (`s.index(c)`). */
  function FirstIndex(s: string, c: char): (i: nat)
    requires c in s
    ensures i < |s| && s[i] == c && c !in s[..i]
  {
    if s[0] == c then 0 else 1 + FirstIndex(s[1..], c)
  }

  /** The header map of `resp` after `response[name] = value`, every other
      part of the response left as it was. */
  function SetHeader(resp: Response, name: string, value: string): Response
  {
    resp.(headers := resp.headers[name := value])
  }

  /** `response.set_cookie(name, cookie)` */
  function SetCookie(resp: Response, name: string, cookie: Cookie): Response
  {
    resp.(cookies := resp.cookies[name := cookie])
  }

  /** `after` is `before` with each header of `values` set to its value
      (overwriting what was there) and nothing else changed: the effect of a
      run of `response[name] = value` statements. */
  predicate HeadersAssigned(before: Response, after: Response, values: map<string, string>)
  {
    after == before.(headers := after.headers)
    && after.headers.Keys == before.headers.Keys + values.Keys
    && (forall k :: k in values ==> after.headers[k] == values[k])
    && (forall k :: k in before.headers && k !in values ==> after.headers[k] == before.headers[k])
  }

  /** The assignments determine the result: it is the old header map merged
      with `values`, the values of `values` winning. */
  lemma HeadersAssignedIsMerge(before: Response, after: Response, values: map<string, string>)
    requires HeadersAssigned(before, after, values)
    ensures after == before.(headers := before.headers + values)
  {
    assert after.headers == before.headers + values;
  }

  /** Repeating the same assignments changes nothing more. */
  lemma HeadersAssignedIdempotent(before: Response, once: Response, twice: Response, values: map<string, string>)
    requires HeadersAssigned(before, once, values)
    requires HeadersAssigned(once, twice, values)
    ensures twice == once
  {
    HeadersAssignedIsMerge(before, once, values);
    HeadersAssignedIsMerge(once, twice, values);
    assert once.headers + values == once.headers;
  }
}
