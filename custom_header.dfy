/** A fixed custom header on every response. */
module CustomHeader {
  import opened Http

  const HeaderName: string := "X-Custom-Header"
  const HeaderValue: string := "MyValue"

  method Call(request: Request, next: Request -> Response) returns (response: Response)
    ensures HeadersAssigned(next(request), response, map[HeaderName := HeaderValue])
    ensures response.headers["X-Custom-Header"] == "MyValue"
  {
    response := next(request);
    response := response.(headers := response.headers["X-Custom-Header" := "MyValue"]);
  }
}
