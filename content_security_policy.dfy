/** The Content-Security-Policy header (section 3.1 of W3C Content Security
    Policy Level 3) on every response: the single directive `default-src
    'self'`, overwriting any policy the view set. */
module ContentSecurityPolicy {
  import opened Http

  const Policy: string := "default-src 'self';"

  method Call(request: Request, next: Request -> Response) returns (response: Response)
    ensures HeadersAssigned(next(request), response, map["Content-Security-Policy" := Policy])
    ensures response.headers["Content-Security-Policy"] == "default-src 'self';"
  {
    response := next(request);
    response := response.(headers := response.headers["Content-Security-Policy" := "default-src 'self';"]);
  }
}
