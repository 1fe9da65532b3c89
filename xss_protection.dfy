/** The legacy `X-XSS-Protection` header on every response, asking the
    browser's filter to block a page it judges to be an attack. */
module XSSProtection {
  import opened Http

  const Protection: string := "1; mode=block"

  method Call(request: Request, next: Request -> Response) returns (response: Response)
    ensures HeadersAssigned(next(request), response, map["X-XSS-Protection" := Protection])
    ensures response.headers["X-XSS-Protection"] == "1; mode=block"
  {
    response := next(request);
    response := response.(headers := response.headers["X-XSS-Protection" := "1; mode=block"]);
  }
}
