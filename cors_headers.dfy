/** CORS headers on every response: after the handler has answered, its
    response gets the three `Access-Control-Allow-*` headers of the CORS
    protocol (section 3.2 of the WHATWG Fetch Standard), overwriting what the
    view may have set. */
module CORSHeaders {
  import opened Http

  const AllowOrigin: string := "*"
  const AllowMethods: string := "GET, POST, PUT, DELETE, OPTIONS"
  const AllowHeaders: string := "Content-Type, Authorization"

  method Call(request: Request, next: Request -> Response) returns (response: Response)
    ensures HeadersAssigned(next(request), response, map[
      "Access-Control-Allow-Origin" := AllowOrigin,
      "Access-Control-Allow-Methods" := AllowMethods,
      "Access-Control-Allow-Headers" := AllowHeaders])
    ensures response.status == next(request).status && response.content == next(request).content
  {
    response := next(request);
    response := response.(headers := response.headers["Access-Control-Allow-Origin" := "*"]);
    response := response.(headers := response.headers["Access-Control-Allow-Methods" := "GET, POST, PUT, DELETE, OPTIONS"]);
    response := response.(headers := response.headers["Access-Control-Allow-Headers" := "Content-Type, Authorization"]);
  }
}
