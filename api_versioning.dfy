/** API versioning: the request's `version` attribute is set from the
    `HTTP_API_VERSION` header, verbatim, or to `v1` when the header is absent.
    The request always goes on and the handler's response is returned as it is. */
module APIVersioning {
  import opened Http

  const HeaderKey: string := "HTTP_API_VERSION"
  const DefaultVersion: string := "v1"

  method Call(request: Request, next: Request -> Response) returns (forwarded: Request, response: Response)
    ensures HeaderKey in request.meta ==> forwarded.version == Some(request.meta[HeaderKey])
    ensures HeaderKey !in request.meta ==> forwarded.version == Some(DefaultVersion)
    ensures forwarded == request.(version := forwarded.version)
    ensures response == next(forwarded)
  {
    var version := if HeaderKey in request.meta then request.meta[HeaderKey] else DefaultVersion;
    forwarded := request.(version := Some(version));
    response := next(forwarded);
  }
}
