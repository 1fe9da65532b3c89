/** Two search-engine and compatibility headers on every response: robots may
    index the page and follow its links, and old Internet Explorer renders it
    in its newest mode. */
module SEOOptimization {
  import opened Http

  const RobotsTag: string := "index, follow"
  const UACompatible: string := "IE=edge"

  method Call(request: Request, next: Request -> Response) returns (response: Response)
    ensures HeadersAssigned(next(request), response, map["X-Robots-Tag" := RobotsTag, "X-UA-Compatible" := UACompatible])
    ensures response.headers["X-Robots-Tag"] == "index, follow" && response.headers["X-UA-Compatible"] == "IE=edge"
  {
    response := next(request);
    response := response.(headers := response.headers["X-Robots-Tag" := "index, follow"]);
    response := response.(headers := response.headers["X-UA-Compatible" := "IE=edge"]);
  }
}
