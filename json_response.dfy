/** Conversion to JSON for the API: when the handler answers 200 on a path
    under `/api/`, its `data` is wrapped in a JSON response; otherwise the
    handler's response is returned as it is. A response without `data` (a
    plain framework response) makes the attribute read fail. */
module JsonResponse {
  import opened Http

  const ApiPrefix: string := "/api/"

  datatype Error = AttributeError

  /** `JsonResponse(data, safe=False)`: status 200, JSON content type, the
      dictionary as body. */
  function Json(data: map<string, string>): Response
  {
    Response(200, map["Content-Type" := "application/json"], map[], JsonOf(data))
  }

  function Handle(path: string, response: Response): (r: Result<Response, Error>)
    ensures response.status != 200 || !StartsWith(path, ApiPrefix) ==> r == Ok(response)
    ensures response.status == 200 && StartsWith(path, ApiPrefix) && response.content.Data? ==>
      r.Ok? && r.value.status == 200 && r.value.content == JsonOf(response.content.data)
      && "Content-Type" in r.value.headers && r.value.headers["Content-Type"] == "application/json"
    ensures response.status == 200 && StartsWith(path, ApiPrefix) && !response.content.Data? ==> r == Err(AttributeError)
  {
    if response.status == 200 && StartsWith(path, ApiPrefix) then
      match response.content
      case Data(d) => Ok(Json(d))
      case _ => Err(AttributeError)
    else Ok(response)
  }

  /** The middleware: the handler is called first, then `Handle` on the
      request's path. */
  function Call(request: Request, next: Request -> Response): (r: Result<Response, Error>)
    ensures var response := next(request);
      && (response.status != 200 || !StartsWith(request.path, ApiPrefix) ==> r == Ok(response))
      && (response.status == 200 && StartsWith(request.path, ApiPrefix) && response.content.Data? ==> r == Ok(Json(response.content.data)))
      && (response.status == 200 && StartsWith(request.path, ApiPrefix) && !response.content.Data? ==> r == Err(AttributeError))
  {
    Handle(request.path, next(request))
  }

  /** `/api` itself is not under the prefix. */
  lemma BareApiUnchanged(response: Response)
    ensures Handle("/api", response) == Ok(response)
  {
  }

  /** The JSON body carries exactly the data the view returned, and the
      wrapping is the only change a successful API response goes through. */
  lemma WrapsData(path: string, data: map<string, string>, headers: map<string, string>, cookies: map<string, Cookie>)
    requires StartsWith(path, ApiPrefix)
    ensures Handle(path, Response(200, headers, cookies, Data(data))) == Ok(Json(data))
    ensures Json(data).content.json == data
  {
  }
}
