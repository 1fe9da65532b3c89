/** Custom error pages: once the handler has answered, a 404 becomes a
    redirect (302) to `/404/` and a 500 a redirect to `/500/`; any other
    response, other 5xx statuses included, is returned as it is. */
module CustomErrorPages {
  import opened Http

  function Handle(response: Response): (r: Response)
    ensures response.status == 404 ==> r == Redirect("/404/", false)
    ensures response.status == 500 ==> r == Redirect("/500/", false)
    ensures response.status != 404 && response.status != 500 ==> r == response
    ensures r.status != 404 && r.status != 500
  {
    if response.status == 404 then Redirect("/404/", false)
    else if response.status == 500 then Redirect("/500/", false)
    else response
  }

  /** The middleware: the handler is called once, first, and its response
      passed through `Handle`. */
  function Call(request: Request, next: Request -> Response): (r: Response)
    ensures r.status != 404 && r.status != 500
    ensures next(request).status != 404 && next(request).status != 500 ==> r == next(request)
  {
    Handle(next(request))
  }

  /** Passing a response through twice is the same as once. */
  lemma HandleIdempotent(response: Response)
    ensures Handle(Handle(response)) == Handle(response)
  {
  }
}
