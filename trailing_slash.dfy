/** Trailing-slash normalisation: a path that does not end in `/` and is not
    under `/admin/` is answered with a permanent redirect to the same path with
    a `/` appended; every other request goes on. */
module TrailingSlash {
  import opened Http

  const AdminPrefix: string := "/admin/"

  predicate NeedsSlash(path: string)
  {
    !EndsWith(path, "/") && !StartsWith(path, AdminPrefix)
  }

  /** The redirect target, built from the path alone (the query string is not
      carried over). */
  function Target(path: string): (target: string)
    ensures EndsWith(target, "/")
    ensures path <= target && |target| == |path| + 1
  {
    path + "/"
  }

  function Decide(request: Request): (step: Step)
    ensures NeedsSlash(request.path) ==> step.Reply? && step.response.status == 301
    ensures NeedsSlash(request.path) ==>
      "Location" in step.response.headers && step.response.headers["Location"] == Target(request.path)
    ensures !NeedsSlash(request.path) ==> step == Forward(request)
  {
    if !EndsWith(request.path, "/") && !StartsWith(request.path, AdminPrefix) then
      Reply(Redirect(Target(request.path), true))
    else
      Forward(request)
  }

  /** A path ending in `/` is forwarded, and so is any path under `/admin/`,
      with or without the slash. */
  lemma ForwardedPaths(request: Request)
    requires EndsWith(request.path, "/") || StartsWith(request.path, AdminPrefix)
    ensures Decide(request) == Forward(request)
  {
  }

  /** Following the redirect leads to a request that is forwarded: no loops. */
  lemma NoRedirectLoop(request: Request)
    requires Decide(request).Reply?
    ensures Decide(request.(path := Target(request.path))) == Forward(request.(path := Target(request.path)))
  {
  }
}
