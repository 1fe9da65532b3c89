/** The IP whitelist: a request is let through only when its REMOTE_ADDR is
    one of the listed addresses, compared as whole strings; every other
    request, and one without an address, is answered 403 Forbidden. */
module IPWhitelist {
  import opened Http

  const AllowedIps: seq<string> := ["127.0.0.1", "192.168.1.1"]

  const Forbidden: Response := TextResponse("Forbidden", 403, DefaultContentType)

  function Decide(request: Request): (step: Step)
    ensures step.Forward? <==> "REMOTE_ADDR" in request.meta && request.meta["REMOTE_ADDR"] in AllowedIps
    ensures step.Forward? ==> step.request == request
    ensures step.Reply? ==> step.response.status == 403 && step.response.content == Text("Forbidden")
  {
    var ip := Get(request.meta, "REMOTE_ADDR");
    if ip.None? || ip.value !in AllowedIps then Reply(Forbidden)
    else Forward(request)
  }

  /** Only the two listed addresses pass: no prefix, no range. */
  lemma ExactAddresses(request: Request)
    ensures Decide(request).Forward? <==>
      Get(request.meta, "REMOTE_ADDR") == Some("127.0.0.1") || Get(request.meta, "REMOTE_ADDR") == Some("192.168.1.1")
  {
  }

  /** A whitelisted request gets the handler's own response. */
  lemma AllowedGetsHandlerResponse(request: Request, next: Request -> Response)
    requires Get(request.meta, "REMOTE_ADDR") == Some("127.0.0.1")
    ensures Run(Decide(request), next) == next(request)
  {
  }

  /** An address that only extends a listed one is refused. */
  lemma LongerAddressRefused(request: Request)
    requires Get(request.meta, "REMOTE_ADDR") == Some("127.0.0.10")
    ensures Decide(request) == Reply(Forbidden)
  {
  }
}
