/** Removal of one request header: the literal META key `X-Powered-By` is
    deleted when present. The match is on that exact key, so CGI-style
    `HTTP_X_POWERED_BY` stays. The request always goes on. */
module HeaderRemoval {
  import opened Http

  const HeaderKey: string := "X-Powered-By"

  method Call(request: Request) returns (step: Step)
    ensures step.Forward?
    ensures step.request == request.(meta := step.request.meta)
    ensures step.request.meta.Keys == request.meta.Keys - {HeaderKey}
    ensures forall k :: k in step.request.meta ==> step.request.meta[k] == request.meta[k]
  {
    var req := request;
    if HeaderKey in req.meta {
      req := req.(meta := req.meta - {HeaderKey});
    }
    step := Forward(req);
  }

  /** The header is gone after one pass, so a second pass forwards the
      request it is given unchanged. */
  method RemovalIdempotent(request: Request) returns (once: Request, twice: Request)
    ensures HeaderKey !in once.meta
    ensures twice == once
  {
    var first := Call(request);
    once := first.request;
    var second := Call(once);
    twice := second.request;
  }
}
