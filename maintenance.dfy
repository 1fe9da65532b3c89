/** Maintenance mode: while the flag is on, every request is answered 503
    with a fixed message and never reaches the handler; with it off, every
    request goes on. The flag is switched on when the middleware is built. */
module MaintenanceMode {
  import opened Http

  const MaintenanceOn: bool := true

  const Message: string := "The site is under maintenance. Please try again later."

  const Unavailable: Response := TextResponse(Message, 503, DefaultContentType)

  function Decide(maintenanceMode: bool, request: Request): (step: Step)
    ensures maintenanceMode ==> step == Reply(Unavailable)
    ensures !maintenanceMode ==> step == Forward(request)
  {
    if maintenanceMode then Reply(Unavailable) else Forward(request)
  }

  /** With the flag as constructed, the outcome is the same 503 for any two
      requests and the handler is not consulted. */
  lemma IndependentOfRequest(r1: Request, r2: Request, n1: Request -> Response, n2: Request -> Response)
    ensures Run(Decide(MaintenanceOn, r1), n1) == Run(Decide(MaintenanceOn, r2), n2)
    ensures Run(Decide(MaintenanceOn, r1), n1).status == 503
  {
  }
}
