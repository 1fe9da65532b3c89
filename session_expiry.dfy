/** Inactivity expiry of sessions: an authenticated user whose last recorded
    activity lies more than the session age in the past is logged out; every
    authenticated request then records the current time as its last activity.
    The request always goes on to the next handler. */
module UserSessionExpiry {
  import opened Http

  const LastActivity: string := "last_activity"

  /** The framework's `logout(request)`: the session is flushed and the user
      becomes anonymous. */
  function Logout(request: Request): (r: Request)
    ensures !r.authenticated && r.session == map[]
    ensures r.(authenticated := request.authenticated, session := request.session) == request
  {
    request.(authenticated := false, session := map[])
  }

  /** The session has expired when strictly more than `timeout` seconds have
      passed since the recorded activity; a missing record never expires. */
  function Expired(session: map<string, int>, now: int, timeout: int): (expired: bool)
    ensures LastActivity !in session ==> !expired
    ensures LastActivity in session ==> (expired <==> session[LastActivity] + timeout < now)
  {
    LastActivity in session && now - session[LastActivity] > timeout
  }

  class UserSessionExpiryMiddleware {
    /** `settings.SESSION_COOKIE_AGE`, read at construction. */
    const sessionTimeout: int

    constructor (sessionCookieAge: int)
      ensures sessionTimeout == sessionCookieAge
    {
      sessionTimeout := sessionCookieAge;
    }

    /** Returns the request as handed to the next handler, whether a logout
        happened, and the handler's response. */
    method Call(request: Request, now: int, next: Request -> Response)
      returns (forwarded: Request, loggedOut: bool, response: Response)
      ensures response == next(forwarded)
      ensures loggedOut <==> request.authenticated && Expired(request.session, now, sessionTimeout)
      ensures !request.authenticated ==> forwarded == request
      ensures request.authenticated ==> LastActivity in forwarded.session && forwarded.session[LastActivity] == now
      ensures request.authenticated && !loggedOut ==> forwarded == request.(session := request.session[LastActivity := now])
      ensures loggedOut ==> forwarded == request.(authenticated := false, session := map[LastActivity := now])
    {
      forwarded := request;
      loggedOut := false;
      if forwarded.authenticated {
        if LastActivity in forwarded.session {
          var lastActivity := forwarded.session[LastActivity];
          if now - lastActivity > sessionTimeout {
            forwarded := Logout(forwarded);
            loggedOut := true;
          }
        }
        forwarded := forwarded.(session := forwarded.session[LastActivity := now]);
      }
      response := next(forwarded);
    }
  }

  /** An elapsed time exactly equal to the timeout is not yet an expiry. */
  lemma BoundaryIsNotExpired(session: map<string, int>, now: int, timeout: int)
    requires LastActivity in session && now - session[LastActivity] == timeout
    ensures !Expired(session, now, timeout)
  {
  }
}
