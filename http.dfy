/** What the router needs from `net/http`: handlers as opaque ids, the
    request methods, the status codes it writes, and what serving a request
    ends in. */
module Http {

  import opened Wrappers
  import opened Paths

  /** An `http.Handler` registered by the application; the router only
      stores and invokes handlers, so an id stands for each. */
  type HandlerId = nat

  /** `ErrorHandlers`: the optional handlers for unmatched paths and for
      unbound methods (a nil `http.Handler` is `None`). */
  datatype ErrorHandlers = ErrorHandlers(notFound: Option<HandlerId>, methodNotAllowed: Option<HandlerId>)

  /** The zero value, which `New` leaves in place. */
  const NoErrorHandlers := ErrorHandlers(None, None)

  const MethodGet := "GET"
  const MethodHead := "HEAD"
  const MethodPost := "POST"
  const MethodPut := "PUT"
  const MethodPatch := "PATCH"
  const MethodDelete := "DELETE"
  const MethodConnect := "CONNECT"
  const MethodOptions := "OPTIONS"
  const MethodTrace := "TRACE"

  /** 308 Permanent Redirect, section 15.4.9 of RFC 9110. */
  const StatusPermanentRedirect := 308
  /** 307 Temporary Redirect, section 15.4.8 of RFC 9110. */
  const StatusTemporaryRedirect := 307
  /** 404 Not Found, section 15.5.5 of RFC 9110, written by `http.NotFound`. */
  const StatusNotFound := 404

  /** The status `redirect` chooses: permanent for GET and HEAD, which keeps
      them cacheable, temporary (and method-preserving) for anything else. */
  function RedirectStatus(requestMethod: string): (code: int)
    ensures code == StatusPermanentRedirect <==> (requestMethod == MethodGet || requestMethod == MethodHead)
    ensures code == StatusTemporaryRedirect <==> !(requestMethod == MethodGet || requestMethod == MethodHead)
  {
    if requestMethod != MethodHead && requestMethod != MethodGet then StatusTemporaryRedirect else StatusPermanentRedirect
  }

  /** How serving one request ends. A handler is invoked (with the path
      parameters attached to the request, for a route), or the router answers
      by itself; `Crash` is a run-time panic inside the router. */
  datatype Outcome =
    | Redirect(status: int, location: Path)
    | Handle(handler: HandlerId, params: map<string, string>)
    | MethodNotAllowed(handler: HandlerId)
    | NotFound(handler: HandlerId)
    | DefaultNotFound
    | Crash
  {
    /** The status the router itself writes, when it writes one. This only
        names the status vocabulary; the promises about it are the contracts
        of `Redirection` and `NotFoundFallback` and the `Serves*` lemmas. */
    function RouterStatus(): Option<int>
    {
      match this
      case Redirect(status, _) => Some(status)
      case DefaultNotFound => Some(StatusNotFound)
      case _ => None
    }

    /** Whether an application handler runs. */
    predicate RunsHandler()
    {
      Handle? || MethodNotAllowed? || NotFound?
    }
  }

  /** `redirect(res, req, toPath)`: the target path and the status for the
      request's method. */
  function Redirection(requestMethod: string, toPath: Path): (out: Outcome)
    ensures out.Redirect? && out.location == toPath
    ensures out.RouterStatus() == Some(RedirectStatus(requestMethod))
    ensures !out.RunsHandler()
  {
    Redirect(RedirectStatus(requestMethod), toPath)
  }

  /** The not-found chain: the router's own `Error.NotFound` wins, the
      context's `NotFound` comes next, and only with neither does the router
      write the 404 itself. */
  function NotFoundFallback(own: ErrorHandlers, context: ErrorHandlers): (out: Outcome)
    ensures out.NotFound? || out.DefaultNotFound?
    ensures own.notFound.Some? ==> out == NotFound(own.notFound.value)
    ensures own.notFound.None? && context.notFound.Some? ==> out == NotFound(context.notFound.value)
    ensures out.RunsHandler() <==> (own.notFound.Some? || context.notFound.Some?)
    ensures !out.RunsHandler() ==> out.RouterStatus() == Some(StatusNotFound)
  {
    if own.notFound.Some? then NotFound(own.notFound.value)
    else if context.notFound.Some? then NotFound(context.notFound.value)
    else DefaultNotFound
  }
}
