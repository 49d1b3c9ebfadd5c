/** The first generation's router (internal/router/router.go) as a value:
    its table of routes and subrouters, and what registering and serving do
    to and with it. The `Router` class in RouterA is proved against these
    definitions. */
module RouterSpecA {

  import opened Wrappers
  import opened Segments
  import opened Paths
  import opened PathA
  import opened Http
  import opened Routes

  /** A value of the `Routes` map: a route or a nested router. */
  datatype EntryV = RouteEntryV(route: RouteV) | SubrouterEntryV(router: RouterV)

  /** The `Routes` map and the `subRouters` list of a router. */
  datatype Table = Table(routes: map<Path, EntryV>, subRouters: seq<Path>)

  datatype RouterV = RouterV(
    prefix: Path,
    table: Table,
    error: ErrorHandlers,
    ctx: Option<ErrorHandlers>)
  {
    /** This router with the entry at `k` set to `e`. */
    function WithEntry(k: Path, e: EntryV): RouterV
    {
      this.(table := Table(table.routes[k := e], table.subRouters))
    }
  }

  /** `New(p)`: an empty router at the normalised prefix. */
  function NewRouterV(p: string): RouterV
  {
    RouterV(NewPath(p), Table(map[], []), NoErrorHandlers, None)
  }

  /** `Context()`: the captured context if there is one, else the router's
      current `Error` handlers. */
  function ContextOf(rv: RouterV): ErrorHandlers
  {
    if rv.ctx.Some? then rv.ctx.value else rv.error
  }

  /** What the router keeps true: every subrouter prefix is the key of a
      subrouter entry, every entry sits at its own path, and every route's
      parameter table is that of its path. */
  ghost predicate WellFormed(rv: RouterV)
  {
    TableWellFormed(rv.table)
  }

  /** `WellFormed` for the table alone; the error handlers play no part. */
  ghost predicate TableWellFormed(t: Table)
    decreases t
  {
    && (forall i | 0 <= i < |t.subRouters| ::
          t.subRouters[i] in t.routes && t.routes[t.subRouters[i]].SubrouterEntryV?)
    && (forall k | k in t.routes ::
          match t.routes[k]
          case RouteEntryV(r) => r.path == k && IsParamsPos(Fields(k), r.paramsPos)
          case SubrouterEntryV(s) => s.prefix == k && TableWellFormed(s.table))
  }

  // ---------------------------------------------------------------------------
  // FindSubrouter
  // ---------------------------------------------------------------------------

  /** Index `i` is the subrouter `FindSubrouter` settles on: a prefix of the
      path longer than the initial "/", no shorter than any later candidate
      and strictly longer than any earlier one. */
  predicate Selects(subRouters: seq<Path>, path: Path, i: int)
  {
    && 0 <= i < |subRouters|
    && HasPrefix(path, subRouters[i])
    && |NewPath("")| < |subRouters[i]|
    && (forall j | 0 <= j < i && HasPrefix(path, subRouters[j]) :: |subRouters[j]| < |subRouters[i]|)
    && (forall j | i < j < |subRouters| && HasPrefix(path, subRouters[j]) :: |subRouters[j]| <= |subRouters[i]|)
  }

  /** At most one index is selected. */
  lemma SelectsUnique(subRouters: seq<Path>, path: Path, i: int, j: int)
    requires Selects(subRouters, path, i) && Selects(subRouters, path, j)
    ensures i == j
  {
  }

  /** `FindSubrouter(path)`: the selected subrouter prefix, or "/" and false. */
  ghost function FindSub(subRouters: seq<Path>, path: Path): (Path, bool)
  {
    if exists i :: Selects(subRouters, path, i) then
      var i :| Selects(subRouters, path, i);
      (subRouters[i], true)
    else (NewPath(""), false)
  }

  /** The longest matching prefix wins and, among equally long ones, the
      earliest; a prefix of one character, that is a subrouter at "/", is never
      selected; without a selection the result is "/". */
  lemma FindSubCases(subRouters: seq<Path>, path: Path)
    ensures var (found, ok) := FindSub(subRouters, path);
            && (ok ==> exists i :: Selects(subRouters, path, i) && subRouters[i] == found)
            && (ok ==> found in subRouters && HasPrefix(path, found) && |found| > 1)
            && (ok ==> forall j | 0 <= j < |subRouters| && HasPrefix(path, subRouters[j]) :: |subRouters[j]| <= |found|)
            && (!ok ==> found == "/")
            && (!ok ==> forall j | 0 <= j < |subRouters| && HasPrefix(path, subRouters[j]) :: |subRouters[j]| <= 1)
  {
    assert NewPath("") == "/";
    var (found, ok) := FindSub(subRouters, path);
    if ok {
      var i :| Selects(subRouters, path, i) && subRouters[i] == found;
      forall j | 0 <= j < |subRouters| && HasPrefix(path, subRouters[j])
        ensures |subRouters[j]| <= |found|
      {
      }
    } else {
      forall j | 0 <= j < |subRouters| && HasPrefix(path, subRouters[j])
        ensures |subRouters[j]| <= 1
      {
        if |subRouters[j]| > 1 {
          LongestExists(subRouters, path, j);
        }
      }
    }
  }

  /** A prefix longer than "/" among the candidates means some index is
      selected. */
  lemma LongestExists(subRouters: seq<Path>, path: Path, j: int)
    requires 0 <= j < |subRouters| && HasPrefix(path, subRouters[j]) && |subRouters[j]| > 1
    ensures exists i :: Selects(subRouters, path, i)
  {
    assert NewPath("") == "/";
    // the loop of `FindSubrouter`, with the index of the current choice
    var best := -1;
    for k := 0 to |subRouters|
      invariant best == -1 ==> forall m | 0 <= m < k && HasPrefix(path, subRouters[m]) :: |subRouters[m]| <= 1
      invariant best != -1 ==> 0 <= best < k && HasPrefix(path, subRouters[best]) && |subRouters[best]| > 1
      invariant best != -1 ==> forall m | 0 <= m < best && HasPrefix(path, subRouters[m]) :: |subRouters[m]| < |subRouters[best]|
      invariant best != -1 ==> forall m | best < m < k && HasPrefix(path, subRouters[m]) :: |subRouters[m]| <= |subRouters[best]|
    {
      var current := if best == -1 then 1 else |subRouters[best]|;
      if current < |subRouters[k]| && HasPrefix(path, subRouters[k]) {
        best := k;
      }
    }
    assert best != -1;
    assert Selects(subRouters, path, best);
  }

  // ---------------------------------------------------------------------------
  // Registration
  // ---------------------------------------------------------------------------

  /** `Use(p, methods, h)`. The path is joined onto the prefix; if a
      subrouter covers the joined path, the ORIGINAL `p` is forwarded to it
      (and joined again onto the subrouter's prefix there). Otherwise the
      route at the joined path is found or created, inserted, and the methods
      are bound on it. `false` is a panic of the source: a repeated
      parameter name, a method already bound (the route and the bindings
      made before the failure stay), or a subrouter entry where a route was
      expected. */
  ghost function UseV(rv: RouterV, p: string, methods: seq<string>, h: HandlerId): (RouterV, bool)
    decreases rv
  {
    var routePath := Join(rv.prefix, [p]);
    var (found, delegated) := FindSub(rv.table.subRouters, routePath);
    if delegated then
      if found in rv.table.routes && rv.table.routes[found].SubrouterEntryV? then
        var (sub, ok) := UseV(rv.table.routes[found].router, p, methods, h);
        (rv.WithEntry(found, SubrouterEntryV(sub)), ok)
      else (rv, false)
    else if routePath in rv.table.routes then
      match rv.table.routes[routePath]
      case SubrouterEntryV(_) => (rv, false)
      case RouteEntryV(route) =>
        var (handlers, ok) := Bind(route.handlers, methods, h);
        (rv.WithEntry(routePath, RouteEntryV(route.(handlers := handlers))), ok)
    else if !DistinctParams(Fields(routePath)) then (rv, false)
    else
      var route := RouteV(routePath, ParamsPosOf(Fields(routePath)), map[], ContextOf(rv));
      var (handlers, ok) := Bind(route.handlers, methods, h);
      (rv.WithEntry(routePath, RouteEntryV(route.(handlers := handlers))), ok)
  }

  /** `NewSubrouter(p)`: delegated like `Use` when a subrouter covers the
      joined prefix; otherwise it fails on an existing entry at the prefix
      and else records a fresh router there, which captures this router's
      `Context()`. The second component is the router handed back to the
      caller, `None` for the panic. */
  ghost function NewSubrouterV(rv: RouterV, p: string): (RouterV, Option<RouterV>)
    decreases rv
  {
    var prefix := Join(rv.prefix, [p]);
    var (found, delegated) := FindSub(rv.table.subRouters, prefix);
    if delegated then
      if found in rv.table.routes && rv.table.routes[found].SubrouterEntryV? then
        var (sub, created) := NewSubrouterV(rv.table.routes[found].router, p);
        (rv.WithEntry(found, SubrouterEntryV(sub)), created)
      else (rv, None)
    else if prefix in rv.table.routes then (rv, None)
    else
      var sub := NewRouterV(prefix).(ctx := Some(ContextOf(rv)));
      (rv.(table := Table(rv.table.routes[sub.prefix := SubrouterEntryV(sub)], rv.table.subRouters + [prefix])), Some(sub))
  }

  // ---------------------------------------------------------------------------
  // Dispatch
  // ---------------------------------------------------------------------------

  /** `ServeHTTP` for a request with method `requestMethod` and URL path
      `raw` may end in `out`. A path that is not normalised is redirected; a
      selected subrouter gets the request; otherwise SOME entry whose key
      matches serves it (Go visits the map in no fixed order), and without
      one the not-found chain answers. */
  ghost predicate Serves(rv: RouterV, requestMethod: string, raw: string, out: Outcome)
    decreases rv
  {
    var reqPath := NewPath(raw);
    if raw != reqPath then out == Redirection(requestMethod, reqPath)
    else
      var (found, delegated) := FindSub(rv.table.subRouters, reqPath);
      if delegated then
        if found in rv.table.routes then
          match rv.table.routes[found]
          case RouteEntryV(r) => out == RouteOutcome(r, requestMethod, raw)
          case SubrouterEntryV(s) => Serves(s, requestMethod, raw, out)
        else out == Crash
      else if exists k | k in rv.table.routes :: Match(k, reqPath) then
        exists k | k in rv.table.routes && Match(k, reqPath) ::
          match rv.table.routes[k]
          case RouteEntryV(r) => out == RouteOutcome(r, requestMethod, raw)
          case SubrouterEntryV(s) => Serves(s, requestMethod, raw, out)
      else out == NotFoundFallback(rv.error, ContextOf(rv))
  }

  /** Some route of the tree binds `requestMethod` to `h`. */
  ghost predicate BoundSomewhere(rv: RouterV, requestMethod: string, h: HandlerId)
    decreases rv
  {
    exists k | k in rv.table.routes ::
      match rv.table.routes[k]
      case RouteEntryV(r) => requestMethod in r.handlers && r.handlers[requestMethod] == h
      case SubrouterEntryV(s) => BoundSomewhere(s, requestMethod, h)
  }

  /** Replacing one entry by one of the same kind that is well formed at
      that key keeps the router well formed. */
  lemma WellFormedReplace(t: Table, k: Path, e: EntryV)
    requires TableWellFormed(t) && k in t.routes
    requires t.routes[k].SubrouterEntryV? <==> e.SubrouterEntryV?
    requires e.RouteEntryV? ==> e.route.path == k && IsParamsPos(Fields(k), e.route.paramsPos)
    requires e.SubrouterEntryV? ==> e.router.prefix == k && WellFormed(e.router)
    ensures TableWellFormed(Table(t.routes[k := e], t.subRouters))
  {
  }

  /** Filing a well-formed router at its own prefix, where there was no
      entry, and listing that prefix keeps the router well formed. */
  lemma WellFormedAddSubrouter(t: Table, s: RouterV)
    requires TableWellFormed(t) && s.prefix !in t.routes && WellFormed(s)
    ensures TableWellFormed(Table(t.routes[s.prefix := SubrouterEntryV(s)], t.subRouters + [s.prefix]))
  {
    var t' := Table(t.routes[s.prefix := SubrouterEntryV(s)], t.subRouters + [s.prefix]);
    forall i | 0 <= i < |t'.subRouters|
      ensures t'.subRouters[i] in t'.routes && t'.routes[t'.subRouters[i]].SubrouterEntryV?
    {
      if i < |t.subRouters| {
        assert t'.subRouters[i] == t.subRouters[i];
      }
    }
  }

  /** Filing a route at its own path, where there was no entry, keeps the
      router well formed. */
  lemma WellFormedAddRoute(t: Table, r: RouteV)
    requires TableWellFormed(t) && r.path !in t.routes
    requires IsParamsPos(Fields(r.path), r.paramsPos)
    ensures TableWellFormed(Table(t.routes[r.path := RouteEntryV(r)], t.subRouters))
  {
  }

  // ---------------------------------------------------------------------------
  // Lemmas: registration
  // ---------------------------------------------------------------------------

  /** `Use` keeps the router well formed and changes nothing but its table,
      where it only adds or updates entries. */
  lemma {:induction false} UsePreservesWellFormed(rv: RouterV, p: string, methods: seq<string>, h: HandlerId)
    requires WellFormed(rv)
    ensures var rv' := UseV(rv, p, methods, h).0;
            && WellFormed(rv')
            && rv'.prefix == rv.prefix && rv'.table.subRouters == rv.table.subRouters
            && rv'.error == rv.error && rv'.ctx == rv.ctx
            && rv.table.routes.Keys <= rv'.table.routes.Keys
    decreases rv
  {
    var routePath := Join(rv.prefix, [p]);
    var (found, delegated) := FindSub(rv.table.subRouters, routePath);
    var rv' := UseV(rv, p, methods, h).0;
    if delegated {
      FindSubCases(rv.table.subRouters, routePath);
      var sub := rv.table.routes[found].router;
      UsePreservesWellFormed(sub, p, methods, h);
      assert rv' == rv.WithEntry(found, SubrouterEntryV(UseV(sub, p, methods, h).0));
    } else if routePath in rv.table.routes {
      if rv.table.routes[routePath].RouteEntryV? {
        assert rv.table.routes[routePath].route.path == routePath;
      }
    } else if DistinctParams(Fields(routePath)) {
      assert rv'.table.routes[routePath].route.paramsPos == ParamsPosOf(Fields(routePath));
    }
  }

  /** Without delegation, `Use` succeeds exactly when the joined path holds a
      route (or none yet, and its parameter names are distinct) and no listed
      method is bound on it or listed twice; then that route binds every
      listed method to `h`, keeps its other bindings, and no other entry
      changes. A route it finds or creates stays, even where a duplicate
      method makes it fail: a new one carries the positions of its path and
      this router's context, with the bindings made before the failure. */
  lemma UseBindsRoute(rv: RouterV, p: string, methods: seq<string>, h: HandlerId)
    requires WellFormed(rv)
    requires !FindSub(rv.table.subRouters, Join(rv.prefix, [p])).1
    ensures var routePath := Join(rv.prefix, [p]);
            var (rv', ok) := UseV(rv, p, methods, h);
            var before := if routePath in rv.table.routes && rv.table.routes[routePath].RouteEntryV?
                          then rv.table.routes[routePath].route.handlers else map[];
            && (ok <==>
                 (&& (routePath in rv.table.routes ==> rv.table.routes[routePath].RouteEntryV?)
                  && (routePath !in rv.table.routes ==> DistinctParams(Fields(routePath)))
                  && Bindable(before, methods)))
            && (ok ==> && rv'.table.routes.Keys == rv.table.routes.Keys + {routePath}
                       && rv'.table.routes[routePath].RouteEntryV?
                       && rv'.table.routes[routePath].route.path == routePath
                       && IsParamsPos(Fields(routePath), rv'.table.routes[routePath].route.paramsPos)
                       && rv'.table.routes[routePath].route.handlers == BindAll(before, methods, h))
            && (routePath in rv.table.routes && rv.table.routes[routePath].RouteEntryV? ==>
                  rv'.table.routes[routePath] == RouteEntryV(rv.table.routes[routePath].route.(handlers := Bind(before, methods, h).0)))
            && (routePath !in rv.table.routes && DistinctParams(Fields(routePath)) ==>
                  && rv'.table.routes.Keys == rv.table.routes.Keys + {routePath}
                  && rv'.table.routes[routePath] ==
                       RouteEntryV(RouteV(routePath, ParamsPosOf(Fields(routePath)), Bind(map[], methods, h).0, ContextOf(rv))))
            && (routePath in rv.table.routes && rv.table.routes[routePath].SubrouterEntryV? ==> rv' == rv)
            && (routePath !in rv.table.routes && !DistinctParams(Fields(routePath)) ==> rv' == rv)
            && (forall k | k in rv.table.routes && k != routePath :: rv'.table.routes[k] == rv.table.routes[k])
  {
    var routePath := Join(rv.prefix, [p]);
    if routePath in rv.table.routes && rv.table.routes[routePath].RouteEntryV? {
      BindSucceeds(rv.table.routes[routePath].route.handlers, methods, h);
    } else if routePath !in rv.table.routes && DistinctParams(Fields(routePath)) {
      BindSucceeds(map[], methods, h);
    }
  }

  /** A covering subrouter receives the caller's relative path `p`, not the
      joined one. Only that subrouter's entry changes, so no route appears
      at the joined path in this router; where the subrouter keeps the route
      itself, it files it under its own prefix joined with `p` again. */
  lemma UseForwardsRelativePath(rv: RouterV, p: string, methods: seq<string>, h: HandlerId)
    requires WellFormed(rv)
    requires FindSub(rv.table.subRouters, Join(rv.prefix, [p])).1
    ensures var found := FindSub(rv.table.subRouters, Join(rv.prefix, [p])).0;
            var (rv', ok) := UseV(rv, p, methods, h);
            && found in rv.table.routes && rv.table.routes[found].SubrouterEntryV?
            && rv'.table.routes.Keys == rv.table.routes.Keys
            && (forall k | k in rv.table.routes && k != found :: rv'.table.routes[k] == rv.table.routes[k])
            && rv'.table.routes[found].SubrouterEntryV?
            && var sub := rv.table.routes[found].router;
               var sub' := rv'.table.routes[found].router;
               && sub'.prefix == found
               && (ok && !FindSub(sub.table.subRouters, Join(found, [p])).1 ==>
                     && Join(found, [p]) in sub'.table.routes
                     && sub'.table.routes[Join(found, [p])].RouteEntryV?
                     && sub'.table.routes[Join(found, [p])].route.path == Join(found, [p]))
  {
    var found := FindSub(rv.table.subRouters, Join(rv.prefix, [p])).0;
    FindSubCases(rv.table.subRouters, Join(rv.prefix, [p]));
    var sub := rv.table.routes[found].router;
    UsePreservesWellFormed(sub, p, methods, h);
    if UseV(rv, p, methods, h).1 && !FindSub(sub.table.subRouters, Join(found, [p])).1 {
      UseBindsRoute(sub, p, methods, h);
    }
  }

  /** `NewSubrouter` keeps the router well formed. */
  lemma {:induction false} NewSubrouterPreservesWellFormed(rv: RouterV, p: string)
    requires WellFormed(rv)
    ensures var rv' := NewSubrouterV(rv, p).0;
            && WellFormed(rv')
            && rv'.prefix == rv.prefix && rv'.error == rv.error && rv'.ctx == rv.ctx
            && rv.table.routes.Keys <= rv'.table.routes.Keys
    decreases rv
  {
    var prefix := Join(rv.prefix, [p]);
    var (found, delegated) := FindSub(rv.table.subRouters, prefix);
    if delegated {
      FindSubCases(rv.table.subRouters, prefix);
      var sub := rv.table.routes[found].router;
      NewSubrouterPreservesWellFormed(sub, p);
      var rv' := NewSubrouterV(rv, p).0;
      assert rv' == rv.WithEntry(found, SubrouterEntryV(NewSubrouterV(sub, p).0));
    } else if prefix !in rv.table.routes {
      JoinNormalised(rv.prefix, [p]);
      var rv' := NewSubrouterV(rv, p).0;
      assert rv'.table.subRouters == rv.table.subRouters + [prefix];
      assert rv'.table.routes == rv.table.routes[prefix := rv'.table.routes[prefix]];
    }
  }

  /** Without delegation, `NewSubrouter` fails exactly when an entry exists
      at the joined prefix. Otherwise it appends the prefix to the subrouter
      list and files there a fresh, empty router with that prefix whose
      context is this router's `Context()` at this moment; nothing else
      changes. */
  lemma NewSubrouterAdds(rv: RouterV, p: string)
    requires !FindSub(rv.table.subRouters, Join(rv.prefix, [p])).1
    ensures var prefix := Join(rv.prefix, [p]);
            var (rv', created) := NewSubrouterV(rv, p);
            && (created.None? <==> prefix in rv.table.routes)
            && (created.None? ==> rv' == rv)
            && (created.Some? ==>
                 && created.value == RouterV(prefix, Table(map[], []), NoErrorHandlers, Some(ContextOf(rv)))
                 && rv' == rv.(table := Table(rv.table.routes[prefix := SubrouterEntryV(created.value)], rv.table.subRouters + [prefix])))
  {
    JoinNormalised(rv.prefix, [p]);
  }

  // ---------------------------------------------------------------------------
  // Lemmas: dispatch
  // ---------------------------------------------------------------------------

  /** A path that is not in normal form is answered with a redirect to its
      normal form (308 for GET and HEAD, 307 otherwise) and runs no handler. */
  lemma ServesRedirect(rv: RouterV, requestMethod: string, raw: string, out: Outcome)
    requires raw != NewPath(raw)
    ensures Serves(rv, requestMethod, raw, out) <==> out == Redirect(RedirectStatus(requestMethod), NewPath(raw))
    ensures Serves(rv, requestMethod, raw, out) ==> !out.RunsHandler()
  {
  }

  /** A normalised path that a subrouter covers is served by that subrouter
      alone; the router's own entries are not scanned. */
  lemma ServesDelegates(rv: RouterV, requestMethod: string, raw: string, out: Outcome)
    requires WellFormed(rv)
    requires raw == NewPath(raw) && FindSub(rv.table.subRouters, raw).1
    ensures var found := FindSub(rv.table.subRouters, raw).0;
            && found in rv.table.routes && rv.table.routes[found].SubrouterEntryV?
            && (Serves(rv, requestMethod, raw, out) <==> Serves(rv.table.routes[found].router, requestMethod, raw, out))
  {
    FindSubCases(rv.table.subRouters, raw);
  }

  /** When no subrouter covers a normalised path and no key matches it, the
      not-found chain answers: the router's own `Error.NotFound`, else that
      of its `Context()` (the captured context, or else the current `Error`
      again), else the default 404. */
  lemma ServesNotFound(rv: RouterV, requestMethod: string, raw: string, out: Outcome)
    requires raw == NewPath(raw) && !FindSub(rv.table.subRouters, raw).1
    requires forall k | k in rv.table.routes :: !Match(k, raw)
    ensures Serves(rv, requestMethod, raw, out) <==>
              out == (if rv.error.notFound.Some? then NotFound(rv.error.notFound.value)
                      else if rv.ctx.Some? && rv.ctx.value.notFound.Some? then NotFound(rv.ctx.value.notFound.value)
                      else DefaultNotFound)
    ensures Serves(rv, requestMethod, raw, out) && rv.error.notFound.None? && !(rv.ctx.Some? && rv.ctx.value.notFound.Some?)
            ==> !out.RunsHandler() && out.RouterStatus() == Some(StatusNotFound)
  {
  }

  /** Any route whose key matches a normalised, uncovered path may serve it,
      with the handler bound to the method and the parameters taken from the
      request's segments at the positions of the route's `:name` segments. */
  lemma ServesMatchingRoute(rv: RouterV, requestMethod: string, raw: string, k: Path)
    requires WellFormed(rv)
    requires raw == NewPath(raw) && !FindSub(rv.table.subRouters, raw).1
    requires k in rv.table.routes && rv.table.routes[k].RouteEntryV? && Match(k, raw)
    requires requestMethod in rv.table.routes[k].route.handlers
    ensures var r := rv.table.routes[k].route;
            && PositionsWithin(r.paramsPos, Fields(raw))
            && Serves(rv, requestMethod, raw, Handle(r.handlers[requestMethod], ParamsAt(r.paramsPos, Fields(raw))))
            && forall n | n in r.paramsPos :: Fields(k)[r.paramsPos[n]] == ":" + n
  {
    var r := rv.table.routes[k].route;
    MatchIff(k, raw);
    ParamsAtMatched(r, raw);
  }

  /** In a well-formed router, serving never panics: a matched key always
      has as many segments as the request, so every parameter position is a
      segment of the request, and a selected subrouter is always filed. */
  lemma {:induction false} ServesNeverCrashes(rv: RouterV, requestMethod: string, raw: string, out: Outcome)
    requires WellFormed(rv)
    requires Serves(rv, requestMethod, raw, out)
    ensures out != Crash
    decreases rv
  {
    var reqPath := NewPath(raw);
    if raw == reqPath {
      var (found, delegated) := FindSub(rv.table.subRouters, reqPath);
      if delegated {
        FindSubCases(rv.table.subRouters, reqPath);
        ServesNeverCrashes(rv.table.routes[found].router, requestMethod, raw, out);
      } else if exists k | k in rv.table.routes :: Match(k, reqPath) {
        var k :| k in rv.table.routes && Match(k, reqPath) &&
          match rv.table.routes[k]
          case RouteEntryV(r) => out == RouteOutcome(r, requestMethod, raw)
          case SubrouterEntryV(s) => Serves(s, requestMethod, raw, out);
        match rv.table.routes[k]
        case RouteEntryV(r) =>
          MatchIff(k, reqPath);
          RouteOutcomeCases(r, requestMethod, raw);
        case SubrouterEntryV(s) =>
          ServesNeverCrashes(s, requestMethod, raw, out);
      }
    }
  }

  /** A handler runs for a request only if the request path is normalised
      and some route of the tree binds the request's method to that very
      handler. */
  lemma {:induction false} ServesHandleBound(rv: RouterV, requestMethod: string, raw: string, out: Outcome)
    requires Serves(rv, requestMethod, raw, out)
    requires out.Handle?
    ensures raw == NewPath(raw)
    ensures BoundSomewhere(rv, requestMethod, out.handler)
    decreases rv
  {
    var reqPath := NewPath(raw);
    var (found, delegated) := FindSub(rv.table.subRouters, reqPath);
    if delegated {
      match rv.table.routes[found]
      case RouteEntryV(r) =>
        assert requestMethod in r.handlers;
      case SubrouterEntryV(s) =>
        ServesHandleBound(s, requestMethod, raw, out);
    } else if exists k | k in rv.table.routes :: Match(k, reqPath) {
      var k :| k in rv.table.routes && Match(k, reqPath) &&
        match rv.table.routes[k]
        case RouteEntryV(r) => out == RouteOutcome(r, requestMethod, raw)
        case SubrouterEntryV(s) => Serves(s, requestMethod, raw, out);
      match rv.table.routes[k]
      case RouteEntryV(r) =>
        assert requestMethod in r.handlers;
      case SubrouterEntryV(s) =>
        ServesHandleBound(s, requestMethod, raw, out);
    }
  }
}
