/** The first generation's router object (internal/router/router.go). It
    owns its nested routers; `Repr` is every router object of its tree, and
    the ghost `table` is the value of its `Routes` map and `subRouters`
    list, so that `Model()` is the value of the tree, which RouterSpecA
    describes. */
module RouterA {

  import opened Wrappers
  import opened Paths
  import opened PathA
  import opened Http
  import opened Routes
  import opened RouterSpecA

  /** A value of the `Routes` map: a route or a nested router. The router
      never hands out a `*Route`, so a route is kept as a value and updated
      by replacing it in the map. */
  datatype Entry = RouteEntry(route: RouteV) | SubrouterEntry(router: Router)

  /** The objects an entry owns. */
  ghost function Footprint(e: Entry): set<object>
    reads if e.SubrouterEntry? then {e.router} else {}
  {
    if e.SubrouterEntry? then e.router.Repr else {}
  }

  /** The value of an entry. */
  ghost function EntryModel(e: Entry): EntryV
    reads if e.SubrouterEntry? then {e.router} else {}
  {
    match e
    case RouteEntry(r) => RouteEntryV(r)
    case SubrouterEntry(s) => SubrouterEntryV(s.Model())
  }

  class Router {
    const prefix: Path
    var routes: map<Path, Entry>
    var subRouters: seq<Path>
    var error: ErrorHandlers
    var ctx: Option<ErrorHandlers>
    ghost var table: Table
    ghost var Repr: set<object>

    /** The nested routers own disjoint parts of `Repr` and are valid, and
        `table` is the value of `routes` and `subRouters`. */
    ghost predicate Valid()
      reads this`routes, this`subRouters, this`table, this`Repr, Repr - {this}
      decreases Repr
    {
      && this in Repr
      && (forall k | k in routes && routes[k].SubrouterEntry? ::
            var s := routes[k].router;
            && s in Repr && s.Repr <= Repr && this !in s.Repr && s in s.Repr && s.Valid())
      && Apart()
      && Mirrored()
      && TableWellFormed(table)
    }

    /** Distinct entries own disjoint parts of `Repr`. */
    ghost predicate Apart()
      reads this`routes, set k | k in routes && routes[k].SubrouterEntry? :: routes[k].router
    {
      forall k, k' | k in routes && k' in routes && k != k' :: Footprint(routes[k]) !! Footprint(routes[k'])
    }

    /** `table` is the value of `routes` and `subRouters`. */
    ghost predicate Mirrored()
      reads this`routes, this`subRouters, this`table, set k | k in routes && routes[k].SubrouterEntry? :: routes[k].router
    {
      && table.subRouters == subRouters
      && table.routes.Keys == routes.Keys
      && (forall k | k in routes :: table.routes[k] == EntryModel(routes[k]))
    }

    /** The value of the tree rooted here. */
    ghost function Model(): RouterV
      reads this
    {
      RouterV(prefix, table, error, ctx)
    }

    /** `New(p)`. */
    constructor (p: string)
      ensures Valid() && fresh(Repr) && Repr == {this}
      ensures Model() == NewRouterV(p)
    {
      prefix := NewPath(p);
      routes := map[];
      subRouters := [];
      error := NoErrorHandlers;
      ctx := None;
      table := Table(map[], []);
      Repr := {this};
    }

    /** `Context()`. */
    function Context(): (c: ErrorHandlers)
      reads this
      ensures c == ContextOf(Model())
    {
      if ctx.Some? then ctx.value else error
    }

    /** An assignment to the exported `Error` field. */
    method SetError(e: ErrorHandlers)
      requires Valid()
      modifies this
      ensures Valid() && Repr == old(Repr)
      ensures Model() == old(Model()).(error := e)
    {
      error := e;
    }

    /** `FindSubrouter`: the loop over `subRouters`, keeping the longest
        prefix of `path` seen so far. */
    method FindSubrouter(path: Path) returns (found: Path, ok: bool)
      ensures (found, ok) == FindSub(subRouters, path)
    {
      found := NewPath("");
      ok := false;
      ghost var best := -1;
      for i := 0 to |subRouters|
        invariant ok <==> best != -1
        invariant !ok ==> found == "/"
        invariant !ok ==> forall m | 0 <= m < i && HasPrefix(path, subRouters[m]) :: |subRouters[m]| <= 1
        invariant ok ==> 0 <= best < i && found == subRouters[best] && HasPrefix(path, found) && |found| > 1
        invariant ok ==> forall m | 0 <= m < best && HasPrefix(path, subRouters[m]) :: |subRouters[m]| < |found|
        invariant ok ==> forall m | best < m < i && HasPrefix(path, subRouters[m]) :: |subRouters[m]| <= |found|
      {
        var candidatePath := subRouters[i];
        if |found| < |candidatePath| {
          if HasPrefix(path, candidatePath) {
            found := candidatePath;
            ok := true;
            best := i;
          }
        }
      }
      if ok {
        assert Selects(subRouters, path, best);
        forall i | Selects(subRouters, path, i)
          ensures i == best
        {
          SelectsUnique(subRouters, path, i, best);
        }
      } else {
        assert forall i :: !Selects(subRouters, path, i);
      }
    }

    /** `ServeHTTP` for a request with the given method and URL path. */
    method ServeHTTP(requestMethod: string, raw: string) returns (out: Outcome)
      requires Valid()
      ensures Serves(Model(), requestMethod, raw, out)
      decreases Repr, 1
    {
      var reqPath := NewPath(raw);
      if raw != reqPath {
        return Redirection(requestMethod, reqPath);
      }
      var path, delegated := FindSubrouter(reqPath);
      if delegated {
        FindSubCases(subRouters, reqPath);
        out := ServeEntry(path, requestMethod, raw);
        return;
      }
      var todo := routes.Keys;
      while todo != {}
        invariant todo <= routes.Keys
        invariant forall k | k in routes.Keys - todo :: !Match(k, reqPath)
        decreases |todo|
      {
        var k :| k in todo;
        if Match(k, reqPath) {
          out := ServeEntry(k, requestMethod, raw);
          return;
        }
        todo := todo - {k};
      }
      out := NotFoundFallback(error, Context());
    }

    /** `route.ServeHTTP(res, req)` on the entry at `k`. */
    method ServeEntry(k: Path, requestMethod: string, raw: string) returns (out: Outcome)
      requires Valid() && k in routes
      ensures table.routes[k].RouteEntryV? ==> out == RouteOutcome(table.routes[k].route, requestMethod, raw)
      ensures table.routes[k].SubrouterEntryV? ==> Serves(table.routes[k].router, requestMethod, raw, out)
      decreases Repr, 0
    {
      match routes[k]
      case RouteEntry(r) =>
        out := RouteOutcome(r, requestMethod, raw);
      case SubrouterEntry(s) =>
        out := s.ServeHTTP(requestMethod, raw);
    }

    /** `Use(p, methods, h)`; `ok` is false where the source panics. */
    method Use(p: string, methods: seq<string>, h: HandlerId) returns (ok: bool)
      requires Valid()
      modifies Repr
      ensures Valid() && Repr == old(Repr)
      ensures (Model(), ok) == UseV(old(Model()), p, methods, h)
      decreases Repr, 1
    {
      var routePath := Join(prefix, [p]);
      var path, delegated := FindSubrouter(routePath);
      if delegated {
        FindSubCases(subRouters, routePath);
        ok := UseOnSubrouter(path, p, methods, h);
        return;
      }
      if routePath in routes {
        if routes[routePath].SubrouterEntry? {
          return false;
        }
        ok := UseOnRoute(routePath, methods, h);
        return;
      }
      ok := UseOnNewRoute(routePath, methods, h);
    }

    // The verb shorthands: `Use` with the one method.

    method Connect(p: string, h: HandlerId) returns (ok: bool)
      requires Valid()
      modifies Repr
      ensures Valid() && Repr == old(Repr)
      ensures (Model(), ok) == UseV(old(Model()), p, [MethodConnect], h)
    {
      ok := Use(p, [MethodConnect], h);
    }

    method Delete(p: string, h: HandlerId) returns (ok: bool)
      requires Valid()
      modifies Repr
      ensures Valid() && Repr == old(Repr)
      ensures (Model(), ok) == UseV(old(Model()), p, [MethodDelete], h)
    {
      ok := Use(p, [MethodDelete], h);
    }

    method Get(p: string, h: HandlerId) returns (ok: bool)
      requires Valid()
      modifies Repr
      ensures Valid() && Repr == old(Repr)
      ensures (Model(), ok) == UseV(old(Model()), p, [MethodGet], h)
    {
      ok := Use(p, [MethodGet], h);
    }

    method Head(p: string, h: HandlerId) returns (ok: bool)
      requires Valid()
      modifies Repr
      ensures Valid() && Repr == old(Repr)
      ensures (Model(), ok) == UseV(old(Model()), p, [MethodHead], h)
    {
      ok := Use(p, [MethodHead], h);
    }

    method Options(p: string, h: HandlerId) returns (ok: bool)
      requires Valid()
      modifies Repr
      ensures Valid() && Repr == old(Repr)
      ensures (Model(), ok) == UseV(old(Model()), p, [MethodOptions], h)
    {
      ok := Use(p, [MethodOptions], h);
    }

    method Patch(p: string, h: HandlerId) returns (ok: bool)
      requires Valid()
      modifies Repr
      ensures Valid() && Repr == old(Repr)
      ensures (Model(), ok) == UseV(old(Model()), p, [MethodPatch], h)
    {
      ok := Use(p, [MethodPatch], h);
    }

    method Post(p: string, h: HandlerId) returns (ok: bool)
      requires Valid()
      modifies Repr
      ensures Valid() && Repr == old(Repr)
      ensures (Model(), ok) == UseV(old(Model()), p, [MethodPost], h)
    {
      ok := Use(p, [MethodPost], h);
    }

    method Put(p: string, h: HandlerId) returns (ok: bool)
      requires Valid()
      modifies Repr
      ensures Valid() && Repr == old(Repr)
      ensures (Model(), ok) == UseV(old(Model()), p, [MethodPut], h)
    {
      ok := Use(p, [MethodPut], h);
    }

    method Trace(p: string, h: HandlerId) returns (ok: bool)
      requires Valid()
      modifies Repr
      ensures Valid() && Repr == old(Repr)
      ensures (Model(), ok) == UseV(old(Model()), p, [MethodTrace], h)
    {
      ok := Use(p, [MethodTrace], h);
    }

    /** Filing the route `r` at its own path `k`, in place of a route or of
        nothing, keeps the router valid. */
    twostate lemma PutRoute(k: Path, new r: RouteV)
      requires old(Valid())
      requires k in old(routes) ==> old(routes[k]).RouteEntry?
      requires r.path == k && IsParamsPos(Fields(k), r.paramsPos)
      requires routes == old(routes)[k := RouteEntry(r)]
      requires table == Table(old(table).routes[k := RouteEntryV(r)], old(table).subRouters)
      requires subRouters == old(subRouters) && Repr == old(Repr)
      requires unchanged(Repr - {this})
      ensures Valid()
    {
      PutRouteApart(k, r);
      PutRouteMirrored(k, r);
      if k in old(routes) {
        WellFormedReplace(old(table), k, RouteEntryV(r));
      } else {
        WellFormedAddRoute(old(table), r);
      }
    }

    /** The part of `PutRoute` about `Apart`. */
    twostate lemma PutRouteApart(k: Path, new r: RouteV)
      requires old(Valid())
      requires k in old(routes) ==> old(routes[k]).RouteEntry?
      requires routes == old(routes)[k := RouteEntry(r)]
      requires unchanged(old(Repr) - {this})
      ensures Apart()
    {
    }

    /** The part of `PutRoute` about `Mirrored`. */
    twostate lemma PutRouteMirrored(k: Path, new r: RouteV)
      requires old(Valid())
      requires routes == old(routes)[k := RouteEntry(r)]
      requires table == Table(old(table).routes[k := RouteEntryV(r)], old(table).subRouters)
      requires subRouters == old(subRouters)
      requires unchanged(old(Repr) - {this})
      ensures Mirrored()
    {
    }

    /** `Use` on the route filed at `routePath`: its methods are bound as
        `Bind` says. */
    method UseOnRoute(routePath: Path, methods: seq<string>, h: HandlerId) returns (ok: bool)
      requires Valid() && routePath in routes && routes[routePath].RouteEntry?
      modifies this`routes, this`table
      ensures Valid()
      ensures var route := old(routes[routePath].route);
              var (handlers, bound) := Bind(route.handlers, methods, h);
              && ok == bound
              && table == Table(old(table).routes[routePath := RouteEntryV(route.(handlers := handlers))], old(table).subRouters)
    {
      var route := routes[routePath].route;
      var (handlers, bound) := Bind(route.handlers, methods, h);
      var updated := route.(handlers := handlers);
      routes, table := routes[routePath := RouteEntry(updated)], Table(table.routes[routePath := RouteEntryV(updated)], table.subRouters);
      PutRoute(routePath, updated);
      ok := bound;
    }

    /** `Use` where nothing is filed at `routePath` yet: `NewRoute` with this
        router's `Context()`, filing the route, then binding its methods. */
    method UseOnNewRoute(routePath: Path, methods: seq<string>, h: HandlerId) returns (ok: bool)
      requires Valid() && routePath !in routes
      modifies this`routes, this`table
      ensures Valid()
      ensures !DistinctParams(Fields(routePath)) ==> !ok && table == old(table)
      ensures DistinctParams(Fields(routePath)) ==>
                var route := RouteV(routePath, ParamsPosOf(Fields(routePath)), map[], ContextOf(old(Model())));
                var (handlers, bound) := Bind(route.handlers, methods, h);
                && ok == bound
                && table == Table(old(table).routes[routePath := RouteEntryV(route.(handlers := handlers))], old(table).subRouters)
    {
      var paramsPos := ExtractParamsPos(routePath);
      if paramsPos.None? {
        return false;
      }
      ParamsPosUnique(Fields(routePath), paramsPos.value, ParamsPosOf(Fields(routePath)));
      var (handlers, bound) := Bind(map[], methods, h);
      var created := RouteV(routePath, paramsPos.value, handlers, Context());
      routes, table := routes[routePath := RouteEntry(created)], Table(table.routes[routePath := RouteEntryV(created)], table.subRouters);
      PutRoute(routePath, created);
      ok := bound;
    }

    /** The delegated case of `Use`: the subrouter at `path` gets `p`. */
    method UseOnSubrouter(path: Path, p: string, methods: seq<string>, h: HandlerId) returns (ok: bool)
      requires Valid() && path in routes && routes[path].SubrouterEntry?
      modifies this`table, Repr - {this}
      ensures Valid()
      ensures var sub := routes[path].router;
              && (sub.Model(), ok) == UseV(old(sub.Model()), p, methods, h)
              && table == Table(old(table).routes[path := SubrouterEntryV(sub.Model())], old(table).subRouters)
      decreases Repr, 0
    {
      var sub := routes[path].router;
      assert sub.Repr <= Repr - {this};
      ok := sub.Use(p, methods, h);
      label called:
      table := Table(table.routes[path := SubrouterEntryV(sub.Model())], table.subRouters);
      KeepsValid@called(sub);
      SubrouterChanged(path);
    }

    /** A nested router that changed within its own part of `Repr` keeps
        this router valid once `table` records its new value. */
    twostate lemma SubrouterChanged(k: Path)
      requires old(Valid())
      requires k in old(routes) && old(routes[k]).SubrouterEntry?
      requires routes == old(routes) && subRouters == old(subRouters)
      requires var s := routes[k].router;
               && s.Valid() && s.Repr == old(s.Repr) && Repr == old(Repr)
               && unchanged(old(Repr) - {this} - old(s.Repr))
               && table == Table(old(table).routes[k := SubrouterEntryV(s.Model())], old(table).subRouters)
      ensures Valid()
    {
      var s := routes[k].router;
      SubrouterChangedApart(k, {});
      SubrouterChangedMirrored(k);
      WellFormedReplace(old(table), k, SubrouterEntryV(s.Model()));
    }

    /** The same where the nested router also took in the fresh router `x`. */
    twostate lemma SubrouterGrew(k: Path, new x: Router)
      requires old(Valid())
      requires k in old(routes) && old(routes[k]).SubrouterEntry?
      requires routes == old(routes) && subRouters == old(subRouters)
      requires var s := routes[k].router;
               && s.Valid() && fresh(x) && s.Repr == old(s.Repr) + {x} && Repr == old(Repr) + {x}
               && unchanged(old(Repr) - {this} - old(s.Repr))
               && table == Table(old(table).routes[k := SubrouterEntryV(s.Model())], old(table).subRouters)
      ensures Valid()
    {
      var s := routes[k].router;
      SubrouterChangedApart(k, {x});
      SubrouterChangedMirrored(k);
      WellFormedReplace(old(table), k, SubrouterEntryV(s.Model()));
    }

    /** A router none of whose objects changed is still valid. */
    static twostate lemma KeepsValid(s: Router)
      requires old(s.Valid())
      requires unchanged(s) && unchanged(old(s.Repr))
      ensures s.Valid()
    {
    }

    /** The part of `SubrouterChanged` and `SubrouterGrew` about `Apart`. */
    twostate lemma SubrouterChangedApart(k: Path, new added: set<object>)
      requires old(Valid())
      requires k in old(routes) && old(routes[k]).SubrouterEntry?
      requires routes == old(routes)
      requires var s := routes[k].router;
               && s.Repr == old(s.Repr) + added && fresh(added)
               && unchanged(old(Repr) - {this} - old(s.Repr))
      ensures Apart()
    {
    }

    /** The part of `SubrouterChanged` and `SubrouterGrew` about `Mirrored`. */
    twostate lemma SubrouterChangedMirrored(k: Path)
      requires old(Valid())
      requires k in old(routes) && old(routes[k]).SubrouterEntry?
      requires routes == old(routes) && subRouters == old(subRouters)
      requires var s := routes[k].router;
               && unchanged(old(Repr) - {this} - old(s.Repr))
               && table == Table(old(table).routes[k := SubrouterEntryV(s.Model())], old(table).subRouters)
      ensures Mirrored()
    {
    }

    /** `NewSubrouter(p)`: the router handed back, or `None` where the
        source panics on a duplicate prefix. */
    method NewSubrouter(p: string) returns (created: Option<Router>)
      requires Valid()
      modifies Repr
      ensures Valid()
      ensures Model() == NewSubrouterV(old(Model()), p).0
      ensures created.Some? <==> NewSubrouterV(old(Model()), p).1.Some?
      ensures created.None? ==> Repr == old(Repr)
      ensures created.Some? ==>
                && fresh(created.value) && Repr == old(Repr) + {created.value} && created.value.Repr == {created.value}
                && created.value.Valid() && created.value.Model() == NewSubrouterV(old(Model()), p).1.value
      decreases Repr, 1
    {
      var prefixPath := Join(prefix, [p]);
      var path, delegated := FindSubrouter(prefixPath);
      if delegated {
        FindSubCases(subRouters, prefixPath);
        created := NewSubrouterOnSubrouter(path, p);
        return;
      }
      if prefixPath in routes {
        return None;
      }
      JoinNormalised(prefix, [p]);
      var subrouter := AddSubrouter(prefixPath);
      return Some(subrouter);
    }

    /** The delegated case of `NewSubrouter`: the subrouter at `path` gets
        `p`. */
    method NewSubrouterOnSubrouter(path: Path, p: string) returns (created: Option<Router>)
      requires Valid() && path in routes && routes[path].SubrouterEntry?
      modifies this`Repr, this`table, Repr - {this}
      ensures Valid()
      ensures var sub := routes[path].router;
              var (after, handedBack) := NewSubrouterV(old(sub.Model()), p);
              && sub.Model() == after
              && table == Table(old(table).routes[path := SubrouterEntryV(after)], old(table).subRouters)
              && (created.Some? <==> handedBack.Some?)
              && (created.None? ==> Repr == old(Repr))
              && (created.Some? ==>
                    && fresh(created.value) && Repr == old(Repr) + {created.value} && created.value.Repr == {created.value}
                    && created.value.Valid() && created.value.Model() == handedBack.value)
      decreases Repr, 0
    {
      var sub := routes[path].router;
      created := sub.NewSubrouter(p);
      if created.None? {
        label called:
        table := Table(table.routes[path := SubrouterEntryV(sub.Model())], table.subRouters);
        KeepsValid@called(sub);
        SubrouterChanged(path);
      } else {
        label called:
        Repr, table := Repr + {created.value}, Table(table.routes[path := SubrouterEntryV(sub.Model())], table.subRouters);
        KeepsValid@called(sub);
        KeepsValid@called(created.value);
        SubrouterGrew(path, created.value);
      }
    }

    /** The direct case of `NewSubrouter`: append the prefix to
        `subRouters`, create the router with this router's `Context()`, and
        file it under its prefix. */
    method AddSubrouter(prefixPath: Path) returns (subrouter: Router)
      requires Valid() && prefixPath !in routes && NewPath(prefixPath) == prefixPath
      modifies this`routes, this`subRouters, this`table, this`Repr
      ensures Valid() && Repr == old(Repr) + {subrouter}
      ensures fresh(subrouter) && subrouter.Repr == {subrouter} && subrouter.Valid()
      ensures subrouter.Model() == NewRouterV(prefixPath).(ctx := Some(ContextOf(old(Model()))))
      ensures table == Table(old(table).routes[prefixPath := SubrouterEntryV(subrouter.Model())], old(table).subRouters + [prefixPath])
    {
      var context := Context();
      subRouters := subRouters + [prefixPath];
      subrouter := new Router(prefixPath);
      subrouter.ctx := Some(context);
      routes := routes[subrouter.prefix := SubrouterEntry(subrouter)];
      Repr, table := Repr + {subrouter}, Table(table.routes[prefixPath := SubrouterEntryV(subrouter.Model())], table.subRouters + [prefixPath]);
      SubrouterAdded(subrouter);
    }

    /** Filing a fresh, valid router under its prefix, where there was no
        entry, and listing the prefix keeps this router valid. */
    twostate lemma SubrouterAdded(new s: Router)
      requires old(Valid())
      requires fresh(s) && s.Valid() && s.Repr == {s}
      requires s.prefix !in old(routes)
      requires routes == old(routes)[s.prefix := SubrouterEntry(s)]
      requires subRouters == old(subRouters) + [s.prefix]
      requires table == Table(old(table).routes[s.prefix := SubrouterEntryV(s.Model())], old(table).subRouters + [s.prefix])
      requires Repr == old(Repr) + {s}
      requires unchanged(old(Repr) - {this})
      ensures Valid()
    {
      SubrouterAddedApart(s);
      SubrouterAddedMirrored(s);
      WellFormedAddSubrouter(old(table), s.Model());
    }

    /** The part of `SubrouterAdded` about `Apart`. */
    twostate lemma SubrouterAddedApart(new s: Router)
      requires old(Valid())
      requires fresh(s) && s.Repr == {s}
      requires s.prefix !in old(routes)
      requires routes == old(routes)[s.prefix := SubrouterEntry(s)]
      requires unchanged(old(Repr) - {this})
      ensures Apart()
    {
    }

    /** The part of `SubrouterAdded` about `Mirrored`. */
    twostate lemma SubrouterAddedMirrored(new s: Router)
      requires old(Valid())
      requires fresh(s)
      requires s.prefix !in old(routes)
      requires routes == old(routes)[s.prefix := SubrouterEntry(s)]
      requires subRouters == old(subRouters) + [s.prefix]
      requires table == Table(old(table).routes[s.prefix := SubrouterEntryV(s.Model())], old(table).subRouters + [s.prefix])
      requires unchanged(old(Repr) - {this})
      ensures Mirrored()
    {
    }
  }
}
