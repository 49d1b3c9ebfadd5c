/** The second generation's router object (internal/router/mux.go). It
    owns its nested muxes; `Repr` is every mux object of its tree, and the
    ghost `table` is the value of its `Routes` map, so that `Model()` is the
    value of the tree, which MuxSpecB describes. */
module MuxB {

  import opened Wrappers
  import opened Paths
  import opened PathB
  import opened Http
  import opened Routes
  import opened MuxSpecB

  /** A value of the `Routes` map: a route or a nested mux. A route is kept
      as a value and updated by replacing it in the map. */
  datatype Entry = RouteEntry(route: RouteV) | MuxEntry(mux: Mux)

  /** The objects an entry owns. */
  ghost function Footprint(e: Entry): set<object>
    reads if e.MuxEntry? then {e.mux} else {}
  {
    if e.MuxEntry? then e.mux.Repr else {}
  }

  /** The value of an entry. */
  ghost function EntryModel(e: Entry): EntryV
    reads if e.MuxEntry? then {e.mux} else {}
  {
    match e
    case RouteEntry(r) => RouteEntryV(r)
    case MuxEntry(s) => MuxEntryV(s.Model())
  }

  class Mux {
    const prefix: Path
    var routes: map<Path, Entry>
    var error: ErrorHandlers
    var ctx: Option<ErrorHandlers>
    ghost var table: map<Path, EntryV>
    ghost var Repr: set<object>

    /** The nested muxes own disjoint parts of `Repr` and are valid, and
        `table` is the value of `routes`. */
    ghost predicate Valid()
      reads this`routes, this`table, this`Repr, Repr - {this}
      decreases Repr
    {
      && this in Repr
      && (forall k | k in routes && routes[k].MuxEntry? ::
            var s := routes[k].mux;
            && s in Repr && s.Repr <= Repr && this !in s.Repr && s in s.Repr && s.Valid())
      && Apart()
      && Mirrored()
      && RoutesWellFormed(table)
    }

    /** Distinct entries own disjoint parts of `Repr`. */
    ghost predicate Apart()
      reads this`routes, set k | k in routes && routes[k].MuxEntry? :: routes[k].mux
    {
      forall k, k' | k in routes && k' in routes && k != k' :: Footprint(routes[k]) !! Footprint(routes[k'])
    }

    /** `table` is the value of `routes`. */
    ghost predicate Mirrored()
      reads this`routes, this`table, set k | k in routes && routes[k].MuxEntry? :: routes[k].mux
    {
      && table.Keys == routes.Keys
      && (forall k | k in routes :: table[k] == EntryModel(routes[k]))
    }

    /** The value of the tree rooted here. */
    ghost function Model(): MuxV
      reads this
    {
      MuxV(prefix, table, error, ctx)
    }

    /** `New(p)`. */
    constructor (p: string)
      ensures Valid() && fresh(Repr) && Repr == {this}
      ensures Model() == NewMuxV(p)
    {
      prefix := NewPath(p);
      routes := map[];
      error := NoErrorHandlers;
      ctx := None;
      table := map[];
      Repr := {this};
    }

    /** `Context()`. */
    function Context(): (c: ErrorHandlers)
      reads this
      ensures c == ContextOf(Model())
    {
      if ctx.Some? then ctx.value else error
    }

    /** An assignment to the exported `Error` field. */
    method SetError(e: ErrorHandlers)
      requires Valid()
      modifies this
      ensures Valid() && Repr == old(Repr)
      ensures Model() == old(Model()).(error := e)
    {
      error := e;
    }

    /** `NewSubrouter(p)`: the mux handed back, or `None` where the source
        panics on an existing entry at the prefix. */
    method NewSubrouter(p: string) returns (created: Option<Mux>)
      requires Valid()
      modifies this`routes, this`table, this`Repr
      ensures Valid()
      ensures Model() == NewSubrouterV(old(Model()), p).0
      ensures created.Some? <==> NewSubrouterV(old(Model()), p).1.Some?
      ensures created.None? ==> Repr == old(Repr)
      ensures created.Some? ==>
                && fresh(created.value) && Repr == old(Repr) + {created.value} && created.value.Repr == {created.value}
                && created.value.Valid() && created.value.Model() == NewSubrouterV(old(Model()), p).1.value
    {
      var prefixPath := Join(prefix, [p]);
      if prefixPath in routes {
        return None;
      }
      JoinNormalised(prefix, [p]);
      var context := Context();
      var subrouter := new Mux(prefixPath);
      subrouter.ctx := Some(context);
      routes := routes[subrouter.prefix := MuxEntry(subrouter)];
      Repr, table := Repr + {subrouter}, table[prefixPath := MuxEntryV(subrouter.Model())];
      SubrouterAdded(subrouter);
      return Some(subrouter);
    }

    /** Filing a fresh, valid mux under its prefix, where there was no entry,
        keeps this mux valid. */
    twostate lemma SubrouterAdded(new s: Mux)
      requires old(Valid())
      requires fresh(s) && s.Repr == {s} && s.Valid()
      requires s.prefix !in old(routes) && RoutesWellFormed(s.table)
      requires routes == old(routes)[s.prefix := MuxEntry(s)]
      requires table == old(table)[s.prefix := MuxEntryV(s.Model())]
      requires Repr == old(Repr) + {s}
      requires unchanged(old(Repr) - {this})
      ensures Valid()
    {
      SubrouterAddedApart(s);
      SubrouterAddedMirrored(s);
    }

    /** The part of `SubrouterAdded` about `Apart`. */
    twostate lemma SubrouterAddedApart(new s: Mux)
      requires old(Valid())
      requires fresh(s) && s.Repr == {s}
      requires s.prefix !in old(routes)
      requires routes == old(routes)[s.prefix := MuxEntry(s)]
      requires unchanged(old(Repr) - {this})
      ensures Apart()
    {
    }

    /** The part of `SubrouterAdded` about `Mirrored`. */
    twostate lemma SubrouterAddedMirrored(new s: Mux)
      requires old(Valid())
      requires fresh(s)
      requires s.prefix !in old(routes)
      requires routes == old(routes)[s.prefix := MuxEntry(s)]
      requires table == old(table)[s.prefix := MuxEntryV(s.Model())]
      requires unchanged(old(Repr) - {this})
      ensures Mirrored()
    {
    }

    /** `ServeHTTP` for a request with the given method and URL path. */
    method ServeHTTP(requestMethod: string, raw: string) returns (out: Outcome)
      requires Valid()
      ensures Serves(Model(), requestMethod, raw, out)
      decreases Repr, 1
    {
      var reqPath := NewPath(raw);
      if raw != reqPath {
        return Redirection(requestMethod, reqPath);
      }
      var reqPathFields := Fields(reqPath);
      var todo := routes.Keys;
      while todo != {}
        invariant todo <= routes.Keys
        invariant forall k | k in routes.Keys - todo :: !Match(k, reqPathFields)
        decreases |todo|
      {
        var k :| k in todo;
        if Match(k, reqPathFields) {
          out := ServeEntry(k, requestMethod, raw);
          return;
        }
        todo := todo - {k};
      }
      out := NotFoundFallback(error, Context());
    }

    /** `route.ServeHTTP(res, req)` on the entry at `k`. */
    method ServeEntry(k: Path, requestMethod: string, raw: string) returns (out: Outcome)
      requires Valid() && k in routes
      ensures EntryServes(table[k], requestMethod, raw, out)
      decreases Repr, 0
    {
      match routes[k]
      case RouteEntry(r) =>
        out := RouteOutcome(r, requestMethod, raw);
      case MuxEntry(s) =>
        out := s.ServeHTTP(requestMethod, raw);
    }

    /** `Use(p, methods, h)`; `ok` is false where the source panics. */
    method Use(p: string, methods: seq<string>, h: HandlerId) returns (ok: bool)
      requires Valid()
      modifies Repr
      ensures Valid() && Repr == old(Repr)
      ensures (Model(), ok) == UseV(old(Model()), p, methods, h)
      decreases Repr, 1
    {
      var routePath := Join(prefix, [p]);
      if routePath in routes {
        if routes[routePath].MuxEntry? {
          ok := UseOnSubrouter(routePath, methods, h);
          return;
        }
        ok := UseOnRoute(routePath, methods, h);
        return;
      }
      ok := UseOnNewRoute(routePath, methods, h);
    }

    // The verb shorthands: `Use` with the one method.

    method Connect(p: string, h: HandlerId) returns (ok: bool)
      requires Valid()
      modifies Repr
      ensures Valid() && Repr == old(Repr)
      ensures (Model(), ok) == UseV(old(Model()), p, [MethodConnect], h)
    {
      ok := Use(p, [MethodConnect], h);
    }

    method Delete(p: string, h: HandlerId) returns (ok: bool)
      requires Valid()
      modifies Repr
      ensures Valid() && Repr == old(Repr)
      ensures (Model(), ok) == UseV(old(Model()), p, [MethodDelete], h)
    {
      ok := Use(p, [MethodDelete], h);
    }

    method Get(p: string, h: HandlerId) returns (ok: bool)
      requires Valid()
      modifies Repr
      ensures Valid() && Repr == old(Repr)
      ensures (Model(), ok) == UseV(old(Model()), p, [MethodGet], h)
    {
      ok := Use(p, [MethodGet], h);
    }

    method Head(p: string, h: HandlerId) returns (ok: bool)
      requires Valid()
      modifies Repr
      ensures Valid() && Repr == old(Repr)
      ensures (Model(), ok) == UseV(old(Model()), p, [MethodHead], h)
    {
      ok := Use(p, [MethodHead], h);
    }

    method Options(p: string, h: HandlerId) returns (ok: bool)
      requires Valid()
      modifies Repr
      ensures Valid() && Repr == old(Repr)
      ensures (Model(), ok) == UseV(old(Model()), p, [MethodOptions], h)
    {
      ok := Use(p, [MethodOptions], h);
    }

    method Patch(p: string, h: HandlerId) returns (ok: bool)
      requires Valid()
      modifies Repr
      ensures Valid() && Repr == old(Repr)
      ensures (Model(), ok) == UseV(old(Model()), p, [MethodPatch], h)
    {
      ok := Use(p, [MethodPatch], h);
    }

    method Post(p: string, h: HandlerId) returns (ok: bool)
      requires Valid()
      modifies Repr
      ensures Valid() && Repr == old(Repr)
      ensures (Model(), ok) == UseV(old(Model()), p, [MethodPost], h)
    {
      ok := Use(p, [MethodPost], h);
    }

    method Put(p: string, h: HandlerId) returns (ok: bool)
      requires Valid()
      modifies Repr
      ensures Valid() && Repr == old(Repr)
      ensures (Model(), ok) == UseV(old(Model()), p, [MethodPut], h)
    {
      ok := Use(p, [MethodPut], h);
    }

    method Trace(p: string, h: HandlerId) returns (ok: bool)
      requires Valid()
      modifies Repr
      ensures Valid() && Repr == old(Repr)
      ensures (Model(), ok) == UseV(old(Model()), p, [MethodTrace], h)
    {
      ok := Use(p, [MethodTrace], h);
    }

    /** `route.Use` on the route filed at `routePath`: its methods are
        bound as `Bind` says. */
    method UseOnRoute(routePath: Path, methods: seq<string>, h: HandlerId) returns (ok: bool)
      requires Valid() && routePath in routes && routes[routePath].RouteEntry?
      modifies this`routes, this`table
      ensures Valid()
      ensures var route := old(routes[routePath].route);
              var (handlers, bound) := Bind(route.handlers, methods, h);
              && ok == bound
              && table == old(table)[routePath := RouteEntryV(route.(handlers := handlers))]
    {
      var route := routes[routePath].route;
      var (handlers, bound) := Bind(route.handlers, methods, h);
      var updated := route.(handlers := handlers);
      routes, table := routes[routePath := RouteEntry(updated)], table[routePath := RouteEntryV(updated)];
      PutRoute(routePath, updated);
      ok := bound;
    }

    /** `Use` where nothing is filed at `routePath` yet: `NewRoute` with this
        mux's `Context()`, filing the route, then binding its methods. */
    method UseOnNewRoute(routePath: Path, methods: seq<string>, h: HandlerId) returns (ok: bool)
      requires Valid() && routePath !in routes
      modifies this`routes, this`table
      ensures Valid()
      ensures !DistinctParams(Fields(routePath)) ==> !ok && table == old(table)
      ensures DistinctParams(Fields(routePath)) ==>
                var route := RouteV(routePath, ParamsPosOf(Fields(routePath)), map[], ContextOf(old(Model())));
                var (handlers, bound) := Bind(route.handlers, methods, h);
                && ok == bound
                && table == old(table)[routePath := RouteEntryV(route.(handlers := handlers))]
    {
      var paramsPos := ExtractParamsPos(routePath);
      if paramsPos.None? {
        return false;
      }
      ParamsPosUnique(Fields(routePath), paramsPos.value, ParamsPosOf(Fields(routePath)));
      var (handlers, bound) := Bind(map[], methods, h);
      var created := RouteV(routePath, paramsPos.value, handlers, Context());
      routes, table := routes[routePath := RouteEntry(created)], table[routePath := RouteEntryV(created)];
      PutRoute(routePath, created);
      ok := bound;
    }

    /** Filing the route `r` at its own path `k`, in place of a route or of
        nothing, keeps the mux valid. */
    twostate lemma PutRoute(k: Path, new r: RouteV)
      requires old(Valid())
      requires k in old(routes) ==> old(routes[k]).RouteEntry?
      requires r.path == k && IsParamsPos(Fields(k), r.paramsPos)
      requires routes == old(routes)[k := RouteEntry(r)]
      requires table == old(table)[k := RouteEntryV(r)]
      requires Repr == old(Repr)
      requires unchanged(Repr - {this})
      ensures Valid()
    {
      PutRouteApart(k, r);
      PutRouteMirrored(k, r);
    }

    /** The part of `PutRoute` about `Apart`. */
    twostate lemma PutRouteApart(k: Path, new r: RouteV)
      requires old(Valid())
      requires k in old(routes) ==> old(routes[k]).RouteEntry?
      requires routes == old(routes)[k := RouteEntry(r)]
      requires unchanged(old(Repr) - {this})
      ensures Apart()
    {
    }

    /** The part of `PutRoute` about `Mirrored`. */
    twostate lemma PutRouteMirrored(k: Path, new r: RouteV)
      requires old(Valid())
      requires routes == old(routes)[k := RouteEntry(r)]
      requires table == old(table)[k := RouteEntryV(r)]
      requires unchanged(old(Repr) - {this})
      ensures Mirrored()
    {
    }

    /** `route.Use(string(routePath), …)` on the nested mux filed at
        `routePath`: it gets the absolute path. */
    method UseOnSubrouter(routePath: Path, methods: seq<string>, h: HandlerId) returns (ok: bool)
      requires Valid() && routePath in routes && routes[routePath].MuxEntry?
      modifies this`table, Repr - {this}
      ensures Valid()
      ensures var sub := routes[routePath].mux;
              && (sub.Model(), ok) == UseV(old(sub.Model()), routePath, methods, h)
              && table == old(table)[routePath := MuxEntryV(sub.Model())]
      decreases Repr, 0
    {
      var sub := routes[routePath].mux;
      ok := sub.Use(routePath, methods, h);
      label called:
      table := table[routePath := MuxEntryV(sub.Model())];
      KeepsValid@called(sub);
      SubrouterChanged(routePath);
    }

    /** A nested mux that changed within its own part of `Repr` keeps this
        mux valid once `table` records its new value. */
    twostate lemma SubrouterChanged(k: Path)
      requires old(Valid())
      requires k in old(routes) && old(routes[k]).MuxEntry?
      requires routes == old(routes)
      requires var s := routes[k].mux;
               && s.Valid() && s.Repr == old(s.Repr) && Repr == old(Repr)
               && unchanged(old(Repr) - {this} - old(s.Repr))
               && table == old(table)[k := MuxEntryV(s.Model())]
      ensures Valid()
    {
      SubrouterChangedApart(k);
      SubrouterChangedMirrored(k);
    }

    /** A mux none of whose objects changed is still valid. */
    static twostate lemma KeepsValid(s: Mux)
      requires old(s.Valid())
      requires unchanged(s) && unchanged(old(s.Repr))
      ensures s.Valid()
    {
    }

    /** The part of `SubrouterChanged` about `Apart`. */
    twostate lemma SubrouterChangedApart(k: Path)
      requires old(Valid())
      requires k in old(routes) && old(routes[k]).MuxEntry?
      requires routes == old(routes)
      requires var s := routes[k].mux;
               && s.Repr == old(s.Repr)
               && unchanged(old(Repr) - {this} - old(s.Repr))
      ensures Apart()
    {
    }

    /** The part of `SubrouterChanged` about `Mirrored`. */
    twostate lemma SubrouterChangedMirrored(k: Path)
      requires old(Valid())
      requires k in old(routes) && old(routes[k]).MuxEntry?
      requires routes == old(routes)
      requires var s := routes[k].mux;
               && unchanged(old(Repr) - {this} - old(s.Repr))
               && table == old(table)[k := MuxEntryV(s.Model())]
      ensures Mirrored()
    {
    }
  }
}
