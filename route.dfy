/** A route (internal/router/route.go): one normalised path, the positions
    of its parameters, a handler per request method and the error handlers
    captured from the router that created it. */
module Routes {

  import opened Wrappers
  import opened Segments
  import opened Paths
  import opened Http

  /** A route as a value: what the router specifications reason about. */
  datatype RouteV = RouteV(
    path: Path,
    paramsPos: map<string, nat>,
    handlers: map<string, HandlerId>,
    ctx: ErrorHandlers)

  // ---------------------------------------------------------------------------
  // Method binding
  // ---------------------------------------------------------------------------

  /** What `Use` does to the handler table, method by method: bind each
      listed method to `h`, and stop (the panic of the source) at the first
      method that is already bound. The bindings made before that point
      stay, as they do in the Go map. */
  function Bind(handlers: map<string, HandlerId>, methods: seq<string>, h: HandlerId): (map<string, HandlerId>, bool)
    decreases |methods|
  {
    if methods == [] then (handlers, true)
    else if methods[0] in handlers then (handlers, false)
    else Bind(handlers[methods[0] := h], methods[1..], h)
  }

  /** No listed method is bound already or listed twice. */
  predicate Bindable(handlers: map<string, HandlerId>, methods: seq<string>)
  {
    && (forall i | 0 <= i < |methods| :: methods[i] !in handlers)
    && (forall i, j | 0 <= i < j < |methods| :: methods[i] != methods[j])
  }

  /** The table with every listed method bound to `h`. */
  function BindAll(handlers: map<string, HandlerId>, methods: seq<string>, h: HandlerId): map<string, HandlerId>
  {
    handlers + map m | m in methods :: h
  }

  /** `Use` succeeds exactly when no listed method is bound already and none is
      listed twice; then every listed method maps to `h` and every other
      method keeps its binding. */
  lemma {:induction false} BindSucceeds(handlers: map<string, HandlerId>, methods: seq<string>, h: HandlerId)
    ensures Bind(handlers, methods, h).1 <==> Bindable(handlers, methods)
    ensures Bind(handlers, methods, h).1 ==> Bind(handlers, methods, h).0 == BindAll(handlers, methods, h)
    decreases |methods|
  {
    if methods != [] {
      var m := methods[0];
      BindSucceeds(handlers[m := h], methods[1..], h);
      if m !in handlers {
        BindableCons(handlers, methods, h);
        if Bindable(handlers, methods) {
          BindAllCons(handlers, methods, h);
        }
      } else {
        assert !Bindable(handlers, methods) by { assert methods[0] in handlers; }
      }
    }
  }

  /** Binding the first method, when it is free, leaves the rest bindable
      exactly when the whole list was. */
  lemma BindableCons(handlers: map<string, HandlerId>, methods: seq<string>, h: HandlerId)
    requires methods != [] && methods[0] !in handlers
    ensures Bindable(handlers, methods) <==> Bindable(handlers[methods[0] := h], methods[1..])
  {
    var m := methods[0];
    var rest := methods[1..];
    if Bindable(handlers[m := h], rest) {
      forall i, j | 0 <= i < j < |methods|
        ensures methods[i] != methods[j]
      {
        if i > 0 {
          assert methods[i] == rest[i - 1] && methods[j] == rest[j - 1];
        } else {
          assert methods[j] == rest[j - 1];
        }
      }
    }
    if Bindable(handlers, methods) {
      forall i | 0 <= i < |rest|
        ensures rest[i] !in handlers[m := h]
      {
        assert rest[i] == methods[i + 1];
      }
    }
  }

  /** Binding the first method and then the rest binds the whole list. */
  lemma BindAllCons(handlers: map<string, HandlerId>, methods: seq<string>, h: HandlerId)
    requires methods != []
    ensures BindAll(handlers[methods[0] := h], methods[1..], h) == BindAll(handlers, methods, h)
  {
    assert forall x :: x in methods <==> x == methods[0] || x in methods[1..];
  }

  /** When `Use` fails at index `k` (the first method that is already bound,
      counting those the same call bound before it), the methods before `k`
      are bound to `h` and nothing else changed. */
  lemma {:induction false} BindFailsAt(handlers: map<string, HandlerId>, methods: seq<string>, h: HandlerId, k: nat)
    requires k < |methods|
    requires Bindable(handlers, methods[..k])
    requires methods[k] in handlers || methods[k] in methods[..k]
    ensures Bind(handlers, methods, h) == (BindAll(handlers, methods[..k], h), false)
    decreases k
  {
    var m := methods[0];
    var rest := methods[1..];
    if k == 0 {
      assert methods[..0] == [];
      assert BindAll(handlers, [], h) == handlers;
    } else {
      var before := methods[..k];
      var pre := rest[..k - 1];
      assert before[0] == m && before[1..] == pre;
      BindableCons(handlers, before, h);
      assert rest[k - 1] in handlers[m := h] || rest[k - 1] in pre by {
        assert rest[k - 1] == methods[k];
        if methods[k] !in handlers[m := h] {
          var i :| 0 <= i < k && before[i] == methods[k];
          assert pre[i - 1] == methods[k];
        }
      }
      BindFailsAt(handlers[m := h], rest, h, k - 1);
      BindAllCons(handlers, before, h);
    }
  }

  // ---------------------------------------------------------------------------
  // Parameters and dispatch
  // ---------------------------------------------------------------------------

  /** Every recorded position is a segment of `fields`. */
  predicate PositionsWithin(paramsPos: map<string, nat>, fields: seq<string>)
  {
    forall n | n in paramsPos :: paramsPos[n] < |fields|
  }

  /** The parameters `ExtractParams` builds: each name with the request
      segment at its position. */
  function ParamsAt(paramsPos: map<string, nat>, fields: seq<string>): map<string, string>
    requires PositionsWithin(paramsPos, fields)
  {
    map n | n in paramsPos :: fields[paramsPos[n]]
  }

  /** `Route.ServeHTTP` as a value: the bound handler with the extracted
      parameters, else the captured `MethodNotAllowed` handler, else the
      default not-found (not a 405). An index past the request's segments
      makes `ExtractParams` panic. */
  function RouteOutcome(route: RouteV, requestMethod: string, requestPath: Path): Outcome
  {
    if requestMethod in route.handlers then
      if PositionsWithin(route.paramsPos, Fields(requestPath)) then
        Handle(route.handlers[requestMethod], ParamsAt(route.paramsPos, Fields(requestPath)))
      else Crash
    else if route.ctx.methodNotAllowed.Some? then MethodNotAllowed(route.ctx.methodNotAllowed.value)
    else DefaultNotFound
  }

  /** A request with as many segments as the route's own path never makes
      `ExtractParams` panic, and each parameter receives the request segment
      where the route's path has `:name`. */
  lemma ParamsAtMatched(route: RouteV, requestPath: Path)
    requires IsParamsPos(Fields(route.path), route.paramsPos)
    requires |Fields(requestPath)| == |Fields(route.path)|
    ensures PositionsWithin(route.paramsPos, Fields(requestPath))
    ensures ParamsAt(route.paramsPos, Fields(requestPath)).Keys == route.paramsPos.Keys
    ensures forall n | n in route.paramsPos ::
              && Fields(route.path)[route.paramsPos[n]] == ":" + n
              && ParamsAt(route.paramsPos, Fields(requestPath))[n] == Fields(requestPath)[route.paramsPos[n]]
  {
  }

  /** The route runs a handler of its own table exactly when the method is
      bound; otherwise it answers with the captured `MethodNotAllowed`
      handler or the default not-found, and never with a route handler. */
  lemma RouteOutcomeCases(route: RouteV, requestMethod: string, requestPath: Path)
    requires IsParamsPos(Fields(route.path), route.paramsPos)
    requires |Fields(requestPath)| == |Fields(route.path)|
    ensures var out := RouteOutcome(route, requestMethod, requestPath);
            && (out.Handle? <==> requestMethod in route.handlers)
            && (out.Handle? ==> out.handler == route.handlers[requestMethod] && out.params.Keys == route.paramsPos.Keys)
            && (!out.Handle? ==> out == (if route.ctx.methodNotAllowed.Some? then MethodNotAllowed(route.ctx.methodNotAllowed.value) else DefaultNotFound))
            && out != Crash
  {
    ParamsAtMatched(route, requestPath);
  }

  /** The loop of `ExtractParams` over the recorded positions. */
  method CollectParams(paramsPos: map<string, nat>, fields: seq<string>) returns (params: map<string, string>)
    requires PositionsWithin(paramsPos, fields)
    ensures params.Keys == paramsPos.Keys
    ensures forall n | n in params :: params[n] == fields[paramsPos[n]]
  {
    params := map[];
    var todo := paramsPos.Keys;
    while todo != {}
      invariant todo <= paramsPos.Keys
      invariant params.Keys == paramsPos.Keys - todo
      invariant forall n | n in params :: params[n] == fields[paramsPos[n]]
      decreases |todo|
    {
      var n :| n in todo;
      params := params[n := fields[paramsPos[n]]];
      todo := todo - {n};
    }
  }

  // ---------------------------------------------------------------------------
  // The route object
  // ---------------------------------------------------------------------------

  class Route {
    const path: Path
    const paramsPos: map<string, nat>
    var handlers: map<string, HandlerId>
    const ctx: ErrorHandlers

    /** The positions are those of `path`'s parameters. */
    ghost predicate Valid()
    {
      IsParamsPos(Fields(path), paramsPos)
    }

    function Model(): RouteV
      reads this
    {
      RouteV(path, paramsPos, handlers, ctx)
    }

    constructor (path: Path, paramsPos: map<string, nat>, ctx: ErrorHandlers)
      requires IsParamsPos(Fields(path), paramsPos)
      ensures Valid()
      ensures Model() == RouteV(path, paramsPos, map[], ctx)
    {
      this.path := path;
      this.paramsPos := paramsPos;
      this.handlers := map[];
      this.ctx := ctx;
    }

    /** `Use`: binds the methods one by one; `ok` is false where the source
        panics on a method that is already bound. */
    method Use(methods: seq<string>, h: HandlerId) returns (ok: bool)
      modifies this
      ensures (handlers, ok) == Bind(old(handlers), methods, h)
    {
      for i := 0 to |methods|
        invariant Bind(handlers, methods[i..], h) == Bind(old(handlers), methods, h)
      {
        assert methods[i..][1..] == methods[i + 1..];
        if methods[i] in handlers {
          return false;
        }
        handlers := handlers[methods[i] := h];
      }
      assert methods[|methods|..] == [];
      return true;
    }

    /** `ExtractParams`: exactly the recorded names, each with the request
        segment at its position. The source indexes the request's fields
        without a check, so the positions must lie within them. */
    method ExtractParams(requestPath: Path) returns (params: map<string, string>)
      requires PositionsWithin(paramsPos, Fields(requestPath))
      ensures params.Keys == paramsPos.Keys
      ensures forall n | n in params :: params[n] == Fields(requestPath)[paramsPos[n]]
      ensures params == ParamsAt(paramsPos, Fields(requestPath))
    {
      params := CollectParams(paramsPos, Fields(requestPath));
    }

    /** `ServeHTTP` for a request with the given method and (normalised) path. */
    method ServeHTTP(requestMethod: string, requestPath: Path) returns (out: Outcome)
      ensures out == RouteOutcome(Model(), requestMethod, requestPath)
    {
      if requestMethod in handlers {
        var handler := handlers[requestMethod];
        if !PositionsWithin(paramsPos, Fields(requestPath)) {
          return Crash;
        }
        var params := ExtractParams(requestPath);
        return Handle(handler, params);
      }
      if ctx.methodNotAllowed.Some? {
        return MethodNotAllowed(ctx.methodNotAllowed.value);
      }
      return DefaultNotFound;
    }
  }

  /** `NewRoute`: the parameter positions of `path` and an empty handler
      table; `None` where the source panics on a repeated parameter name. */
  method NewRoute(path: Path, ctx: ErrorHandlers) returns (r: Option<Route>)
    ensures r.Some? <==> DistinctParams(Fields(path))
    ensures r.Some? ==> fresh(r.value) && r.value.Valid()
    ensures r.Some? ==> r.value.Model() == RouteV(path, ParamsPosOf(Fields(path)), map[], ctx)
  {
    var paramsPos := ExtractParamsPos(path);
    if paramsPos.None? {
      return None;
    }
    ParamsPosUnique(Fields(path), paramsPos.value, ParamsPosOf(Fields(path)));
    var route := new Route(path, paramsPos.value, ctx);
    return Some(route);
  }
}
