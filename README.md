# gaivota HTTP router, modelled in Dafny

gaivota's HTTP layer is a small hand-written router that exists in two generations.

- **Generation A** is package `mux`, made of `pkg/mux/path.go`, `internal/router/route.go` and `internal/router/router.go`.
  - A `Router` owns a prefix, a map from canonical paths to handlers, and a list of subrouter prefixes.
  - A handler is either a `Route` or a nested `Router`.
  - A request first goes to the longest subrouter prefix that `HasPrefix` accepts. Failing that, it goes to any map entry whose key `Match`es the path. Failing that, it goes to the not-found chain.
- **Generation B** is package `router`, made of `internal/router/path.go`, `internal/router/mux.go` and `internal/router/util.go`.
  - A `Mux` has no subrouter list.
  - A nested mux is reached only by matching its prefix at the request's exact arity.

Both generations share the same path algebra:
- `cleanPath` and `NewPath` do Go's `path.Clean` on a rooted path.
- `Join` joins with `/` and normalises.
- `Fields` splits into non-empty segments.
- `extractParamsPos` maps each `:name` segment to its index and panics on a repeated name.

In both path.go files these functions have identical code, so one Dafny module, `Paths`, models them.

## Modules

| module | models |
|---|---|
| `Segments` | `strings.Split`, `strings.Join`, `strings.FieldsFunc`, and `path.Clean` on a rooted path as a stack of segments |
| `Paths` | `cleanPath`, `NewPath`, `Join`, `Fields`, `isParam` and `extractParamsPos` |
| `PathA` | `HasPrefix` and `Match` of `pkg/mux/path.go` |
| `PathB` | `Match` of `internal/router/path.go`, which compares against request fields |
| `Http` | handlers as ids, the two error handlers, the outcome of serving one request, and the redirect status |
| `Routes` | `route.go`: the value `RouteV`, the binding function `Bind`, the outcome `RouteOutcome`, and the class `Route` |
| `RouterSpecA` / `RouterA` | `router.go`: a value model `RouterV` with its operations and lemmas, plus the class `Router` proved against that value model |
| `MuxSpecB` / `MuxB` | `mux.go`: a value model `MuxV`, plus the class `Mux` proved against it |

Both router classes keep their Go state as fields:
- `routes`, a map whose entries are either a route value or a reference to a child router;
- `subRouters`, Generation A only;
- `error` and `ctx`.

They also keep a ghost mirror `table` of the value model. `Valid()` requires that:
- child routers own disjoint footprints;
- `table` reflects `routes`;
- every route sits under its own path with a correct position map.

Every mutating method states its new value model as the value model's operation applied to the old one. The value model's lemmas then say what those operations mean.

A Go panic becomes a `false` / `None` result. Dispatch iterates over a Go map in arbitrary order, so it is modelled as a relation (`Serves`): `ServeHTTP` is proved to produce one of the outcomes that relation allows.

### Where the code and its own comments or design differ (the model follows the code)

- Generation A `Use` and `NewSubrouter` delegate to a covering subrouter with the caller's relative `p` (router.go:40 and router.go:145). That subrouter joins `p` to its own prefix, so the route lands at `prefix/sub/…/p` rather than at the joined path. `RouterSpecA.UseForwardsRelativePath` states the forwarding exactly.
- Generation B `Use` passes the absolute `routePath` to the entry's `Use` (mux.go:122). A nested mux joins it once more. `MuxSpecB.UseForwardsAbsolutePath` states this.
- A route that has no handler for the request's method answers with the context's `MethodNotAllowed` handler, or else with `http.NotFound` (404), never with 405 (route.go:42-48).
- `pkg/mux` `HasPrefix` accepts a parameter on either side, so "/:id" and "/123" are prefixes of each other (path_test.go:26-27).
- "The first matching route" is really whichever map entry the iteration meets first, so the model allows any matching entry.
- Generation A `NewSubrouter` first delegates to a covering subrouter and only then checks for a duplicate.
- `internal/router/mux_test.go` builds a `Mux` with a `subRouters` field that `mux.go` does not have.
- `internal/router/util.go:8-11` defines Generation B's `Router` interface, whose `Use` takes a path as well as the methods. That is the call mux.go:122 makes on an entry.
  - Package `router`'s `Route` type and its `NewRoute` are not in the repository's sources, because route.go belongs to package `mux`.
  - Generation B routes are modelled with `route.go`'s `Route`, and the extra path argument of `Use` is ignored. This matches how `route_test.go:41,49` calls it with "".

## Model

| member | source | states |
|---|---|---|
| Http.RedirectStatus | internal/router/router.go:116-120 | the redirect code is 308 exactly for GET and HEAD, and 307 for every other method |
| Http.NotFoundFallback | internal/router/router.go:97-108 | the router's own NotFound handler wins, the context's comes next, and only with neither does the router write a 404 itself; `RouterSpecA.ServesNotFound` and `MuxSpecB.ServesNotFound` place it at the end of dispatch |
| Http.Redirection | internal/router/router.go:111-123 | a redirect goes to exactly the cleaned path, with the GET/HEAD-dependent code, and runs no handler |
| Paths.CleanPathFields | pkg/mux/path.go:130-139 | "" has no fields; otherwise the fields are the dot-resolved segments of the input made rooted, and the result is canonical |
| Paths.CleanPathShape | pkg/mux/path.go:130-139 | "" cleans to "/"; the result always starts with '/' and ends with '/' only when it is the root |
| Paths.RootedJoinCanonical | pkg/mux/path.go:130-139 | a slash followed by clean segments is a canonical path whose fields are exactly those segments |
| Paths.CanonicalFixed | pkg/mux/path.go:130-139 | cleaning leaves a canonical path unchanged |
| Paths.NewPathIdempotent | pkg/mux/path.go:9-11 | normalising twice equals normalising once |
| Paths.NewPathFixedIff | pkg/mux/path.go:9-11 | NewPath leaves a string unchanged if and only if it is canonical, so a request path escapes the redirect exactly when it is canonical |
| Paths.CleanPathKeepsFields | pkg/mux/path.go:130-139 | without "." or ".." segments, cleaning changes only the slashes and keeps the fields |
| Paths.JoinNormalised | pkg/mux/path.go:85-89 | a joined path is canonical and a fixed point of NewPath; joining nothing onto a canonical path returns it |
| Paths.CleanPathExampleEmpty | internal/mux/path_test.go:81 | "" cleans to "/" |
| Paths.CleanPathExampleRoot | internal/mux/path_test.go:82 | "/" cleans to "/" |
| Paths.CleanPathExampleSlashes | internal/mux/path_test.go:83 | "/////" cleans to "/" |
| Paths.CleanPathExampleTrailing | internal/mux/path_test.go:84 | "/:id/" cleans to "/:id" |
| Paths.CleanPathExampleBare | internal/mux/path_test.go:85 | "positions" cleans to "/positions" |
| Paths.CleanPathExampleUnrooted | internal/mux/path_test.go:86 | "positions///" cleans to "/positions" |
| Paths.CleanPathExampleInner | internal/mux/path_test.go:87 | "/positions////:id" cleans to "/positions/:id" |
| Paths.ExtractParamsPos | pkg/mux/path.go:98-111 | the loop succeeds if and only if no parameter name repeats; then it maps each parameter name to the index of its ":name" field and holds nothing else |
| Paths.ParamsPosOf | pkg/mux/path.go:98-111 | a path without repeated parameter names has a position map with those properties |
| Paths.ParamsPosUnique | pkg/mux/path.go:98-111 | that position map is unique, so every route built from a path carries the same one |
| PathA.FieldsHavePrefixIff | pkg/mux/path.go:27-55 | the field loop accepts if and only if each prefix field agrees with the path field at its index (equal, or a parameter on either side) |
| PathA.HasPrefixIff | pkg/mux/path.go:15-56 | a prefix with more fields is rejected and "/" is always accepted; otherwise HasPrefix holds if and only if every prefix field agrees |
| PathA.HasPrefixReflexive | pkg/mux/path.go:15-56 | every path has itself as a prefix |
| PathA.MatchIff | pkg/mux/path.go:58-66 | Match holds if and only if both paths have the same number of fields and they agree fieldwise; then HasPrefix holds both ways, and Match is symmetric |
| PathA.HasPrefixParamEitherSide | internal/mux/path_test.go:26-27 | "/:id" and "/123" are prefixes of each other and they match |
| PathA.HasPrefixRejects | internal/mux/path_test.go:32 | "/positions/123123" is not a prefix of "/:id" |
| PathA.HasPrefixNested | internal/mux/path_test.go:30 | "/investments/:id/positions" is a prefix of "/investments/v/positions/w" for any single non-empty segments v and w |
| PathA.MatchNeedsArity | internal/mux/path_test.go:56-60 | "/:id" does not match "/", and "/positions" does not match "positions/123" |
| PathB.FieldsMatchIff | internal/router/path.go:22-36 | the field loop accepts if and only if each pattern field is a parameter facing a non-empty field, or is equal to its field |
| PathB.MatchIff | internal/router/path.go:15-37 | Match holds if and only if the arity is equal and every field agrees in that one-sided sense |
| PathB.MatchSelf | internal/router/path.go:15-37 | a registered path matches the fields of its own text |
| PathB.MatchOneSided | internal/router/path.go:15-37 | a parameter counts on the pattern side only: "/123" does not match [":id"], while "/:id" matches ["123"] |
| PathB.MatchRoot | internal/router/path.go:15-37 | "/" matches exactly the empty field list |
| Routes.BindSucceeds | internal/router/route.go:51-59 | binding succeeds if and only if no listed method is already bound or listed twice; on success every listed method maps to the handler and the other bindings stay |
| Routes.BindFailsAt | internal/router/route.go:51-59 | at the first duplicate method, at index k, binding fails and keeps exactly the bindings made for the methods before k |
| Routes.ParamsAtMatched | internal/router/route.go:61-70 | for a request of the route's arity, every position is in range, the extracted names are exactly the route's parameter names, and each value is the request field where the route has ":name" |
| Routes.RouteOutcomeCases | internal/router/route.go:27-49 | a bound method runs its handler with those parameters; an unbound one gives the context's MethodNotAllowed handler, else a 404; a well-formed route never crashes |
| Routes.CollectParams | internal/router/route.go:64-67 | the loop builds a map whose keys are the parameter names and whose values are the fields at their positions |
| Routes.Route.constructor | internal/router/route.go:9-18 | a new route is valid, with the given path, positions and context and no handlers |
| Routes.Route.Use | internal/router/route.go:51-59 | the new handler map and result are those of Bind on the old map (partial binding kept on panic) |
| Routes.Route.ExtractParams | internal/router/route.go:61-70 | the result maps each parameter name to the request field at its position |
| Routes.Route.ServeHTTP | internal/router/route.go:27-49 | the outcome is the route's specified outcome for that method and path |
| Routes.NewRoute | internal/router/route.go:9-18 | a route is created if and only if the path has no repeated parameter name; it is fresh and valid, with the position map of its path and no handlers |
| RouterSpecA.SelectsUnique | internal/router/router.go:56-71 | at most one subrouter index is the one selected |
| RouterSpecA.FindSubCases | internal/router/router.go:56-71 | when found, the result is a listed prefix longer than "/" that HasPrefix accepts, no shorter than any accepted one and the earliest among equals; when not found, the result is "/" and only "/" is accepted |
| RouterSpecA.LongestExists | internal/router/router.go:56-71 | if any accepted subrouter prefix is longer than "/", a selected index exists |
| RouterSpecA.UsePreservesWellFormed | internal/router/router.go:141-158 | Use keeps the router well-formed; it keeps the prefix, the subrouter list, the error handlers and the context, and it never removes a path |
| RouterSpecA.UseBindsRoute | internal/router/router.go:149-157 | with no covering subrouter, Use succeeds if and only if the joined path is a route (or a new path without repeated parameters) and the methods bind; on success that path's route holds the binding with its path's positions. Even on failure a found route keeps the bindings Bind made, and a new one stays with its path's positions, this router's context and those bindings. A subrouter entry at the path, or repeated parameter names, leave the router unchanged, and no other entry ever changes |
| RouterSpecA.UseForwardsRelativePath | internal/router/router.go:144-147 | with a covering subrouter, Use keeps the same keys and changes only that subrouter's entry, so nothing is filed at the joined path here; on success the route appears in the subrouter under its own prefix joined with the caller's relative path |
| RouterSpecA.NewSubrouterPreservesWellFormed | internal/router/router.go:36-54 | NewSubrouter keeps the router well-formed, its prefix, error handlers and context, and all existing paths |
| RouterSpecA.NewSubrouterAdds | internal/router/router.go:43-53 | with no covering subrouter, creation fails if and only if the joined prefix is taken; on success the new subrouter has that prefix, no routes and the parent's context, and it is added to the map and to the end of the list |
| RouterSpecA.ServesRedirect | internal/router/router.go:75-81 | a non-canonical request path gets exactly one answer, a redirect to its cleaned form, and no handler runs |
| RouterSpecA.ServesDelegates | internal/router/router.go:83-86 | a canonical path under a subrouter prefix is answered exactly as that subrouter answers it |
| RouterSpecA.ServesNotFound | internal/router/router.go:97-108 | when nothing matches, the only answer is the router's NotFound handler, else the context's, else the default 404; with neither handler no handler runs and the router writes 404 |
| RouterSpecA.ServesMatchingRoute | internal/router/router.go:90-95 | a matching route whose method is bound is an allowed answer: its handler, with the request fields at the route's parameter positions |
| RouterSpecA.ServesNeverCrashes | internal/router/router.go:74-109 | a well-formed router never reaches the out-of-range index of ExtractParams |
| RouterSpecA.ServesHandleBound | internal/router/router.go:74-109 | a handler runs only for a canonical path, and only a handler that is bound for that method somewhere in the router tree |
| RouterA.Router.constructor | internal/router/router.go:11-17 | a new router is valid, with the normalised prefix, no routes, no subrouters and no context |
| RouterA.Router.Context | internal/router/router.go:129-135 | the context is the inherited one, or else the router's own error handlers |
| RouterA.Router.SetError | internal/router/router.go:19-25 | assigning the Error field changes only the error handlers |
| RouterA.Router.FindSubrouter | internal/router/router.go:56-71 | the loop returns the longest accepted subrouter prefix, earliest on ties, as FindSubCases characterises it |
| RouterA.Router.ServeHTTP | internal/router/router.go:74-109 | the outcome is one that Serves allows for the router's value model |
| RouterA.Router.ServeEntry | internal/router/router.go:90-95 | a route entry gives its route's outcome, and a subrouter entry gives an answer its subrouter allows |
| RouterA.Router.Use | internal/router/router.go:141-158 | the router stays valid with the same footprint, and the new value model and result are UseV of the old |
| RouterA.Router.Connect | internal/router/router.go:160-162 | Use with CONNECT alone |
| RouterA.Router.Delete | internal/router/router.go:164-166 | Use with DELETE alone |
| RouterA.Router.Get | internal/router/router.go:168-170 | Use with GET alone |
| RouterA.Router.Head | internal/router/router.go:172-174 | Use with HEAD alone |
| RouterA.Router.Options | internal/router/router.go:176-178 | Use with OPTIONS alone |
| RouterA.Router.Patch | internal/router/router.go:180-182 | Use with PATCH alone |
| RouterA.Router.Post | internal/router/router.go:184-186 | Use with POST alone |
| RouterA.Router.Put | internal/router/router.go:188-190 | Use with PUT alone |
| RouterA.Router.Trace | internal/router/router.go:192-194 | Use with TRACE alone |
| RouterA.Router.UseOnRoute | internal/router/router.go:157 | binding into an existing route replaces only that entry, by the route with the handlers Bind gives |
| RouterA.Router.UseOnNewRoute | internal/router/router.go:151-157 | a path with repeated parameters fails and changes nothing; otherwise a new route with the router's context is stored and bound |
| RouterA.Router.UseOnSubrouter | internal/router/router.go:144-147 | the subrouter's new value model is its Use with the relative path, and only that entry of the table changes |
| RouterA.Router.NewSubrouter | internal/router/router.go:36-54 | the router stays valid; its new value model is NewSubrouterV's; a created subrouter is fresh, valid and the only new object |
| RouterA.Router.NewSubrouterOnSubrouter | internal/router/router.go:39-41 | the delegated call changes only the covering subrouter, as NewSubrouterV describes, and hands back its result |
| RouterA.Router.AddSubrouter | internal/router/router.go:43-53 | the new subrouter has the joined prefix and the parent's context, and is registered in the map and at the end of the list |
| MuxSpecB.UsePreservesWellFormed | internal/router/mux.go:112-123 | Use keeps the mux well-formed, with its prefix, error handlers and context, and it never removes a path |
| MuxSpecB.UseBindsRoute | internal/router/mux.go:115-122 | when the joined path is not a nested mux, Use succeeds if and only if the path is new without repeated parameters, or is already a route, and the methods bind; on success that route holds the binding with its path's positions. Even on failure a found route keeps the bindings Bind made, and a new one stays with its path's positions, this mux's context and those bindings. Repeated parameter names leave the mux unchanged, and no other entry ever changes |
| MuxSpecB.UseForwardsAbsolutePath | internal/router/mux.go:113-122 | when the joined path is a nested mux, that mux's prefix is the joined path; Use keeps the same keys and changes only that entry, and on success the route lands in the nested mux at the joined path joined with itself |
| MuxSpecB.NewSubrouterAdds | internal/router/mux.go:36-47 | creation fails if and only if the joined prefix is already an entry; on success the new mux has that prefix, no routes and the parent's context, and it is the only change |
| MuxSpecB.NewSubrouterPreservesWellFormed | internal/router/mux.go:36-47 | NewSubrouter keeps the mux well-formed |
| MuxSpecB.ServesRedirect | internal/router/mux.go:51-57 | a non-canonical request path gets exactly one answer, a redirect to its cleaned form, and no handler runs |
| MuxSpecB.ServesNotFound | internal/router/mux.go:68-79 | when no key matches the request fields, the only answer is the mux's NotFound handler, else the context's, else the default 404; with neither handler no handler runs and the router writes 404 |
| MuxSpecB.ServesMatchingRoute | internal/router/mux.go:59-66 | a route whose key matches the request fields and whose method is bound is an allowed answer, with the correct parameters |
| MuxSpecB.ServesThroughSubrouter | internal/router/mux.go:61-66 | a nested mux is reached only at its prefix's exact arity, and any answer it allows is an answer of the parent |
| MuxSpecB.ServesNeverCrashes | internal/router/mux.go:50-80 | a well-formed mux never reaches the out-of-range index of ExtractParams |
| MuxSpecB.ServesHandleBound | internal/router/mux.go:50-80 | a handler runs only for a canonical path, and only a handler that is bound for that method somewhere in the mux tree |
| MuxB.Mux.constructor | internal/router/mux.go:12-18 | a new mux is valid, with the normalised prefix, no routes and no context |
| MuxB.Mux.Context | internal/router/mux.go:100-106 | the context is the inherited one, or else the mux's own error handlers |
| MuxB.Mux.SetError | internal/router/mux.go:20-25 | assigning the Error field changes only the error handlers |
| MuxB.Mux.NewSubrouter | internal/router/mux.go:36-47 | the mux stays valid; its new value model is NewSubrouterV's; a created mux is fresh, valid and the only new object |
| MuxB.Mux.ServeHTTP | internal/router/mux.go:50-80 | the outcome is one that Serves allows for the mux's value model |
| MuxB.Mux.ServeEntry | internal/router/mux.go:61-66 | the entry's answer is one it allows, whether it is a route or a nested mux |
| MuxB.Mux.Use | internal/router/mux.go:112-123 | the mux stays valid with the same footprint, and the new value model and result are UseV of the old |
| MuxB.Mux.Connect | internal/router/mux.go:125-127 | Use with CONNECT alone |
| MuxB.Mux.Delete | internal/router/mux.go:129-131 | Use with DELETE alone |
| MuxB.Mux.Get | internal/router/mux.go:133-135 | Use with GET alone |
| MuxB.Mux.Head | internal/router/mux.go:137-139 | Use with HEAD alone |
| MuxB.Mux.Options | internal/router/mux.go:141-143 | Use with OPTIONS alone |
| MuxB.Mux.Patch | internal/router/mux.go:145-147 | Use with PATCH alone |
| MuxB.Mux.Post | internal/router/mux.go:149-151 | Use with POST alone |
| MuxB.Mux.Put | internal/router/mux.go:153-155 | Use with PUT alone |
| MuxB.Mux.Trace | internal/router/mux.go:157-159 | Use with TRACE alone |
| MuxB.Mux.UseOnRoute | internal/router/mux.go:122 | binding into an existing route replaces only that entry, by the route with the handlers Bind gives |
| MuxB.Mux.UseOnNewRoute | internal/router/mux.go:117-122 | a path with repeated parameters fails and changes nothing; otherwise a new route with the mux's context is stored and bound |
| MuxB.Mux.UseOnSubrouter | internal/router/mux.go:122 | the nested mux's new value model is its Use with the absolute path, and only that entry of the table changes |

## Left out

- Logging with `fmt.Printf` (router.go:88, router.go:152, route.go:30, route.go:40) is left out, because it has no effect on routing.
- Writing the response is left out. That covers `http.Redirect`, `http.NotFound` and the handlers' own `ServeHTTP`. A request's answer is an `Outcome` value: redirect, handle, method-not-allowed, not-found, default 404, or crash.
- `redirect` re-serialises the request URL with its query and user info; the model keeps only the new path and the status code.
- `context.Context` is modelled as the `ErrorHandlers` value that `Context()` stores under `ErrorHandlersKey`. The value is copied when the context is created, as in Go.
- Handlers are opaque ids.
- Attaching the path parameters to the request is left out. That is `requestWithPathParams`, defined at util.go:24-30 for package `router`; package `mux`'s copy, which route.go:34 calls, is not in the sources. The extracted parameters are carried in the `Handle` outcome instead.
- Go map iteration order is not modelled. `Serves` allows any matching entry, and `ServeHTTP` is proved to pick one of them.
- A panic is modelled as a `false` or `None` result. The state left at the panic point is kept, such as the bindings made before a duplicate method.
- Routes are kept as values inside the router's map. No route object is shared between two routers, and none is mutated from outside, which the Go code never does either.
- Generation B's `Router` interface (util.go:8-11) is modelled as the two-case union `MuxSpecB.EntryV` (`RouteEntryV` / `MuxEntryV`), and `UseV` branches on it where Go dispatches dynamically. Package `router`'s `Route` type is not part of this model; `route.go`'s `Route` stands in for it.
- Go strings are byte strings; the model uses `char` sequences. Unicode handling is left out, including `FindSubrouter`'s comparison of prefix lengths, which Go counts in bytes.
- The `pkg/mux/healthcheck.go` handler and the application's callers are left out.
