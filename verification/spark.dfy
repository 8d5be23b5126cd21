/** The bridge itself (`spark.Spark`): lifecycle of the single engine,
    registration of routes, filters and handlers (with path translation),
    and the wrappers that run a legacy handler against an engine context.

    The engine is modelled as the list of registrations it has received,
    the port it was started on, the static directory it serves and
    whether it is running. Handlers are opaque identifiers in the
    registrations and functions over the response façade in the wrappers.
    Whether a directory exists is an oracle `dirExists`. */
module Spark {
  import opened Wrappers
  import opened Text
  import opened Javalin
  import PathSyntax
  import opened Responses

  const DefaultPort: int := 7070
  /** The path a path-less `before`/`after` filter is registered on. */
  const AllPaths: string := "/*"

  datatype HttpMethod = GET | POST | PUT | DELETE | PATCH | OPTIONS | HEAD

  datatype FilterPhase = Before | After

  type HandlerId = nat

  datatype Registration =
    | RouteRegistration(httpMethod: HttpMethod, path: string, handler: HandlerId)
    | FilterRegistration(phase: FilterPhase, path: string, handler: HandlerId)
    | ExceptionRegistration(exceptionClass: string, handler: HandlerId)
    | ErrorRegistration(status: int, handler: HandlerId)

  datatype Engine = Engine(port: int, staticDirectory: Option<string>, registrations: seq<Registration>)

  /** The source's `javalin` field and `initialized` flag together: the
      engine is never cleared once created, and `initialized` holds exactly
      while it runs. */
  datatype Lifecycle =
    | NeverStarted
    | Running(engine: Engine)
    | Stopped(engine: Engine)

  datatype Bridge = Bridge(port: int, externalLocation: Option<string>, lifecycle: Lifecycle) {
    predicate Initialized() {
      lifecycle.Running?
    }
  }

  /** The state the first `getInstance()` creates. */
  function Fresh(): (b: Bridge)
    ensures !b.Initialized() && b.lifecycle.NeverStarted? && b.port == DefaultPort && b.externalLocation.None?
  {
    Bridge(DefaultPort, None, NeverStarted)
  }

  /** `port(p)`: recorded for the next engine; a running engine is untouched. */
  function SetPort(b: Bridge, port: int): (r: Bridge)
    ensures r.port == port
    ensures r.externalLocation == b.externalLocation && r.lifecycle == b.lifecycle
  {
    b.(port := port)
  }

  /** `staticFiles().externalLocation(dir)`; the `StaticFiles` class is not
      part of this model, only the location it records. */
  function SetExternalLocation(b: Bridge, location: string): (r: Bridge)
    ensures r.externalLocation == Some(location)
    ensures r.port == b.port && r.lifecycle == b.lifecycle
  {
    b.(externalLocation := Some(location))
  }

  /** The static directory a new engine is configured with: the external
      location when one is set and exists, none otherwise. */
  function StaticDirectory(location: Option<string>, dirExists: string -> bool): (d: Option<string>)
    ensures d.Some? <==> location.Some? && dirExists(location.value)
    ensures d.Some? ==> d == location
  {
    if location.Some? && dirExists(location.value) then location else None
  }

  /** The engine once `ensureInitialized()` has run: the running one, or a
      new, empty one on the configured port. */
  function ReadyEngine(b: Bridge, dirExists: string -> bool): Engine {
    if b.Initialized() then b.lifecycle.engine
    else Engine(b.port, StaticDirectory(b.externalLocation, dirExists), [])
  }

  /** `initializeServer()`: create and start a fresh engine on the current
      port unless already initialized; nothing else changes. */
  function InitializeServer(b: Bridge, dirExists: string -> bool): (r: Bridge)
    ensures r.Initialized()
    ensures b.Initialized() ==> r == b
    ensures !b.Initialized() ==> r.lifecycle.engine.registrations == [] && r.lifecycle.engine.port == b.port
    ensures r.lifecycle.engine == ReadyEngine(b, dirExists)
    ensures r.port == b.port && r.externalLocation == b.externalLocation
  {
    if b.Initialized() then b
    else b.(lifecycle := Running(Engine(b.port, StaticDirectory(b.externalLocation, dirExists), [])))
  }

  /** `ensureInitialized()` guards `initializeServer()` with the same flag
      the latter tests, so it is the same step. */
  function EnsureInitialized(b: Bridge, dirExists: string -> bool): (r: Bridge)
    ensures r == InitializeServer(b, dirExists)
  {
    if !b.Initialized() then InitializeServer(b, dirExists) else b
  }

  /** `r` is `b` after `ensureInitialized()` with `added` appended to the
      running engine's registrations, and nothing else changed. */
  predicate AppendsAfterInitializing(b: Bridge, r: Bridge, added: seq<Registration>, dirExists: string -> bool) {
    var e := ReadyEngine(b, dirExists);
    r.Initialized() && r.port == b.port && r.externalLocation == b.externalLocation
    && r.lifecycle.engine == e.(registrations := e.registrations + added)
  }

  /** `stopServer()`: stop the engine if one was ever created. */
  function StopServer(b: Bridge): (r: Bridge)
    ensures b.lifecycle.NeverStarted? ==> r == b
    ensures !b.lifecycle.NeverStarted? ==> !r.Initialized() && r.lifecycle == Stopped(b.lifecycle.engine)
    ensures r.port == b.port && r.externalLocation == b.externalLocation
  {
    match b.lifecycle
    case NeverStarted => b
    case Running(e) => b.(lifecycle := Stopped(e))
    case Stopped(e) => b.(lifecycle := Stopped(e))
  }

  /** Appends a registration to the running engine. */
  function Register(b: Bridge, reg: Registration): (r: Bridge)
    requires b.Initialized()
    ensures r.Initialized() && r.lifecycle.engine.registrations == b.lifecycle.engine.registrations + [reg]
    ensures r.lifecycle.engine.(registrations := b.lifecycle.engine.registrations) == b.lifecycle.engine
    ensures r.(lifecycle := b.lifecycle) == b
  {
    var e := b.lifecycle.engine;
    b.(lifecycle := Running(e.(registrations := e.registrations + [reg])))
  }

  /** The method a `switch (method.toUpperCase())` arm selects, if any. */
  function ParseMethod(httpMethod: string): (m: Option<HttpMethod>)
    ensures m == Some(GET) <==> Upper(httpMethod) == "GET"
    ensures m == Some(POST) <==> Upper(httpMethod) == "POST"
    ensures m == Some(PUT) <==> Upper(httpMethod) == "PUT"
    ensures m == Some(DELETE) <==> Upper(httpMethod) == "DELETE"
    ensures m == Some(PATCH) <==> Upper(httpMethod) == "PATCH"
    ensures m == Some(OPTIONS) <==> Upper(httpMethod) == "OPTIONS"
    ensures m == Some(HEAD) <==> Upper(httpMethod) == "HEAD"
  {
    var upper := Upper(httpMethod);
    if upper == "GET" then Some(GET)
    else if upper == "POST" then Some(POST)
    else if upper == "PUT" then Some(PUT)
    else if upper == "DELETE" then Some(DELETE)
    else if upper == "PATCH" then Some(PATCH)
    else if upper == "OPTIONS" then Some(OPTIONS)
    else if upper == "HEAD" then Some(HEAD)
    else None
  }

  /** `addRoute`: initialize, translate the path, and register under the
      upper-cased method; an unknown method registers nothing. */
  function AddRoute(b: Bridge, httpMethod: string, path: string, handler: HandlerId, dirExists: string -> bool): (r: Bridge)
    ensures ParseMethod(httpMethod).Some? ==>
              AppendsAfterInitializing(b, r, [RouteRegistration(ParseMethod(httpMethod).value, PathSyntax.Translate(path), handler)], dirExists)
    ensures ParseMethod(httpMethod).None? ==> AppendsAfterInitializing(b, r, [], dirExists)
  {
    var ready := EnsureInitialized(b, dirExists);
    var javalinPath := PathSyntax.Translate(path);
    match ParseMethod(httpMethod)
    case Some(m) => Register(ready, RouteRegistration(m, javalinPath, handler))
    case None => ready
  }

  /** `addFilter`: initialize, translate the path, and register for the
      phase "BEFORE" or "AFTER" (exact match); any other kind registers nothing. */
  function AddFilter(b: Bridge, kind: string, path: string, handler: HandlerId, dirExists: string -> bool): (r: Bridge)
    ensures kind == "BEFORE" ==>
              AppendsAfterInitializing(b, r, [FilterRegistration(Before, PathSyntax.Translate(path), handler)], dirExists)
    ensures kind == "AFTER" ==>
              AppendsAfterInitializing(b, r, [FilterRegistration(After, PathSyntax.Translate(path), handler)], dirExists)
    ensures kind != "BEFORE" && kind != "AFTER" ==> AppendsAfterInitializing(b, r, [], dirExists)
  {
    var ready := EnsureInitialized(b, dirExists);
    var javalinPath := PathSyntax.Translate(path);
    if kind == "BEFORE" then Register(ready, FilterRegistration(Before, javalinPath, handler))
    else if kind == "AFTER" then Register(ready, FilterRegistration(After, javalinPath, handler))
    else ready
  }

  function AddExceptionHandler(b: Bridge, exceptionClass: string, handler: HandlerId, dirExists: string -> bool): (r: Bridge)
    ensures AppendsAfterInitializing(b, r, [ExceptionRegistration(exceptionClass, handler)], dirExists)
  {
    Register(EnsureInitialized(b, dirExists), ExceptionRegistration(exceptionClass, handler))
  }

  function AddNotFoundHandler(b: Bridge, handler: HandlerId, dirExists: string -> bool): (r: Bridge)
    ensures AppendsAfterInitializing(b, r, [ErrorRegistration(404, handler)], dirExists)
  {
    Register(EnsureInitialized(b, dirExists), ErrorRegistration(404, handler))
  }

  function AddInternalServerErrorHandler(b: Bridge, handler: HandlerId, dirExists: string -> bool): (r: Bridge)
    ensures AppendsAfterInitializing(b, r, [ErrorRegistration(500, handler)], dirExists)
  {
    Register(EnsureInitialized(b, dirExists), ErrorRegistration(500, handler))
  }

  // ---------------------------------------------------------------------
  // The public static API

  /** Every public static entry point, with its inputs. `Route` covers
      `get`, `post`, ..., `head`, which pass their method name literally. */
  datatype Call =
    | Port(port: int)
    | StaticLocation(location: string)
    | Route(httpMethod: HttpMethod, path: string, handler: HandlerId)
    | BeforeFilter(filterPath: Option<string>, handler: HandlerId)
    | AfterFilter(filterPath: Option<string>, handler: HandlerId)
    | ExceptionHandler(exceptionClass: string, handler: HandlerId)
    | NotFound(handler: HandlerId)
    | InternalServerError(handler: HandlerId)
    | AwaitInitialization
    | Stop

  function MethodName(m: HttpMethod): string {
    match m
    case GET => "GET"
    case POST => "POST"
    case PUT => "PUT"
    case DELETE => "DELETE"
    case PATCH => "PATCH"
    case OPTIONS => "OPTIONS"
    case HEAD => "HEAD"
  }

  function Step(b: Bridge, call: Call, dirExists: string -> bool): Bridge {
    match call
    case Port(p) => SetPort(b, p)
    case StaticLocation(l) => SetExternalLocation(b, l)
    case Route(m, path, h) => AddRoute(b, MethodName(m), path, h, dirExists)
    case BeforeFilter(path, h) => AddFilter(b, "BEFORE", path.GetOr(AllPaths), h, dirExists)
    case AfterFilter(path, h) => AddFilter(b, "AFTER", path.GetOr(AllPaths), h, dirExists)
    case ExceptionHandler(c, h) => AddExceptionHandler(b, c, h, dirExists)
    case NotFound(h) => AddNotFoundHandler(b, h, dirExists)
    case InternalServerError(h) => AddInternalServerErrorHandler(b, h, dirExists)
    case AwaitInitialization => InitializeServer(b, dirExists)
    case Stop => StopServer(b)
  }

  function Run(b: Bridge, calls: seq<Call>, dirExists: string -> bool): Bridge
    decreases |calls|
  {
    if |calls| == 0 then b else Run(Step(b, calls[0], dirExists), calls[1..], dirExists)
  }

  /** What one call adds to a running engine's registrations. */
  function Registers(call: Call): seq<Registration> {
    match call
    case Route(m, path, h) => [RouteRegistration(m, PathSyntax.Translate(path), h)]
    case BeforeFilter(path, h) => [FilterRegistration(Before, PathSyntax.Translate(path.GetOr(AllPaths)), h)]
    case AfterFilter(path, h) => [FilterRegistration(After, PathSyntax.Translate(path.GetOr(AllPaths)), h)]
    case ExceptionHandler(c, h) => [ExceptionRegistration(c, h)]
    case NotFound(h) => [ErrorRegistration(404, h)]
    case InternalServerError(h) => [ErrorRegistration(500, h)]
    case _ => []
  }

  function RegistersAll(calls: seq<Call>): seq<Registration>
    decreases |calls|
  {
    if |calls| == 0 then [] else Registers(calls[0]) + RegistersAll(calls[1..])
  }

  predicate IsRegistration(call: Call) {
    call.Route? || call.BeforeFilter? || call.AfterFilter? || call.ExceptionHandler? || call.NotFound? || call.InternalServerError?
  }

  // ---------------------------------------------------------------------
  // Lifecycle properties

  /** The method is matched without regard to ASCII case: `"get"`,
      `"Get"` and `"GET"` select the same route kind. */
  lemma ParseMethodIgnoresCase(a: string, b: string)
    requires SameIgnoringCase(a, b)
    ensures ParseMethod(a) == ParseMethod(b)
  {
    Text.UpperIgnoresCase(a, b);
  }

  lemma MethodNamesParse(m: HttpMethod)
    ensures ParseMethod(MethodName(m)) == Some(m)
  {
    var name := MethodName(m);
    assert Upper(name) == name;
  }

  /** Initialization is idempotent: a second call changes nothing, whatever
      the file system says by then. */
  lemma InitializeIsIdempotent(b: Bridge, dirExists: string -> bool, laterExists: string -> bool)
    ensures InitializeServer(InitializeServer(b, dirExists), laterExists) == InitializeServer(b, dirExists)
  {
  }

  /** A new engine serves the external location exactly when it is set and
      exists; otherwise it starts without static files. */
  lemma StaticRootOnlyWhenPresent(b: Bridge, dirExists: string -> bool)
    requires !b.Initialized()
    ensures var e := InitializeServer(b, dirExists).lifecycle.engine;
            e.registrations == [] && e.port == b.port
            && (e.staticDirectory.Some? <==> b.externalLocation.Some? && dirExists(b.externalLocation.value))
  {
  }

  /** `port(p)` and the static location only take effect when an engine is
      next created: a running engine keeps its port and static directory,
      and the next start after a stop uses the new ones. */
  lemma ConfigurationAppliesAtNextStart(b: Bridge, port: int, location: string, dirExists: string -> bool)
    ensures var configured := SetExternalLocation(SetPort(b, port), location);
            (b.Initialized() ==> InitializeServer(configured, dirExists).lifecycle.engine == b.lifecycle.engine)
            && (!b.Initialized() ==>
                  InitializeServer(configured, dirExists).lifecycle.engine
                  == Engine(port, if dirExists(location) then Some(location) else None, []))
  {
  }

  lemma StopWithoutEngineIsNoop(b: Bridge)
    requires b.lifecycle.NeverStarted?
    ensures StopServer(b) == b
  {
  }

  /** After a stop the next registration starts a fresh engine on the
      current port that holds only that registration: routes registered
      before the stop are not carried over. */
  lemma RestartDropsRegistrations(b: Bridge, port: int, m: HttpMethod, path: string, handler: HandlerId, dirExists: string -> bool)
    ensures var r := Step(SetPort(StopServer(b), port), Route(m, path, handler), dirExists);
            r.Initialized() && r.lifecycle.engine.port == port
            && r.lifecycle.engine.registrations == [RouteRegistration(m, PathSyntax.Translate(path), handler)]
  {
    MethodNamesParse(m);
  }

  /** `before(filter)` and `after(filter)` register on `AllPaths`, which
      the translation leaves as it is. */
  lemma PathlessFiltersCoverAllPaths(b: Bridge, handler: HandlerId, dirExists: string -> bool)
    ensures var e := ReadyEngine(b, dirExists);
            Step(b, BeforeFilter(None, handler), dirExists).lifecycle
              == Running(e.(registrations := e.registrations + [FilterRegistration(Before, "/*", handler)]))
            && Step(b, AfterFilter(None, handler), dirExists).lifecycle
              == Running(e.(registrations := e.registrations + [FilterRegistration(After, "/*", handler)]))
  {
    PathSyntax.TranslateWithoutColon(AllPaths);
  }

  /** Every registration call leaves the bridge initialized. */
  lemma {:induction false} RegistrationInitializes(b: Bridge, calls: seq<Call>, dirExists: string -> bool)
    requires |calls| > 0 && IsRegistration(calls[|calls| - 1])
    ensures Run(b, calls, dirExists).Initialized()
    decreases |calls|
  {
    if |calls| > 1 {
      RegistrationInitializes(Step(b, calls[0], dirExists), calls[1..], dirExists);
    }
  }

  /** One call other than `stop` on an initialized bridge keeps its engine
      and appends that call's registrations. */
  lemma StepRegisters(b: Bridge, call: Call, dirExists: string -> bool)
    requires b.Initialized() && !call.Stop?
    ensures Step(b, call, dirExists).lifecycle
            == Running(b.lifecycle.engine.(registrations := b.lifecycle.engine.registrations + Registers(call)))
  {
    if call.Route? {
      MethodNamesParse(call.httpMethod);
    }
  }

  /** One registering call on a running engine, peeled off a run. */
  lemma RunFirst(b: Bridge, calls: seq<Call>, dirExists: string -> bool) returns (next: Bridge)
    requires b.Initialized() && |calls| > 0 && !calls[0].Stop?
    ensures Run(b, calls, dirExists) == Run(next, calls[1..], dirExists)
    ensures next.Initialized()
    ensures next.lifecycle.engine.registrations == b.lifecycle.engine.registrations + Registers(calls[0])
    ensures next.lifecycle.engine.port == b.lifecycle.engine.port
    ensures next.lifecycle.engine.staticDirectory == b.lifecycle.engine.staticDirectory
  {
    next := Step(b, calls[0], dirExists);
    StepRegisters(b, calls[0], dirExists);
  }

  /** Registrations appended call by call, in the shape of `Run`. */
  function Appended(registrations: seq<Registration>, calls: seq<Call>): seq<Registration>
    decreases |calls|
  {
    if |calls| == 0 then registrations else Appended(registrations + Registers(calls[0]), calls[1..])
  }

  lemma {:induction false} AppendedIsConcatenation(registrations: seq<Registration>, calls: seq<Call>)
    ensures Appended(registrations, calls) == registrations + RegistersAll(calls)
    decreases |calls|
  {
    if |calls| > 0 {
      AppendedIsConcatenation(registrations + Registers(calls[0]), calls[1..]);
      assert registrations + Registers(calls[0]) + RegistersAll(calls[1..]) == registrations + RegistersAll(calls);
    }
  }

  /** While initialized and never stopped, the engine is the same one:
      same port and static directory, and its registrations are the
      earlier ones followed by those of each call, in call order. A
      `port(...)` call after initialization does not move the engine. */
  lemma {:induction false} RegistrationsAccumulate(b: Bridge, calls: seq<Call>, dirExists: string -> bool)
    requires b.Initialized()
    requires forall i :: 0 <= i < |calls| ==> !calls[i].Stop?
    ensures Run(b, calls, dirExists).Initialized()
    ensures Run(b, calls, dirExists).lifecycle.engine.registrations == Appended(b.lifecycle.engine.registrations, calls)
    ensures Run(b, calls, dirExists).lifecycle.engine.port == b.lifecycle.engine.port
    ensures Run(b, calls, dirExists).lifecycle.engine.staticDirectory == b.lifecycle.engine.staticDirectory
    decreases |calls|
  {
    if |calls| > 0 {
      var next := RunFirst(b, calls, dirExists);
      RegistrationsAccumulate(next, calls[1..], dirExists);
    }
  }

  /** Registrations after a run of calls: those already made, then each
      call's own registrations in call order. */
  lemma RegistrationsInCallOrder(b: Bridge, calls: seq<Call>, dirExists: string -> bool)
    requires b.Initialized()
    requires forall i :: 0 <= i < |calls| ==> !calls[i].Stop?
    ensures Run(b, calls, dirExists).Initialized()
    ensures Run(b, calls, dirExists).lifecycle.engine.registrations == b.lifecycle.engine.registrations + RegistersAll(calls)
  {
    RegistrationsAccumulate(b, calls, dirExists);
    AppendedIsConcatenation(b.lifecycle.engine.registrations, calls);
  }

  // ---------------------------------------------------------------------
  // Handler wrappers

  /** What a legacy route handler does with its façade: return a value
      (its `toString()`, or absent for null) or throw. */
  datatype RouteOutcome =
    | Returned(response: Response, result: Option<string>)
    | Threw(response: Response, exception: string)

  /** The engine context after a wrapper ran, or the exception it let through
      (with the context as the handler left it). */
  datatype Handled =
    | Completed(ctx: Context)
    | Raised(ctx: Context, exception: string)

  /** The `addRoute` wrapper: a fresh façade per invocation; the result is
      written to the body only when non-null and that façade was not
      redirected. */
  function RunRoute(route: Response -> RouteOutcome, ctx: Context): (h: Handled)
    ensures route(Of(ctx)).Threw? ==> h == Raised(route(Of(ctx)).response.ctx, route(Of(ctx)).exception)
    ensures route(Of(ctx)).Returned? ==> h.Completed?
    ensures route(Of(ctx)).Returned? && route(Of(ctx)).result.Some? && !IsRedirected(route(Of(ctx)).response) ==>
              h.ctx == SetBody(route(Of(ctx)).response, route(Of(ctx)).result.value).ctx
    ensures route(Of(ctx)).Returned? && (route(Of(ctx)).result.None? || IsRedirected(route(Of(ctx)).response)) ==>
              h.ctx == route(Of(ctx)).response.ctx
  {
    match route(Of(ctx))
    case Threw(response, e) => Raised(response.ctx, e)
    case Returned(response, result) =>
      if result.Some? && !response.redirected then Completed(response.ctx.(result := Some(result.value)))
      else Completed(response.ctx)
  }

  /** The `notFound` / `internalServerError` wrapper: any non-null result is
      written, redirected or not. */
  function RunErrorRoute(route: Response -> RouteOutcome, ctx: Context): (h: Handled)
    ensures route(Of(ctx)).Threw? ==> h == Raised(route(Of(ctx)).response.ctx, route(Of(ctx)).exception)
    ensures route(Of(ctx)).Returned? && route(Of(ctx)).result.Some? ==>
              h == Completed(SetBody(route(Of(ctx)).response, route(Of(ctx)).result.value).ctx)
    ensures route(Of(ctx)).Returned? && route(Of(ctx)).result.None? ==> h == Completed(route(Of(ctx)).response.ctx)
  {
    match route(Of(ctx))
    case Threw(response, e) => Raised(response.ctx, e)
    case Returned(response, result) =>
      if result.Some? then Completed(response.ctx.(result := Some(result.value)))
      else Completed(response.ctx)
  }

  /** What a legacy filter does with its façade: finish or throw. */
  datatype FilterOutcome =
    | Finished(response: Response)
    | Failed(response: Response, exception: string)

  /** The `addFilter` wrapper: a fresh façade; only the context survives. */
  function RunFilter(filter: Response -> FilterOutcome, ctx: Context): (h: Handled)
    ensures filter(Of(ctx)).Finished? ==> h == Completed(filter(Of(ctx)).response.ctx)
    ensures filter(Of(ctx)).Failed? ==> h == Raised(filter(Of(ctx)).response.ctx, filter(Of(ctx)).exception)
  {
    match filter(Of(ctx))
    case Finished(response) => Completed(response.ctx)
    case Failed(response, e) => Raised(response.ctx, e)
  }

  /** The `exception` wrapper: the handler gets the exception and a fresh
      façade. Like a filter it returns nothing, so its effects on the context
      are the outcome, and an unchecked exception it throws propagates. It is
      the filter wrapper applied to the handler with the exception bound. */
  function RunExceptionHandler(handler: (string, Response) -> FilterOutcome, exception: string, ctx: Context): (h: Handled)
    ensures h == RunFilter(r => handler(exception, r), ctx)
    ensures handler(exception, Of(ctx)).Finished? ==> h == Completed(handler(exception, Of(ctx)).response.ctx)
    ensures handler(exception, Of(ctx)).Failed? ==>
              h == Raised(handler(exception, Of(ctx)).response.ctx, handler(exception, Of(ctx)).exception)
  {
    match handler(exception, Of(ctx))
    case Finished(response) => Completed(response.ctx)
    case Failed(response, e) => Raised(response.ctx, e)
  }

  /** The route and error-route wrappers differ only in the redirect check:
      they produce the same outcome unless the handler redirected and
      returned a value, and then the error wrapper's context is the route
      wrapper's with the value written as the body. */
  lemma WrappersDifferOnlyAfterRedirect(route: Response -> RouteOutcome, ctx: Context)
    ensures !(route(Of(ctx)).Returned? && route(Of(ctx)).result.Some? && IsRedirected(route(Of(ctx)).response))
            ==> RunRoute(route, ctx) == RunErrorRoute(route, ctx)
    ensures route(Of(ctx)).Returned? && route(Of(ctx)).result.Some? && IsRedirected(route(Of(ctx)).response)
            ==> RunRoute(route, ctx).Completed? && RunErrorRoute(route, ctx).Completed?
                && RunErrorRoute(route, ctx).ctx == RunRoute(route, ctx).ctx.(result := route(Of(ctx)).result)
  {
  }

  /** A route that returns null is a filter: its wrapper keeps the context
      the handler left and lets an exception through unchanged. */
  lemma NullRouteIsFilter(route: Response -> RouteOutcome, ctx: Context)
    requires route(Of(ctx)).Returned? ==> route(Of(ctx)).result.None?
    ensures RunRoute(route, ctx) == RunFilter(r => match route(r)
                                                  case Returned(resp, _) => Finished(resp)
                                                  case Threw(resp, e) => Failed(resp, e), ctx)
  {
  }

  /** A route wrapper writes its result unless its own façade redirected:
      the body is the result exactly when the handler returned a value
      without redirecting, and otherwise is whatever the handler left. */
  lemma RouteBodyRule(route: Response -> RouteOutcome, ctx: Context)
    requires route(Of(ctx)).Returned?
    ensures var out := route(Of(ctx));
            var after := RunRoute(route, ctx).ctx;
            (out.result.Some? && !IsRedirected(out.response) ==> Body(Of(after)) == out.result)
            && (out.result.None? || IsRedirected(out.response) ==> Body(Of(after)) == Body(out.response))
            && after.(result := out.response.ctx.result) == out.response.ctx
  {
  }

  /** The route wrapper's redirect check sees only its own façade: given
      the context a redirecting filter left, a route wrapper whose handler
      returns a value still writes it. Whether the engine runs the route
      after such a filter is engine behaviour this model leaves out. */
  lemma FilterRedirectIsNotSeenByRoute(ctx: Context, location: string, text: string)
    ensures var filtered := RunFilter(r => Finished(Responses.Redirect(r, location)), ctx);
            filtered.Completed?
            && RunRoute(r => Returned(r, Some(text)), filtered.ctx)
               == Completed(filtered.ctx.(result := Some(text)))
  {
  }

  /** The error wrappers write a redirecting handler's result, where the
      route wrapper would not. */
  lemma ErrorRouteIgnoresRedirect(ctx: Context, location: string, text: string)
    ensures var route := (r: Response) => Returned(Responses.Redirect(r, location), Some(text));
            Body(Of(RunErrorRoute(route, ctx).ctx)) == Some(text)
            && RunRoute(route, ctx).ctx.result == ctx.result
  {
  }
}
