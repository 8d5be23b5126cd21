# Spark-on-Javalin bridge — a Dafny model

The bridge lets code written against the Spark web framework run on the
Javalin engine. Its own logic is small:

- `Spark` rewrites Spark's `:name` path parameters into Javalin's `{name}`
  syntax. It registers routes, filters and handlers on one lazily started
  engine, and wraps every legacy handler in an engine handler.
- `Request` and `Response` are façades over the engine's per-request
  context.
- `Session` is an attribute bag whose derived fields are memoised in the
  bag itself.
- `RawRequestWrapper` and `PartWrapper` rebuild the servlet multipart API
  on top of the engine's uploaded-file records.

The model uses immutable datatypes and pure functions. Modules follow the
source files:

| module | file | models |
|---|---|---|
| `PathSyntax` | `path_syntax.dfy` | `convertSparkPathToJavalinPath` |
| `Spark` | `spark.dfy` | bridge lifecycle, registration, the public static API, handler wrappers |
| `Requests` | `request.dfy` | `spark.Request` |
| `Responses` | `response.dfy` | `spark.Response` |
| `Sessions` | `session.dfy` | `spark.Session` |
| `RawRequest` | `raw_request.dfy` | `spark.RawRequestWrapper` |
| `Parts` | `parts.dfy` | `spark.PartWrapper` |
| `Javalin` | `javalin.dfy` | the engine's per-request `Context`, as a record of maps |
| `Values` | `values.dfy` | Java objects stored in attribute maps, as a tagged union |
| `Text`, `Wrappers` | `text.dfy`, `wrappers.dfy` | ASCII case, search; `Option` (nullable) and `Result` (returns or throws) |

The engine is modelled by its observable effects:
- **Bridge state.** The bridge is a port, an optional static location, and
  a `Lifecycle`: `NeverStarted`, `Running(engine)` or `Stopped(engine)`.
  An engine is its port, its static directory and an append-only list of
  registrations.
- **Handlers.** Registrations carry handlers as opaque identifiers. The
  wrappers receive handlers as functions over the response façade.
- **External inputs.** Whether a directory exists is an oracle
  `dirExists`. The session's clock and UUID source are the parameters
  `now` and `freshId`.
- **The public static API.** Its calls form the datatype `Spark.Call`, and
  `Spark.Run` applies a sequence of them.

**Behaviour of the code worth knowing:**
- Restarting does not keep earlier registrations. After `stop()`,
  `initializeServer` (Spark.java:198-215) builds a new engine with
  `Javalin.create` (`RestartDropsRegistrations`).
- `session()` (Request.java:198-200) wraps whatever is stored under
  "spark-session" and never stores anything. Without a stored map,
  session writes are discarded (`SessionWriteWithoutStoreIsDiscarded`).
- The conversion regex `:([^/]+)` (Spark.java:137) also matches a colon
  inside a literal segment, so `foo:bar` becomes `foo{bar}`
  (`TranslateExampleParameterInSegment`). The Javadoc at
  Spark.java:132-133 speaks only of `:param` parameters.
- The route wrapper's "no body after a redirect" check (Spark.java:116)
  reads the flag of the `Response` it created itself, so it sees only
  redirects the route made through that façade
  (`FilterRedirectIsNotSeenByRoute`).

**Assumptions about the engine's API** (Javalin is not part of this model):
- `contentType()` and `header(name)` read the request. So `Response.type()`
  and `Response.header(name)` report request values
  (`TypeDoesNotRoundTrip`).
- `cookie(name, value)` uses max age -1.
- `redirect(location)` sets the `Location` header and status 302.
- `redirect` returns normally in every kind of handler. The engine may
  instead throw to skip the endpoint after a redirect in a before-filter.
  In that case `Response.redirect` never sets its flag, and the filter
  wrapper raises. That path is not modelled.
- `pathParam(key)` throws when the matched route declares no parameter
  named `key`. `pathParams` holds exactly the declared parameters.
- Every status code the façade is given is one the engine's `HttpStatus`
  enum knows. So `status()` reports the code `status(code)` set, and
  `redirect(location, code)` uses `code`. The engine's handling of a code
  outside the enum is not modelled.
- `uploadedFile(name)` is the first file of the list uploaded under
  `name`, and `queryParam(name)` is the first value.
- `uploadedFileMap()` iterates in a fixed order, which is the order of the
  `uploads` list.

## Model

| member | source | states |
|---|---|---|
| PathSyntax.TranslateWithoutColon | src/main/java/spark/Spark.java:135-138 | a path with no `:` (such as `/hello` or the wildcard path) is returned unchanged |
| PathSyntax.TranslateIsSegmentwise | src/main/java/spark/Spark.java:137 | the regex rewrite of a whole path equals splitting it at `/`, rewriting each segment by the segment rule, and joining again |
| PathSyntax.TranslatePreservesSegments | src/main/java/spark/Spark.java:137 | the translated path has the same number of `/` and of segments, in the same order, each segment rewritten independently |
| PathSyntax.TranslateSegmentLocal | src/main/java/spark/Spark.java:137 | inside one `/`-free segment the regex scan equals the rule "first `:` with something after it becomes `{`, and `}` is appended" |
| PathSyntax.TranslateAcrossSlash | src/main/java/spark/Spark.java:137 | no parameter match crosses a `/`: the rewrite of `head/rest` is the rewrite of `head`, then `/`, then the rewrite of `rest` |
| PathSyntax.TranslateParameterSegment | src/main/java/spark/Spark.java:137 | after a `:`-free prefix, `:name` becomes `{name}` and the prefix is kept, even when `name` holds further colons |
| PathSyntax.TranslateTrailingColon | src/main/java/spark/Spark.java:137 | a segment whose only colon is its last character is left as it is |
| PathSyntax.TranslateLiteralThenParameter | src/main/java/spark/Spark.java:137 | `/literal/:name` becomes `/literal/{name}` |
| PathSyntax.TranslateExampleParameterInSegment | src/main/java/spark/Spark.java:137 | `foo:bar` becomes `foo{bar}` |
| PathSyntax.TranslateExampleNameWithColon | src/main/java/spark/Spark.java:137 | `:a:b` becomes `{a:b}` |
| PathSyntax.TranslateExampleTrailingColon | src/main/java/spark/Spark.java:137 | `a:` is not rewritten |
| Spark.SetPort | src/main/java/spark/Spark.java:30-36 | records the port and leaves the location and any running engine alone |
| Spark.SetExternalLocation | src/main/java/spark/Spark.java:66-68 | records the location and leaves the port and any running engine alone |
| Spark.Fresh | src/main/java/spark/Spark.java:13-17 | the first instance is on port 7070, has no static location, and has never started an engine |
| Spark.StaticDirectory | src/main/java/spark/Spark.java:200-211 | a new engine serves static files exactly when a location is set and the directory exists, and then serves that location |
| Spark.InitializeServer | src/main/java/spark/Spark.java:198-215 | the result is initialized; an initialized bridge is returned unchanged; otherwise a new engine starts on the current port with no registrations; port and location settings are kept |
| Spark.EnsureInitialized | src/main/java/spark/Spark.java:192-196 | the guarded call is the same step as `initializeServer()` |
| Spark.StopServer | src/main/java/spark/Spark.java:217-222 | with no engine ever created nothing changes; otherwise the bridge is no longer initialized and keeps the stopped engine; settings are kept |
| Spark.ParseMethod | src/main/java/spark/Spark.java:121-129 | a method string selects GET, POST, PUT, DELETE, PATCH, OPTIONS or HEAD exactly when its upper-cased form is that name, and nothing otherwise |
| Spark.AddRoute | src/main/java/spark/Spark.java:106-130 | initializes if needed, then appends one route on the translated path under the parsed method; an unknown method appends nothing but has still initialized; nothing else changes |
| Spark.AddFilter | src/main/java/spark/Spark.java:140-157 | initializes if needed, then appends a before or after filter on the translated path for exactly "BEFORE" or "AFTER", and nothing for any other kind |
| Spark.AddExceptionHandler | src/main/java/spark/Spark.java:159-166 | initializes if needed and appends one exception registration |
| Spark.AddNotFoundHandler | src/main/java/spark/Spark.java:168-178 | initializes if needed and appends one error registration for status 404 |
| Spark.AddInternalServerErrorHandler | src/main/java/spark/Spark.java:180-190 | initializes if needed and appends one error registration for status 500 |
| Spark.MethodNamesParse | src/main/java/spark/Spark.java:38-64 | the method name each of `get` … `head` passes selects exactly that method |
| Spark.InitializeIsIdempotent | src/main/java/spark/Spark.java:198-199 | a second initialization changes nothing, whatever the file system says by then |
| Spark.StaticRootOnlyWhenPresent | src/main/java/spark/Spark.java:200-212 | a new engine has no registrations, the current port, and a static root exactly when the location is set and exists |
| Spark.ConfigurationAppliesAtNextStart | src/main/java/spark/Spark.java:198-215 | `port` and the static location leave a running engine alone and take effect at the next engine creation |
| Spark.StopWithoutEngineIsNoop | src/main/java/spark/Spark.java:217-222 | stopping before any engine exists changes nothing |
| Spark.RestartDropsRegistrations | src/main/java/spark/Spark.java:198-222 | after a stop, the next registration starts a new engine on the current port that holds only that registration |
| Spark.PathlessFiltersCoverAllPaths | src/main/java/spark/Spark.java:74-84 | `before(filter)` and `after(filter)` register on the wildcard path, unchanged by the translation |
| Spark.RegistrationInitializes | src/main/java/spark/Spark.java:192-196 | after any sequence of calls that ends with a registration, the bridge is initialized |
| Spark.StepRegisters | src/main/java/spark/Spark.java:106-190 | on a running engine, each call other than `stop` keeps the engine and appends exactly that call's registrations |
| Spark.RegistrationsAccumulate | src/main/java/spark/Spark.java:106-190 | without a stop, the engine keeps its port and static directory, and registrations are appended call by call |
| Spark.RegistrationsInCallOrder | src/main/java/spark/Spark.java:106-190 | without a stop, the registrations are the earlier ones followed by those of every call, in call order |
| Spark.RunRoute | src/main/java/spark/Spark.java:112-119 | an exception propagates with the context as the handler left it; a returned value is written to the body exactly when it is non-null and the wrapper's own façade did not redirect |
| Spark.RunErrorRoute | src/main/java/spark/Spark.java:170-177 | any non-null result is written to the body, redirected or not; a null result leaves the context as the handler left it |
| Spark.RunFilter | src/main/java/spark/Spark.java:146-150 | only the filter's effect on the context survives; an exception propagates |
| Spark.RunExceptionHandler | src/main/java/spark/Spark.java:159-166 | the exception wrapper is the filter wrapper with the exception bound: the handler's effect on the context is the outcome, and an exception it throws propagates with the context as it left it |
| Spark.WrappersDifferOnlyAfterRedirect | src/main/java/spark/Spark.java:112-119 | the route and error-route wrappers give the same outcome unless the handler redirected and returned a value; then the error wrapper's context is the route wrapper's with the value as body |
| Spark.NullRouteIsFilter | src/main/java/spark/Spark.java:112-119 | a route that returns null is wrapped exactly as a filter is: the context it leaves, or its exception |
| Spark.RouteBodyRule | src/main/java/spark/Spark.java:116-118 | after a route returns, the body is its result iff the result is non-null and not redirected, otherwise the body the handler left; nothing but the body differs |
| Spark.FilterRedirectIsNotSeenByRoute | src/main/java/spark/Spark.java:146-150 | a redirect made in a filter does not stop the following route from writing its result |
| Spark.ErrorRouteIgnoresRedirect | src/main/java/spark/Spark.java:182-189 | an error handler that redirects still has its result written, while a route wrapper would leave the body alone |
| Requests.StripColon | src/main/java/spark/Request.java:33 | exactly one leading `:` is removed when present; other names are unchanged |
| Requests.Params | src/main/java/spark/Request.java:31-35 | the path parameter under the name without its leading colon; the engine's "not a valid path-param" failure, naming the stripped name, when the route declares no such parameter |
| Requests.ParamsIgnoresOneColon | src/main/java/spark/Request.java:31-35 | `:x` and `x` look up the same parameter, and `::x` looks up `:x` |
| Requests.QueryParamsOr | src/main/java/spark/Request.java:125-128 | the stored first value when present, the default otherwise; never absent with a non-null default |
| Requests.QueryParamsValues | src/main/java/spark/Request.java:135-137 | every value of the key in order, empty when the key is absent, starting with the value `queryParams(name)` returns |
| Requests.IsMultipart | src/main/java/spark/Request.java:295-298 | false without a content type; otherwise true iff the lower-cased content type starts with `multipart/` |
| Requests.IsMultipartIgnoresCase | src/main/java/spark/Request.java:295-298 | content types differing only in ASCII case are classified alike |
| Requests.IsMultipartForMultipartTypes | src/main/java/spark/Request.java:295-298 | every content type beginning `multipart/` is multipart, whatever follows |
| Requests.GetPart | src/main/java/spark/Request.java:324-327 | absent iff no file was uploaded under the name, otherwise the first such file wrapped |
| Requests.GetParts | src/main/java/spark/Request.java:333-338 | one part per uploaded file, field after field, each field's files in order, files without filename included |
| Requests.PartsCountMatchesParts | src/main/java/spark/Request.java:344-348 | the parts count, the sum of the per-field list sizes, is the number of parts |
| Requests.PartsFollowFieldOrder | src/main/java/spark/Request.java:333-338 | the parts of an upload map split in two are the parts of the first half followed by those of the second |
| Requests.GetPartIsAmongParts | src/main/java/spark/Request.java:324-338 | a part returned by `getPart` is among `getParts()` |
| Requests.SetAttribute | src/main/java/spark/Request.java:251-253 | the attribute reads back, every other attribute is unchanged, and nothing else in the context changes |
| Requests.HasSession | src/main/java/spark/Request.java:205-207 | true iff something is stored under "spark-session" |
| Requests.Commit | src/main/java/spark/Request.java:198-200 | changes to the session from `session()` reach the context only when a map is stored there, which the session shares |
| Requests.SetSessionAttribute | src/main/java/spark/Request.java:220-223 | with a stored map the value reads back and other keys are unchanged; without one the context is unchanged; only the stored session map can change, and whether a session exists never changes |
| Requests.SessionOf | src/main/java/spark/Request.java:198-200 | the session's attributes are the stored map when one is stored, and empty otherwise |
| Requests.SessionAttributeOf | src/main/java/spark/Request.java:212-215 | the stored map's value under the name; always absent when no map is stored |
| Requests.GetPartsCount | src/main/java/spark/Request.java:344-348 | the count is the number of parts `getParts()` returns |
| Requests.SessionWriteWithoutStoreIsDiscarded | src/main/java/spark/Request.java:198-223 | with nothing stored, a session write is discarded, a following read is absent, and `hasSession()` stays false |
| Requests.SessionWriteThrough | src/main/java/spark/Request.java:220-223 | with a stored map, a session write reads back through a new `session()` |
| Requests.SessionIdThroughRequest | src/main/java/spark/Request.java:198-200 | an id read through `session()` is kept for later requests only when a map is stored |
| Sessions.Adopt | src/main/java/spark/Session.java:14-22 | the stored object becomes the attribute map if it is a map; otherwise the map starts empty |
| Sessions.Attribute | src/main/java/spark/Session.java:28-30 | the stored value, absent iff the key is unset |
| Sessions.SetAttribute | src/main/java/spark/Session.java:35-37 | the value reads back, and every other key is unchanged |
| Sessions.RemoveAttribute | src/main/java/spark/Session.java:42-44 | the key reads as absent, and every other key is unchanged |
| Sessions.AttributeNames | src/main/java/spark/Session.java:49-51 | a name is listed iff it has a value, derived keys included |
| Sessions.MemoizedTime | src/main/java/spark/Session.java:56-63 | an unset key gets the clock value stored and returned; a stored `Long` is returned without storing; any other stored object fails the cast |
| Sessions.CreationTime | src/main/java/spark/Session.java:56-63 | a stored `Long` is returned and nothing is stored; an unset key gets the clock value, stored under "creationTime" with other keys unchanged; fails iff a non-`Long` is stored |
| Sessions.LastAccessedTime | src/main/java/spark/Session.java:80-87 | the same memoisation under "lastAccessedTime": a stored `Long` is returned unchanged, an unset key stores the clock value |
| Sessions.Id | src/main/java/spark/Session.java:68-75 | a stored `String` id is returned and nothing is stored; an unset key gets the fresh id, stored under "sessionId" with other keys unchanged; fails iff a non-string is stored |
| Sessions.MaxInactiveInterval | src/main/java/spark/Session.java:92-95 | 1800 when unset, the stored `Integer` otherwise, a cast failure for any other object |
| Sessions.SetMaxInactiveInterval | src/main/java/spark/Session.java:100-102 | the interval reads back, and every other key is unchanged |
| Sessions.Invalidate | src/main/java/spark/Session.java:107-109 | every attribute is removed, derived keys included |
| Sessions.IsNew | src/main/java/spark/Session.java:114-117 | true when unset, the stored `Boolean` otherwise, a cast failure for any other object |
| Sessions.CreationTimeIsMemoized | src/main/java/spark/Session.java:56-63 | once read, the creation time is returned again whatever the clock says, and nothing more is stored |
| Sessions.LastAccessedTimeNeverAdvances | src/main/java/spark/Session.java:80-87 | every read after the first returns the first read's value |
| Sessions.IdIsStable | src/main/java/spark/Session.java:68-75 | the id is generated once and returned again whatever id source is offered; its key is listed among the attribute names |
| Sessions.InvalidateResetsIdentity | src/main/java/spark/Session.java:107-109 | after invalidation no names are listed, the next id and creation time are regenerated and stored, and the defaults apply again |
| Sessions.IsNewStaysTrue | src/main/java/spark/Session.java:114-117 | a new session stays new across any calls except a caller's own write of a non-true value under "isNew" |
| Sessions.IdSurvivesCalls | src/main/java/spark/Session.java:68-75 | once read, the id survives every sequence of calls that neither writes nor removes "sessionId" nor invalidates |
| Responses.Of | src/main/java/spark/Response.java:14-16 | a new façade is not redirected |
| Responses.SetStatus | src/main/java/spark/Response.java:21-23 | the status reads back; nothing else changes, the redirected flag included |
| Responses.SetType | src/main/java/spark/Response.java:35-37 | sets the response content type; nothing else changes |
| Responses.ReadsSeeOnlyTheRequest | src/main/java/spark/Response.java:35-72 | `type()` and `header(name)` report the request's values: no sequence of calls on the façade changes them |
| Responses.SetBody | src/main/java/spark/Response.java:49-51 | the body reads back; nothing else changes |
| Responses.SetHeader | src/main/java/spark/Response.java:63-65 | sets one response header; nothing else changes |
| Responses.Header | src/main/java/spark/Response.java:70-72 | reports the request header of that name, absent when there is none |
| Responses.CookieWithMaxAge | src/main/java/spark/Response.java:84-86 | appends one cookie with that max age; nothing else changes |
| Responses.RemoveCookie | src/main/java/spark/Response.java:112-114 | appends one cookie removal; nothing else changes |
| Responses.Redirect | src/main/java/spark/Response.java:126-129 | sets the flag and redirects with status 302 |
| Responses.RedirectWithStatus | src/main/java/spark/Response.java:134-137 | sets the flag and redirects with the given status |
| Responses.CookieOverloadsCollapse | src/main/java/spark/Response.java:77-107 | the overloads taking a path are the plain ones: the path and the secure flag change nothing, and the default max age is -1 |
| Responses.RemoveCookieIgnoresPath | src/main/java/spark/Response.java:119-121 | `removeCookie(path, name)` is `removeCookie(name)` for every path |
| Responses.BodyRoundTrip | src/main/java/spark/Response.java:49-58 | `body(s)` then `body()` gives `s` |
| Responses.StatusRoundTrip | src/main/java/spark/Response.java:21-30 | `status(c)` then `status()` gives `c` |
| Responses.TypeDoesNotRoundTrip | src/main/java/spark/Response.java:35-44 | `type(t)` then `type()` does not give `t` when the request's content type differs |
| Responses.RedirectedIffRedirectCalled | src/main/java/spark/Response.java:21-144 | after any calls the flag is set iff it was set before or one of the calls was a redirect, so once set it stays set |
| Responses.FreshResponseRedirectedIffRedirectCalled | src/main/java/spark/Response.java:12-16 | a new façade is redirected exactly when one of its calls redirected |
| RawRequest.SetAttribute | src/main/java/spark/RawRequestWrapper.java:42-52 | the value reads back; a multipart configuration under the container's key is also stored under "multipartConfig"; every other key is unchanged |
| RawRequest.GetAttribute | src/main/java/spark/RawRequestWrapper.java:57-59 | the value stored under the name, absent when there is none |
| RawRequest.GetPart | src/main/java/spark/RawRequestWrapper.java:25-27 | the request façade's `getPart` over the same context |
| RawRequest.GetParts | src/main/java/spark/RawRequestWrapper.java:33-35 | the request façade's `getParts` over the same context |
| RawRequest.AttributesDoNotAffectParts | src/main/java/spark/RawRequestWrapper.java:25-35 | storing any attribute, the multipart configuration included, changes neither `getPart` nor `getParts` |
| RawRequest.RawAttributesAreRequestAttributes | src/main/java/spark/RawRequestWrapper.java:42-59 | attributes set through the raw request are the request façade's attributes |
| Parts.Wrap | src/main/java/spark/PartWrapper.java:15-38 | the getters return the wrapped file's filename, size and content type |
| Parts.Name | src/main/java/spark/PartWrapper.java:43-45 | the part's name is its submitted filename, not a form-field name |
| Parts.WrapRoundTrip | src/main/java/spark/PartWrapper.java:15-38 | the uploaded-file record is recovered from the getters |
| Text.LowerIgnoresCase | src/main/java/spark/Request.java:297 | two strings lower-case to the same string iff they differ only in ASCII letter case |
| Text.LowerIsIdempotent | src/main/java/spark/Request.java:297 | lower-casing an already lower-cased string changes nothing |
| Text.UpperIgnoresCase | src/main/java/spark/Spark.java:121 | strings that differ only in ASCII letter case upper-case to the same string |
| Text.UpperIsIdempotent | src/main/java/spark/Spark.java:121 | upper-casing an already upper-cased string changes nothing |
| Spark.ParseMethodIgnoresCase | src/main/java/spark/Spark.java:121-129 | method names that differ only in ASCII letter case select the same route kind |

## Left out

- Server start and stop, port binding and static file serving: the engine is its registration list plus settings. `Files.exists` is the oracle `dirExists`.
- How the engine dispatches: path matching, filter order, exception-handler lookup by class, and when 404 and 500 handlers fire all happen inside the engine.
- Concurrency: the `synchronized` singleton is one sequential state value.
- `System.currentTimeMillis` and `UUID.randomUUID`: they are the parameters `now` and `freshId`.
- Streams and bytes: `PartWrapper.getInputStream` and `Request.bodyAsBytes`.
- Pass-through getters with no logic of their own, for example `requestMethod`, `userAgent`, `port`, `pathInfo`, `servletPath`, `contextPath`, `contentType`, `contentLength`, `queryString`, `params()`, `formParams`, `Response.raw()`, `getContext()`, `scheme`, `host`, `url`, `ip`, `headers`, `cookie`, `cookies`, `body`, `formParam`, `uploadedFiles`, `raw`, `context`, `getUploadedFile`, and the raw request's `getMethod`, `getRequestURI`, `getQueryString`, `getHeader`, `getContentType` and `getContentLength`.
- `StaticFiles.java` is not part of this model: only the external location it records is.
- Logging and console output, including the warning for a missing static directory.
- Demo programs: the multipart upload example and the test examples.
- Java `null` stored as an attribute value: a stored value is always a `Value`, and absence stands for `null`.
- Locale-dependent `toLowerCase` and `toUpperCase`: modelled as ASCII case mapping.
- Java integer widths: `Long`, `Integer` and `int` values are unbounded integers.
- Requests.GetPartsCount: the Java `int` sum can overflow, which this model does not represent; the count is a natural number.
- A failing start, for example a port already in use: initialization always succeeds here.
- The throwing of `ClassCastException` is modelled as a `Failure` that leaves the session as it was. Only the derived-key readers check the class.
- Responses.StatusRoundTrip: holds for codes the engine's `HttpStatus` enum knows. A code outside the enum goes through `HttpStatus.forStatus`, whose result the engine does not describe here, so the status is an unbounded integer.
- Duplicate field names in the upload map: `uploads` is a sequence, so two fields may share a name, which the engine's `Map` cannot hold. With duplicates, lookups by name use the first field.
