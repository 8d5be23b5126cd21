/** The response façade (`spark.Response`): the engine context it writes
    to, plus the façade's own `redirected` flag. Every setter returns the
    updated façade. The engine's `contentType()` and `header(name)` read
    the request, so `Type` and `Header` do too. */
module Responses {
  import opened Wrappers
  import opened Javalin

  datatype Response = Response(ctx: Context, redirected: bool)

  /** A fresh façade over `ctx`: not redirected. */
  function Of(ctx: Context): (r: Response)
    ensures !IsRedirected(r) && r.ctx == ctx
  {
    Response(ctx, false)
  }

  function IsRedirected(r: Response): bool {
    r.redirected
  }

  function SetStatus(r: Response, code: int): (t: Response)
    ensures Status(t) == code
    ensures IsRedirected(t) == IsRedirected(r)
    ensures t.ctx.(status := r.ctx.status) == r.ctx
  {
    r.(ctx := r.ctx.(status := code))
  }

  function Status(r: Response): int {
    r.ctx.status
  }

  /** Sets the response content type. */
  function SetType(r: Response, contentType: string): (t: Response)
    ensures t.ctx.responseContentType == Some(contentType)
    ensures IsRedirected(t) == IsRedirected(r)
    ensures t.ctx.(responseContentType := r.ctx.responseContentType) == r.ctx
  {
    r.(ctx := r.ctx.(responseContentType := Some(contentType)))
  }

  /** The content type the engine reports: the request's. */
  function Type(r: Response): (ct: Option<string>)
    ensures ct == r.ctx.requestContentType
  {
    r.ctx.requestContentType
  }

  function SetBody(r: Response, body: string): (t: Response)
    ensures Body(t) == Some(body)
    ensures IsRedirected(t) == IsRedirected(r)
    ensures t.ctx.(result := r.ctx.result) == r.ctx
  {
    r.(ctx := r.ctx.(result := Some(body)))
  }

  function Body(r: Response): Option<string> {
    r.ctx.result
  }

  function SetHeader(r: Response, name: string, value: string): (t: Response)
    ensures t.ctx.responseHeaders == r.ctx.responseHeaders[name := value]
    ensures IsRedirected(t) == IsRedirected(r)
    ensures t.ctx.(responseHeaders := r.ctx.responseHeaders) == r.ctx
  {
    r.(ctx := r.ctx.(responseHeaders := r.ctx.responseHeaders[name := value]))
  }

  /** The header the engine reports: the request's. */
  function Header(r: Response, name: string): (v: Option<string>)
    ensures v.Some? <==> name in r.ctx.requestHeaders
    ensures v.Some? ==> v.value == r.ctx.requestHeaders[name]
  {
    Get(r.ctx.requestHeaders, name)
  }

  /** `cookie(name, value, maxAge)`: the one overload every other reduces to. */
  function CookieWithMaxAge(r: Response, name: string, value: string, maxAge: int): (t: Response)
    ensures t.ctx.cookies == r.ctx.cookies + [SetCookie(name, value, maxAge)]
    ensures IsRedirected(t) == IsRedirected(r)
    ensures t.ctx.(cookies := r.ctx.cookies) == r.ctx
  {
    r.(ctx := r.ctx.(cookies := r.ctx.cookies + [SetCookie(name, value, maxAge)]))
  }

  /** `cookie(name, value)`: the engine's default max age, -1 (a session cookie). */
  function Cookie(r: Response, name: string, value: string): Response {
    CookieWithMaxAge(r, name, value, -1)
  }

  /** `cookie(path, name, value)`: the path is dropped. */
  function CookieWithPath(r: Response, path: string, name: string, value: string): Response {
    CookieWithMaxAge(r, name, value, -1)
  }

  /** `cookie(path, name, value, maxAge)`: the path is dropped. */
  function CookieWithPathAndMaxAge(r: Response, path: string, name: string, value: string, maxAge: int): Response {
    CookieWithMaxAge(r, name, value, maxAge)
  }

  /** `cookie(path, name, value, maxAge, secured)`: path and secured are dropped. */
  function SecuredCookie(r: Response, path: string, name: string, value: string, maxAge: int, secured: bool): Response {
    CookieWithMaxAge(r, name, value, maxAge)
  }

  function RemoveCookie(r: Response, name: string): (t: Response)
    ensures t.ctx.cookies == r.ctx.cookies + [CookieOp.RemoveCookie(name)]
    ensures IsRedirected(t) == IsRedirected(r)
    ensures t.ctx.(cookies := r.ctx.cookies) == r.ctx
  {
    r.(ctx := r.ctx.(cookies := r.ctx.cookies + [CookieOp.RemoveCookie(name)]))
  }

  /** `removeCookie(path, name)`: the path is dropped. */
  function RemoveCookieWithPath(r: Response, path: string, name: string): Response {
    RemoveCookie(r, name)
  }

  function Redirect(r: Response, location: string): (t: Response)
    ensures IsRedirected(t)
    ensures t.ctx == Javalin.Redirect(r.ctx, location, Found)
  {
    Response(Javalin.Redirect(r.ctx, location, Found), true)
  }

  function RedirectWithStatus(r: Response, location: string, code: int): (t: Response)
    ensures IsRedirected(t)
    ensures t.ctx == Javalin.Redirect(r.ctx, location, code)
  {
    Response(Javalin.Redirect(r.ctx, location, code), true)
  }

  // ---------------------------------------------------------------------
  // Overload collapsing

  /** The path-taking cookie overloads are the plain ones: path and the
      secure flag change nothing. */
  lemma CookieOverloadsCollapse(r: Response, path: string, name: string, value: string, maxAge: int, secured: bool)
    ensures CookieWithPath(r, path, name, value) == Cookie(r, name, value)
    ensures CookieWithPath(r, path, name, value).ctx.cookies == r.ctx.cookies + [SetCookie(name, value, -1)]
    ensures CookieWithPathAndMaxAge(r, path, name, value, maxAge) == CookieWithMaxAge(r, name, value, maxAge)
    ensures SecuredCookie(r, path, name, value, maxAge, secured) == CookieWithMaxAge(r, name, value, maxAge)
    ensures SecuredCookie(r, path, name, value, maxAge, true) == SecuredCookie(r, "/", name, value, maxAge, false)
  {
  }

  lemma RemoveCookieIgnoresPath(r: Response, path: string, otherPath: string, name: string)
    ensures RemoveCookieWithPath(r, path, name) == RemoveCookie(r, name)
    ensures RemoveCookieWithPath(r, path, name) == RemoveCookieWithPath(r, otherPath, name)
  {
  }

  // ---------------------------------------------------------------------
  // Round trips

  lemma BodyRoundTrip(r: Response, body: string)
    ensures Body(SetBody(r, body)) == Some(body)
  {
  }

  lemma StatusRoundTrip(r: Response, code: int)
    ensures Status(SetStatus(r, code)) == code
  {
  }

  /** `type(t)` followed by `type()` reports the request's content type, not `t`. */
  lemma TypeDoesNotRoundTrip(r: Response, contentType: string)
    requires r.ctx.requestContentType != Some(contentType)
    ensures Type(SetType(r, contentType)) != Some(contentType)
  {
  }

  // ---------------------------------------------------------------------
  // The redirected flag

  /** Every public operation of the façade, with its inputs. */
  datatype ResponseCall =
    | PutStatus(code: int)
    | PutType(contentType: string)
    | PutBody(body: string)
    | PutHeader(name: string, value: string)
    | PutCookie(path: Option<string>, name: string, value: string, maxAge: Option<int>, secured: Option<bool>)
    | DropCookie(path: Option<string>, name: string)
    | RedirectTo(location: string, redirectStatus: Option<int>)
    | Read

  function Apply(r: Response, call: ResponseCall): Response {
    match call
    case PutStatus(code) => SetStatus(r, code)
    case PutType(ct) => SetType(r, ct)
    case PutBody(b) => SetBody(r, b)
    case PutHeader(n, v) => SetHeader(r, n, v)
    case PutCookie(path, n, v, maxAge, secured) =>
      (match (path, maxAge, secured)
       case (None, None, _) => Cookie(r, n, v)
       case (None, Some(m), _) => CookieWithMaxAge(r, n, v, m)
       case (Some(p), None, _) => CookieWithPath(r, p, n, v)
       case (Some(p), Some(m), None) => CookieWithPathAndMaxAge(r, p, n, v, m)
       case (Some(p), Some(m), Some(s)) => SecuredCookie(r, p, n, v, m, s))
    case DropCookie(path, n) =>
      (match path case None => RemoveCookie(r, n) case Some(p) => RemoveCookieWithPath(r, p, n))
    case RedirectTo(location, code) =>
      (match code case None => Redirect(r, location) case Some(c) => RedirectWithStatus(r, location, c))
    case Read => r
  }

  function ApplyAll(r: Response, calls: seq<ResponseCall>): Response
    decreases |calls|
  {
    if |calls| == 0 then r else ApplyAll(Apply(r, calls[0]), calls[1..])
  }

  /** The flag is monotone and set by redirects alone: after any sequence of
      calls it is set iff it was set before or one of the calls redirected. */
  lemma {:induction false} RedirectedIffRedirectCalled(r: Response, calls: seq<ResponseCall>)
    ensures IsRedirected(ApplyAll(r, calls))
            <==> IsRedirected(r) || exists i :: 0 <= i < |calls| && calls[i].RedirectTo?
    decreases |calls|
  {
    if |calls| > 0 {
      var next := Apply(r, calls[0]);
      assert IsRedirected(next) <==> IsRedirected(r) || calls[0].RedirectTo?;
      RedirectedIffRedirectCalled(next, calls[1..]);
      if exists i :: 0 <= i < |calls[1..]| && calls[1..][i].RedirectTo? {
        var i :| 0 <= i < |calls[1..]| && calls[1..][i].RedirectTo?;
        assert calls[i + 1].RedirectTo?;
      }
      if exists i :: 0 <= i < |calls| && calls[i].RedirectTo? {
        var i :| 0 <= i < |calls| && calls[i].RedirectTo?;
        if i > 0 {
          assert calls[1..][i - 1].RedirectTo?;
        }
      }
    }
  }

  /** `type()` and `header(name)` read the request: no sequence of calls on
      the façade changes what they report. */
  lemma {:induction false} ReadsSeeOnlyTheRequest(r: Response, calls: seq<ResponseCall>)
    ensures Type(ApplyAll(r, calls)) == Type(r)
    ensures forall name :: Header(ApplyAll(r, calls), name) == Header(r, name)
    decreases |calls|
  {
    if |calls| > 0 {
      ApplyKeepsRequest(r, calls[0]);
      ReadsSeeOnlyTheRequest(Apply(r, calls[0]), calls[1..]);
    }
  }

  /** One call writes only the response side of the context. */
  lemma ApplyKeepsRequest(r: Response, call: ResponseCall)
    ensures Apply(r, call).ctx.requestContentType == r.ctx.requestContentType
    ensures Apply(r, call).ctx.requestHeaders == r.ctx.requestHeaders
  {
    var t := Apply(r, call);
    match call
    case PutStatus(code) =>
      assert t == SetStatus(r, code);
    case PutType(ct) =>
      assert t == SetType(r, ct);
    case PutBody(b) =>
      assert t == SetBody(r, b);
    case PutHeader(n, v) =>
      assert t == SetHeader(r, n, v);
    case PutCookie(path, n, v, maxAge, secured) =>
      assert t.ctx.(cookies := r.ctx.cookies) == r.ctx by {
        match (path, maxAge, secured) {
          case (None, None, _) =>
          case (None, Some(m), _) =>
          case (Some(p), None, _) =>
          case (Some(p), Some(m), None) =>
          case (Some(p), Some(m), Some(sec)) =>
        }
      }
    case DropCookie(path, n) =>
      assert t.ctx.(cookies := r.ctx.cookies) == r.ctx;
    case RedirectTo(location, code) =>
      assert t.ctx.(responseHeaders := r.ctx.responseHeaders, status := r.ctx.status) == r.ctx;
    case Read =>
  }

  /** A fresh façade is redirected exactly when one of its calls redirected. */
  lemma FreshResponseRedirectedIffRedirectCalled(ctx: Context, calls: seq<ResponseCall>)
    ensures IsRedirected(ApplyAll(Of(ctx), calls)) <==> exists i :: 0 <= i < |calls| && calls[i].RedirectTo?
  {
    RedirectedIffRedirectCalled(Of(ctx), calls);
  }
}
