/** The slice of the underlying engine's per-request `Context` that the
    bridge reads and writes, as an immutable record of maps. Only the
    engine's observable accessors are modelled; how the engine fills the
    record (routing, multipart parsing, the session store) is outside the
    model. */
module Javalin {
  import opened Wrappers
  import opened Values

  /** One uploaded file as the engine describes it: its submitted filename
      (absent for a plain form field), byte size and content type. The
      engine's record carries no form-field name. */
  datatype UploadedFile = UploadedFile(filename: Option<string>, size: int, contentType: Option<string>)

  /** One entry of the engine's `uploadedFileMap()`: a field name and the
      files uploaded under it, in upload order. */
  datatype FileField = FileField(name: string, files: seq<UploadedFile>)

  /** A `Set-Cookie` instruction added to the response. */
  datatype CookieOp =
    | SetCookie(name: string, value: string, maxAge: int)
    | RemoveCookie(name: string)

  /** Redirect status used by the engine's one-argument `redirect`. */
  const Found: int := 302

  datatype Context = Context(
    // request side
    pathParams: map<string, string>,
    queryParams: map<string, seq<string>>,
    requestContentType: Option<string>,
    requestHeaders: map<string, string>,
    uploads: seq<FileField>,            // the upload map, in its iteration order
    attributes: map<string, Value>,     // per-request attributes
    sessionAttributes: map<string, Value>,
    // response side
    status: int,
    result: Option<string>,
    responseContentType: Option<string>,
    responseHeaders: map<string, string>,
    cookies: seq<CookieOp>)

  /** The engine's `pathParam(key)` throws `IllegalArgumentException`
      when the matched route declares no parameter of that name. */
  datatype PathParamError = NotAPathParam(key: string)

  /** `pathParam(key)`. `pathParams` holds exactly the parameters the
      matched route declares, so a missing key is the engine's throw. */
  function PathParam(ctx: Context, key: string): (r: Result<string, PathParamError>)
    ensures r.Success? <==> key in ctx.pathParams
    ensures r.Success? ==> r.value == ctx.pathParams[key]
    ensures r.Failure? ==> r.error == NotAPathParam(key)
  {
    if key in ctx.pathParams then Success(ctx.pathParams[key]) else Failure(NotAPathParam(key))
  }

  /** All values of a query key in order; empty when the key is absent. */
  function QueryParamValues(ctx: Context, key: string): (r: seq<string>)
    ensures key !in ctx.queryParams ==> r == []
    ensures key in ctx.queryParams ==> r == ctx.queryParams[key]
  {
    if key in ctx.queryParams then ctx.queryParams[key] else []
  }

  /** The first value of a query key, absent when there is none. */
  function QueryParam(ctx: Context, key: string): (r: Option<string>)
    ensures r.None? <==> QueryParamValues(ctx, key) == []
    ensures r.Some? ==> r.value == QueryParamValues(ctx, key)[0]
  {
    var values := QueryParamValues(ctx, key);
    if |values| == 0 then None else Some(values[0])
  }

  /** Files uploaded under `name`; empty when there is no such field. */
  function UploadedFiles(uploads: seq<FileField>, name: string): (r: seq<UploadedFile>)
    ensures (forall i :: 0 <= i < |uploads| ==> uploads[i].name != name) ==> r == []
    ensures forall i :: (0 <= i < |uploads| && uploads[i].name == name
                         && forall j :: 0 <= j < i ==> uploads[j].name != name) ==> r == uploads[i].files
  {
    if |uploads| == 0 then []
    else if uploads[0].name == name then uploads[0].files
    else UploadedFiles(uploads[1..], name)
  }

  /** The first file uploaded under `name`, absent when there is none. */
  function FirstUploadedFile(ctx: Context, name: string): (r: Option<UploadedFile>)
    ensures r.None? <==> UploadedFiles(ctx.uploads, name) == []
    ensures r.Some? ==> r.value == UploadedFiles(ctx.uploads, name)[0]
  {
    var files := UploadedFiles(ctx.uploads, name);
    if |files| == 0 then None else Some(files[0])
  }

  function Attribute(ctx: Context, key: string): (r: Option<Value>)
    ensures r.Some? <==> key in ctx.attributes
    ensures r.Some? ==> r.value == ctx.attributes[key]
  {
    Get(ctx.attributes, key)
  }

  function WithAttribute(ctx: Context, key: string, value: Value): (r: Context)
    ensures Attribute(r, key) == Some(value)
    ensures forall k :: k != key ==> Attribute(r, k) == Attribute(ctx, k)
    ensures r.(attributes := ctx.attributes) == ctx
  {
    ctx.(attributes := ctx.attributes[key := value])
  }

  function SessionAttribute(ctx: Context, key: string): (r: Option<Value>)
    ensures r.Some? <==> key in ctx.sessionAttributes
    ensures r.Some? ==> r.value == ctx.sessionAttributes[key]
  {
    Get(ctx.sessionAttributes, key)
  }

  /** The engine's `redirect(location, status)`: a `Location` header and the status. */
  function Redirect(ctx: Context, location: string, status: int): (r: Context)
    ensures r.responseHeaders == ctx.responseHeaders["Location" := location]
    ensures r.status == status
    ensures r.(responseHeaders := ctx.responseHeaders, status := ctx.status) == ctx
  {
    ctx.(responseHeaders := ctx.responseHeaders["Location" := location], status := status)
  }
}
