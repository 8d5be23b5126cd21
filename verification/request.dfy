/** The request façade (`spark.Request`): pure reads over the engine
    context, plus the two writes that go through to it (request attributes
    and session attributes). */
module Requests {
  import opened Wrappers
  import opened Values
  import opened Text
  import opened Javalin
  import Sessions
  import opened Parts

  /** The session attribute under which a session map is looked up. */
  const SessionKey: string := "spark-session"

  const MultipartPrefix: string := "multipart/"

  // ---------------------------------------------------------------------
  // Path and query parameters

  /** Removes exactly one leading `:`. */
  function StripColon(name: string): (r: string)
    ensures |name| > 0 && name[0] == ':' ==> name == ":" + r
    ensures !(|name| > 0 && name[0] == ':') ==> r == name
  {
    if |name| > 0 && name[0] == ':' then name[1..] else name
  }

  /** `params(name)`: the path parameter, accepting `:id` and `id` alike;
      a name the matched route does not declare makes the engine throw. */
  function Params(ctx: Context, name: string): (r: Result<string, PathParamError>)
    ensures r.Success? <==> StripColon(name) in ctx.pathParams
    ensures r.Success? ==> r.value == ctx.pathParams[StripColon(name)]
    ensures r.Failure? ==> r.error == NotAPathParam(StripColon(name))
  {
    PathParam(ctx, StripColon(name))
  }

  /** `:x` and `x` name the same parameter; only one colon is stripped. */
  lemma ParamsIgnoresOneColon(ctx: Context, name: string)
    ensures Params(ctx, ":" + name) == PathParam(ctx, name)
    ensures !(|name| > 0 && name[0] == ':') ==> Params(ctx, ":" + name) == Params(ctx, name)
    ensures Params(ctx, "::" + name) == PathParam(ctx, ":" + name)
  {
    assert (":" + name)[1..] == name;
    assert ("::" + name)[1..] == ":" + name;
  }

  /** `queryParams(name)`: the first value, absent when there is none. */
  function QueryParams(ctx: Context, name: string): Option<string> {
    QueryParam(ctx, name)
  }

  /** `queryParams(name, default)`: the stored value, else `default` (which
      may itself be null). */
  function QueryParamsOr(ctx: Context, name: string, default: Option<string>): (r: Option<string>)
    ensures QueryParams(ctx, name).Some? ==> r == QueryParams(ctx, name)
    ensures QueryParams(ctx, name).None? ==> r == default
    ensures default.Some? ==> r.Some?
  {
    if QueryParams(ctx, name).Some? then QueryParams(ctx, name) else default
  }

  /** `queryParamsValues(name)`: every value in order, empty when absent. */
  function QueryParamsValues(ctx: Context, name: string): (r: seq<string>)
    ensures name in ctx.queryParams ==> r == ctx.queryParams[name]
    ensures name !in ctx.queryParams ==> r == []
    ensures QueryParams(ctx, name).Some? ==> |r| > 0 && r[0] == QueryParams(ctx, name).value
  {
    QueryParamValues(ctx, name)
  }

  // ---------------------------------------------------------------------
  // Multipart detection

  /** `isMultipart()`: the request content type is present and, lower-cased,
      starts with `multipart/`. */
  function IsMultipart(ctx: Context): (b: bool)
    ensures ctx.requestContentType.None? ==> !b
    ensures ctx.requestContentType.Some? ==>
              (b <==> |ctx.requestContentType.value| >= |MultipartPrefix|
                      && forall i :: 0 <= i < |MultipartPrefix| ==>
                           LowerChar(ctx.requestContentType.value[i]) == MultipartPrefix[i])
  {
    ctx.requestContentType.Some? && StartsWith(Lower(ctx.requestContentType.value), MultipartPrefix)
  }

  /** Detection ignores ASCII letter case. */
  lemma IsMultipartIgnoresCase(ctx: Context, other: Context)
    requires ctx.requestContentType.Some? && other.requestContentType.Some?
    requires SameIgnoringCase(ctx.requestContentType.value, other.requestContentType.value)
    ensures IsMultipart(ctx) == IsMultipart(other)
  {
    LowerIgnoresCase(ctx.requestContentType.value, other.requestContentType.value);
  }

  /** Every content type that starts with `multipart/` (in any case) is
      multipart, whatever follows. */
  lemma IsMultipartForMultipartTypes(ctx: Context, subtype: string)
    requires ctx.requestContentType == Some(MultipartPrefix + subtype)
    ensures IsMultipart(ctx)
  {
    var ct := MultipartPrefix + subtype;
    forall i | 0 <= i < |MultipartPrefix| ensures LowerChar(ct[i]) == MultipartPrefix[i] {
      assert ct[i] == MultipartPrefix[i];
    }
  }

  // ---------------------------------------------------------------------
  // Uploaded files as parts

  /** `uploadedFile(name)`: the first file uploaded under `name`. */
  function UploadedFile(ctx: Context, name: string): Option<Javalin.UploadedFile> {
    FirstUploadedFile(ctx, name)
  }

  /** `getPart(name)`: absent iff no file was uploaded under `name`,
      otherwise that file wrapped. */
  function GetPart(ctx: Context, name: string): (r: Option<Part>)
    ensures r.None? <==> UploadedFile(ctx, name).None?
    ensures r.Some? ==> r.value == Wrap(UploadedFile(ctx, name).value)
  {
    match UploadedFile(ctx, name)
    case None => None
    case Some(file) => Some(Wrap(file))
  }

  /** The files of all fields, field after field, each field's in order. */
  function Flatten(fields: seq<FileField>): seq<Javalin.UploadedFile>
    decreases |fields|
  {
    if |fields| == 0 then [] else fields[0].files + Flatten(fields[1..])
  }

  /** The total number of files over all fields. */
  function TotalFiles(fields: seq<FileField>): nat
    decreases |fields|
  {
    if |fields| == 0 then 0 else |fields[0].files| + TotalFiles(fields[1..])
  }

  function WrapAll(files: seq<Javalin.UploadedFile>): (parts: seq<Part>)
    ensures |parts| == |files|
    ensures forall i :: 0 <= i < |files| ==> parts[i] == Wrap(files[i])
  {
    seq(|files|, i requires 0 <= i < |files| => Wrap(files[i]))
  }

  /** `getParts()`: every uploaded file, in upload-map order, wrapped. Files
      without a filename are kept. */
  function GetParts(ctx: Context): (parts: seq<Part>)
    ensures |parts| == |Flatten(ctx.uploads)|
    ensures forall i :: 0 <= i < |parts| ==> parts[i].file == Flatten(ctx.uploads)[i]
  {
    WrapAll(Flatten(ctx.uploads))
  }

  /** `getPartsCount()`: the sum of the per-field list sizes, which is the
      number of parts `getParts()` returns. */
  function GetPartsCount(ctx: Context): (n: nat)
    ensures n == |GetParts(ctx)|
  {
    FlattenLength(ctx.uploads);
    TotalFiles(ctx.uploads)
  }

  lemma {:induction false} FlattenAppend(a: seq<FileField>, b: seq<FileField>)
    ensures Flatten(a + b) == Flatten(a) + Flatten(b)
    decreases |a|
  {
    if |a| == 0 {
      assert a + b == b;
    } else {
      assert (a + b)[0] == a[0];
      assert (a + b)[1..] == a[1..] + b;
      FlattenAppend(a[1..], b);
    }
  }

  lemma {:induction false} FlattenLength(fields: seq<FileField>)
    ensures |Flatten(fields)| == TotalFiles(fields)
    decreases |fields|
  {
    if |fields| > 0 {
      FlattenLength(fields[1..]);
    }
  }

  /** The count is the number of parts. */
  lemma PartsCountMatchesParts(ctx: Context)
    ensures GetPartsCount(ctx) == |GetParts(ctx)|
  {
    FlattenLength(ctx.uploads);
  }

  /** Parts come field after field: the parts of a split upload map are the
      parts of its first half followed by those of its second half. */
  lemma PartsFollowFieldOrder(ctx: Context, k: nat)
    requires k <= |ctx.uploads|
    ensures GetParts(ctx) == WrapAll(Flatten(ctx.uploads[..k])) + WrapAll(Flatten(ctx.uploads[k..]))
  {
    assert ctx.uploads == ctx.uploads[..k] + ctx.uploads[k..];
    FlattenAppend(ctx.uploads[..k], ctx.uploads[k..]);
  }

  /** A part named by `getPart` is among `getParts()`. */
  lemma {:induction false} GetPartIsAmongParts(ctx: Context, name: string)
    requires GetPart(ctx, name).Some?
    ensures GetPart(ctx, name).value in GetParts(ctx)
  {
    var file := UploadedFile(ctx, name).value;
    FirstFileIsFlattened(ctx.uploads, name);
    var i :| 0 <= i < |Flatten(ctx.uploads)| && Flatten(ctx.uploads)[i] == file;
    assert GetParts(ctx)[i] == Wrap(file);
  }

  lemma {:induction false} FirstFileIsFlattened(fields: seq<FileField>, name: string)
    requires |UploadedFiles(fields, name)| > 0
    ensures UploadedFiles(fields, name)[0] in Flatten(fields)
    decreases |fields|
  {
    if fields[0].name != name {
      FirstFileIsFlattened(fields[1..], name);
    }
  }

  // ---------------------------------------------------------------------
  // Request attributes

  function Attribute(ctx: Context, name: string): Option<Value> {
    Javalin.Attribute(ctx, name)
  }

  function SetAttribute(ctx: Context, name: string, value: Value): (r: Context)
    ensures Attribute(r, name) == Some(value)
    ensures forall k :: k != name ==> Attribute(r, k) == Attribute(ctx, k)
    ensures r.(attributes := ctx.attributes) == ctx
  {
    WithAttribute(ctx, name, value)
  }

  // ---------------------------------------------------------------------
  // Sessions

  /** `session()`: a session over the stored object, a fresh empty one when
      nothing (or a non-map) is stored. It is never stored. */
  function SessionOf(ctx: Context): (s: Sessions.Session)
    ensures WritesThrough(ctx) ==> s.attributes == ctx.sessionAttributes[SessionKey].entries
    ensures !WritesThrough(ctx) ==> s.attributes == map[]
  {
    Sessions.Adopt(SessionAttribute(ctx, SessionKey))
  }

  /** Whether the façade's session writes reach the context: only when the
      stored object is a map, which the session then shares. */
  predicate WritesThrough(ctx: Context) {
    SessionKey in ctx.sessionAttributes && ctx.sessionAttributes[SessionKey].MapValue?
  }

  /** `hasSession()`: some object is stored under "spark-session". */
  function HasSession(ctx: Context): (b: bool)
    ensures b <==> SessionAttribute(ctx, SessionKey).Some?
  {
    SessionKey in ctx.sessionAttributes
  }

  /** The effect on the context of mutating the session from `session()`:
      the shared map is updated when there is one, otherwise the change is
      lost with the throw-away session. */
  function Commit(ctx: Context, s: Sessions.Session): (r: Context)
    ensures WritesThrough(ctx) ==> r == ctx.(sessionAttributes := ctx.sessionAttributes[SessionKey := Values.MapValue(s.attributes)])
    ensures !WritesThrough(ctx) ==> r == ctx
  {
    if WritesThrough(ctx) then
      ctx.(sessionAttributes := ctx.sessionAttributes[SessionKey := Values.MapValue(s.attributes)])
    else ctx
  }

  /** `session(name)`: read from the stored map; absent whenever no map is
      stored, since the throw-away session starts empty. */
  function SessionAttributeOf(ctx: Context, name: string): (r: Option<Value>)
    ensures WritesThrough(ctx) ==> r == Get(ctx.sessionAttributes[SessionKey].entries, name)
    ensures !WritesThrough(ctx) ==> r.None?
  {
    Sessions.Attribute(SessionOf(ctx), name)
  }

  /** `session(name, value)`. */
  function SetSessionAttribute(ctx: Context, name: string, value: Value): (r: Context)
    ensures HasSession(r) == HasSession(ctx)
    ensures WritesThrough(r) == WritesThrough(ctx)
    ensures WritesThrough(ctx) ==> SessionAttributeOf(r, name) == Some(value)
    ensures WritesThrough(ctx) ==> forall k :: k != name ==> SessionAttributeOf(r, k) == SessionAttributeOf(ctx, k)
    ensures !WritesThrough(ctx) ==> r == ctx
    ensures r.(sessionAttributes := ctx.sessionAttributes) == ctx
    ensures forall k :: k != SessionKey ==> SessionAttribute(r, k) == SessionAttribute(ctx, k)
  {
    Commit(ctx, Sessions.SetAttribute(SessionOf(ctx), name, value))
  }

  /** Without a stored map every session write is discarded: the next read
      sees nothing, and the request still has no session. */
  lemma SessionWriteWithoutStoreIsDiscarded(ctx: Context, name: string, value: Value)
    requires SessionKey !in ctx.sessionAttributes
    ensures SetSessionAttribute(ctx, name, value) == ctx
    ensures SessionAttributeOf(SetSessionAttribute(ctx, name, value), name) == None
    ensures !HasSession(SetSessionAttribute(ctx, name, value))
  {
  }

  /** With a stored map, writes go through and read back. */
  lemma SessionWriteThrough(ctx: Context, name: string, value: Value)
    requires WritesThrough(ctx)
    ensures SessionAttributeOf(SetSessionAttribute(ctx, name, value), name) == Some(value)
    ensures HasSession(SetSessionAttribute(ctx, name, value))
  {
  }

  /** Reading the session id through `session()` is stable across two
      requests sharing a stored map, and lost when there is none. */
  lemma SessionIdThroughRequest(ctx: Context, freshId: string, otherId: string)
    requires Sessions.Id(SessionOf(ctx), freshId).Success?
    ensures var first := Sessions.Id(SessionOf(ctx), freshId).value;
            var after := Commit(ctx, first.session);
            (WritesThrough(ctx) ==> Sessions.Id(SessionOf(after), otherId) == Success(Sessions.Read(SessionOf(after), first.value)))
            && (!WritesThrough(ctx) ==> after == ctx)
  {
  }
}
