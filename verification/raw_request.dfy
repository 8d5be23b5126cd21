/** The servlet-style raw request (`spark.RawRequestWrapper`): attribute
    access on the engine context, one legacy attribute key that also
    records a multipart configuration, and part access delegated to the
    request façade. */
module RawRequest {
  import opened Wrappers
  import opened Values
  import opened Javalin
  import opened Parts
  import Requests

  /** The servlet container's key for a multipart configuration. */
  const MultipartConfigKey: string := "org.eclipse.jetty.multipartConfig"
  /** Where a recognised configuration is also recorded. */
  const RecordedConfigKey: string := "multipartConfig"

  /** Holds the context; the request façade it delegates to is the view
      over the same context. */
  datatype RawRequest = RawRequest(ctx: Context)

  /** `getAttribute(name)`: the request façade's attribute of the same name. */
  function GetAttribute(raw: RawRequest, name: string): (v: Option<Value>)
    ensures v.Some? <==> name in raw.ctx.attributes
    ensures v.Some? ==> v.value == raw.ctx.attributes[name]
  {
    Requests.Attribute(raw.ctx, name)
  }

  /** Stores `value` under `name`; a `MultipartConfigElement` stored under
      the container's key is recorded under "multipartConfig" as well. */
  function SetAttribute(raw: RawRequest, name: string, value: Value): (r: RawRequest)
    ensures GetAttribute(r, name) == Some(value)
    ensures name == MultipartConfigKey && value.MultipartConfig? ==>
              GetAttribute(r, RecordedConfigKey) == Some(value)
              && forall k :: k != name && k != RecordedConfigKey ==> GetAttribute(r, k) == GetAttribute(raw, k)
    ensures !(name == MultipartConfigKey && value.MultipartConfig?) ==>
              forall k :: k != name ==> GetAttribute(r, k) == GetAttribute(raw, k)
    ensures r.ctx.(attributes := raw.ctx.attributes) == raw.ctx
  {
    var stored := WithAttribute(raw.ctx, name, value);
    if name == MultipartConfigKey && value.MultipartConfig? then
      RawRequest(WithAttribute(stored, RecordedConfigKey, value))
    else RawRequest(stored)
  }

  function GetPart(raw: RawRequest, name: string): (p: Option<Part>)
    ensures p == Requests.GetPart(raw.ctx, name)
  {
    Requests.GetPart(raw.ctx, name)
  }

  function GetParts(raw: RawRequest): (ps: seq<Part>)
    ensures ps == Requests.GetParts(raw.ctx)
  {
    Requests.GetParts(raw.ctx)
  }

  /** Storing attributes, the multipart configuration included, never
      changes which parts are enumerated. */
  lemma AttributesDoNotAffectParts(raw: RawRequest, name: string, value: Value, part: string)
    ensures GetParts(SetAttribute(raw, name, value)) == GetParts(raw)
    ensures GetPart(SetAttribute(raw, name, value), part) == GetPart(raw, part)
  {
  }

  /** Attributes set through the raw request are those of the request façade. */
  lemma RawAttributesAreRequestAttributes(raw: RawRequest, name: string, value: Value, key: string)
    ensures GetAttribute(SetAttribute(raw, name, value), key) == Requests.Attribute(SetAttribute(raw, name, value).ctx, key)
    ensures name != MultipartConfigKey ==> SetAttribute(raw, name, value).ctx == Requests.SetAttribute(raw.ctx, name, value)
  {
  }
}
