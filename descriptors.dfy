/** The per-function descriptor (`exoframe.json`) and its expansion into the
    effective configuration (src/index.js:64). */
module Descriptors {
  import opened JsValues

  const HTTP := "http"
  const WORKER := "worker"
  const TRIGGER := "trigger"

  /** The descriptor's optional `function` object; a field that is Some is a
      key the object defines, and `rest` holds its other keys, which the core
      never inspects but keeps inside `config`. */
  datatype FunctionSection = FunctionSection(route: Option<string>, kind: Option<string>, rest: map<string, JsValue>)

  /** `{name, function?, ...}`: `rest` holds every other key of the parsed
      file, which the core never inspects but keeps (the whole descriptor
      becomes the record's `config`). */
  datatype Descriptor = Descriptor(name: string, section: Option<FunctionSection>, rest: map<string, JsValue>)

  datatype Effective = Effective(route: string, kind: string)

  function DefaultRoute(name: string): string {
    "/" + name
  }

  /** `{route: "/" + name, type: "http", ...function}`: each field of the
      `function` object overrides the corresponding default; a missing
      object overrides nothing. */
  function Expand(d: Descriptor): (c: Effective)
    ensures d.section.None? ==> c == Effective(DefaultRoute(d.name), HTTP)
    ensures d.section.Some? && d.section.value.route.Some? ==> c.route == d.section.value.route.value
    ensures d.section.Some? && d.section.value.route.None? ==> c.route == DefaultRoute(d.name)
    ensures d.section.Some? && d.section.value.kind.Some? ==> c.kind == d.section.value.kind.value
    ensures d.section.Some? && d.section.value.kind.None? ==> c.kind == HTTP
  {
    var section := match d.section
      case None => FunctionSection(None, None, map[])
      case Some(f) => f;
    Effective(
      match section.route case Some(r) => r case None => DefaultRoute(d.name),
      match section.kind case Some(k) => k case None => HTTP)
  }

  /** A default route is never the literal key "undefined" and always starts with '/'. */
  lemma DefaultRouteShape(name: string)
    ensures |DefaultRoute(name)| > 0 && DefaultRoute(name)[0] == '/'
    ensures DefaultRoute(name) != "undefined"
  {
    assert DefaultRoute(name)[0] == '/';
  }
}
