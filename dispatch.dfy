/** The decision inside the GET handler that `setup` installs
    (src/index.js:147-159): call the record's handler, or answer 404. */
module Dispatch {
  import opened JsValues
  import opened Descriptors
  import opened FunctionTable

  const NOT_FOUND_STATUS: nat := 404
  const NOT_FOUND_MESSAGE := "Error! Function not found!"

  datatype Decision =
      /** invoke the handler with a context whose logger is bound to `route` */
    | CallHandler(handler: CodeRef, route: string)
    | NotFound(status: nat, message: string)

  /** Only a record stored under exactly this route, and of type "http", is
      called; everything else gets the fixed 404. */
  function Decide(t: Table, route: string): (d: Decision)
    ensures d.CallHandler? <==> route in t.entries && t.entries[route].kind == HTTP
    ensures d.CallHandler? ==> d.handler == t.entries[route].handler && d.route == route
    ensures d.NotFound? ==> d == NotFound(NOT_FOUND_STATUS, NOT_FOUND_MESSAGE)
  {
    if route in t.entries && t.entries[route].kind == HTTP then
      CallHandler(t.entries[route].handler, route)
    else
      NotFound(NOT_FOUND_STATUS, NOT_FOUND_MESSAGE)
  }

  datatype Reply = Send(body: JsValue) | NoBody

  /** `if (res) reply.send(res)`: a body is sent only for a truthy result. */
  function AfterHandler(result: JsValue): (r: Reply)
    ensures r.Send? <==> Truthy(result)
    ensures r.Send? ==> r.body == result
  {
    if Truthy(result) then Send(result) else NoBody
  }

  /** Records of any other kind, even when they exist at the route, are
      invisible to HTTP: a worker or trigger route answers 404. */
  lemma NonHttpRouteIsNotFound(t: Table, route: string)
    requires route in t.entries && t.entries[route].kind != HTTP
    ensures Decide(t, route) == NotFound(404, "Error! Function not found!")
  {
  }
}
