/** The authorizer interface's shared types: the inbound request and the storage
    query that `secure_read` narrows in place. */
module Auth {
  import opened Wrappers
  import opened Json

  /** An inbound request as the authorizers see it: its header map, nothing else. */
  datatype Request = Request(headers: map<string, string>)

  /** `Request::new`: the request keeps the given header map as it is. */
  function NewRequest(headers: map<string, string>): (r: Request)
    ensures r.headers == headers
  {
    Request(headers)
  }

  /** `Request::get_header`: exact-key lookup, so header names are case-sensitive. */
  function GetHeader(req: Request, name: string): (r: Option<string>)
    ensures r.Some? <==> name in req.headers
    ensures r.Some? ==> r.value == req.headers[name]
  {
    if name in req.headers then Some(req.headers[name]) else None
  }

  /** A header of a freshly built request is found exactly when the map given to
      `Request::new` holds it, with the same value. */
  lemma HeaderOfNewRequest(headers: map<string, string>, name: string, value: string)
    ensures GetHeader(NewRequest(headers), name) == Some(value)
        <==> name in headers && headers[name] == value
  {
  }

  /** The storage query handed to `secure_read` by mutable reference
      (`&mut HashMap<String, Value>`). */
  class QueryMap {
    var entries: map<string, Json>

    constructor (entries: map<string, Json>)
      ensures this.entries == entries
    {
      this.entries := entries;
    }
  }
}
