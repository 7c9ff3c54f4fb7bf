/** The authorizer that authorizes everything and changes nothing. */
module NoOp {
  import opened Wrappers
  import opened Json
  import opened Auth

  /** There is never a credential. */
  function GetCredential(req: Request): (r: Option<string>)
    ensures r == None
  {
    None
  }

  /** Data to be written is returned as it came. */
  function SecureData(req: Request, data: Json): (r: Json)
    ensures r == data
  {
    data
  }

  /** Responses are passed through. */
  function AuthorizeResponse(req: Request, res: Json): (r: Json)
    ensures r == res
  {
    res
  }

  /** Every document is visible to every request. */
  predicate IsAuthorized(req: Request, data: Json)
    ensures IsAuthorized(req, data)
  {
    true
  }

  /** The query is taken by mutable reference but left as it is. */
  method SecureRead(req: Request, query: QueryMap)
    modifies query
    ensures query.entries == old(query.entries)
  {
  }
}
