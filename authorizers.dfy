/** The authorizer interface (get_credential, secure_data, authorize_response,
    is_authorized, secure_read) over its two implementations, as a tagged variant
    that one dispatcher interprets. */
module Authorizers {
  import opened Wrappers
  import opened Json
  import opened Auth
  import NoOp
  import Jwt

  datatype Authorizer =
    | NoOpAuthorizer
    | JwtSubAuthorizer(decode: Jwt.Decoder)

  /** `get_credential`: the no-op authorizer never finds one; the token authorizer
      reads the bearer token's subject. */
  function GetCredential(a: Authorizer, req: Request): (r: Option<string>)
    ensures a.NoOpAuthorizer? ==> r == None
    ensures a.JwtSubAuthorizer? ==> r == Jwt.GetCredential(a.decode, req)
  {
    match a
    case NoOpAuthorizer => NoOp.GetCredential(req)
    case JwtSubAuthorizer(decode) => Jwt.GetCredential(decode, req)
  }

  /** `secure_data`: stamps the readers field exactly when a credential is found. */
  function SecureData(a: Authorizer, req: Request, data: Json): (r: Outcome<Json>)
    ensures GetCredential(a, req).None? ==> r == Returned(data)
    ensures a.JwtSubAuthorizer? ==> r == Jwt.SecureData(a.decode, req, data)
  {
    match a
    case NoOpAuthorizer => Returned(NoOp.SecureData(req, data))
    case JwtSubAuthorizer(decode) => Jwt.SecureData(decode, req, data)
  }

  /** `authorize_response`: both authorizers pass the response through. */
  function AuthorizeResponse(a: Authorizer, req: Request, res: Json): (r: Json)
    ensures r == res
  {
    match a
    case NoOpAuthorizer => NoOp.AuthorizeResponse(req, res)
    case JwtSubAuthorizer(_) => Jwt.AuthorizeResponse(req, res)
  }

  /** `is_authorized`: fail-open for both authorizers, so a request without a
      credential may read everything. */
  predicate IsAuthorized(a: Authorizer, req: Request, data: Json)
    ensures GetCredential(a, req).None? ==> IsAuthorized(a, req, data)
    ensures a.JwtSubAuthorizer? ==> (IsAuthorized(a, req, data) <==> Jwt.IsAuthorized(a.decode, req, data))
  {
    match a
    case NoOpAuthorizer => NoOp.IsAuthorized(req, data)
    case JwtSubAuthorizer(decode) => Jwt.IsAuthorized(decode, req, data)
  }

  method SecureRead(a: Authorizer, req: Request, query: QueryMap)
    modifies query
    ensures a.NoOpAuthorizer? ==> query.entries == old(query.entries)
    ensures a.JwtSubAuthorizer? ==> query.entries == Jwt.PushDown(a.decode, req, old(query.entries))
  {
    match a
    case NoOpAuthorizer => NoOp.SecureRead(req, query);
    case JwtSubAuthorizer(decode) => Jwt.SecureRead(decode, req, query);
  }

  /** Whichever authorizer is configured, data it stamps for a request is readable by
      that same request. */
  lemma SecuredDataIsReadable(a: Authorizer, req: Request, data: Json)
    requires SecureData(a, req, data).Returned?
    ensures IsAuthorized(a, req, SecureData(a, req, data).value)
  {
    if a.JwtSubAuthorizer? {
      Jwt.SecuredDataIsReadable(a.decode, req, data);
    }
  }
}
