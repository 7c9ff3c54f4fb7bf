/** The subject-claim authorizer: the credential is the `sub` claim of a bearer token
    that is decoded without checking its signature. */
module Jwt {
  import opened Wrappers
  import opened Json
  import opened Auth
  import MatchSemantics

  /** `jsonwebtoken::decode::<Claims>` with signature validation disabled and an empty
      key: `None` when decoding fails, otherwise the token's optional `sub` claim. */
  type Decoder = string -> Option<Option<string>>

  const AuthorizationHeader: string := "authorization"
  const BearerPrefix: string := "Bearer "
  const ReadersKey: string := "authorized_readers"

  /** The caller's credential: the `sub` claim of the token following `Bearer ` in the
      `authorization` header. */
  function GetCredential(decode: Decoder, req: Request): (r: Option<string>)
    ensures AuthorizationHeader !in req.headers ==> r == None
    ensures AuthorizationHeader in req.headers && !(BearerPrefix <= req.headers[AuthorizationHeader])
            ==> r == None
    ensures r.Some? ==>
              && AuthorizationHeader in req.headers
              && BearerPrefix <= req.headers[AuthorizationHeader]
              && decode(req.headers[AuthorizationHeader][|BearerPrefix|..]) == Some(r)
  {
    match GetHeader(req, AuthorizationHeader)
    case None => None
    case Some(header) =>
      if BearerPrefix <= header then
        match decode(header[|BearerPrefix|..])
        case Some(sub) => sub
        case None => None
      else None
  }

  /** Whatever else the request holds, an `authorization` header `Bearer <token>` yields
      the decoded token's subject, and nothing when the token does not decode. */
  lemma BearerRoundTrip(decode: Decoder, headers: map<string, string>, token: string)
    ensures GetCredential(decode, Request(headers[AuthorizationHeader := BearerPrefix + token]))
            == match decode(token) case Some(sub) => sub case None => None
  {
    assert (BearerPrefix + token)[|BearerPrefix|..] == token;
  }

  /** Header names are matched exactly: a capitalised `Authorization` header is unseen. */
  lemma CapitalisedHeaderIgnored(decode: Decoder, token: string)
    ensures GetCredential(decode, Request(map["Authorization" := BearerPrefix + token])) == None
  {
    assert AuthorizationHeader != "Authorization" by {
      assert AuthorizationHeader[0] != "Authorization"[0];
    }
  }

  /** With a credential, stamps `authorized_readers = [credential]` on the data written
      (serde_json's index assignment, which panics on a non-object, non-null value). */
  function SecureData(decode: Decoder, req: Request, data: Json): (r: Outcome<Json>)
    ensures GetCredential(decode, req).None? ==> r == Returned(data)
    ensures GetCredential(decode, req).Some? ==> (r.Returned? <==> data.Null? || data.Object?)
    ensures GetCredential(decode, req).Some? && r.Returned? ==>
              && r.value.Object?
              && Get(r.value, ReadersKey) == Some(Array([Str(GetCredential(decode, req).value)]))
              && forall k :: k != ReadersKey ==> Get(r.value, k) == Get(data, k)
  {
    match GetCredential(decode, req)
    case None => Returned(data)
    case Some(sub) => SetKey(data, ReadersKey, Array([Str(sub)]))
  }

  /** Responses are passed through unchanged. */
  function AuthorizeResponse(req: Request, res: Json): (r: Json)
    ensures r == res
  {
    res
  }

  /** Fail-open read check: access is denied only when there is a credential, the
      document's `authorized_readers` is an array, and that array does not hold the
      credential as a string (an empty array therefore denies). */
  predicate IsAuthorized(decode: Decoder, req: Request, data: Json)
    ensures GetCredential(decode, req).None? ==> IsAuthorized(decode, req, data)
    ensures !IsAuthorized(decode, req, data) ==>
              Get(data, ReadersKey).Some? && Get(data, ReadersKey).value.Array?
  {
    match GetCredential(decode, req)
    case None => true
    case Some(sub) =>
      match Get(data, ReadersKey)
      case None => true
      case Some(readers) => if readers.Array? then Str(sub) in readers.items else true
  }

  /** When a request is refused, spelled out in both directions. */
  lemma DeniedExactly(decode: Decoder, req: Request, data: Json)
    ensures !IsAuthorized(decode, req, data) <==>
              && GetCredential(decode, req).Some?
              && data.Object? && ReadersKey in data.fields
              && data.fields[ReadersKey].Array?
              && Str(GetCredential(decode, req).value) !in data.fields[ReadersKey].items
  {
  }

  /** Documents without `authorized_readers`, and requests without a credential, are
      always authorized. */
  lemma FailOpen(decode: Decoder, req: Request, data: Json)
    requires GetCredential(decode, req).None? || Get(data, ReadersKey).None?
    ensures IsAuthorized(decode, req, data)
  {
  }

  /** With a credential, an empty reader list denies access. */
  lemma EmptyReadersDeny(decode: Decoder, req: Request, fields: map<string, Json>)
    requires GetCredential(decode, req).Some?
    requires ReadersKey in fields && fields[ReadersKey] == Array([])
    ensures !IsAuthorized(decode, req, Object(fields))
  {
  }

  /** A one-reader list admits exactly that reader, or a request with no credential. */
  lemma SingleReader(decode: Decoder, req: Request, fields: map<string, Json>, c: string)
    requires ReadersKey in fields && fields[ReadersKey] == Array([Str(c)])
    ensures IsAuthorized(decode, req, Object(fields))
            <==> GetCredential(decode, req) == None || GetCredential(decode, req) == Some(c)
  {
  }

  /** Data stamped for a request can be read back by the same request. */
  lemma SecuredDataIsReadable(decode: Decoder, req: Request, data: Json)
    requires SecureData(decode, req, data).Returned?
    ensures IsAuthorized(decode, req, SecureData(decode, req, data).value)
  {
  }

  /** The clause `secure_read` adds for a credential: `{"$in": [credential]}`. */
  function ReadersClause(sub: string): (r: Json)
    ensures MatchSemantics.IsOperatorDoc(r)
    ensures forall a: Option<Json> :: MatchSemantics.FieldMatches(r, a) <==>
              a == Some(Str(sub)) || (a.Some? && a.value.Array? && Str(sub) in a.value.items)
  {
    var fields := map["$in" := Array([Str(sub)])];
    assert fields.Keys == {"$in"};
    assert "$in"[0] == '$';
    assert forall a: Option<Json> :: MatchSemantics.FieldMatches(Object(fields), a) <==>
             MatchSemantics.EqualsValue(Str(sub), a) by {
      forall a: Option<Json> ensures MatchSemantics.FieldMatches(Object(fields), a) <==>
                                     MatchSemantics.EqualsValue(Str(sub), a) {
        InClauseOfOne(Str(sub), a);
      }
    }
    Object(fields)
  }

  /** `{$in: [v]}` holds exactly where equality with `v` holds. */
  lemma InClauseOfOne(v: Json, a: Option<Json>)
    ensures MatchSemantics.OperatorMatches("$in", Array([v]), a) <==> MatchSemantics.EqualsValue(v, a)
  {
    if MatchSemantics.OperatorMatches("$in", Array([v]), a) {
      var w :| w in [v] && MatchSemantics.EqualsValue(w, a);
      assert w == v;
    } else {
      assert v in [v];
    }
  }

  /** The query after `secure_read`: with a credential, `authorized_readers` is set to the
      membership clause, overwriting that key only; otherwise the query is unchanged. */
  function PushDown(decode: Decoder, req: Request, query: map<string, Json>): (r: map<string, Json>)
    ensures GetCredential(decode, req).None? ==> r == query
    ensures GetCredential(decode, req).Some? ==>
              && r.Keys == query.Keys + {ReadersKey}
              && r[ReadersKey] == ReadersClause(GetCredential(decode, req).value)
              && forall k :: k in query && k != ReadersKey ==> r[k] == query[k]
  {
    match GetCredential(decode, req)
    case None => query
    case Some(sub) => query[ReadersKey := ReadersClause(sub)]
  }

  /** `secure_read`: inserts the membership clause into the caller's query in place. */
  method SecureRead(decode: Decoder, req: Request, query: QueryMap)
    modifies query
    ensures query.entries == PushDown(decode, req, old(query.entries))
  {
    var credential := GetCredential(decode, req);
    if credential.Some? {
      query.entries := query.entries[ReadersKey := ReadersClause(credential.value)];
    }
  }

  /** The push-down clause is sound for the post-fetch check: every document a pushed-down
      query can match is one `is_authorized` admits. */
  lemma PushDownSound(decode: Decoder, req: Request, query: map<string, Json>, doc: Json)
    requires MatchSemantics.Matches(PushDown(decode, req, query), doc)
    ensures IsAuthorized(decode, req, doc)
  {
    var credential := GetCredential(decode, req);
    if credential.Some? {
      var pushed := PushDown(decode, req, query);
      var clause := ReadersClause(credential.value);
      assert MatchSemantics.FieldMatches(pushed[ReadersKey], Get(doc, ReadersKey));
      assert MatchSemantics.OperatorMatches("$in", clause.fields["$in"], Get(doc, ReadersKey));
      var v :| v in clause.fields["$in"].items && MatchSemantics.EqualsValue(v, Get(doc, ReadersKey));
      assert v == Str(credential.value);
    }
  }

  /** The push-down clause is not a replacement for the post-fetch check: with a
      credential, a document carrying no `authorized_readers` is authorized, yet the
      pushed-down query does not fetch it. */
  lemma PushDownExcludesUnstampedDocuments(decode: Decoder, req: Request, query: map<string, Json>)
    requires GetCredential(decode, req).Some?
    ensures IsAuthorized(decode, req, Object(map[]))
    ensures !MatchSemantics.Matches(PushDown(decode, req, query), Object(map[]))
  {
    var pushed := PushDown(decode, req, query);
    var clause := ReadersClause(GetCredential(decode, req).value);
    assert !MatchSemantics.OperatorMatches("$in", clause.fields["$in"], None);
    assert !MatchSemantics.FieldMatches(pushed[ReadersKey], Get(Object(map[]), ReadersKey));
  }
}
