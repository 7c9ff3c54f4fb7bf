# rustlette core in Dafny

rustlette serves GraphQL endpoints over a MongoDB collection of immutable, append-only
document versions. This project models the part of it that decides what a query returns:

- **Root resolvers** (`Root`, src/graph/root.rs):
  - `singleton` renders a Handlebars query template, converts it to BSON, finds one document and checks it against the request.
  - `vector` is meant to read a point-in-time snapshot: match the versions created before the `at` instant, keep the newest version per `id`, filter by authorization and fill each survivor through the DTO factory. As written, its time filter matches no stored version, so whenever it does not panic and the store answers the pipeline with a snapshot of versions dated by `createdAt`, it returns an empty list (`Root.AsWrittenVectorIsEmpty`; see "## Findings").
  - Also modelled: `get_timestamp`, `process_query_template` and `Root::new`.
- **Authorizers**:
  - The `Authorizer` capability set (`Auth`, src/auth/auth.rs) with its request headers.
  - The no-op variant (`NoOp`, src/auth/noop.rs).
  - The bearer-token subject variant (`Jwt`, src/auth/jwt.rs), which is fail-open and stamps `authorized_readers` on write.
  - `Authorizers` dispatches over the two variants.
- **DTO factory** (`Dto`, src/graph/dto.rs): rebuilds a document field by field. A registered resolver transforms its field; every other field is copied.
- **Query decomposer** (`Subgraph`, src/subgraph.rs): turns a GraphQL selection set into a standalone query string for a remote service.

Supporting modules:

- `Wrappers` holds `Option`, `Result` and `Outcome`. `Outcome` records a Rust panic as `Panicked`.
- `Json` is serde_json's `Value`, plus a BSON date. It models `get`, `as_i64`, the panicking `IndexMut`, and the field-path lookup that `$group` uses for `"$id"`.
- `MatchSemantics` is a small fragment of MongoDB's `$match`: implicit equality, `$lt` and `$in`.
- `Snapshot` is the order-free meaning of the `$match`/`$sort`/`$group`/`$replaceRoot` pipeline. `LatestPerId` is one result it admits.
- `Config` holds the DTO configuration shapes from src/config.rs (`DtoSingleton`, `DtoVector`, `DtoResolver`, `DtoConfig`).

Foreign capabilities are parameters of `Root.Services`: template rendering, JSON parsing, BSON conversion, `find_one`, `aggregate` and the clock. JWT decoding is the parameter `Jwt.Decoder`. It maps a token to `None` when decoding fails, or to the optional `sub` claim.

Three behaviours of the code differ from what one might expect of it; the model follows the code:

- src/auth/jwt.rs:48-50: with a credential, a document whose `authorized_readers` is an *empty* array is refused, since `any` over no readers is false. An empty list does not mean "no restriction" (`Jwt.EmptyReadersDeny`).
- src/graph/root.rs:89 and 93: a template failure or a non-object query in a vector read is not logged and skipped; the `unwrap` panics (`Root.Vector` returns `Panicked`).
- src/graph/root.rs:82-162: neither resolver calls `secure_read`, so no push-down filter is ever added to a storage query. The model proves the push-down sound on its own (`Jwt.PushDownSound`), but `Root.Vector` does not use it.

## Model

| member | source | states |
|---|---|---|
| Json.Get | src/auth/jwt.rs:47 | `value.get(key)` is present exactly when the value is an object holding the key, and then it is that field |
| Json.AsI64 | src/graph/root.rs:166 | `as_i64` yields a number exactly for integers within the i64 range |
| Json.Index | src/graph/root.rs:100 | the `"$id"` group key: the field when the document is an object holding it, and `null` otherwise, so documents without the field group together under null |
| Json.SetKey | src/auth/jwt.rs:36 | index-assignment succeeds exactly on null or an object; the result is an object with the key set and every other key unchanged; any other value panics |
| Auth.NewRequest | src/auth/auth.rs:18-20 | a new request carries exactly the given headers |
| Auth.GetHeader | src/auth/auth.rs:22-24 | a header is found exactly when its name is present, with its value |
| Auth.HeaderOfNewRequest | src/auth/auth.rs:13-24 | a header put into a new request is read back unchanged |
| Auth.QueryMap.constructor | src/auth/auth.rs:10 | the mutable query map starts with the given entries |
| NoOp.GetCredential | src/auth/noop.rs:8-10 | the no-op authorizer never finds a credential |
| NoOp.SecureData | src/auth/noop.rs:12-14 | writes are left unstamped |
| NoOp.AuthorizeResponse | src/auth/noop.rs:16-18 | responses pass through unchanged |
| NoOp.IsAuthorized | src/auth/noop.rs:20-22 | every document is readable by every request |
| NoOp.SecureRead | src/auth/noop.rs:24 | the storage query is left exactly as it was |
| Jwt.GetCredential | src/auth/jwt.rs:15-32 | no credential without a lower-case `authorization` header or without the `Bearer ` prefix; a credential found is the `sub` claim decoded from the text after the 7-character prefix |
| Jwt.BearerRoundTrip | src/auth/jwt.rs:16-28 | `Bearer <token>` in the authorization header yields exactly what decoding the token yields |
| Jwt.CapitalisedHeaderIgnored | src/auth/jwt.rs:16 | the header lookup is case-sensitive: `Authorization` is not read |
| Jwt.SecureData | src/auth/jwt.rs:34-39 | without a credential the document is returned unchanged; with one, null or object documents come back as objects whose readers list is exactly `[credential]` and whose other fields are unchanged, and any other document panics |
| Jwt.AuthorizeResponse | src/auth/jwt.rs:41-43 | responses pass through unchanged |
| Jwt.IsAuthorized | src/auth/jwt.rs:45-54 | fail-open: a request without a credential is always authorized, and a refusal needs an `authorized_readers` array; `Jwt.DeniedExactly` gives the exact condition |
| Jwt.DeniedExactly | src/auth/jwt.rs:45-54 | a document is refused if and only if a credential is present, the document has an `authorized_readers` array, and that array does not contain the credential |
| Jwt.FailOpen | src/auth/jwt.rs:45-54 | no credential, or no readers field, means authorized |
| Jwt.EmptyReadersDeny | src/auth/jwt.rs:48-49 | an empty readers array refuses every request that carries a credential |
| Jwt.SingleReader | src/auth/jwt.rs:45-54 | a document stamped for one reader is readable by that reader and by anonymous requests |
| Jwt.SecuredDataIsReadable | src/auth/jwt.rs:34-54 | a document stamped on write by a request is readable by that same request |
| Jwt.ReadersClause | src/auth/jwt.rs:60 | the pushed-down clause is a MongoDB operator document that a field satisfies exactly when it is the credential string or an array holding it |
| Jwt.PushDown | src/auth/jwt.rs:56-66 | with a credential, the query gains exactly the `authorized_readers` membership clause and keeps its other conditions; without one, it is unchanged |
| Jwt.SecureRead | src/auth/jwt.rs:56-66 | the mutable query map is updated in place to the pushed-down query |
| Jwt.PushDownSound | src/auth/jwt.rs:45-66 | every document the pushed-down query matches passes the post-fetch check for the same request |
| Jwt.PushDownExcludesUnstampedDocuments | src/auth/jwt.rs:45-66 | the push-down is no substitute for the post-fetch check: an unstamped document is authorized but not matched |
| Authorizers.GetCredential | src/auth/auth.rs:6 | the no-op authorizer finds no credential; the token authorizer finds the bearer token's subject |
| Authorizers.SecureData | src/auth/auth.rs:7 | without a credential data is returned unchanged; the token authorizer stamps it as `Jwt.SecureData` states |
| Authorizers.AuthorizeResponse | src/auth/auth.rs:8 | both authorizers return the response unchanged |
| Authorizers.IsAuthorized | src/auth/auth.rs:9 | both authorizers authorize every request without a credential; the token authorizer decides as `Jwt.IsAuthorized` |
| Authorizers.SecureRead | src/auth/auth.rs:10 | dispatching `secure_read` leaves the query unchanged for the no-op variant and pushes it down for the token variant |
| Authorizers.SecuredDataIsReadable | src/auth/auth.rs:7-9 | for either authorizer, whatever `secure_data` returns is readable by the request that wrote it |
| Dto.NewDtoFactory | src/graph/dto.rs:10-12 | a factory holds exactly the given resolvers |
| Dto.Filled | src/graph/dto.rs:15-29 | the filled value is always an object; a non-object gives the empty object; an object keeps exactly its keys |
| Dto.FillOne | src/graph/dto.rs:15-29 | the field-by-field loop builds exactly the filled object |
| Dto.FilledField | src/graph/dto.rs:20-24 | a field with a resolver holds the resolver applied to the input field; any other field is copied unchanged |
| Dto.FilledIsLocal | src/graph/dto.rs:19-25 | each output field depends only on the same input field |
| Dto.FilledWithoutResolversIsIdentity | src/graph/dto.rs:15-29 | with no resolvers, filling an object returns it unchanged |
| Dto.FillMany | src/graph/dto.rs:32-34 | one filled object per input, in input order |
| Dto.FillManyAppend | src/graph/dto.rs:32-34 | filling a concatenation is concatenating the fillings |
| Subgraph.ProcessSelectionSet | src/subgraph.rs:4-10 | an empty set renders as the empty string and a single item as its own rendering; one separator per join, so the text is at least `|items| - 1` characters long; `ProcessSelectionSetAppend` gives the join law |
| Subgraph.ProcessContext | src/subgraph.rs:28-31 | the standalone query is 17 characters longer than the query name, id and selections together, starts with `{ ` and the query name, and ends with ` } }`; `ProcessContextSplicesVerbatim` places the id |
| Subgraph.ProcessFieldNode | src/subgraph.rs:12-26 | a leaf field renders as its bare name; fragment spreads and inline fragments render as the empty string |
| Subgraph.FieldWithChildren | src/subgraph.rs:18-22 | a field with children renders as `name { children }` |
| Subgraph.ProcessSelectionSetAppend | src/subgraph.rs:4-10 | rendering two non-empty selection lists one after the other is rendering each and joining with one space |
| Subgraph.ProcessSelectionSetSnoc | src/subgraph.rs:4-10 | appending a selection appends a space and its rendering |
| Subgraph.FragmentLeavesDoubleSpace | src/subgraph.rs:24 | a fragment between two fields leaves two spaces between their names |
| Subgraph.SelectionSetDependsOnlyOnShape | src/subgraph.rs:4-26 | aliases, arguments and directives never reach the output: two selection sets with the same field names and nesting render the same |
| Subgraph.FieldNodeDependsOnlyOnShape | src/subgraph.rs:12-26 | the same holds for a single selection |
| Subgraph.ProcessContextExample | src/subgraph.rs:28-31 | `{ q(id: "x") { a b { c } } }` for a concrete input |
| Subgraph.ProcessContextSplicesVerbatim | src/subgraph.rs:28-31 | the wrapped query adds exactly 17 characters, and the query name and id appear verbatim at fixed offsets |
| Subgraph.ProcessContextDoesNotEscapeQuotes | src/subgraph.rs:30 | a quote in the id is copied unescaped into the output |
| Subgraph.NetConcat | src/subgraph.rs:19 | the brace count of a concatenation is the sum of the parts' counts |
| Subgraph.BraceFreeNet | src/subgraph.rs:19 | brace-free text has brace count zero |
| Subgraph.BraceFreeBalanced | src/subgraph.rs:19 | brace-free text is balanced |
| Subgraph.BalancedConcat | src/subgraph.rs:9 | joining balanced texts gives balanced text |
| Subgraph.BalancedWrap | src/subgraph.rs:19 | wrapping balanced text in braces keeps it balanced |
| Subgraph.BalancedBlock | src/subgraph.rs:19-21 | a `name { … }` block around balanced text is balanced |
| Subgraph.SelectionSetBalanced | src/subgraph.rs:4-10 | a selection set whose names contain no braces renders with balanced braces |
| Subgraph.FieldNodeBalanced | src/subgraph.rs:12-26 | the same holds for a single selection |
| Subgraph.ProcessContextBalanced | src/subgraph.rs:28-31 | the standalone query has balanced braces when the id, the query name and the field names contain none |
| Snapshot.LatestPerId | src/graph/root.rs:97-102 | every kept document comes from the collection and satisfies the match |
| Snapshot.NoOtherVersion | src/graph/root.rs:100 | when a snapshot has no group for an id, no matched version carries that id |
| Snapshot.AdmitNew | src/graph/root.rs:100 | the first matched version of a new id starts a new group |
| Snapshot.AdmitReplace | src/graph/root.rs:99-100 | a newer matched version replaces its id's group |
| Snapshot.AdmitKeep | src/graph/root.rs:99-100 | an older matched version leaves the snapshot unchanged |
| Snapshot.SkipKeepsSnapshot | src/graph/root.rs:98 | an unmatched version leaves the snapshot unchanged |
| Snapshot.LatestPerIdIsSnapshot | src/graph/root.rs:97-102 | the result has one document per matched id, the newest matched version of that id, and no document for an id with no matched version |
| Snapshot.SnapshotIncluded | src/graph/root.rs:97-102 | when no two versions of an id share a creation date, every document of one snapshot is in any other |
| Snapshot.SnapshotUnique | src/graph/root.rs:97-102 | under the same condition, any two results of the pipeline hold the same documents |
| Root.GetTimestamp | src/graph/root.rs:164-169 | an `at` argument that is an i64 integer is the instant; a missing `at`, a non-integer or one outside i64 gives now |
| Root.GetTimestampFallsBackToNow | src/graph/root.rs:164-169 | a missing `at`, a non-integer `at` or one outside i64 all read as now |
| Root.ProcessQueryTemplate | src/graph/root.rs:73-80 | succeeds exactly when rendering and parsing both succeed, with the parsed query; a rendering failure and a parse failure each carry their own message prefix |
| Root.TemplateErrorNamesStage | src/graph/root.rs:77-79 | the error text alone tells whether rendering or parsing failed |
| Root.AsDocument | src/graph/root.rs:140 | a BSON document is passed to `find_one` unchanged as its filter; any other value gives no filter |
| Root.Singleton | src/graph/root.rs:113-162 | a document is returned only when rendering, conversion and lookup all succeed and, with a request, the document is authorized for it; in every such case exactly the found document is returned |
| Root.TimeFilter | src/graph/root.rs:91 | the time filter is a one-key document under `createdAt` holding `{$lt: at}`; its key does not start with `$`, so MongoDB reads it as a value, not as an operator |
| Root.MatchFilter | src/graph/root.rs:91-94 | the `$match` filter as written: the template's conditions with `createdAt` replaced by the whole time filter |
| Root.IntendedMatchFilter | src/graph/root.rs:91-94 | the corrected filter: the template's conditions with `createdAt` set to `{$lt: at}` |
| Root.AsWrittenFilterMatchesNoVersion | src/graph/root.rs:91-94 | as written, the filter matches no stored version whose `createdAt` is a date |
| Root.AsWrittenSnapshotIsEmpty | src/graph/root.rs:91-102 | as written, every vector snapshot is empty |
| Root.IntendedFilterSelectsEarlierVersions | src/graph/root.rs:91-98 | a version passes the corrected filter exactly when it satisfies the template's other conditions and was created strictly before `at` |
| Root.Pipeline | src/graph/root.rs:97-102 | four single-key stages, the first a `$match` on the given filter; `Snapshot.IsSnapshot` states what the stages compute |
| Root.Keep | src/graph/root.rs:105-107 | with no request context, or with the no-op authorizer, every document is kept; with a context, a document is kept exactly when it is authorized |
| Root.PostFilter | src/graph/root.rs:104-108 | without a request context every document is kept; with one, exactly the authorized documents are kept, each as often as fetched and in fetched order |
| Root.SubsequenceKeepsDistinctIds | src/graph/root.rs:104-108 | filtering keeps at most one document per id and keeps only fetched documents |
| Root.PostFilterOfSnapshot | src/graph/root.rs:97-108 | after filtering, each id appears at most once, each kept document is the newest matched version of its id and authorized, and no authorized snapshot document is dropped |
| Root.Vector | src/graph/root.rs:82-111 | panics exactly when the template fails or does not yield an object; otherwise returns the filled, authorization-filtered pipeline result, never longer than the fetched list |
| Root.AsWrittenVectorIsEmpty | src/graph/root.rs:82-111 | whenever the store answers the pipeline with a snapshot of its contents, the vector resolver as written returns the empty list |
| Root.IntendedSnapshotScenario | src/graph/root.rs:91-102 | with versions e1@10, e1@20 and e2@5 read at 15 through the corrected filter, exactly e1@10 and e2@5 come back |
| Root.AsWrittenSnapshotScenario | src/graph/root.rs:91-102 | the same read through the filter as written returns nothing |
| Root.NewRoot | src/graph/root.rs:34-71 | one singleton resolver and one vector resolver per configured entry, each with its configured query template, in configuration order |
| Root.NewRootResolversFollowConfig | src/graph/root.rs:40-64 | the i-th resolver of a new root runs the i-th configured query |

## Findings

| source | as written | input that shows it | evidently intended | confidence | as-written member | corrected member |
|---|---|---|---|---|---|---|
| src/graph/root.rs:91-94 | `time_filter` is `{createdAt: {$lt: ts}}` and is stored under `createdAt`, so the `$match` condition is `createdAt: {createdAt: {$lt: ts}}`. That is an equality test against an embedded document, which no date equals | versions e1@10, e1@20 and e2@5 read at 15: nothing matches, so the vector is empty | `createdAt: {$lt: ts}`, giving e1@10 and e2@5 | not executed; follows from MongoDB's rule that a condition document whose keys do not start with `$` is compared for equality | Root.MatchFilter (Root.AsWrittenFilterMatchesNoVersion, Root.AsWrittenSnapshotIsEmpty, Root.AsWrittenVectorIsEmpty, Root.AsWrittenSnapshotScenario) | Root.IntendedMatchFilter (Root.IntendedFilterSelectsEarlierVersions, Root.IntendedSnapshotScenario) |

`Root.Vector` uses the filter as written, so that the model matches the code. The corrected filter and the snapshot lemmas together give the intended guarantee. Under it, a vector read returns at most one document per `id`: the newest matching version created before `at`.

## Left out

- Root.Vector: MongoDB's execution of the pipeline is the parameter `aggregate`. Snapshot correctness is proved for any result satisfying `Snapshot.IsSnapshot`, and only over the match fragment in `MatchSemantics` (equality, `$lt`, `$in`). The order of the snapshot's documents is not modelled.
- Root.Vector: the request context is modelled as an optional `Auth.Request`. The source passes its server `Context` where a `Request` is expected. The source also does not type-check where the aggregate cursor is filtered and handed to `fill_many`. The model follows the evident intent of each line.
- Root.Singleton: the collection name is not modelled; `find_one` is the parameter `findOne`. `Root::new` passes the DTO factory where a collection name is expected.
- Root.Singleton: the `eprintln!` diagnostics on each failure path are not modelled. Every failure returns `None`.
- Root.Vector: the `"your_collection"` name is not modelled.
- Root.ProcessQueryTemplate: Handlebars rendering and serde_json parsing are the parameters `render` and `parse`. Their error texts are opaque.
- Root.GetTimestamp: `DateTime::now()` is the parameter `now`. `DateTime::from_millis` is the identity on milliseconds.
- Jwt.GetCredential: `jsonwebtoken::decode` is the parameter `decode`. This includes the `exp` check that `Validation::new(HS256)` keeps after signature checking is disabled.
- Jwt.GetCredential: the `Bearer ` prefix test and the slice after it are on characters, not UTF-8 bytes. The two agree because the prefix is ASCII.
- Dto.DtoFactory: the source indexes a `Vec<DtoResolver>` by field name and calls the entry as a function, which does not type-check. Resolvers are modelled as a map from field name to a function on values.
- Dto.Filled: the order of fields in the output object is not modelled. Objects are maps.
- Authorizers: the `Arc<dyn Authorizer>` sharing is modelled as a tagged value, `Authorizer`, with dispatch functions.
- Subgraph: the GraphQL parser is not modelled. Selections are a datatype holding field names, nesting, aliases, arguments, directives, fragment names and type conditions; source positions and spans are dropped.
- The HTTP subgraph forwarder (src/graph/forwarder.rs), the call graph wiring (src/callgraph.rs), server start-up (src/main.rs) and the web framework binding are not part of this model.
- Logging, `Arc` reference counting and thread safety are not modelled.
