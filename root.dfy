/** The root resolvers of one graph endpoint: the singleton lookup, the point-in-time
    vector read, and the helpers they share. Template rendering, JSON parsing, BSON
    conversion, the document store and the clock are parameters (`Services`). */
module Root {
  import opened Wrappers
  import opened Json
  import opened Auth
  import Authorizers
  import Dto
  import Snapshot
  import MatchSemantics
  import Config

  /** Handlebars' `render_template(template, params)`. */
  type Renderer = (string, Json) -> Result<string>
  /** `serde_json::from_str`. */
  type Parser = string -> Result<Json>

  /** The foreign capabilities a resolver uses. */
  datatype Services = Services(
    render: Renderer,
    parse: Parser,
    /** `serde_json::to_bson`. */
    toBson: Json -> Result<Json>,
    /** `find_one` on the configured collection; `None` as the filter means no filter. */
    findOne: Option<Json> -> Result<Option<Json>>,
    /** `aggregate` on the collection: the documents a pipeline yields. */
    aggregate: seq<Json> -> seq<Json>,
    /** `DateTime::now()`, in milliseconds. */
    now: int)

  const AtKey: string := "at"
  const RenderFailurePrefix: string := "Template rendering failed: "
  const ParseFailurePrefix: string := "Failed to parse query JSON: "

  // ---------------------------------------------------------------------------
  // get_timestamp

  /** The snapshot instant: the `at` argument when it is an i64 integer, else now. */
  function GetTimestamp(args: Json, now: int): (r: int)
    ensures args.Object? && AtKey in args.fields && args.fields[AtKey].Int?
            && I64Min <= args.fields[AtKey].i <= I64Max
            ==> r == args.fields[AtKey].i
    ensures (Get(args, AtKey).None? || AsI64(Get(args, AtKey).value).None?) ==> r == now
    ensures r == now || (args.Object? && AtKey in args.fields && args.fields[AtKey] == Int(r))
  {
    match Get(args, AtKey)
    case Some(at) =>
      (match AsI64(at)
       case Some(millis) => millis
       case None => now)
    case None => now
  }

  /** A missing `at`, a non-integer `at` and an integer outside i64 all read "now". */
  lemma GetTimestampFallsBackToNow(args: Json, now: int)
    requires Get(args, AtKey).None? || AsI64(Get(args, AtKey).value).None?
    ensures GetTimestamp(args, now) == now
  {
  }

  // ---------------------------------------------------------------------------
  // process_query_template

  /** Renders the template against the arguments and parses the text as JSON; each
      failure is reported with a prefix naming the stage that failed. */
  function ProcessQueryTemplate(render: Renderer, parse: Parser, params: Json, template: string)
    : (r: Result<Json>)
    ensures render(template, params).Err? ==>
              r == Err(RenderFailurePrefix + render(template, params).error)
    ensures render(template, params).Ok? && parse(render(template, params).value).Err? ==>
              r == Err(ParseFailurePrefix + parse(render(template, params).value).error)
    ensures r.Ok? <==> render(template, params).Ok? && parse(render(template, params).value).Ok?
    ensures r.Ok? ==> r == parse(render(template, params).value)
  {
    match render(template, params)
    case Err(e) => Err(RenderFailurePrefix + e)
    case Ok(text) =>
      match parse(text)
      case Err(e) => Err(ParseFailurePrefix + e)
      case Ok(query) => Ok(query)
  }

  /** The error text alone tells which stage failed. */
  lemma TemplateErrorNamesStage(render: Renderer, parse: Parser, params: Json, template: string)
    requires ProcessQueryTemplate(render, parse, params, template).Err?
    ensures var e := ProcessQueryTemplate(render, parse, params, template).error;
            (RenderFailurePrefix <= e <==> render(template, params).Err?)
            && (ParseFailurePrefix <= e <==> render(template, params).Ok?)
  {
    var e := ProcessQueryTemplate(render, parse, params, template).error;
    assert RenderFailurePrefix[0] == 'T' && ParseFailurePrefix[0] == 'F';
    if render(template, params).Err? {
      assert e[0] == 'T';
    } else {
      assert e[0] == 'F';
    }
  }

  // ---------------------------------------------------------------------------
  // singleton

  /** `bson_query.as_document()`: only a document is used as a filter. */
  function AsDocument(b: Json): (r: Option<Json>)
    ensures r.Some? <==> b.Object?
    ensures r.Some? ==> r.value == b
  {
    if b.Object? then Some(b) else None
  }

  /** The singleton resolver: render the query, convert it to BSON, find one document,
      and check it against the request when there is one. Every failure, a miss and a
      refusal all yield `None`; a success yields the stored document as found. */
  function Singleton(svc: Services, auth: Authorizers.Authorizer, template: string,
                     args: Json, req: Option<Request>): (r: Option<Json>)
    ensures var q := ProcessQueryTemplate(svc.render, svc.parse, args, template);
            r.Some? ==>
              && q.Ok? && svc.toBson(q.value).Ok?
              && svc.findOne(AsDocument(svc.toBson(q.value).value)) == Ok(Some(r.value))
              && (req.Some? ==> Authorizers.IsAuthorized(auth, req.value, r.value))
    ensures var q := ProcessQueryTemplate(svc.render, svc.parse, args, template);
            forall d ::
              && q.Ok? && svc.toBson(q.value).Ok?
              && svc.findOne(AsDocument(svc.toBson(q.value).value)) == Ok(Some(d))
              && (req.Some? ==> Authorizers.IsAuthorized(auth, req.value, d))
              ==> r == Some(d)
  {
    match ProcessQueryTemplate(svc.render, svc.parse, args, template)
    case Err(_) => None
    case Ok(query) =>
      match svc.toBson(query)
      case Err(_) => None
      case Ok(bson) =>
        match svc.findOne(AsDocument(bson))
        case Err(_) => None
        case Ok(None) => None
        case Ok(Some(doc)) =>
          if req.Some? && !Authorizers.IsAuthorized(auth, req.value, doc) then None
          else Some(doc)
  }

  // ---------------------------------------------------------------------------
  // vector: the match filter

  /** `doc! { "createdAt": { "$lt": ts } }`. */
  function TimeFilter(ts: int): (r: Json)
    ensures r.Object? && r.fields.Keys == {Snapshot.CreatedAtKey}
    ensures r.fields[Snapshot.CreatedAtKey] == Object(map["$lt" := DateTime(ts)])
    ensures !MatchSemantics.IsOperatorDoc(r)
  {
    assert Snapshot.CreatedAtKey[0] == 'c';
    Object(map[Snapshot.CreatedAtKey := Object(map["$lt" := DateTime(ts)])])
  }

  /** The `$match` filter as written: the template's object with `createdAt` set to the
      whole time filter, so that the `$lt` clause ends up nested one level too deep. */
  function MatchFilter(query: map<string, Json>, ts: int): (r: map<string, Json>)
    ensures r.Keys == query.Keys + {Snapshot.CreatedAtKey}
    ensures r[Snapshot.CreatedAtKey] == TimeFilter(ts)
    ensures forall k :: k in query && k != Snapshot.CreatedAtKey ==> r[k] == query[k]
  {
    query[Snapshot.CreatedAtKey := TimeFilter(ts)]
  }

  /** The `$match` filter the vector read is evidently meant to use:
      `createdAt: {$lt: ts}` beside the template's own conditions. */
  function IntendedMatchFilter(query: map<string, Json>, ts: int): (r: map<string, Json>)
    ensures r.Keys == query.Keys + {Snapshot.CreatedAtKey}
    ensures r[Snapshot.CreatedAtKey] == Object(map["$lt" := DateTime(ts)])
    ensures forall k :: k in query && k != Snapshot.CreatedAtKey ==> r[k] == query[k]
  {
    query[Snapshot.CreatedAtKey := Object(map["$lt" := DateTime(ts)])]
  }

  /** As written, the filter compares `createdAt` for equality with the embedded
      document `{createdAt: {$lt: ts}}`, which no stored version's date equals. */
  lemma AsWrittenFilterMatchesNoVersion(query: map<string, Json>, ts: int, d: Json)
    requires Snapshot.IsVersion(d)
    ensures !MatchSemantics.Matches(MatchFilter(query, ts), d)
  {
    var cond := TimeFilter(ts);
    assert Snapshot.CreatedAtKey in cond.fields;
    assert Snapshot.CreatedAtKey[0] == 'c';
    assert !MatchSemantics.IsOperatorDoc(cond);
    assert !MatchSemantics.FieldMatches(MatchFilter(query, ts)[Snapshot.CreatedAtKey],
                                        Get(d, Snapshot.CreatedAtKey));
  }

  /** Consequently every snapshot taken through the as-written filter is empty. */
  lemma AsWrittenSnapshotIsEmpty(query: map<string, Json>, ts: int, coll: seq<Json>, r: seq<Json>)
    requires Snapshot.AllVersions(coll)
    requires Snapshot.IsSnapshot(d => MatchSemantics.Matches(MatchFilter(query, ts), d), coll, r)
    ensures r == []
  {
    if r != [] {
      assert r[0] in r;
      AsWrittenFilterMatchesNoVersion(query, ts, r[0]);
    }
  }

  /** The intended filter selects exactly the versions that satisfy the template's other
      conditions and were created strictly before `ts`. */
  lemma IntendedFilterSelectsEarlierVersions(query: map<string, Json>, ts: int, d: Json)
    requires Snapshot.IsVersion(d)
    ensures MatchSemantics.Matches(IntendedMatchFilter(query, ts), d)
            <==> MatchSemantics.Matches(query - {Snapshot.CreatedAtKey}, d) && Snapshot.CreatedAt(d) < ts
  {
    var c := Snapshot.CreatedAtKey;
    var filter := IntendedMatchFilter(query, ts);
    var cond := filter[c];
    assert cond.fields.Keys == {"$lt"};
    assert "$lt"[0] == '$';
    assert MatchSemantics.IsOperatorDoc(cond);
    assert MatchSemantics.FieldMatches(cond, Get(d, c))
       <==> MatchSemantics.OperatorMatches("$lt", DateTime(ts), Get(d, c));
    assert MatchSemantics.FieldMatches(cond, Get(d, c)) <==> Snapshot.CreatedAt(d) < ts;
    if MatchSemantics.Matches(filter, d) {
      assert MatchSemantics.FieldMatches(filter[c], Get(d, c));
      forall k | k in query - {c}
        ensures MatchSemantics.FieldMatches((query - {c})[k], Get(d, k))
      {
        assert MatchSemantics.FieldMatches(filter[k], Get(d, k));
      }
    }
  }

  /** The aggregation pipeline handed to the store. */
  function Pipeline(filter: map<string, Json>): (r: seq<Json>)
    ensures |r| == 4
    ensures r[0] == Object(map["$match" := Object(filter)])
    ensures forall i :: 0 <= i < 4 ==> r[i].Object? && |r[i].fields| == 1
  {
    [ Object(map["$match" := Object(filter)]),
      Object(map["$sort" := Object(map[Snapshot.CreatedAtKey := Int(-1)])]),
      Object(map["$group" := Object(map["_id" := Str("$id"),
                                        "doc" := Object(map["$first" := Str("$$ROOT")])])]),
      Object(map["$replaceRoot" := Object(map["newRoot" := Str("$doc")])]) ]
  }

  // ---------------------------------------------------------------------------
  // vector: the post-filter

  /** Documents survive when there is no request context, or the context is authorized. */
  predicate Keep(auth: Authorizers.Authorizer, ctx: Option<Request>, d: Json)
    ensures ctx.None? || auth.NoOpAuthorizer? ==> Keep(auth, ctx, d)
    ensures ctx.Some? ==> (Keep(auth, ctx, d) <==> Authorizers.IsAuthorized(auth, ctx.value, d))
  {
    ctx.None? || Authorizers.IsAuthorized(auth, ctx.value, d)
  }

  /** `a` is `b` with some elements left out, the rest in their original order. */
  ghost predicate IsSubsequence(a: seq<Json>, b: seq<Json>)
    decreases |b|
  {
    if a == [] then true
    else if b == [] then false
    else (a[0] == b[0] && IsSubsequence(a[1..], b[1..])) || IsSubsequence(a, b[1..])
  }

  /** The post-fetch authorization filter: keeps exactly the documents that pass, each
      as often as it was fetched, in their fetched order. */
  function PostFilter(auth: Authorizers.Authorizer, ctx: Option<Request>, docs: seq<Json>)
    : (r: seq<Json>)
    ensures ctx.None? ==> r == docs
    ensures |r| <= |docs|
    ensures forall d :: d in r ==> Keep(auth, ctx, d)
    ensures forall d :: multiset(r)[d] == if Keep(auth, ctx, d) then multiset(docs)[d] else 0
    ensures IsSubsequence(r, docs)
  {
    if docs == [] then []
    else
      assert docs == [docs[0]] + docs[1..];
      var rest := PostFilter(auth, ctx, docs[1..]);
      if Keep(auth, ctx, docs[0]) then [docs[0]] + rest else rest
  }

  lemma {:induction false} SubsequenceKeepsDistinctIds(a: seq<Json>, b: seq<Json>)
    requires IsSubsequence(a, b) && Snapshot.DistinctIds(b)
    ensures Snapshot.DistinctIds(a)
    ensures forall x :: x in a ==> x in b
    decreases |b|
  {
    if a != [] {
      assert b != [];
      if a[0] == b[0] && IsSubsequence(a[1..], b[1..]) {
        SubsequenceKeepsDistinctIds(a[1..], b[1..]);
        forall j | 0 < j < |a| ensures Snapshot.IdOf(a[0]) != Snapshot.IdOf(a[j]) {
          assert a[j] in a[1..];
          var k :| 0 <= k < |b[1..]| && b[1..][k] == a[j];
          assert b[k + 1] == a[j];
        }
        forall i, j | 0 <= i < j < |a| ensures Snapshot.IdOf(a[i]) != Snapshot.IdOf(a[j]) {
          if i > 0 {
            assert a[i] == a[1..][i - 1] && a[j] == a[1..][j - 1];
          }
        }
        forall x | x in a ensures x in b {
          if x != a[0] {
            assert x in a[1..];
          }
        }
      } else {
        SubsequenceKeepsDistinctIds(a, b[1..]);
      }
    }
  }

  /** Filtering a snapshot keeps its shape: at most one document per id, each the
      newest matched version of its id and authorized, and every authorized fetched
      document kept. */
  lemma PostFilterOfSnapshot(auth: Authorizers.Authorizer, ctx: Option<Request>,
                             matches: Json -> bool, coll: seq<Json>, fetched: seq<Json>)
    requires Snapshot.AllVersions(coll) && Snapshot.IsSnapshot(matches, coll, fetched)
    ensures var kept := PostFilter(auth, ctx, fetched);
            && Snapshot.DistinctIds(kept)
            && (forall x :: x in kept ==>
                  x in coll && matches(x) && Snapshot.IsLatest(matches, coll, x) && Keep(auth, ctx, x))
            && (forall x :: x in fetched && Keep(auth, ctx, x) ==> x in kept)
  {
    var kept := PostFilter(auth, ctx, fetched);
    SubsequenceKeepsDistinctIds(kept, fetched);
    forall x | x in fetched && Keep(auth, ctx, x) ensures x in kept {
      assert multiset(fetched)[x] > 0;
    }
  }

  // ---------------------------------------------------------------------------
  // vector

  /** The vector resolver: render the query (panicking on failure), take the snapshot
      instant, build the match filter (panicking when the query is not an object), run
      the pipeline, filter by authorization and fill every survivor. */
  function Vector(svc: Services, dto: Dto.DtoFactory, auth: Authorizers.Authorizer,
                  template: string, args: Json, ctx: Option<Request>): (r: Outcome<seq<Json>>)
    ensures var q := ProcessQueryTemplate(svc.render, svc.parse, args, template);
            r.Returned? <==> q.Ok? && q.value.Object?
    ensures var q := ProcessQueryTemplate(svc.render, svc.parse, args, template);
            r.Returned? ==>
              var fetched := svc.aggregate(Pipeline(MatchFilter(q.value.fields, GetTimestamp(args, svc.now))));
              && |r.value| <= |fetched|
              && r.value == Dto.FillMany(dto, PostFilter(auth, ctx, fetched))
  {
    match ProcessQueryTemplate(svc.render, svc.parse, args, template)
    case Err(_) => Panicked
    case Ok(query) =>
      var ts := GetTimestamp(args, svc.now);
      if !query.Object? then Panicked
      else
        var fetched := svc.aggregate(Pipeline(MatchFilter(query.fields, ts)));
        Returned(Dto.FillMany(dto, PostFilter(auth, ctx, fetched)))
  }

  /** As written, whenever the store honours the pipeline, the vector resolver returns
      no documents at all. */
  lemma AsWrittenVectorIsEmpty(svc: Services, dto: Dto.DtoFactory, auth: Authorizers.Authorizer,
                               template: string, args: Json, ctx: Option<Request>, coll: seq<Json>)
    requires var q := ProcessQueryTemplate(svc.render, svc.parse, args, template);
             q.Ok? && q.value.Object?
    requires Snapshot.AllVersions(coll)
    requires var q := ProcessQueryTemplate(svc.render, svc.parse, args, template);
             var filter := MatchFilter(q.value.fields, GetTimestamp(args, svc.now));
             Snapshot.IsSnapshot(d => MatchSemantics.Matches(filter, d), coll, svc.aggregate(Pipeline(filter)))
    ensures Vector(svc, dto, auth, template, args, ctx) == Returned([])
  {
    var q := ProcessQueryTemplate(svc.render, svc.parse, args, template);
    var ts := GetTimestamp(args, svc.now);
    AsWrittenSnapshotIsEmpty(q.value.fields, ts, coll, svc.aggregate(Pipeline(MatchFilter(q.value.fields, ts))));
  }

  // ---------------------------------------------------------------------------
  // A worked scenario

  function Version(id: string, createdAt: int): Json
  {
    Object(map[Snapshot.IdKey := Str(id), Snapshot.CreatedAtKey := DateTime(createdAt)])
  }

  function ScenarioStore(): seq<Json>
  {
    [Version("e1", 10), Version("e1", 20), Version("e2", 5)]
  }

  /** Two versions of `e1` (10 and 20) and one of `e2` (5), read at 15 through the
      intended filter: exactly `e1`@10 and `e2`@5 come back. */
  lemma IntendedSnapshotScenario(r: seq<Json>)
    requires Snapshot.AllVersions(ScenarioStore())
    requires Snapshot.IsSnapshot(d => MatchSemantics.Matches(IntendedMatchFilter(map[], 15), d),
                                 ScenarioStore(), r)
    ensures forall x :: x in r <==> x == Version("e1", 10) || x == Version("e2", 5)
  {
    var store := ScenarioStore();
    var m := d => MatchSemantics.Matches(IntendedMatchFilter(map[], 15), d);
    var a, b, c := Version("e1", 10), Version("e1", 20), Version("e2", 5);
    assert Snapshot.IdOf(a) == Str("e1") && Snapshot.IdOf(b) == Str("e1") && Snapshot.IdOf(c) == Str("e2");
    assert Str("e1") != Str("e2") by { assert "e1"[1] != "e2"[1]; }
    IntendedFilterSelectsEarlierVersions(map[], 15, a);
    IntendedFilterSelectsEarlierVersions(map[], 15, b);
    IntendedFilterSelectsEarlierVersions(map[], 15, c);
    assert m(a) && !m(b) && m(c);
    assert Snapshot.Represented(r, a) && Snapshot.Represented(r, c);
    forall x | x in r ensures x == a || x == c {
      assert x == a || x == b || x == c;
    }
    var xa :| xa in r && Snapshot.IdOf(xa) == Snapshot.IdOf(a);
    var xc :| xc in r && Snapshot.IdOf(xc) == Snapshot.IdOf(c);
  }

  /** The same store read through the filter as written: nothing comes back. */
  lemma AsWrittenSnapshotScenario(r: seq<Json>)
    requires Snapshot.AllVersions(ScenarioStore())
    requires Snapshot.IsSnapshot(d => MatchSemantics.Matches(MatchFilter(map[], 15), d),
                                 ScenarioStore(), r)
    ensures r == []
  {
    AsWrittenSnapshotIsEmpty(map[], 15, ScenarioStore(), r);
  }

  // ---------------------------------------------------------------------------
  // Root::new

  /** The resolver tables of one endpoint: the shared capabilities plus one query
      template per singleton and per vector resolver. */
  datatype Root = Root(svc: Services, dto: Dto.DtoFactory, auth: Authorizers.Authorizer,
                       singletons: seq<string>, vectors: seq<string>)

  /** `Root::new`: one resolver per configured singleton and per vector, in order. */
  function NewRoot(svc: Services, dto: Dto.DtoFactory, auth: Authorizers.Authorizer,
                   config: Config.DtoConfig): (r: Root)
    ensures |r.singletons| == |config.singletons| && |r.vectors| == |config.vectors|
    ensures forall i :: 0 <= i < |config.singletons| ==> r.singletons[i] == config.singletons[i].query
    ensures forall i :: 0 <= i < |config.vectors| ==> r.vectors[i] == config.vectors[i].query
  {
    Root(svc, dto, auth,
         seq(|config.singletons|, i requires 0 <= i < |config.singletons| => config.singletons[i].query),
         seq(|config.vectors|, i requires 0 <= i < |config.vectors| => config.vectors[i].query))
  }

  function ResolveSingleton(root: Root, i: nat, args: Json, req: Option<Request>): Option<Json>
    requires i < |root.singletons|
  {
    Singleton(root.svc, root.auth, root.singletons[i], args, req)
  }

  function ResolveVector(root: Root, i: nat, args: Json, ctx: Option<Request>): Outcome<seq<Json>>
    requires i < |root.vectors|
  {
    Vector(root.svc, root.dto, root.auth, root.vectors[i], args, ctx)
  }

  /** The i-th resolver of a new root runs the i-th configured query template. */
  lemma NewRootResolversFollowConfig(svc: Services, dto: Dto.DtoFactory, auth: Authorizers.Authorizer,
                                     config: Config.DtoConfig, args: Json, req: Option<Request>)
    ensures forall i :: 0 <= i < |config.singletons| ==>
              ResolveSingleton(NewRoot(svc, dto, auth, config), i, args, req)
              == Singleton(svc, auth, config.singletons[i].query, args, req)
    ensures forall i :: 0 <= i < |config.vectors| ==>
              ResolveVector(NewRoot(svc, dto, auth, config), i, args, req)
              == Vector(svc, dto, auth, config.vectors[i].query, args, req)
  {
  }
}
