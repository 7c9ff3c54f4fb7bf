/** The DTO factory: turns a stored document into a response object field by field,
    replacing the fields that have a configured resolver and copying the rest. */
module Dto {
  import opened Wrappers
  import opened Json

  /** A field resolver, keyed by the field name it produces. */
  type FieldResolver = Json -> Json

  datatype DtoFactory = DtoFactory(resolvers: map<string, FieldResolver>)

  /** `DTOFactory::new`: the factory keeps the resolver table it is given. */
  function NewDtoFactory(resolvers: map<string, FieldResolver>): (f: DtoFactory)
    ensures f.resolvers == resolvers
  {
    DtoFactory(resolvers)
  }

  /** The value of one output field: the resolver's output when one is configured for
      the key, the input value otherwise. */
  function ResolveField(f: DtoFactory, key: string, value: Json): Json
  {
    if key in f.resolvers then f.resolvers[key](value) else value
  }

  /** What `fill_one` computes: an object with exactly the input object's keys, each
      resolved; a non-object input gives the empty object. */
  function Filled(f: DtoFactory, data: Json): (r: Json)
    ensures r.Object?
    ensures !data.Object? ==> r.fields == map[]
    ensures data.Object? ==> r.fields.Keys == data.fields.Keys
  {
    if data.Object? then
      Object(map k | k in data.fields :: ResolveField(f, k, data.fields[k]))
    else
      Object(map[])
  }

  /** `fill_one`: builds the result key by key. */
  method FillOne(f: DtoFactory, data: Json) returns (result: Json)
    ensures result == Filled(f, data)
  {
    var fields: map<string, Json> := map[];
    if data.Object? {
      var pending := data.fields.Keys;
      while pending != {}
        invariant pending <= data.fields.Keys
        invariant fields.Keys == data.fields.Keys - pending
        invariant forall k :: k in fields ==> fields[k] == ResolveField(f, k, data.fields[k])
        decreases pending
      {
        var key :| key in pending;
        if key in f.resolvers {
          fields := fields[key := f.resolvers[key](data.fields[key])];
        } else {
          fields := fields[key := data.fields[key]];
        }
        pending := pending - {key};
      }
    }
    result := Object(fields);
  }

  /** Fields with a resolver are replaced by its output, the others copied verbatim. */
  lemma FilledField(f: DtoFactory, data: Json, key: string)
    requires data.Object? && key in data.fields
    ensures key in f.resolvers ==> Get(Filled(f, data), key) == Some(f.resolvers[key](data.fields[key]))
    ensures key !in f.resolvers ==> Get(Filled(f, data), key) == Some(data.fields[key])
  {
  }

  /** Each output field depends only on the same-named input field. */
  lemma FilledIsLocal(f: DtoFactory, d1: Json, d2: Json, key: string)
    requires Get(d1, key) == Get(d2, key)
    ensures Get(Filled(f, d1), key) == Get(Filled(f, d2), key)
  {
  }

  /** Without resolvers the factory copies an object unchanged. */
  lemma FilledWithoutResolversIsIdentity(data: Json)
    requires data.Object?
    ensures Filled(DtoFactory(map[]), data) == data
  {
    var r := Filled(DtoFactory(map[]), data);
    assert r.fields == data.fields;
  }

  /** `fill_many`: `fill_one` on every element, in order. */
  function FillMany(f: DtoFactory, dataList: seq<Json>): (r: seq<Json>)
    ensures |r| == |dataList|
    ensures forall i :: 0 <= i < |dataList| ==> r[i] == Filled(f, dataList[i])
  {
    if dataList == [] then [] else [Filled(f, dataList[0])] + FillMany(f, dataList[1..])
  }

  /** Filling distributes over concatenation, so filling keeps documents' relative order. */
  lemma {:induction false} FillManyAppend(f: DtoFactory, a: seq<Json>, b: seq<Json>)
    ensures FillMany(f, a + b) == FillMany(f, a) + FillMany(f, b)
  {
    var l, r := FillMany(f, a + b), FillMany(f, a) + FillMany(f, b);
    assert |l| == |r|;
    forall i | 0 <= i < |l| ensures l[i] == r[i] {
      if i < |a| {
        assert (a + b)[i] == a[i];
      } else {
        assert (a + b)[i] == b[i - |a|];
      }
    }
  }
}
