/** The JSON/BSON document values the gateway passes around (`serde_json::Value`,
    plus the BSON date that the storage filters carry). */
module Json {
  import opened Wrappers

  const I64Min: int := -0x8000_0000_0000_0000
  const I64Max: int := 0x7FFF_FFFF_FFFF_FFFF

  datatype Json =
    | Null
    | Bool(b: bool)
    /** An integral number; serde_json keeps these as i64 or u64. */
    | Int(i: int)
    /** A number serde_json holds as f64. */
    | Float(f: real)
    | Str(s: string)
    | Array(items: seq<Json>)
    /** serde_json's object: a key-to-value mapping with unique keys. */
    | Object(fields: map<string, Json>)
    /** A BSON UTC datetime, milliseconds since the epoch (`bson::DateTime`). */
    | DateTime(millis: int)

  /** `Value::get(key)`: the field of an object, `None` for a missing key or a non-object. */
  function Get(v: Json, key: string): (r: Option<Json>)
    ensures r.Some? <==> v.Object? && key in v.fields
    ensures r.Some? ==> r.value == v.fields[key]
  {
    if v.Object? && key in v.fields then Some(v.fields[key]) else None
  }

  /** `Value::as_i64`: an integer that fits in a signed 64-bit word. */
  function AsI64(v: Json): (r: Option<int>)
    ensures r.Some? <==> v.Int? && I64Min <= v.i <= I64Max
    ensures r.Some? ==> r.value == v.i
  {
    if v.Int? && I64Min <= v.i <= I64Max then Some(v.i) else None
  }

  /** A top-level field path such as `"$id"` in a `$group` stage: the field's value, or
      `Null` for a missing field or a non-object, so such documents group under null. */
  function Index(v: Json, key: string): (r: Json)
    ensures r != Null ==> v.Object? && key in v.fields && r == v.fields[key]
    ensures v.Object? && key in v.fields ==> r == v.fields[key]
  {
    if v.Object? && key in v.fields then v.fields[key] else Null
  }

  /** `value[key] = x` on a `&mut Value` (serde_json's `IndexMut`): a `Null` value
      first becomes an empty object, an object gets `key` inserted or overwritten,
      and any other value makes the assignment panic. */
  function SetKey(v: Json, key: string, x: Json): (r: Outcome<Json>)
    ensures r.Returned? <==> v.Null? || v.Object?
    ensures r.Returned? ==> r.value.Object? && Get(r.value, key) == Some(x)
    ensures r.Returned? ==> forall k :: k != key ==> Get(r.value, k) == Get(v, k)
  {
    match v
    case Null => Returned(Object(map[key := x]))
    case Object(fields) => Returned(Object(fields[key := x]))
    case _ => Panicked
  }
}
