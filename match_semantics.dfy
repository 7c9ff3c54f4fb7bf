/** A small fragment of MongoDB's query-filter semantics: top-level equality (with
    array membership), and the `$lt` and `$in` operators. It gives a meaning to the
    filters the gateway builds, so that what they select can be stated. */
module MatchSemantics {
  import opened Wrappers
  import opened Json

  /** A document matches a filter when it satisfies the condition on every key. */
  predicate Matches(filter: map<string, Json>, doc: Json)
  {
    forall k :: k in filter ==> FieldMatches(filter[k], Get(doc, k))
  }

  /** A condition document whose keys are all operators (`$lt`, `$in`, ...);
      any other value, embedded documents included, is compared for equality. */
  predicate IsOperatorDoc(cond: Json)
  {
    cond.Object? && cond.fields != map[] &&
    forall op :: op in cond.fields ==> |op| > 0 && op[0] == '$'
  }

  predicate FieldMatches(cond: Json, actual: Option<Json>)
  {
    if IsOperatorDoc(cond) then
      forall op :: op in cond.fields ==> OperatorMatches(op, cond.fields[op], actual)
    else
      EqualsValue(cond, actual)
  }

  /** Equality: a missing field equals `null`; an array field equals any of its elements. */
  predicate EqualsValue(v: Json, actual: Option<Json>)
  {
    match actual
    case None => v == Null
    case Some(a) => a == v || (a.Array? && v in a.items)
  }

  predicate OperatorMatches(op: string, arg: Json, actual: Option<Json>)
  {
    if op == "$lt" then actual.Some? && LessThan(actual.value, arg)
    else if op == "$in" then arg.Array? && exists v :: v in arg.items && EqualsValue(v, actual)
    else false
  }

  /** Comparison within one type bracket: dates with dates, integers with integers. */
  predicate LessThan(a: Json, b: Json)
  {
    match (a, b)
    case (DateTime(x), DateTime(y)) => x < y
    case (Int(x), Int(y)) => x < y
    case _ => false
  }
}
