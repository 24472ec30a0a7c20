/**
 * Movie records as the page receives them from the catalog: parsed JSON
 * objects, i.e. maps from property names to values.
 */
module Movies {
  import opened Wrappers

  /**
   * A property value as the page compares it with `===`. Primitives compare
   * by value; arrays and objects compare by identity, so they are represented
   * by an opaque reference. (A JSON number is a real; NaN never arises from
   * parsed JSON.)
   */
  datatype Value = Null | Bool(b: bool) | Num(x: real) | Str(s: string) | Ref(address: nat)

  /** A movie record: its own enumerable properties. */
  type Record = map<string, Value>

  /** `movie.id`; `None` stands for `undefined`, which is `===` to itself. */
  function IdOf(movie: Record): (r: Option<Value>)
    ensures r.Some? <==> "id" in movie
    ensures r.Some? ==> r.value == movie["id"]
  {
    if "id" in movie then Some(movie["id"]) else None
  }

  /** The object spread `{ ...base, ...details }`: every property of both, the detail's value winning on overlap. */
  function Merge(base: Record, details: Record): (r: Record)
    ensures r.Keys == base.Keys + details.Keys
    ensures forall k :: k in details ==> r[k] == details[k]
    ensures forall k :: k in base && k !in details ==> r[k] == base[k]
  {
    base + details
  }

  /**
   * The record displayMovie renders: the detail fields spread over the base
   * record, or the base record unchanged when the detail fetch (or its JSON
   * decoding) threw, which `details == None` stands for.
   */
  function Rendered(base: Record, details: Option<Record>): (r: Record)
    ensures base.Keys <= r.Keys
    ensures details.None? ==> r == base
    ensures details.Some? ==> r.Keys == base.Keys + details.value.Keys
    ensures details.Some? ==> forall k :: k in details.value ==> r[k] == details.value[k]
    ensures forall k :: k in base && (details.None? || k !in details.value) ==> r[k] == base[k]
  {
    match details
    case None => base
    case Some(d) => Merge(base, d)
  }
}
