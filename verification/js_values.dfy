/** JSON values as the simple server sees them in a parsed request body, and
    JavaScript object spread over records of such values. */
module JsValues {

  /** A primitive JavaScript value. Structural equality on this type agrees with
      JavaScript's `===` on these values; a destructured field that the request
      body does not carry reads as `Undefined`. */
  datatype Value = Undefined | Null | Bool(b: bool) | Num(n: int) | Str(s: string)

  /** A flat JavaScript object: property name to value. */
  type Record = map<string, Value>

  /** Reading a property: a missing property reads as `undefined`. */
  function Get(o: Record, key: string): (v: Value)
    ensures key !in o ==> v == Undefined
    ensures key in o ==> v == o[key]
  {
    if key in o then o[key] else Undefined
  }

  /** `{...base, ...overlay}`: every property of either object, the overlay's
      value winning where both have one. */
  function Spread(base: Record, overlay: Record): (r: Record)
    ensures r.Keys == base.Keys + overlay.Keys
    ensures forall k :: k in overlay ==> r[k] == overlay[k]
    ensures forall k :: k in base && k !in overlay ==> r[k] == base[k]
  {
    base + overlay
  }

  /** Spreading the same overlay a second time changes nothing. */
  lemma SpreadIdempotent(base: Record, overlay: Record)
    ensures Spread(Spread(base, overlay), overlay) == Spread(base, overlay)
  {
  }
}
