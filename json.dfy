/**
 * The parsed JSON document the query runs against, as the `json` crate's
 * `JsonValue` presents it to the evaluator.
 */
module JsonValues {

  /**
   * The payload of a JSON number. The evaluator never inspects it; it is
   * carried only so that two numbers can differ.
   */
  datatype Number = Number(negative: bool, mantissa: nat, exponent: int)

  /**
   * A JSON value. The crate's two string representations (short inline
   * strings and heap strings) are one variant here, and an object is a map
   * because the evaluator only ever looks keys up.
   */
  datatype Json =
    | Null
    | Bool(b: bool)
    | Num(number: Number)
    | Str(s: string)
    | Array(items: seq<Json>)
    | Object(fields: map<string, Json>)

  /** `c` is a direct child of the array or object `v`. */
  predicate IsChild(c: Json, v: Json) {
    (v.Array? && c in v.items) || (v.Object? && c in v.fields.Values)
  }
}
