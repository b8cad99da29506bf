/**
 * The JSON-shaped records the services exchange with the backend. A record
 * is a map from property names to values; a property that is absent reads
 * as `undefined`, as in JavaScript.
 */
module JsValues {
  import Strings

  /** A property value. Dates travel as their JSON text. */
  datatype Value = Undefined | Null | Int(i: int) | Text(s: string)

  type Record = map<string, Value>

  /** `r[k]`: the property, or `undefined` when the record lacks it. */
  function Get(r: Record, k: string): Value
  {
    if k in r then r[k] else Undefined
  }

  /** `String(v)`: the text a value contributes to a `+` concatenation or a template literal. */
  function ToText(v: Value): string
  {
    match v
    case Undefined => "undefined"
    case Null => "null"
    case Int(i) => Strings.IntToString(i)
    case Text(s) => s
  }

  /** The value's text can stand as one URL path segment. */
  predicate IsSegment(v: Value)
  {
    '/' !in ToText(v)
  }
}
