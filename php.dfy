/** The parts of PHP's value semantics the rest of the model relies on:
    values as Laravel's `json` attribute cast decodes them, a missing array
    key, and PHP's conversion of a value to a boolean. */
module Php {

  datatype Option<+T> = None | Some(value: T)

  /** A value produced by `json_decode($text, true)`: JSON objects and JSON
      lists both become PHP arrays, kept apart here by their keys. */
  datatype Json =
    | JNull
    | JBool(b: bool)
    | JInt(i: int)
    | JFloat(f: real)
    | JString(s: string)
    | JList(items: seq<Json>)
    | JObject(fields: map<string, Json>)

  /** PHP's truth value of a string: only "" and "0" are falsy. */
  predicate StringTruthy(s: string) {
    s != "" && s != "0"
  }

  /** PHP's `(bool)` conversion: null, false, 0, 0.0, "", "0" and the empty
      array are falsy, everything else is truthy. */
  predicate Truthy(v: Json) {
    match v
    case JNull => false
    case JBool(b) => b
    case JInt(i) => i != 0
    case JFloat(f) => f != 0.0
    case JString(s) => StringTruthy(s)
    case JList(items) => |items| > 0
    case JObject(fields) => |fields| > 0
  }

  /** `$array[$key]`: a key that is not there reads as null. */
  function Get(fields: map<string, Json>, key: string): Json {
    if key in fields then fields[key] else JNull
  }

  /** `isset($array[$key])`: the key is there and its value is not null. */
  predicate IsSet(fields: map<string, Json>, key: string) {
    key in fields && fields[key] != JNull
  }
}
