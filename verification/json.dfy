/** What `json.loads` hands back to the planners. The decoder itself is an
    oracle: each reply text maps to one of these outcomes. */
module Json {

  /** A decoded array element. `repr` is what Python's `str()` renders for
      a number, boolean, null, array or object. */
  datatype JsonValue = JString(s: string) | JNonString(repr: string)

  datatype JsonOutcome =
    | NotJson                         // `json.JSONDecodeError`
    | JsonArray(items: seq<JsonValue>)
    | JsonNonArray                    // valid JSON that is not a list

  type JsonDecoder = string -> JsonOutcome

  /** `str(value)`: a string stays itself. */
  function Stringify(v: JsonValue): string {
    match v
    case JString(s) => s
    case JNonString(r) => r
  }
}
