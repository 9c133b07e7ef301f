/** The part of `json.loads` the handlers rely on. Parsing is foreign code:
    a stored JSON text carries, beside its raw characters, the outcome the
    parser gives for it, and the model only inspects that outcome. */
module Json {

  /** A decoded JSON value, as far as the handlers distinguish values: a
      string, an array, or anything else (number, boolean, null, object),
      which carries the text Python's `repr` gives for it. */
  datatype JsonValue = JString(s: string) | JArray(items: seq<JsonValue>) | JOther(repr: string)

  /** What `json.loads` gives: a value, or a decoding error and its message. */
  datatype Decoded = Malformed(error: string) | Parsed(value: JsonValue)

  /** A JSON text as a column or request field holds it. */
  datatype JsonText = JsonText(raw: string, decoded: Decoded)

  function Loads(t: JsonText): Decoded {
    t.decoded
  }

  /** `isinstance(json.loads(t), list)`, and the list if so. */
  predicate LoadsToList(t: JsonText) {
    Loads(t).Parsed? && Loads(t).value.JArray?
  }

  function LoadedItems(t: JsonText): seq<JsonValue>
    requires LoadsToList(t)
  {
    Loads(t).value.items
  }

  /** Python's `repr` of a decoded value, approximated: a string in single
      quotes with no escaping, a list in brackets with its items separated by
      ", ". */
  function Repr(v: JsonValue): string {
    match v
    case JString(s) => "'" + s + "'"
    case JArray(items) => "[" + ReprItems(items) + "]"
    case JOther(r) => r
  }

  function ReprItems(items: seq<JsonValue>): string
    decreases items
  {
    if items == [] then ""
    else if |items| == 1 then Repr(items[0])
    else Repr(items[0]) + ", " + ReprItems(items[1..])
  }
}
