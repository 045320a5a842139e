/** JSON values as responses, options and answer keys store them, together with the decodings
    the server performs on them. A JSON null decodes into any Go value and leaves its zero value. */
module Json {
  import opened Common

  datatype Value =
    | Null
    | Bool(b: bool)
    | Number(n: real)
    | Text(s: string)
    | List(items: seq<Value>)
    | Object(fields: map<string, Value>)

  function AsString(v: Value): Option<string> {
    match v
    case Text(s) => Some(s)
    case Null => Some("")
    case _ => None
  }

  function AsBool(v: Value): Option<bool> {
    match v
    case Bool(b) => Some(b)
    case Null => Some(false)
    case _ => None
  }

  function AsNumber(v: Value): Option<real> {
    match v
    case Number(n) => Some(n)
    case Null => Some(0.0)
    case _ => None
  }

  function AsStrings(v: Value): Option<seq<string>> {
    match v
    case List(items) => Strings(items)
    case Null => Some([])
    case _ => None
  }

  function Strings(items: seq<Value>): (r: Option<seq<string>>)
    ensures r.Some? ==> |r.value| == |items|
    ensures r.Some? <==> forall i | 0 <= i < |items| :: AsString(items[i]).Some?
    ensures r.Some? ==> forall i | 0 <= i < |items| :: AsString(items[i]) == Some(r.value[i])
  {
    if items == [] then Some([])
    else
      match (AsString(items[0]), Strings(items[1..]))
      case (Some(s), Some(rest)) => Some([s] + rest)
      case _ => None
  }

  /** The string held by a field of an object; a missing field leaves the empty string. */
  function StringField(fields: map<string, Value>, name: string): Option<string> {
    if name in fields then AsString(fields[name]) else Some("")
  }

  /** Decoding into a struct with one list-of-strings field. */
  function AsStringListField(v: Value, name: string): Option<seq<string>> {
    match v
    case Object(fields) => if name in fields then AsStrings(fields[name]) else Some([])
    case Null => Some([])
    case _ => None
  }
}
