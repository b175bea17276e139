/** JSON values as the settings file holds them once `json.loads` has parsed it. */
module JsonValue {

  /** A tagged JSON value; Python's `int` and `float` are kept apart. */
  datatype Json =
    | Null
    | Bool(b: bool)
    | Int(i: int)
    | Float(f: real)
    | Str(text: string)
    | Arr(items: seq<Json>)
    | Obj(fields: map<string, Json>)

  /** The parsed settings document: a flat object from keys to values. */
  type Document = map<string, Json>

  /** The value both revisions hand back when a lookup fails: the empty string. */
  const Blank: Json := Str("")

  /** Python truthiness of a JSON value, as `if val:` evaluates it. */
  predicate Truthy(v: Json)
  {
    match v
    case Null => false
    case Bool(b) => b
    case Int(i) => i != 0
    case Float(f) => f != 0.0
    case Str(t) => |t| > 0
    case Arr(xs) => |xs| > 0
    case Obj(m) => |m| > 0
  }
}
