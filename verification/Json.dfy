/** JSON values as Python's json module yields them. Objects are maps, so key order is not kept. */
module Json {
  import opened Text

  datatype Json = Null | Bool(b: bool) | Int(n: int) | Num(x: real) | Str(s: string) | Arr(items: seq<Json>)
                | Obj(fields: map<string, Json>)

  type Fields = map<string, Json>

  /** `d.get(key, default)`. */
  function GetOr(d: Fields, key: string, default: Json): Json {
    if key in d then d[key] else default
  }

  /** `d.get(key)`. */
  function Get(d: Fields, key: string): Json {
    GetOr(d, key, Null)
  }

  /** The fields of an object, or none at all for any other value. */
  function FieldsOf(j: Json): Fields {
    if j.Obj? then j.fields else map[]
  }

  function ItemsOf(j: Json): seq<Json> {
    if j.Arr? then j.items else []
  }

  /** `isinstance(v, int)`: booleans are integers in Python. */
  predicate IsInt(j: Json) {
    j.Int? || j.Bool?
  }

  function IntValue(j: Json): int {
    match j
    case Int(n) => n
    case Bool(b) => if b then 1 else 0
    case _ => 0
  }

  predicate IsNonNegative(j: Json) {
    IsInt(j) && IntValue(j) >= 0
  }

  /** Python's truth value. */
  predicate Truthy(j: Json) {
    match j
    case Null => false
    case Bool(b) => b
    case Int(n) => n != 0
    case Num(x) => x != 0.0
    case Str(s) => s != ""
    case Arr(items) => items != []
    case Obj(fields) => fields != map[]
  }

  /** `int(v or 0)` on numbers, truncating towards zero; every other value counts as 0. */
  function Count(j: Json): int {
    match j
    case Num(x) => if x >= 0.0 then x.Floor else -(-x).Floor
    case _ => IntValue(j)
  }

  function Texts(s: seq<string>): Json {
    Arr(seq(|s|, i requires 0 <= i < |s| => Str(s[i])))
  }
}
