/**
 * JSON-like values, standing for the untyped parts of the editor's data:
 * component records (`Record<string, any>`), material props and user data.
 */
module Values {
  import opened Wrappers

  datatype Value =
    | Undefined
    | Null
    | Bool(b: bool)
    | Num(n: real)
    | Str(s: string)
    | Arr(items: seq<Value>)
    | Obj(fields: map<string, Value>)

  type Record = map<string, Value>

  /** JavaScript truthiness (NaN is not modelled, so every non-zero number is truthy). */
  predicate Truthy(v: Value) {
    match v
    case Undefined => false
    case Null => false
    case Bool(b) => b
    case Num(n) => n != 0.0
    case Str(s) => s != []
    case Arr(_) => true
    case Obj(_) => true
  }

  /** Optional chaining `v?.[key]`: the field of an object, undefined otherwise. */
  function Get(v: Value, key: string): Value {
    if v.Obj? && key in v.fields then v.fields[key] else Undefined
  }

  /** The own entries an object spread `{...v}` copies; spreading a non-object copies nothing. */
  function Entries(v: Value): Record {
    if v.Obj? then v.fields else map[]
  }

  /** A record read from an optional slot: `slot ?? {}`. */
  function OrEmpty(slot: Option<Record>): Record {
    match slot
    case Some(m) => m
    case None => map[]
  }
}
