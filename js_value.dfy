/**
 * JavaScript values as the core sees them: request bodies, notification
 * payloads and handler results. Numbers are integers here (floating point
 * is not modelled).
 */
module JsValue {

  datatype Value =
    | Undefined
    | Null
    | Bool(b: bool)
    | Num(n: int)
    | Str(s: string)
    | Arr(items: seq<Value>)
    | Obj(fields: map<string, Value>)

  /** JavaScript truthiness: `if (v)`, `v && …`, `v || …`. */
  predicate Truthy(v: Value) {
    match v
    case Undefined => false
    case Null => false
    case Bool(b) => b
    case Num(n) => n != 0
    case Str(s) => s != ""
    case Arr(_) => true
    case Obj(_) => true
  }

  /** `typeof v === 'object'` (which includes `null` and arrays). */
  predicate IsObjectType(v: Value) {
    v.Null? || v.Arr? || v.Obj?
  }

  /** `key in v` for an object `v` (an array never has the own keys used here). */
  predicate HasKey(v: Value, key: string) {
    v.Obj? && key in v.fields
  }
}
