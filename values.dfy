/** The values the store holds: whatever the JSON body parser produces for the `value`
    field of a request body, plus `undefined` for a field the body does not have. */
module Values {

  /** A JSON value, or `undefined`. A number keeps only whether it is zero (0 or -0):
      that is the only thing about a number the store ever inspects, through truthiness.
      JSON has no NaN, the one other falsy number. */
  datatype Value =
    | Undefined
    | Null
    | Bool(b: bool)
    | Num(isZero: bool)
    | Str(s: string)
    | Arr(elems: seq<Value>)
    | Obj(fields: seq<(string, Value)>)

  /** JavaScript truthiness (the test `if (v)` and the coercion `!!v`). Arrays and objects
      are truthy even when empty. */
  predicate Truthy(v: Value) {
    match v
    case Undefined => false
    case Null => false
    case Bool(b) => b
    case Num(isZero) => !isZero
    case Str(s) => s != ""
    case Arr(_) => true
    case Obj(_) => true
  }
}
