/** A parsed JSON value over texts of type `S`, which are strings in one component and bytes in another. */
module JsonValue {
  /** `Float` keeps the token of a number that is not an integer. */
  datatype Value<S> =
    | Null
    | Bool(b: bool)
    | Int(n: int)
    | Float(token: string)
    | Str(s: S)
    | Arr(items: seq<Value<S>>)
    | Obj(fields: map<S, Value<S>>)
}
