/** The Python values a dict recipe holds. Python's int and float are both
    numbers here (exact reals); a dict keeps its str keys. */
module Values {

  datatype Value =
    | Num(n: real)
    | Str(s: string)
    | Null
    | List(items: seq<Value>)
    | Dict(fields: map<string, Value>)
}
