/**
 * The schema-less values that flow through the updater: item identifiers, partial
 * documents and engine responses are arbitrary Python objects built from these shapes.
 * Floats are finite and are modelled exactly as reals.
 */
module Values {

  datatype Value =
    | Null                                 // None
    | Bool(b: bool)
    | Int(n: int)
    | Float(x: real)
    | Str(s: string)
    | List(items: seq<Value>)
    | Dict(fields: map<string, Value>)
}
