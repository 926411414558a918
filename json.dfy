/**
 * The untyped values a scaffolder template hands to the patch action:
 * whatever JSON the template author wrote. Numbers are kept as integers.
 */
module Json {

  datatype Value =
    | Null
    | Bool(b: bool)
    | Number(n: int)
    | Str(s: string)
    | Array(items: seq<Value>)
    | Object(members: seq<(string, Value)>)
}
