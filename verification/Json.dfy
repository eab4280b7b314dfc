/** Decoded JSON, as Go's encoding/json delivers it into `any`. */
module Json {
  datatype Json =
    | Null
    | Bool(b: bool)
    | Num(n: real)
    | Str(s: string)
    | Arr(items: seq<Json>)
    | Obj(fields: map<string, Json>)

  type Document = map<string, Json>
}
