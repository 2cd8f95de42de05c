/** JSON values as Python holds them: dicts keep insertion order and have distinct string keys;
    a tuple is a list of another type. */
module JsonTree {
  datatype Json =
    | Null
    | Bool(b: bool)
    | Number(x: real)
    | Text(s: string)
    | List(items: seq<Json>)
    | Tuple(items: seq<Json>)
    | Dict(fields: seq<Field>)

  datatype Field = Field(key: string, value: Json)
}
