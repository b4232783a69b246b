/** JSON values as `serde_json::Value` holds them, and the JSON-RPC helpers built on them. */
module Json {
  import opened Wrappers
  import Text

  datatype Value =
    | Null
    | Bool(b: bool)
    | Int(n: int)
    | Real(r: real)
    | Str(s: string)
    | Arr(items: seq<Value>)
    | Obj(fields: map<string, Value>)

  /** `Value::get`: only an object has members. */
  function Get(v: Value, key: string): Option<Value> {
    if v.Obj? && key in v.fields then Some(v.fields[key]) else None
  }

  /** The method name, or the empty string when there is none. */
  function Method(v: Value): string {
    match Get(v, "method")
    case Some(Str(m)) => m
    case _ => ""
  }

  /** `set_id`: objects get the id, anything else is left alone. */
  function SetId(v: Value, id: Value): Value {
    if v.Obj? then Obj(v.fields["id" := id]) else v
  }

  /** Two messages that agree in everything but the id, which the second one has. */
  ghost predicate OnlyIdDiffers(before: Value, after: Value, id: Value) {
    && before.Obj? && after.Obj? && Get(after, "id") == Some(id)
    && forall key :: key != "id" ==> Get(after, key) == Get(before, key)
  }

  lemma SetIdReplacesOnlyId(v: Value, id: Value)
    requires v.Obj?
    ensures OnlyIdDiffers(v, SetId(v, id), id)
  {
  }

  function ErrorResponse(id: Value, message: string): Value {
    Obj(map[
      "jsonrpc" := Str("2.0"),
      "id" := id,
      "error" := Obj(map["code" := Int(-32000), "message" := Str(message)])
    ])
  }

  /** The key a child's id is looked up under: strings as they are, integers that fit
      64 bits in decimal, and nothing for any other kind of value. */
  function IdKey(id: Value): Option<string> {
    match id
    case Str(s) => Some(s)
    case Int(n) =>
      if -0x8000_0000_0000_0000 <= n < 0x1_0000_0000_0000_0000 then Some(Text.SignedDecimal(n)) else None
    case _ => None
  }
}
