/** JSON values as Python's `json.loads` returns them, with Python's truth value and dictionary lookup. */
module Json {
  datatype Value =
    | Null
    | Boolean(truth: bool)
    | Number(number: real)
    | Str(text: string)
    | List(items: seq<Value>)
    | Dict(fields: map<string, Value>)

  predicate Truthy(v: Value) {
    match v
    case Null => false
    case Boolean(b) => b
    case Number(n) => n != 0.0
    case Str(s) => s != ""
    case List(items) => items != []
    case Dict(fields) => fields != map[]
  }

  /** The values that count as false are the six empty ones. */
  lemma FalsyIff(v: Value)
    ensures !Truthy(v) <==>
              || v == Null || v == Boolean(false) || v == Number(0.0) || v == Str("") || v == List([])
              || v == Dict(map[])
  {
  }

  /** `v.get(key)`: None when the key is absent; only dictionaries have the method. */
  function Get(v: Value, key: string): Value
    requires v.Dict?
  {
    if key in v.fields then v.fields[key] else Null
  }

  predicate Has(v: Value, key: string) {
    v.Dict? && key in v.fields
  }
}
