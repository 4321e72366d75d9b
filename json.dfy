/** The untyped JSON value that every loaded document, parameter and result is
    (serde_json's `Value`). Numbers are integers only. */
module JsonValue {
  import opened Wrappers

  datatype Json =
    | Null
    | Bool(b: bool)
    | Num(n: int)
    | Str(s: string)
    | Arr(items: seq<Json>)
    | Obj(fields: map<string, Json>)

  /** `Value::get(key)`: the field of an object; `None` for a missing field and
      for every value that is not an object. */
  function Get(v: Json, key: string): Option<Json>
  {
    if v.Obj? && key in v.fields then Some(v.fields[key]) else None
  }

  /** `Value::as_str` */
  function AsStr(v: Json): Option<string>
  {
    if v.Str? then Some(v.s) else None
  }

  /** `Value::as_object` */
  function AsObject(v: Json): Option<map<string, Json>>
  {
    if v.Obj? then Some(v.fields) else None
  }

  /** `params.get(key).and_then(|u| u.as_str()).unwrap_or("")`: a string field,
      or the empty string when it is missing or not a string. */
  function StrFieldOrEmpty(params: Json, key: string): (r: string)
    ensures params.Obj? && key in params.fields && params.fields[key].Str? ==> r == params.fields[key].s
    ensures !(params.Obj? && key in params.fields && params.fields[key].Str?) ==> r == ""
  {
    match Get(params, key)
    case Some(v) => AsStr(v).GetOr("")
    case None => ""
  }

  /** True when the value is an object that has the field (whatever its value,
      `null` included): `value.get(key).is_some()`. */
  predicate Has(v: Json, key: string) {
    Get(v, key).Some?
  }
}
