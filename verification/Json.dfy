/** Decoded JSON as Go's `any` sees it. `Obj` stands for both map[string]any and
    model.JSONMap, `Int` for int and int64, `StrArr` for []string. */
module Json {

  type JsonMap = map<string, Value>

  datatype Value =
    | Null
    | Bool(b: bool)
    | Float(x: real)
    | Int(i: int)
    | Str(s: string)
    | Arr(items: seq<Value>)
    | StrArr(strs: seq<string>)
    | Obj(fields: map<string, Value>)

  datatype Option<+T> = None | Some(value: T) {
    function GetOr(default: T): T {
      match this
      case Some(v) => v
      case None => default
    }
  }

  /** `m[key]`, with nil for a missing key. */
  function Lookup(m: JsonMap, key: string): Value {
    if key in m then m[key] else Null
  }

  /** `catalog.toStringSlice`. */
  function ToStringSlice(v: Value): (r: Option<seq<string>>)
    ensures r.Some? <==> v.StrArr? || (v.Arr? && forall i :: 0 <= i < |v.items| ==> v.items[i].Str?)
    ensures r.Some? && v.Arr? ==>
              |r.value| == |v.items| && forall i :: 0 <= i < |v.items| ==> v.items[i] == Str(r.value[i])
  {
    match v
    case StrArr(strs) => Some(strs)
    case Arr(items) =>
      if forall i :: 0 <= i < |items| ==> items[i].Str? then
        Some(seq(|items|, i requires 0 <= i < |items| && items[i].Str? => items[i].s))
      else None
    case _ => None
  }

  /** `model.ReadStringSlice`: as `ToStringSlice`, but only for decoded arrays. */
  function ReadStringSlice(v: Value): Option<seq<string>> {
    if v.Arr? then ToStringSlice(v) else None
  }
}
