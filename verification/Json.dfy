/**
 JSON values as the daemon and the client hold them after parsing.  Numbers keep
 the distinction serde_json makes between integers and floats, because the
 accessors below answer differently for the two.  Floats are real numbers:
 rounding is not modelled.
 */
module Json {
  import opened Wrappers

  const MIN_I64: int := -0x8000_0000_0000_0000
  const MAX_I64: int := 0x7fff_ffff_ffff_ffff
  const MAX_U64: int := 0xffff_ffff_ffff_ffff
  const MAX_U32: int := 0xffff_ffff

  datatype Number = Integer(i: int) | Float(x: real)

  datatype Json =
    | Null
    | Bool(b: bool)
    | Num(n: Number)
    | Str(s: string)
    | Arr(items: seq<Json>)
    | Obj(fields: map<string, Json>)

  function AsBool(v: Json): Option<bool> {
    if v.Bool? then Some(v.b) else None
  }

  function AsStr(v: Json): Option<string> {
    if v.Str? then Some(v.s) else None
  }

  function AsI64(v: Json): Option<int> {
    if v.Num? && v.n.Integer? && MIN_I64 <= v.n.i <= MAX_I64 then Some(v.n.i) else None
  }

  function AsU64(v: Json): Option<int> {
    if v.Num? && v.n.Integer? && 0 <= v.n.i <= MAX_U64 then Some(v.n.i) else None
  }

  function AsF64(v: Json): Option<real> {
    if v.Num? then Some(if v.n.Integer? then v.n.i as real else v.n.x) else None
  }

  /** `u32::try_from`. */
  function ToU32(i: Option<int>): Option<nat> {
    if i.Some? && 0 <= i.value <= MAX_U32 then Some(i.value) else None
  }

  /** `Option<T>` as serde writes it: a missing value is `null`. */
  function OptionalStr(s: Option<string>): Json {
    if s.Some? then Str(s.value) else Null
  }
}
