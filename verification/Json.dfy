// JSON values with unordered objects, and the accessors the gateway uses on them.
module Json {
  import opened Wrappers

  const U64_MODULUS := 0x1_0000_0000_0000_0000
  const I64_LIMIT := 0x8000_0000_0000_0000

  // Characters a printed number is made of; none of them is a JSON delimiter.
  predicate IsNumberChar(c: char) {
    '0' <= c <= '9' || c == '-' || c == '+' || c == '.' || c == 'e' || c == 'E'
  }

  // How a number that is not an integer prints: it has a fraction or an exponent.
  predicate IsFloatToken(token: string) {
    && token != []
    && ('0' <= token[0] <= '9' || token[0] == '-')
    && (forall i :: 0 <= i < |token| ==> IsNumberChar(token[i]))
    && ('.' in token || 'e' in token)
  }

  type FloatToken = token: string | IsFloatToken(token) witness "0.5"

  // The library keeps integers of 64 bits, signed or unsigned, and floats.
  type JsonInt = i: int | -I64_LIMIT <= i < U64_MODULUS

  datatype Number = Integer(value: JsonInt) | Float(token: FloatToken)

  datatype Value =
    | Null
    | Bool(flag: bool)
    | Num(number: Number)
    | Str(str: string)
    | Array(items: seq<Value>)
    | Object(fields: map<string, Value>)

  function Get(v: Value, key: string): Option<Value> {
    if v.Object? && key in v.fields then Some(v.fields[key]) else None
  }

  function AsStr(v: Option<Value>): Option<string> {
    if v.Some? && v.value.Str? then Some(v.value.str) else None
  }

  function AsU64(v: Option<Value>): Option<nat> {
    if v.Some? && v.value.Num? && v.value.number.Integer? && v.value.number.value >= 0
    then Some(v.value.number.value) else None
  }

  function AsI64(v: Option<Value>): (i: Option<int>)
    ensures i.Some? ==> -I64_LIMIT <= i.value < I64_LIMIT
  {
    if v.Some? && v.value.Num? && v.value.number.Integer? && v.value.number.value < I64_LIMIT
    then Some(v.value.number.value) else None
  }

  function AsArray(v: Option<Value>): Option<seq<Value>> {
    if v.Some? && v.value.Array? then Some(v.value.items) else None
  }

  // The string under `key`, or the empty string.
  function StrOrEmpty(v: Value, key: string): string {
    AsStr(Get(v, key)).UnwrapOr("")
  }

  // ---- The same, read off the value ---------------------------------------------

  // The string under `key`, or "".
  function Given(v: Value, key: string): string {
    if v.Object? && key in v.fields && v.fields[key].Str? then v.fields[key].str else ""
  }

  // The string under `inner` in the object under `key`, or "".
  function GivenIn(v: Value, key: string, inner: string): string {
    if v.Object? && key in v.fields then Given(v.fields[key], inner) else ""
  }

  // The values listed under `key`, none if there is no such list.
  function Listed(v: Value, key: string): seq<Value> {
    if v.Object? && key in v.fields && v.fields[key].Array? then v.fields[key].items else []
  }

  predicate IsUnsigned(v: Value) {
    v.Num? && v.number.Integer? && v.number.value >= 0
  }
}
