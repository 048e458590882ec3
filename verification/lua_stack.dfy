/** The embedded interpreter's value stack and the small helpers over it
    (`lua_pop`, `lua_pop_and_return`, the `lua_to*_wrapper` functions).
    The stack is a sequence whose last element is the top. */
module LuaStack {
  import opened Base
  import opened Errors
  import opened StackTypes
  import Utf8

  /** A value on the interpreter's stack. Numbers carry their integer value
      (floating point is not modelled); `CData` is tag 10, which is a host
      tuple when `tuple` is present and some other boxed C value otherwise. */
  datatype LuaValue =
    | Nil
    | Boolean(b: bool)
    | LightUserdata(addr: nat)
    | Number(n: int)
    | Str(bytes: Bytes)
    | Table(ref: nat)
    | Function(ref: nat)
    | Userdata(ref: nat)
    | Thread(ref: nat)
    | CData(tuple: Option<nat>)

  function TypeOf(v: LuaValue): StackValueType {
    match v
    case Nil => TNil
    case Boolean(_) => TBoolean
    case LightUserdata(_) => TLightUserdata
    case Number(_) => TNumber
    case Str(_) => TString
    case Table(_) => TTable
    case Function(_) => TFunction
    case Userdata(_) => TUserdata
    case Thread(_) => TThread
    case CData(_) => TTuple
  }

  /** `lua_type(L, -1)`: the tag of the top value, `LUA_TNONE` on an empty stack. */
  function TopType(stack: seq<LuaValue>): (t: i32)
    ensures |stack| == 0 <==> t == LuaTNone
    ensures |stack| > 0 ==> FromCode(t) == Some(TypeOf(stack[|stack| - 1]))
  {
    if |stack| == 0 then LuaTNone else Code(TypeOf(stack[|stack| - 1]))
  }

  /** `lua_settop`: a non-negative index sets the height, filling with nil; a
      negative index counts from the top, -1 meaning "unchanged". */
  function SetTop(stack: seq<LuaValue>, idx: int): (r: seq<LuaValue>)
    requires idx >= -|stack| - 1
    ensures idx >= 0 ==> |r| == idx
    ensures idx < 0 ==> |r| == |stack| + idx + 1
    ensures forall i :: 0 <= i < |r| && i < |stack| ==> r[i] == stack[i]
    ensures forall i :: |stack| <= i < |r| ==> r[i] == Nil
    decreases if idx >= 0 then idx else 0
  {
    if idx < 0 then stack[..|stack| + idx + 1]
    else if idx <= |stack| then stack[..idx]
    else SetTop(stack, idx - 1) + [Nil]
  }

  /** `lua_pop(L, n)`: `lua_settop(L, -n - 1)`, which drops exactly the top `n` values. */
  function Pop(stack: seq<LuaValue>, n: nat): (r: seq<LuaValue>)
    requires n <= |stack|
    ensures r == stack[..|stack| - n]
  {
    SetTop(stack, -(n as int) - 1)
  }

  /** `lua_pop_and_return`: drops the top value and succeeds with `res`. */
  function PopAndReturn<T>(stack: seq<LuaValue>, res: T): (r: (seq<LuaValue>, Result<T>))
    requires |stack| >= 1
    ensures |r.0| == |stack| - 1 && r.0 == stack[..|stack| - 1]
    ensures r.1 == Ok(res)
  {
    (Pop(stack, 1), Ok(res))
  }

  /** `lua_tointeger`: the value of a number, 0 for anything else. */
  function ToInteger(v: LuaValue): int {
    if v.Number? then v.n else 0
  }

  /** `lua_toboolean`: 0 for nil and false, 1 for every other value. */
  function ToBoolean(v: LuaValue): (c: int)
    ensures c == 0 || c == 1
    ensures c == 0 <==> v == Nil || v == Boolean(false)
  {
    if v == Nil || v == Boolean(false) then 0 else 1
  }

  /** `lua_tolstring`: the bytes of a string, and the length it reports with them. */
  function ToLString(v: LuaValue): (r: (Bytes, nat))
    ensures r.1 == |r.0|
    ensures v.Str? ==> r.0 == v.bytes
  {
    if v.Str? then (v.bytes, |v.bytes|) else ([], 0)
  }

  /** `lua_tointeger_wrapper`. */
  function ToIntegerWrapper(v: LuaValue): (r: Result<int>)
    ensures r.Ok? && (v.Number? ==> r.value == v.n)
  {
    Ok(ToInteger(v))
  }

  /** `lua_tonumber_wrapper`: the number's value (floating point not modelled). */
  function ToNumberWrapper(v: LuaValue): (r: Result<int>)
    ensures r.Ok? && (v.Number? ==> r.value == v.n)
  {
    Ok(ToInteger(v))
  }

  /** `lua_toboolean_wrapper`: true exactly when the host answers 1. */
  function ToBooleanWrapper(code: int): (r: Result<bool>)
    ensures r.Ok? && (r.value <==> code == 1)
  {
    Ok(code == 1)
  }

  /** `lua_tolstring_wrapper` on the `len` bytes at `data`: an interior NUL
      fails as `CString::new` does, invalid UTF-8 fails through
      `map_err_to_io`, and otherwise the result is the string those bytes spell. */
  function ToLStringWrapper(data: Bytes, len: nat): (r: Result<string>)
    requires len <= |data|
    ensures r.Ok? <==> 0 !in data[..len] && Utf8.Decode(data[..len]).Some?
    ensures 0 in data[..len] ==> r.Err? && r.error == IoError(InvalidInput, NulErrorMessage)
    ensures 0 !in data[..len] && Utf8.Decode(data[..len]).None? ==> r.Err? && r.error == MapErrToIo()
    ensures r.Ok? ==> Utf8.Encode(r.value) == data[..len] && '\0' !in r.value
  {
    var slice := data[..len];
    match CStringNew(slice)
    case Err(e) => Err(e)
    case Ok(c) =>
      match Utf8.Decode(c)
      case None => Err(MapErrToIo())
      case Some(s) =>
        Utf8.EncodeDecode(c);
        Utf8.NulByteIffNulChar(s);
        Ok(s)
  }
}
