/** The scripting bridge (`LuaCall`): look a global function up onto the
    interpreter's stack, push its arguments while counting them, invoke it
    with that count, then pop its results one typed slot at a time. */
module Scripting {
  import opened Base
  import opened Errors
  import opened StackTypes
  import opened LuaStack
  import opened Host
  import Utf8

  /** The interpreter's whole stack together with the handle's argument counter. */
  datatype LuaCall = LuaCall(stack: seq<LuaValue>, parametersCount: nat)

  /** A transition of the bridge: the state after it and what it returned. */
  datatype Step<+T> = Step(call: LuaCall, result: Result<T>)

  /** `nresults` for "keep every result on the stack" (`LUA_MULTRET`). */
  const MultRet: int := -1

  /** `LuaCall::new`: a function name holding NUL is refused before the
      interpreter is touched; otherwise the global named `fnName` (the host's
      answer, `global`) is pushed and the counter starts at zero. */
  function New(stack: seq<LuaValue>, fnName: string, global: LuaValue): (r: Result<LuaCall>)
    ensures r.Err? <==> '\0' in fnName
    ensures r.Err? ==> r.error == IoError(InvalidInput, NulErrorMessage)
    ensures r.Ok? ==> r.value == LuaCall(stack + [global], 0)
  {
    Utf8.NulByteIffNulChar(fnName);
    match CStringNew(Utf8.Encode(fnName))
    case Err(e) => Err(e)
    case Ok(_) => Ok(LuaCall(stack + [global], 0))
  }

  /** Every infallible push: one more slot holding `v`, one more counted argument. */
  function PushValue(c: LuaCall, v: LuaValue): (r: LuaCall)
    ensures r.stack == c.stack + [v]
    ensures r.parametersCount == c.parametersCount + 1
  {
    LuaCall(c.stack + [v], c.parametersCount + 1)
  }

  /** `push_int` (`luaL_pushint64`). */
  function PushInt(c: LuaCall, value: i64): (r: LuaCall)
    ensures r.stack == c.stack + [Number(value)]
    ensures r.parametersCount == c.parametersCount + 1
  {
    PushValue(c, Number(value))
  }

  /** `push_uint` (`luaL_pushuint64`). */
  function PushUint(c: LuaCall, value: u64): (r: LuaCall)
    ensures r.stack == c.stack + [Number(value)]
    ensures r.parametersCount == c.parametersCount + 1
  {
    PushValue(c, Number(value))
  }

  /** `push_bool` (`lua_pushboolean`). */
  function PushBool(c: LuaCall, value: bool): (r: LuaCall)
    ensures r.stack == c.stack + [Boolean(value)]
    ensures r.parametersCount == c.parametersCount + 1
  {
    PushValue(c, Boolean(value))
  }

  /** `push_nil`. */
  function PushNil(c: LuaCall): (r: LuaCall)
    ensures r.stack == c.stack + [Nil]
    ensures r.parametersCount == c.parametersCount + 1
  {
    PushValue(c, Nil)
  }

  /** `push_str` (`lua_pushlstring`): the counter is bumped inline, to the same effect. */
  function PushStr(c: LuaCall, value: Bytes): (r: LuaCall)
    ensures r.stack == c.stack + [Str(value)]
    ensures r.parametersCount == c.parametersCount + 1
  {
    LuaCall(c.stack + [Str(value)], c.parametersCount + 1)
  }

  /** `push_tuple`: the counter is bumped first; a serialisation failure then
      returns an error with nothing pushed; otherwise the host tuple `created`
      (built from the encoded bytes) is pushed. */
  function PushTuple(c: LuaCall, value: Encoding, created: nat): (r: Step<()>)
    ensures r.call.parametersCount == c.parametersCount + 1
    ensures value.None? ==> r.result == Err(MapErrToIo()) && r.call.stack == c.stack
    ensures value.Some? ==> r.result == Ok(()) && r.call.stack == c.stack + [CData(Some(created))]
  {
    var counted := LuaCall(c.stack, c.parametersCount + 1);
    match value
    case None => Step(counted, Err(MapErrToIo()))
    case Some(_) => Step(LuaCall(counted.stack + [CData(Some(created))], counted.parametersCount), Ok(()))
  }

  /** `push_int_opt`: one counted slot either way, the number or a nil. */
  function PushIntOpt(c: LuaCall, value: Option<i64>): (r: LuaCall)
    ensures r.parametersCount == c.parametersCount + 1
    ensures r.stack == c.stack + [if value.Some? then Number(value.value) else Nil]
  {
    match value
    case Some(v) => PushInt(c, v)
    case None => PushNil(c)
  }

  /** `push_uint_opt`: one counted slot either way, the number or a nil. */
  function PushUintOpt(c: LuaCall, value: Option<u64>): (r: LuaCall)
    ensures r.parametersCount == c.parametersCount + 1
    ensures r.stack == c.stack + [if value.Some? then Number(value.value) else Nil]
  {
    match value
    case Some(v) => PushUint(c, v)
    case None => PushNil(c)
  }

  /** `push_bool_opt`: one counted slot either way, the boolean or a nil. */
  function PushBoolOpt(c: LuaCall, value: Option<bool>): (r: LuaCall)
    ensures r.parametersCount == c.parametersCount + 1
    ensures r.stack == c.stack + [if value.Some? then Boolean(value.value) else Nil]
  {
    match value
    case Some(v) => PushBool(c, v)
    case None => PushNil(c)
  }

  /** `push_str_opt`: one counted slot either way, the string's bytes or a nil. */
  function PushStrOpt(c: LuaCall, value: Option<Bytes>): (r: LuaCall)
    ensures r.parametersCount == c.parametersCount + 1
    ensures r.stack == c.stack + [if value.Some? then Str(value.value) else Nil]
  {
    match value
    case Some(v) => PushStr(c, v)
    case None => PushNil(c)
  }

  /** `push_tuple_opt`: the counter grows by one in every case; an absent tuple
      is a nil, which cannot fail; only a present tuple that does not serialise
      is an error, and then nothing is pushed. */
  function PushTupleOpt(c: LuaCall, value: Option<Encoding>, created: nat): (r: Step<()>)
    ensures r.call.parametersCount == c.parametersCount + 1
    ensures r.result.Err? <==> value == Some(None)
    ensures r.result.Err? ==> r.result == Err(MapErrToIo()) && r.call.stack == c.stack
    ensures r.result.Ok? ==>
      r.call.stack == c.stack + [if value.Some? then CData(Some(created)) else Nil]
  {
    match value
    case Some(v) => PushTuple(c, v, created)
    case None => Step(PushNil(c), Ok(()))
  }

  /** The optional pushes and the typed pops are inverse on the stack: what an
      optional push puts on top, the matching pop gives back (a nil as
      `None`), and the stack returns to what it was. The pop leaves the
      argument counter alone, so it stays one higher. */
  lemma IntOptPopsBack(c: LuaCall, value: Option<i64>, last: LastError)
    ensures var p := PopInteger(PushIntOpt(c, value), last);
      p.call.stack == c.stack && p.result == Ok(match value case Some(v) => Some(v as int) case None => None)
  {
  }

  lemma UintOptPopsBack(c: LuaCall, value: Option<u64>, last: LastError)
    ensures var p := PopNumber(PushUintOpt(c, value), last);
      p.call.stack == c.stack && p.result == Ok(match value case Some(v) => Some(v as int) case None => None)
  {
  }

  lemma BoolOptPopsBack(c: LuaCall, value: Option<bool>, last: LastError)
    ensures var p := PopBoolean(PushBoolOpt(c, value), last);
      p.call.stack == c.stack && p.result == Ok(value)
  {
  }

  /** A string pops back exactly as pushed when it holds no NUL. */
  lemma StrOptPopsBack(c: LuaCall, value: Option<string>, last: LastError)
    requires value.Some? ==> '\0' !in value.value
    ensures var bytes := match value case Some(s) => Some(Utf8.Encode(s)) case None => None;
      var p := PopStr(PushStrOpt(c, bytes), last);
      p.call.stack == c.stack && p.result == Ok(value)
  {
    var bytes := match value case Some(s) => Some(Utf8.Encode(s)) case None => None;
    var pushed := PushStrOpt(c, bytes);
    assert pushed.stack[..|c.stack|] == c.stack;
    match value {
      case None =>
      case Some(s) =>
        Utf8.NulByteIffNulChar(s);
        Utf8.DecodeEncode(s);
        var p := PopStr(pushed, last);
        assert p.result.Ok? && p.result.value.Some?;
        Utf8.DecodeEncode(p.result.value.value);
    }
  }

  /** A tuple that serialised pops back as the host tuple built from it. */
  lemma TupleOptPopsBack(c: LuaCall, value: Option<Bytes>, created: nat, last: LastError)
    ensures var encoding := match value case Some(b) => Some(Some(b)) case None => None;
      var p := PopTuple(PushTupleOpt(c, encoding, created).call, last);
      p.call.stack == c.stack && p.result == Ok(match value case Some(_) => Some(Tuple(created)) case None => None)
  {
  }

  /** The stack below the called function: what is left once the function and
      its `parametersCount` arguments are consumed. */
  function Below(c: LuaCall): (s: seq<LuaValue>)
    requires c.parametersCount < |c.stack|
    ensures |s| == |c.stack| - c.parametersCount - 1
  {
    c.stack[..|c.stack| - c.parametersCount - 1]
  }

  /** `call`: asks the host (`luaT_call`) to call with the counted arguments and
      every result kept. The host consumes the function and its arguments and
      leaves `pushed` on the stack; any non-zero host code is an error. */
  function Call(c: LuaCall, code: i32, pushed: seq<LuaValue>, last: LastError): (r: (Step<()>, HostCall))
    requires c.parametersCount < |c.stack|
    ensures r.1 == LuaTCall(c.parametersCount, MultRet)
    ensures r.0.result.Ok? <==> code == 0
    ensures code != 0 ==> r.0.result == MakeError("error on call stored proc!  ", last)
    ensures r.0.call == LuaCall(Below(c) + pushed, c.parametersCount)
  {
    var after := LuaCall(Below(c) + pushed, c.parametersCount);
    if code != 0 then
      (Step(after, MakeError("error on call stored proc!  ", last)), LuaTCall(c.parametersCount, MultRet))
    else
      (Step(after, Ok(())), LuaTCall(c.parametersCount, MultRet))
  }

  function MismatchMessage(expected: StackValueType, actual: i32): string {
    "Incorrect type of result!  expecting " + Quoted(ToString(expected))
      + " receive " + Quoted(RawToString(I32AsU32(actual)))
  }

  /** The pop protocol every typed pop follows, read off the stack before it:
      the counter is kept; an error leaves the stack untouched; a success pops
      exactly one slot; `None` comes exactly from a nil on top; a value comes
      only from a slot of the expected kind; and an empty stack or a slot of
      any other kind is the mismatch error naming both types. */
  ghost predicate PopProtocol<T>(c: LuaCall, r: Step<Option<T>>, expected: StackValueType, last: LastError) {
    var n := |c.stack|;
    && r.call.parametersCount == c.parametersCount
    && (r.result.Err? ==> r.call == c)
    && (r.result.Ok? ==> n >= 1 && r.call.stack == c.stack[..n - 1])
    && (r.result == Ok(None) <==> n >= 1 && c.stack[n - 1] == Nil)
    && (r.result.Ok? && r.result.value.Some? ==> TypeOf(c.stack[n - 1]) == expected)
    && ((n == 0 || TypeOf(c.stack[n - 1]) !in {expected, TNil}) ==>
          r.result == MakeError(MismatchMessage(expected, TopType(c.stack)), last))
  }

  /** `get_value_from_stack`: compares the top tag with `expected`. On a match
      the value is extracted and, only if that succeeds, one slot is popped; a
      nil pops one slot and yields `None`; anything else, an empty stack
      included, is an error naming both types, with the stack untouched. */
  function GetValueFromStack<T>(c: LuaCall, expected: StackValueType, extract: LuaValue -> Result<T>,
                                last: LastError): (r: Step<Option<T>>)
    requires expected != TNil
    ensures PopProtocol(c, r, expected, last)
    ensures r.result.Ok? && r.result.value.Some? ==> extract(c.stack[|c.stack| - 1]) == Ok(r.result.value.value)
  {
    var tag := TopType(c.stack);
    if tag == Code(expected) then
      var top := c.stack[|c.stack| - 1];
      match extract(top)
      case Err(e) => Step(c, Err(e))
      case Ok(v) =>
        var (s, res) := PopAndReturn(c.stack, Some(v));
        Step(LuaCall(s, c.parametersCount), res)
    else if tag == LuaTNil then
      var (s, res) := PopAndReturn(c.stack, None);
      Step(LuaCall(s, c.parametersCount), res)
    else
      Step(c, MakeError(MismatchMessage(expected, tag), last))
  }

  /** `pop_number`: accepts only numbers. */
  function PopNumber(c: LuaCall, last: LastError): (r: Step<Option<int>>)
    ensures PopProtocol(c, r, TNumber, last)
    ensures forall x: int :: r.result == Ok(Some(x)) <==> |c.stack| >= 1 && c.stack[|c.stack| - 1] == Number(x)
  {
    GetValueFromStack(c, TNumber, ToNumberWrapper, last)
  }

  /** `pop_integer`: accepts only numbers, like `pop_number`. */
  function PopInteger(c: LuaCall, last: LastError): (r: Step<Option<int>>)
    ensures PopProtocol(c, r, TNumber, last)
    ensures forall x: int :: r.result == Ok(Some(x)) <==> |c.stack| >= 1 && c.stack[|c.stack| - 1] == Number(x)
  {
    GetValueFromStack(c, TNumber, ToIntegerWrapper, last)
  }

  /** `pop_boolean`. */
  function PopBoolean(c: LuaCall, last: LastError): (r: Step<Option<bool>>)
    ensures PopProtocol(c, r, TBoolean, last)
    ensures forall b: bool :: r.result == Ok(Some(b)) <==> |c.stack| >= 1 && c.stack[|c.stack| - 1] == Boolean(b)
  {
    GetValueFromStack(c, TBoolean, v => ToBooleanWrapper(ToBoolean(v)), last)
  }

  /** `pop_str`: a string slot pops only if its bytes convert; a failed
      conversion leaves the slot in place. */
  function PopStr(c: LuaCall, last: LastError): (r: Step<Option<string>>)
    ensures PopProtocol(c, r, TString, last)
    ensures forall s: string :: r.result == Ok(Some(s)) ==> c.stack[|c.stack| - 1] == Str(Utf8.Encode(s))
    ensures |c.stack| >= 1 && c.stack[|c.stack| - 1].Str? ==>
      var b := c.stack[|c.stack| - 1].bytes;
      (r.result.Ok? <==> 0 !in b && Utf8.Decode(b).Some?)
  {
    GetValueFromStack(c, TString, StrWrapper, last)
  }

  /** `lua_tolstring_wrapper` applied to the top value. */
  function StrWrapper(v: LuaValue): (r: Result<string>)
    ensures v.Str? ==> (r.Ok? <==> 0 !in v.bytes && Utf8.Decode(v.bytes).Some?)
    ensures v.Str? && r.Ok? ==> v.bytes == Utf8.Encode(r.value)
  {
    var (data, len) := ToLString(v);
    assert data[..len] == data;
    ToLStringWrapper(data, len)
  }

  /** `lua_istuple_wrapper`: `luaT_istuple` is null for anything but a host
      tuple, which is an error; otherwise the tuple. */
  function IsTupleWrapper(v: LuaValue, last: LastError): (r: Result<Tuple>)
    ensures r.Ok? <==> v.CData? && v.tuple.Some?
    ensures r.Ok? ==> r.value == Tuple(v.tuple.value)
    ensures r.Err? ==> r == MakeError("No tuple as ret param!", last)
  {
    if v.CData? && v.tuple.Some? then Ok(Tuple(v.tuple.value))
    else MakeError("No tuple as ret param!", last)
  }

  /** `pop_tuple`: accepts tag 10, and then only a host tuple; other boxed
      values leave the slot in place. */
  function PopTuple(c: LuaCall, last: LastError): (r: Step<Option<Tuple>>)
    ensures PopProtocol(c, r, TTuple, last)
    ensures forall t: Tuple :: r.result == Ok(Some(t)) <==> |c.stack| >= 1 && c.stack[|c.stack| - 1] == CData(Some(t.addr))
  {
    GetValueFromStack(c, TTuple, v => IsTupleWrapper(v, last), last)
  }

  /** The arguments a caller can push without a fallible step. */
  datatype Arg = IntArg(i: i64) | UintArg(u: u64) | BoolArg(b: bool) | NilArg | StrArg(s: Bytes)

  function ArgValue(a: Arg): LuaValue {
    match a
    case IntArg(i) => Number(i)
    case UintArg(u) => Number(u)
    case BoolArg(b) => Boolean(b)
    case NilArg => Nil
    case StrArg(s) => Str(s)
  }

  function PushArg(c: LuaCall, a: Arg): LuaCall {
    match a
    case IntArg(i) => PushInt(c, i)
    case UintArg(u) => PushUint(c, u)
    case BoolArg(b) => PushBool(c, b)
    case NilArg => PushNil(c)
    case StrArg(s) => PushStr(c, s)
  }

  /** Pushing `args` in order. */
  function PushArgs(c: LuaCall, args: seq<Arg>): LuaCall
    decreases |args|
  {
    if |args| == 0 then c else PushArgs(PushArg(c, args[0]), args[1..])
  }

  function ArgValues(args: seq<Arg>): (vs: seq<LuaValue>)
    ensures |vs| == |args|
    ensures forall i :: 0 <= i < |args| ==> vs[i] == ArgValue(args[i])
    decreases |args|
  {
    if |args| == 0 then [] else [ArgValue(args[0])] + ArgValues(args[1..])
  }

  /** Whatever their types, pushing `args` adds exactly `|args|` to the counter
      and their values, in order, to the stack. */
  lemma {:induction false} PushArgsCounts(c: LuaCall, args: seq<Arg>)
    ensures PushArgs(c, args).parametersCount == c.parametersCount + |args|
    ensures PushArgs(c, args).stack == c.stack + ArgValues(args)
    decreases |args|
  {
    if |args| > 0 {
      var c1 := PushArg(c, args[0]);
      assert c1.stack == c.stack + [ArgValue(args[0])] && c1.parametersCount == c.parametersCount + 1;
      PushArgsCounts(c1, args[1..]);
    }
  }

  /** Look up, push `args`, call: the host is asked for exactly `|args|`
      arguments with every result kept, and afterwards the stack is what it was
      before the lookup plus the callee's results. */
  lemma CallPassesEveryPushedArgument(stack: seq<LuaValue>, fnName: string, global: LuaValue,
                                      args: seq<Arg>, code: i32, pushed: seq<LuaValue>, last: LastError)
    requires '\0' !in fnName
    ensures var c := PushArgs(New(stack, fnName, global).value, args);
      && c.parametersCount < |c.stack|
      && Call(c, code, pushed, last).1 == LuaTCall(|args|, MultRet)
      && Call(c, code, pushed, last).0.call.stack == stack + pushed
  {
    var c0 := New(stack, fnName, global).value;
    PushArgsCounts(c0, args);
    var c := PushArgs(c0, args);
    assert c.stack == stack + [global] + ArgValues(args);
    assert Below(c) == stack;
  }

  /** Results come off the stack last-returned first: a callee returning
      `(flag, count)` yields `count` on the first pop and `flag` on the second,
      and the stack is then back to what lay below the call. */
  lemma ResultsPopInReverseOrder(c: LuaCall, flag: bool, count: int, last: LastError)
    requires c.parametersCount < |c.stack|
    ensures var after := Call(c, 0, [Boolean(flag), Number(count)], last).0.call;
      var first := PopInteger(after, last);
      var second := PopBoolean(first.call, last);
      && first.result == Ok(Some(count))
      && second.result == Ok(Some(flag))
      && second.call.stack == Below(c)
  {
    var after := Call(c, 0, [Boolean(flag), Number(count)], last).0.call;
    var first := PopInteger(after, last);
    assert first.call.stack == Below(c) + [Boolean(flag)];
  }
}
