/** The type tags of the embedded interpreter's value stack (`StackValueType`)
    and their printable names. */
module StackTypes {
  import opened Base

  datatype StackValueType =
    | TNil | TBoolean | TLightUserdata | TNumber | TString
    | TTable | TFunction | TUserdata | TThread | TTuple

  /** The integer tag the interpreter's `lua_type` reports for each kind. */
  function Code(t: StackValueType): (c: int)
    ensures 0 <= c <= 10 && c != 9
  {
    match t
    case TNil => 0
    case TBoolean => 1
    case TLightUserdata => 2
    case TNumber => 3
    case TString => 4
    case TTable => 5
    case TFunction => 6
    case TUserdata => 7
    case TThread => 8
    case TTuple => 10
  }

  /** `LUA_TNIL`, the tag the pop protocol treats as "absent". */
  const LuaTNil: int := Code(TNil)

  /** The tag `lua_type` reports for an index that holds no value (`LUA_TNONE`). */
  const LuaTNone: int := -1

  /** Reading an integer tag back as a kind: the inverse of `Code`. */
  function FromCode(c: int): (r: Option<StackValueType>)
    ensures r.Some? ==> Code(r.value) == c
    ensures r.None? <==> (c < 0 || c == 9 || c > 10)
  {
    if c == 0 then Some(TNil)
    else if c == 1 then Some(TBoolean)
    else if c == 2 then Some(TLightUserdata)
    else if c == 3 then Some(TNumber)
    else if c == 4 then Some(TString)
    else if c == 5 then Some(TTable)
    else if c == 6 then Some(TFunction)
    else if c == 7 then Some(TUserdata)
    else if c == 8 then Some(TThread)
    else if c == 10 then Some(TTuple)
    else None
  }

  lemma FromCodeOfCode(t: StackValueType)
    ensures FromCode(Code(t)) == Some(t)
  {
  }

  const UnknownType: string := "unknown type"

  /** `StackValueType::raw_to_string`: a name for every 32-bit tag. */
  function RawToString(value: u32): (name: string)
    ensures name == UnknownType <==> FromCode(value).None?
  {
    match value
    case 0 => "NIL"
    case 1 => "BOOLEAN"
    case 2 => "LIGHTUSERDATA"
    case 3 => "NUMBER"
    case 4 => "STRING"
    case 5 => "TABLE"
    case 6 => "FUNCTION"
    case 7 => "USERDATA"
    case 8 => "THREAD"
    case 10 => "TUPLE"
    case _ => UnknownType
  }

  /** `StackValueType::to_string`: the name of a known kind. */
  function ToString(t: StackValueType): (name: string)
    ensures name == RawToString(Code(t))
    ensures name != UnknownType
  {
    RawToString(Code(t))
  }

  /** Distinct known tags have distinct names. */
  lemma NamesAreDistinct(a: u32, b: u32)
    requires FromCode(a).Some? && FromCode(b).Some? && a != b
    ensures RawToString(a) != RawToString(b)
  {
  }
}
