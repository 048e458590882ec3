/** The enumerations the façade passes to the host as integers:
    the scan kind (`IteratorType`, sent as a byte), the field-numbering base of
    update/upsert (`IndexBase`, sent as an `i32`) and the field types of a
    custom result format (`FieldType`, sent as `u32`). Each `Code` is the
    value of the `as` cast; each `FromCode` is its inverse. */
module Codes {
  import opened Base

  datatype IteratorType =
    | EQ | REQ | ALL | LT | LE | GE | GT
    | BitsAllSet | BitsAnySet | BitsAllNotSet | Ovelaps | Neigbor

  function IteratorCode(t: IteratorType): (c: byte)
    ensures c <= 11
  {
    match t
    case EQ => 0
    case REQ => 1
    case ALL => 2
    case LT => 3
    case LE => 4
    case GE => 5
    case GT => 6
    case BitsAllSet => 7
    case BitsAnySet => 8
    case BitsAllNotSet => 9
    case Ovelaps => 10
    case Neigbor => 11
  }

  function IteratorFromCode(c: int): (r: Option<IteratorType>)
    ensures r.Some? <==> 0 <= c <= 11
    ensures r.Some? ==> IteratorCode(r.value) == c
  {
    if c == 0 then Some(EQ)
    else if c == 1 then Some(REQ)
    else if c == 2 then Some(ALL)
    else if c == 3 then Some(LT)
    else if c == 4 then Some(LE)
    else if c == 5 then Some(GE)
    else if c == 6 then Some(GT)
    else if c == 7 then Some(BitsAllSet)
    else if c == 8 then Some(BitsAnySet)
    else if c == 9 then Some(BitsAllNotSet)
    else if c == 10 then Some(Ovelaps)
    else if c == 11 then Some(Neigbor)
    else None
  }

  lemma IteratorCodeRoundTrip(t: IteratorType)
    ensures IteratorFromCode(IteratorCode(t) as int) == Some(t)
  {
  }

  /** Whether update/upsert field numbers count from 0 or from 1. */
  datatype IndexBase = Zero | One

  function IndexBaseCode(b: IndexBase): (c: i32)
    ensures c == 0 <==> b == Zero
    ensures c == 1 <==> b == One
  {
    match b
    case Zero => 0
    case One => 1
  }

  datatype FieldType =
    | ANY | UNSIGNED | STRING | NUMBER | INTEGER | BOOLEAN | SCALAR | ARRAY | MAP | MAX

  function FieldTypeCode(t: FieldType): (c: u32)
    ensures c <= 9
  {
    match t
    case ANY => 0
    case UNSIGNED => 1
    case STRING => 2
    case NUMBER => 3
    case INTEGER => 4
    case BOOLEAN => 5
    case SCALAR => 6
    case ARRAY => 7
    case MAP => 8
    case MAX => 9
  }

  function FieldTypeFromCode(c: int): (r: Option<FieldType>)
    ensures r.Some? <==> 0 <= c <= 9
    ensures r.Some? ==> FieldTypeCode(r.value) == c
  {
    if c == 0 then Some(ANY)
    else if c == 1 then Some(UNSIGNED)
    else if c == 2 then Some(STRING)
    else if c == 3 then Some(NUMBER)
    else if c == 4 then Some(INTEGER)
    else if c == 5 then Some(BOOLEAN)
    else if c == 6 then Some(SCALAR)
    else if c == 7 then Some(ARRAY)
    else if c == 8 then Some(MAP)
    else if c == 9 then Some(MAX)
    else None
  }

  lemma FieldTypeCodeRoundTrip(t: FieldType)
    ensures FieldTypeFromCode(FieldTypeCode(t) as int) == Some(t)
  {
  }
}
