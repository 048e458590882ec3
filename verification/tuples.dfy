/** Reading host tuples: whole-tuple and positional-field decoding of a
    `TarantoolTuple`, and the `DecodableOpt` impl for an optional tuple.
    What the deserialiser makes of the bytes is an input (`decoded`): `None`
    when they do not decode as the requested type. */
module Tuples {
  import opened Base
  import opened Errors
  import opened Host

  /** `Decodable::decode`: copies the tuple out (`box_tuple_bsize`, then
      `box_tuple_to_buf`) and deserialises the copy. */
  function Decode<V>(t: Tuple, decoded: Option<V>): (r: Traced<V>)
    ensures r.calls == [BoxTupleBsize(t), BoxTupleToBuf(t)]
    ensures r.result.Ok? <==> decoded.Some?
    ensures r.result.Ok? ==> r.result.value == decoded.value
    ensures r.result.Err? ==> r.result.error == MapErrToIo()
  {
    match decoded
    case None => Traced(Err(MapErrToIo()), [BoxTupleBsize(t), BoxTupleToBuf(t)])
    case Some(v) => Traced(Ok(v), [BoxTupleBsize(t), BoxTupleToBuf(t)])
  }

  /** `Decodable::decode_field`: asks the host for field `index`, passed as a
      C `int` (so indexes from 2^31 on reach the host negative). */
  function DecodeField<V>(t: Tuple, index: u32, decoded: Option<V>): (r: Traced<V>)
    ensures r.calls == [BoxTupleField(t, U32AsI32(index))]
    ensures index < 0x8000_0000 ==> r.calls[0].fieldNo == index
    ensures r.result.Ok? <==> decoded.Some?
    ensures r.result.Ok? ==> r.result.value == decoded.value
    ensures r.result.Err? ==> r.result.error == MapErrToIo()
  {
    match decoded
    case None => Traced(Err(MapErrToIo()), [BoxTupleField(t, U32AsI32(index))])
    case Some(v) => Traced(Ok(v), [BoxTupleField(t, U32AsI32(index))])
  }

  /** `DecodableOpt::decode`: an absent tuple is "no value" without any host
      request; a present one is decoded as an optional value. */
  function DecodeOpt<V>(t: Option<Tuple>, decoded: Option<Option<V>>): (r: Traced<Option<V>>)
    ensures t.None? ==> r == Traced(Ok(None), [])
    ensures r.calls == [] <==> t.None?
    ensures t.Some? ==> r.calls == [BoxTupleBsize(t.value), BoxTupleToBuf(t.value)]
    ensures t.Some? ==> (r.result.Ok? <==> decoded.Some?)
    ensures t.Some? && r.result.Ok? ==> r.result.value == decoded.value
  {
    match t
    case None => Traced(Ok(None), [])
    case Some(v) => Decode(v, decoded)
  }

  /** `DecodableOpt::decode_field`: the same for one field. */
  function DecodeFieldOpt<V>(t: Option<Tuple>, index: u32, decoded: Option<Option<V>>): (r: Traced<Option<V>>)
    ensures t.None? ==> r == Traced(Ok(None), [])
    ensures r.calls == [] <==> t.None?
    ensures t.Some? ==> r.calls == [BoxTupleField(t.value, U32AsI32(index))]
    ensures t.Some? ==> (r.result.Ok? <==> decoded.Some?)
    ensures t.Some? && r.result.Ok? ==> r.result.value == decoded.value
  {
    match t
    case None => Traced(Ok(None), [])
    case Some(v) => DecodeField(v, index, decoded)
  }

  /** Decoding an absent tuple does not depend on the deserialiser at all. */
  lemma AbsentTupleIgnoresDecoder<V>(d1: Option<Option<V>>, d2: Option<Option<V>>, index: u32)
    ensures DecodeOpt(None, d1) == DecodeOpt(None, d2)
    ensures DecodeFieldOpt(None, index, d1) == DecodeFieldOpt(None, index, d2)
  {
  }
}
