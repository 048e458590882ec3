/** The last step of every stored procedure: handing its result back to the
    host (`return_tuple`), and the entry points built on it
    (`exec_stored_procedure`, `exec_stored_procedure_with_format`). */
module Export {
  import opened Base
  import opened Errors
  import opened Host
  import opened Codes
  import Utf8

  /** The host's answers during `return_tuple`: the default format, the key
      definition and the format built from it, the new tuple, and the code of
      `box_return_tuple`. */
  datatype ReturnReplies = ReturnReplies(defaultFormat: nat, keyDef: nat, customFormat: nat,
                                         tuple: Ptr, code: i32)

  /** `(0..n).map(|v| v as u32)`: the field numbers of a custom format. */
  function FieldNumbers(n: nat): (fields: seq<u32>)
    ensures |fields| == n
    ensures forall i :: 0 <= i < n ==> fields[i] == i % 0x1_0000_0000
  {
    seq(n, i requires 0 <= i < n => i % 0x1_0000_0000)
  }

  function FieldTypeCodes(format: seq<FieldType>): (codes: seq<u32>)
    ensures |codes| == |format|
    ensures forall i :: 0 <= i < |format| ==> codes[i] == FieldTypeCode(format[i])
  {
    seq(|format|, i requires 0 <= i < |format| => FieldTypeCode(format[i]))
  }

  /** The requests that pick the tuple format, and the format they yield.
      Without a custom format only the default format is asked for. With one
      of `n` fields, a key definition over fields 0..n-1 (numbered `as u32`)
      with their type codes is built first, and the format is then made from
      that key definition, with one key definition passed. */
  function FormatRequests(format: Option<seq<FieldType>>, replies: ReturnReplies): (r: (seq<HostCall>, nat))
    ensures format.None? ==> r.0 == [BoxTupleFormatDefault] && r.1 == replies.defaultFormat
    ensures format.Some? ==>
      var n := |format.value|;
      && |r.0| == 2
      && r.0[0].BoxKeyDefNew?
      && |r.0[0].fields| == n && |r.0[0].types| == n
      && (forall i :: 0 <= i < n ==> r.0[0].fields[i] == i % 0x1_0000_0000)
      && (forall i :: 0 <= i < n ==> r.0[0].types[i] == FieldTypeCode(format.value[i]))
      && r.0[0].partCount == n % 0x1_0000_0000
      && r.0[1] == BoxTupleFormatNew(replies.keyDef, 1)
      && r.1 == replies.customFormat
    ensures BoxTupleFormatDefault in r.0 <==> format.None?
  {
    match format
    case None => ([BoxTupleFormatDefault], replies.defaultFormat)
    case Some(fields) =>
      var n := |fields|;
      ([BoxKeyDefNew(FieldNumbers(n), FieldTypeCodes(fields), n % 0x1_0000_0000),
        BoxTupleFormatNew(replies.keyDef, 1)], replies.customFormat)
  }

  /** `return_tuple`. An error is recorded as the host's last error (unless its
      text holds a NUL) and yields -1. A value (given already encoded) is built
      into a host tuple of the chosen format and handed over; the status is
      whatever `box_return_tuple` answers. A null new tuple makes the source
      panic, so a successful result requires a non-null one. */
  function ReturnTuple(context: nat, result: Result<Bytes>, format: Option<seq<FieldType>>,
                       replies: ReturnReplies): (r: (i32, seq<HostCall>))
    requires result.Ok? ==> replies.tuple.Addr?
    ensures result.Err? ==> r.0 == -1
    ensures result.Err? ==> |r.1| <= 1 && (|r.1| == 1 <==> '\0' !in result.error.message)
    ensures result.Err? && |r.1| == 1 ==>
      r.1[0].BoxErrorSet? && Utf8.Decode(r.1[0].request.message) == Some(result.error.message)
    ensures result.Ok? ==> r.0 == replies.code
    ensures result.Ok? ==>
      var fmt := FormatRequests(format, replies);
      r.1 == fmt.0 + [BoxTupleNew(fmt.1, result.value), BoxReturnTuple(context, Tuple(replies.tuple.addr))]
    ensures result.Ok? && format.Some? && |format.value| < 0x1_0000_0000 ==>
      && r.1[0].BoxKeyDefNew?
      && r.1[0].partCount == |format.value|
      && (forall i :: 0 <= i < |format.value| ==>
            r.1[0].fields[i] == i && r.1[0].types[i] == FieldTypeCode(format.value[i]))
  {
    match result
    case Err(e) =>
      var (_, request) := SetLastError(e.message);
      (-1, if request.Some? then [BoxErrorSet(request.value)] else [])
    case Ok(bytes) =>
      var (calls, fmt) := FormatRequests(format, replies);
      (replies.code, calls + [BoxTupleNew(fmt, bytes), BoxReturnTuple(context, Tuple(replies.tuple.addr))])
  }

  /** `exec_stored_procedure`: runs the procedure (its result is `procResult`)
      and returns it with the default format; no custom format is ever built. */
  function ExecStoredProcedure(context: nat, procResult: Result<Bytes>, replies: ReturnReplies): (r: (i32, seq<HostCall>))
    requires procResult.Ok? ==> replies.tuple.Addr?
    ensures r == ReturnTuple(context, procResult, None, replies)
    ensures forall c :: c in r.1 ==> !c.BoxKeyDefNew? && !c.BoxTupleFormatNew?
    ensures procResult.Ok? ==> r.1[0] == BoxTupleFormatDefault
  {
    ReturnTuple(context, procResult, None, replies)
  }

  /** `exec_stored_procedure_with_format`: the same, with a custom format. */
  function ExecStoredProcedureWithFormat(context: nat, procResult: Result<Bytes>, format: seq<FieldType>,
                                         replies: ReturnReplies): (r: (i32, seq<HostCall>))
    requires procResult.Ok? ==> replies.tuple.Addr?
    ensures r == ReturnTuple(context, procResult, Some(format), replies)
    ensures forall c :: c in r.1 ==> !c.BoxTupleFormatDefault?
  {
    ReturnTuple(context, procResult, Some(format), replies)
  }
}
