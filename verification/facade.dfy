/** The operation façade (`TarantoolContext`): CRUD, single-tuple reads,
    counting and transaction control. Each wrapper resolves names through the
    host, encodes its payloads, makes one host request and maps the host's -1
    to an error annotated with the names involved; any other code is success. */
module Facade {
  import opened Base
  import opened Errors
  import opened Host
  import opened Codes
  import opened Resolve

  /** The shared sentinel rule: -1 becomes `make_error(context)`, anything else succeeds. */
  function CheckSentinel(code: int, context: string, last: LastError): (r: Result<()>)
    ensures r.Ok? <==> code != -1
    ensures r.Err? ==> r == MakeError(context, last)
  {
    if code == -1 then MakeError(context, last) else Ok(())
  }

  predicate SpaceKnown(host: Host, spaceName: string) {
    host.spaceIdByName(spaceName) != BoxIdNil
  }

  /** Both names resolve: the space, then the index within that space. */
  predicate NamesKnown(host: Host, spaceName: string, indexName: string) {
    SpaceKnown(host, spaceName)
    && host.indexIdByName(host.spaceIdByName(spaceName), indexName) != BoxIdNil
  }

  function IndexIdOf(host: Host, spaceName: string, indexName: string): u32 {
    host.indexIdByName(host.spaceIdByName(spaceName), indexName)
  }

  function Labelled(op: string, spaceName: string, indexName: string): string {
    "error on " + op + "! space name=" + spaceName + " index name=" + indexName + " "
  }

  const DecodeInputMessage: string :=
    "Can't decode input parameters of Rust stored procedure ! Incorrect format of input message!"

  /** `decode_input_params`: any deserialisation failure of the argument buffer
      becomes one fixed message. */
  function DecodeInputParams<T>(decoded: Option<T>): (r: Result<T>)
    ensures r.Ok? <==> decoded.Some?
    ensures r.Ok? ==> r.value == decoded.value
    ensures r.Err? ==> r.error == IoError(Other, DecodeInputMessage)
  {
    match decoded
    case None => Err(IoError(Other, DecodeInputMessage))
    case Some(v) => Ok(v)
  }

  function InsertContext(spaceName: string): string {
    "error on insert! space name=" + Quoted(spaceName) + " "
  }

  function ReplaceContext(spaceName: string): string {
    "error on replace! space name=" + Quoted(spaceName) + " "
  }

  /** `insert`: the row is encoded before the space is resolved, so an
      unencodable row fails without any host request. */
  function Insert(spaceName: string, row: Encoding, host: Host, code: i32): (r: Traced<()>)
    ensures row.None? ==> r == Traced(Err(MapErrToIo()), [])
    ensures row.Some? && !SpaceKnown(host, spaceName) ==>
      r == Traced(GetSpaceId(spaceName, host).result.PropagateFailure(), [SpaceIdByName(spaceName)])
    ensures row.Some? && SpaceKnown(host, spaceName) ==>
      && r.calls == [SpaceIdByName(spaceName), BoxInsert(host.spaceIdByName(spaceName), row.value)]
      && r.result == CheckSentinel(code, InsertContext(spaceName), host.lastError)
    ensures r.result.Ok? <==> row.Some? && SpaceKnown(host, spaceName) && code != -1
    ensures Writes(r.calls) == 1 <==> row.Some? && SpaceKnown(host, spaceName)
  {
    match row
    case None => Traced(Err(MapErrToIo()), [])
    case Some(bytes) =>
      var s := GetSpaceId(spaceName, host);
      match s.result
      case Err(e) => Traced(Err(e), s.calls)
      case Ok(spaceId) =>
        Traced(CheckSentinel(code, InsertContext(spaceName), host.lastError), s.calls + [BoxInsert(spaceId, bytes)])
  }

  /** `replace`: the same shape as `insert`. */
  function Replace(spaceName: string, row: Encoding, host: Host, code: i32): (r: Traced<()>)
    ensures row.None? ==> r == Traced(Err(MapErrToIo()), [])
    ensures row.Some? && !SpaceKnown(host, spaceName) ==>
      r == Traced(GetSpaceId(spaceName, host).result.PropagateFailure(), [SpaceIdByName(spaceName)])
    ensures row.Some? && SpaceKnown(host, spaceName) ==>
      && r.calls == [SpaceIdByName(spaceName), BoxReplace(host.spaceIdByName(spaceName), row.value)]
      && r.result == CheckSentinel(code, ReplaceContext(spaceName), host.lastError)
    ensures r.result.Ok? <==> row.Some? && SpaceKnown(host, spaceName) && code != -1
    ensures Writes(r.calls) == 1 <==> row.Some? && SpaceKnown(host, spaceName)
  {
    match row
    case None => Traced(Err(MapErrToIo()), [])
    case Some(bytes) =>
      var s := GetSpaceId(spaceName, host);
      match s.result
      case Err(e) => Traced(Err(e), s.calls)
      case Ok(spaceId) =>
        Traced(CheckSentinel(code, ReplaceContext(spaceName), host.lastError), s.calls + [BoxReplace(spaceId, bytes)])
  }

  /** The requests of a two-name operation whose names resolved. */
  function Lookups(host: Host, spaceName: string, indexName: string): seq<HostCall> {
    [SpaceIdByName(spaceName), IndexIdByName(host.spaceIdByName(spaceName), indexName)]
  }

  /** `delete`: names first, then the key. */
  function Delete(spaceName: string, indexName: string, key: Encoding, host: Host, code: i32): (r: Traced<()>)
    ensures !NamesKnown(host, spaceName, indexName) ==>
      var ids := GetSpaceAndIndexId(spaceName, indexName, host);
      r == Traced(ids.result.PropagateFailure(), ids.calls)
    ensures NamesKnown(host, spaceName, indexName) && key.None? ==>
      r == Traced(Err(MapErrToIo()), Lookups(host, spaceName, indexName))
    ensures NamesKnown(host, spaceName, indexName) && key.Some? ==>
      && r.calls == Lookups(host, spaceName, indexName)
           + [BoxDelete(host.spaceIdByName(spaceName), IndexIdOf(host, spaceName, indexName), key.value)]
      && r.result == CheckSentinel(code, Labelled("delete", spaceName, indexName), host.lastError)
    ensures r.result.Ok? <==> NamesKnown(host, spaceName, indexName) && key.Some? && code != -1
    ensures Writes(r.calls) == 1 <==> NamesKnown(host, spaceName, indexName) && key.Some?
  {
    var ids := GetSpaceAndIndexId(spaceName, indexName, host);
    match ids.result
    case Err(e) => Traced(Err(e), ids.calls)
    case Ok((spaceId, indexId)) =>
      match key
      case None => Traced(Err(MapErrToIo()), ids.calls)
      case Some(k) =>
        WritesConcat(ids.calls, [BoxDelete(spaceId, indexId, k)]);
        Traced(CheckSentinel(code, Labelled("delete", spaceName, indexName), host.lastError),
               ids.calls + [BoxDelete(spaceId, indexId, k)])
  }

  /** `update`: key and operations are encoded in that order, and the
      field-numbering base reaches the host unchanged as 0 or 1; the encoded
      operations are passed through untouched (no re-basing). */
  function Update(spaceName: string, indexName: string, key: Encoding, ops: Encoding,
                  indexBase: IndexBase, host: Host, code: i32): (r: Traced<()>)
    ensures !NamesKnown(host, spaceName, indexName) ==>
      var ids := GetSpaceAndIndexId(spaceName, indexName, host);
      r == Traced(ids.result.PropagateFailure(), ids.calls)
    ensures NamesKnown(host, spaceName, indexName) && (key.None? || ops.None?) ==>
      r == Traced(Err(MapErrToIo()), Lookups(host, spaceName, indexName))
    ensures NamesKnown(host, spaceName, indexName) && key.Some? && ops.Some? ==>
      && r.calls == Lookups(host, spaceName, indexName)
           + [BoxUpdate(host.spaceIdByName(spaceName), IndexIdOf(host, spaceName, indexName),
                        key.value, ops.value, IndexBaseCode(indexBase))]
      && r.result == CheckSentinel(code, Labelled("update", spaceName, indexName), host.lastError)
    ensures r.result.Ok? <==> NamesKnown(host, spaceName, indexName) && key.Some? && ops.Some? && code != -1
    ensures Writes(r.calls) == 1 <==> NamesKnown(host, spaceName, indexName) && key.Some? && ops.Some?
  {
    var ids := GetSpaceAndIndexId(spaceName, indexName, host);
    match ids.result
    case Err(e) => Traced(Err(e), ids.calls)
    case Ok((spaceId, indexId)) =>
      match key
      case None => Traced(Err(MapErrToIo()), ids.calls)
      case Some(k) =>
        match ops
        case None => Traced(Err(MapErrToIo()), ids.calls)
        case Some(o) =>
          WritesConcat(ids.calls, [BoxUpdate(spaceId, indexId, k, o, IndexBaseCode(indexBase))]);
          Traced(CheckSentinel(code, Labelled("update", spaceName, indexName), host.lastError),
                 ids.calls + [BoxUpdate(spaceId, indexId, k, o, IndexBaseCode(indexBase))])
  }

  /** `upsert`: as `update`, with a whole row in place of the key. */
  function Upsert(spaceName: string, indexName: string, row: Encoding, ops: Encoding,
                  indexBase: IndexBase, host: Host, code: i32): (r: Traced<()>)
    ensures !NamesKnown(host, spaceName, indexName) ==>
      var ids := GetSpaceAndIndexId(spaceName, indexName, host);
      r == Traced(ids.result.PropagateFailure(), ids.calls)
    ensures NamesKnown(host, spaceName, indexName) && (row.None? || ops.None?) ==>
      r == Traced(Err(MapErrToIo()), Lookups(host, spaceName, indexName))
    ensures NamesKnown(host, spaceName, indexName) && row.Some? && ops.Some? ==>
      && r.calls == Lookups(host, spaceName, indexName)
           + [BoxUpsert(host.spaceIdByName(spaceName), IndexIdOf(host, spaceName, indexName),
                        row.value, ops.value, IndexBaseCode(indexBase))]
      && r.result == CheckSentinel(code, Labelled("upsert", spaceName, indexName), host.lastError)
    ensures r.result.Ok? <==> NamesKnown(host, spaceName, indexName) && row.Some? && ops.Some? && code != -1
    ensures Writes(r.calls) == 1 <==> NamesKnown(host, spaceName, indexName) && row.Some? && ops.Some?
  {
    var ids := GetSpaceAndIndexId(spaceName, indexName, host);
    match ids.result
    case Err(e) => Traced(Err(e), ids.calls)
    case Ok((spaceId, indexId)) =>
      match row
      case None => Traced(Err(MapErrToIo()), ids.calls)
      case Some(t) =>
        match ops
        case None => Traced(Err(MapErrToIo()), ids.calls)
        case Some(o) =>
          WritesConcat(ids.calls, [BoxUpsert(spaceId, indexId, t, o, IndexBaseCode(indexBase))]);
          Traced(CheckSentinel(code, Labelled("upsert", spaceName, indexName), host.lastError),
                 ids.calls + [BoxUpsert(spaceId, indexId, t, o, IndexBaseCode(indexBase))])
  }

  function TruncateContext(spaceName: string): string {
    "error on truncate space! space name=" + spaceName + "  "
  }

  /** `truncate_space`. */
  function TruncateSpace(spaceName: string, host: Host, code: i32): (r: Traced<()>)
    ensures !SpaceKnown(host, spaceName) ==>
      r == Traced(GetSpaceId(spaceName, host).result.PropagateFailure(), [SpaceIdByName(spaceName)])
    ensures SpaceKnown(host, spaceName) ==>
      && r.calls == [SpaceIdByName(spaceName), BoxTruncate(host.spaceIdByName(spaceName))]
      && r.result == CheckSentinel(code, TruncateContext(spaceName), host.lastError)
    ensures r.result.Ok? <==> SpaceKnown(host, spaceName) && code != -1
    ensures Writes(r.calls) == 1 <==> SpaceKnown(host, spaceName)
  {
    var s := GetSpaceId(spaceName, host);
    match s.result
    case Err(e) => Traced(Err(e), s.calls)
    case Ok(spaceId) =>
      Traced(CheckSentinel(code, TruncateContext(spaceName), host.lastError), s.calls + [BoxTruncate(spaceId)])
  }

  function GetDataContext(spaceName: string, indexName: string): string {
    "error on get data ! space name=" + spaceName + " index name=" + indexName + " "
  }

  /** `index_get_any`: resolution errors come first and stop everything; then
      -1 is an error, a null out-tuple is "not found" and any other is the tuple. */
  function IndexGetAny(accessor: Accessor, spaceName: string, indexName: string, key: Encoding,
                       host: Host, code: i32, out: Ptr): (r: Traced<Option<Tuple>>)
    ensures !NamesKnown(host, spaceName, indexName) ==>
      var ids := GetSpaceAndIndexId(spaceName, indexName, host);
      r == Traced(ids.result.PropagateFailure(), ids.calls)
    ensures NamesKnown(host, spaceName, indexName) && key.None? ==>
      r == Traced(Err(MapErrToIo()), Lookups(host, spaceName, indexName))
    ensures NamesKnown(host, spaceName, indexName) && key.Some? ==>
      && r.calls == Lookups(host, spaceName, indexName)
           + [BoxIndexRead(accessor, host.spaceIdByName(spaceName), IndexIdOf(host, spaceName, indexName), key.value)]
      && (code == -1 ==> r.result == MakeError(GetDataContext(spaceName, indexName), host.lastError))
    ensures r.result.Ok? <==> NamesKnown(host, spaceName, indexName) && key.Some? && code != -1
    ensures r.result == Ok(None) <==> NamesKnown(host, spaceName, indexName) && key.Some? && code != -1 && out.Null?
    ensures r.result.Ok? && r.result.value.Some? ==> out == Addr(r.result.value.value.addr)
  {
    var ids := GetSpaceAndIndexId(spaceName, indexName, host);
    match ids.result
    case Err(e) => Traced(Err(e), ids.calls)
    case Ok((spaceId, indexId)) =>
      match key
      case None => Traced(Err(MapErrToIo()), ids.calls)
      case Some(k) =>
        var calls := ids.calls + [BoxIndexRead(accessor, spaceId, indexId, k)];
        if code == -1 then Traced(MakeError(GetDataContext(spaceName, indexName), host.lastError), calls)
        else
          match out
          case Null => Traced(Ok(None), calls)
          case Addr(a) => Traced(Ok(Some(Tuple(a))), calls)
  }

  /** `index_get`: `index_get_any` over `box_index_get`. */
  function IndexGet(spaceName: string, indexName: string, key: Encoding,
                    host: Host, code: i32, out: Ptr): (r: Traced<Option<Tuple>>)
    ensures r == IndexGetAny(BoxIndexGet, spaceName, indexName, key, host, code, out)
    ensures forall c :: c in r.calls && c.BoxIndexRead? ==> c.accessor == BoxIndexGet
    ensures r.result.Ok? ==> |r.calls| == 3 && r.calls[2].BoxIndexRead? && r.calls[2].accessor == BoxIndexGet
  {
    IndexGetAny(BoxIndexGet, spaceName, indexName, key, host, code, out)
  }

  /** `index_min`: `index_get_any` over `box_index_min`. */
  function IndexMin(spaceName: string, indexName: string, key: Encoding,
                    host: Host, code: i32, out: Ptr): (r: Traced<Option<Tuple>>)
    ensures r == IndexGetAny(BoxIndexMin, spaceName, indexName, key, host, code, out)
    ensures forall c :: c in r.calls && c.BoxIndexRead? ==> c.accessor == BoxIndexMin
    ensures r.result.Ok? ==> |r.calls| == 3 && r.calls[2].BoxIndexRead? && r.calls[2].accessor == BoxIndexMin
  {
    IndexGetAny(BoxIndexMin, spaceName, indexName, key, host, code, out)
  }

  /** `index_max`: `index_get_any` over `box_index_max`. */
  function IndexMax(spaceName: string, indexName: string, key: Encoding,
                    host: Host, code: i32, out: Ptr): (r: Traced<Option<Tuple>>)
    ensures r == IndexGetAny(BoxIndexMax, spaceName, indexName, key, host, code, out)
    ensures forall c :: c in r.calls && c.BoxIndexRead? ==> c.accessor == BoxIndexMax
    ensures r.result.Ok? ==> |r.calls| == 3 && r.calls[2].BoxIndexRead? && r.calls[2].accessor == BoxIndexMax
  {
    IndexGetAny(BoxIndexMax, spaceName, indexName, key, host, code, out)
  }

  /** The three accessors agree on every outcome; only the host request differs. */
  lemma AccessorsShareOutcomes(a: Accessor, b: Accessor, spaceName: string, indexName: string,
                               key: Encoding, host: Host, code: i32, out: Ptr)
    ensures IndexGetAny(a, spaceName, indexName, key, host, code, out).result
         == IndexGetAny(b, spaceName, indexName, key, host, code, out).result
  {
  }

  function CountContext(spaceName: string, indexName: string): string {
    "error on index count! space name=" + spaceName + " index name=" + indexName + " "
  }

  /** `index_count`: -1 is an error; every other count, negative ones
      included, is returned as is. */
  function IndexCount(spaceName: string, indexName: string, iteratorType: IteratorType, key: Encoding,
                      host: Host, code: i64): (r: Traced<i64>)
    ensures !NamesKnown(host, spaceName, indexName) ==>
      var ids := GetSpaceAndIndexId(spaceName, indexName, host);
      r == Traced(ids.result.PropagateFailure(), ids.calls)
    ensures NamesKnown(host, spaceName, indexName) && key.None? ==>
      r == Traced(Err(MapErrToIo()), Lookups(host, spaceName, indexName))
    ensures NamesKnown(host, spaceName, indexName) && key.Some? ==>
      && r.calls == Lookups(host, spaceName, indexName)
           + [BoxIndexCount(host.spaceIdByName(spaceName), IndexIdOf(host, spaceName, indexName),
                            IteratorCode(iteratorType), key.value)]
      && (code == -1 ==> r.result == MakeError(CountContext(spaceName, indexName), host.lastError))
    ensures r.result.Ok? <==> NamesKnown(host, spaceName, indexName) && key.Some? && code != -1
    ensures r.result.Ok? ==> r.result.value == code
  {
    var ids := GetSpaceAndIndexId(spaceName, indexName, host);
    match ids.result
    case Err(e) => Traced(Err(e), ids.calls)
    case Ok((spaceId, indexId)) =>
      match key
      case None => Traced(Err(MapErrToIo()), ids.calls)
      case Some(k) =>
        var calls := ids.calls + [BoxIndexCount(spaceId, indexId, IteratorCode(iteratorType), k)];
        if code == -1 then Traced(MakeError(CountContext(spaceName, indexName), host.lastError), calls)
        else Traced(Ok(code), calls)
  }

  /** The message all three transaction wrappers use on failure. */
  const TxnContext: string := "error on begin tranaction "

  /** `txn_begin`. */
  function TxnBegin(host: Host, code: i32): (r: Traced<()>)
    ensures r.calls == [BoxTxnBegin]
    ensures r.result.Ok? <==> code != -1
    ensures r.result.Err? ==> r.result == MakeError(TxnContext, host.lastError)
  {
    Traced(CheckSentinel(code, TxnContext, host.lastError), [BoxTxnBegin])
  }

  /** `txn_commit`. */
  function TxnCommit(host: Host, code: i32): (r: Traced<()>)
    ensures r.calls == [BoxTxnCommit]
    ensures r.result.Ok? <==> code != -1
    ensures r.result.Err? ==> r.result == MakeError(TxnContext, host.lastError)
  {
    Traced(CheckSentinel(code, TxnContext, host.lastError), [BoxTxnCommit])
  }

  /** `txn_rollback`. */
  function TxnRollback(host: Host, code: i32): (r: Traced<()>)
    ensures r.calls == [BoxTxnRollback]
    ensures r.result.Ok? <==> code != -1
    ensures r.result.Err? ==> r.result == MakeError(TxnContext, host.lastError)
  {
    Traced(CheckSentinel(code, TxnContext, host.lastError), [BoxTxnRollback])
  }

  /** A failed name resolution is reported before any data request: whatever
      the host would have answered to the write, the outcome is the same. */
  lemma ResolutionFailureStopsBeforeWrite(spaceName: string, indexName: string, key: Encoding,
                                          ops: Encoding, base: IndexBase, host: Host, c1: i32, c2: i32)
    requires !NamesKnown(host, spaceName, indexName)
    ensures Update(spaceName, indexName, key, ops, base, host, c1) == Update(spaceName, indexName, key, ops, base, host, c2)
    ensures Delete(spaceName, indexName, key, host, c1) == Delete(spaceName, indexName, key, host, c2)
    ensures Writes(Update(spaceName, indexName, key, ops, base, host, c1).calls) == 0
    ensures Writes(Delete(spaceName, indexName, key, host, c1).calls) == 0
  {
  }
}
