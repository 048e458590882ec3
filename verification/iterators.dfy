/** Index scans (`TarantoolIterator`): opening one, classifying each `next`
    answer of the host, and releasing the host iterator on drop. */
module Iterators {
  import opened Base
  import opened Errors
  import opened Host
  import opened Codes
  import opened Resolve

  /** An open scan: the host iterator and the encoded key, which the host keeps
      pointing into for the scan's whole lifetime. */
  datatype TarantoolIterator = TarantoolIterator(handle: nat, params: Bytes)

  function IteratorContext(spaceName: string, indexName: string): string {
    "space name=" + spaceName + " index name=" + indexName + " "
  }

  /** `index_iterator`: resolve both names, encode the key, ask the host for a
      scan. A null iterator is an error naming both; a non-null one becomes a
      handle that owns the very key bytes the host was given. */
  function IndexIterator(spaceName: string, indexName: string, iteratorType: IteratorType,
                         key: Encoding, host: Host, created: Ptr): (r: Traced<TarantoolIterator>)
    ensures var ids := GetSpaceAndIndexId(spaceName, indexName, host);
      && (ids.result.Err? ==> r == Traced(Err(ids.result.error), ids.calls))
      && (ids.result.Ok? && key.None? ==> r == Traced(Err(MapErrToIo()), ids.calls))
      && (ids.result.Ok? && key.Some? ==>
            && r.calls == ids.calls + [BoxIndexIterator(ids.result.value.0, ids.result.value.1,
                                                        IteratorCode(iteratorType), key.value)]
            && (created.Null? ==> r.result == MakeError(IteratorContext(spaceName, indexName), host.lastError)))
    ensures r.result.Ok? <==> GetSpaceAndIndexId(spaceName, indexName, host).result.Ok? && key.Some? && created.Addr?
    ensures r.result.Ok? ==> r.result.value == TarantoolIterator(created.addr, key.value)
  {
    var ids := GetSpaceAndIndexId(spaceName, indexName, host);
    match ids.result
    case Err(e) => Traced(Err(e), ids.calls)
    case Ok((spaceId, indexId)) =>
      match key
      case None => Traced(Err(MapErrToIo()), ids.calls)
      case Some(params) =>
        var calls := ids.calls + [BoxIndexIterator(spaceId, indexId, IteratorCode(iteratorType), params)];
        match created
        case Null => Traced(MakeError(IteratorContext(spaceName, indexName), host.lastError), calls)
        case Addr(a) => Traced(Ok(TarantoolIterator(a, params)), calls)
  }

  /** `index_iterator_all`: a full scan, keyed by the encoding of the
      one-element tuple `(0,)` (`noKey`). */
  function IndexIteratorAll(spaceName: string, indexName: string, noKey: Encoding,
                            host: Host, created: Ptr): (r: Traced<TarantoolIterator>)
    ensures r == IndexIterator(spaceName, indexName, ALL, noKey, host, created)
    ensures forall c :: c in r.calls && c.BoxIndexIterator? ==> c.iteratorType == 2
  {
    IndexIterator(spaceName, indexName, ALL, noKey, host, created)
  }

  /** The host's answer to `box_iterator_next`: a code and the out-pointer. */
  datatype NextReply = NextReply(code: i32, out: Ptr)

  const NextErrorMessage: string := "error on receive iterator next value"

  /** `Iterator::next`: -1 is an error (whatever the out-pointer); otherwise a
      null out-pointer ends the scan and any other is the next tuple. */
  function Next(it: TarantoolIterator, reply: NextReply): (r: (Option<Result<Tuple>>, HostCall))
    ensures r.1 == BoxIteratorNext(it.handle)
    ensures r.0 == Some(Err(IoError(Other, NextErrorMessage))) <==> reply.code == -1
    ensures r.0.None? <==> reply.code != -1 && reply.out.Null?
    ensures r.0.Some? && r.0.value.Ok? <==> reply.code != -1 && reply.out.Addr?
    ensures r.0.Some? && r.0.value.Ok? ==> r.0.value.value == Tuple(reply.out.addr)
  {
    if reply.code == -1 then
      (Some(Err(IoError(Other, NextErrorMessage))), BoxIteratorNext(it.handle))
    else
      match reply.out
      case Null => (None, BoxIteratorNext(it.handle))
      case Addr(a) => (Some(Ok(Tuple(a))), BoxIteratorNext(it.handle))
  }

  /** `Drop`: releases the host iterator. */
  function Drop(it: TarantoolIterator): (c: HostCall)
    ensures c.BoxIteratorFree? && c.handle == it.handle
  {
    BoxIteratorFree(it.handle)
  }

  /** A reply after which the consumer stops: end of scan or failure. */
  predicate Ends(reply: NextReply) {
    reply.code == -1 || reply.out.Null?
  }

  /** Position of the first reply that ends the scan. */
  function FirstEnd(replies: seq<NextReply>): (k: nat)
    requires exists i :: 0 <= i < |replies| && Ends(replies[i])
    ensures k < |replies| && Ends(replies[k])
    ensures forall j :: 0 <= j < k ==> !Ends(replies[j])
  {
    if Ends(replies[0]) then 0
    else
      assert exists i :: 0 <= i < |replies[1..]| && Ends(replies[1..][i]) by {
        var i :| 0 <= i < |replies| && Ends(replies[i]);
        assert i > 0 && Ends(replies[1..][i - 1]);
      }
      1 + FirstEnd(replies[1..])
  }

  /** Consuming an open scan the way a procedure does (`for row in it { row?; … }`):
      ask for rows until the scan ends or fails, then drop the iterator. The
      rows are exactly those before the first ending reply, a failure is never
      mistaken for the end, and the host iterator is freed once, last. */
  method Drain(it: TarantoolIterator, replies: seq<NextReply>)
      returns (rows: seq<Tuple>, result: Result<()>, calls: seq<HostCall>)
    requires exists i :: 0 <= i < |replies| && Ends(replies[i])
    ensures |rows| < |replies| && Ends(replies[|rows|])
    ensures forall j :: 0 <= j < |rows| ==> replies[j].code != -1 && replies[j].out == Addr(rows[j].addr)
    ensures result.Err? <==> replies[|rows|].code == -1
    ensures result.Err? ==> result == Err(IoError(Other, NextErrorMessage))
    ensures |calls| == |rows| + 2
    ensures forall j :: 0 <= j < |calls| - 1 ==> calls[j] == BoxIteratorNext(it.handle)
    ensures calls[|calls| - 1] == BoxIteratorFree(it.handle)
  {
    ghost var k := FirstEnd(replies);
    rows, result, calls := [], Ok(()), [];
    var i := 0;
    var done := false;
    while !done
      invariant 0 <= i <= k
      invariant |rows| == i
      invariant forall j :: 0 <= j < i ==> replies[j].code != -1 && replies[j].out == Addr(rows[j].addr)
      invariant |calls| == if done then i + 1 else i
      invariant forall j :: 0 <= j < |calls| ==> calls[j] == BoxIteratorNext(it.handle)
      invariant !done ==> result.Ok?
      invariant done ==> i == k && (result.Err? <==> replies[k].code == -1)
      invariant done && result.Err? ==> result == Err(IoError(Other, NextErrorMessage))
      decreases k - i, if done then 0 else 1
    {
      var (item, call) := Next(it, replies[i]);
      calls := calls + [call];
      match item
      case None =>
        done := true;
      case Some(Err(e)) =>
        result := Err(e);
        done := true;
      case Some(Ok(t)) =>
        rows := rows + [t];
        i := i + 1;
    }
    calls := calls + [Drop(it)];
  }
}
