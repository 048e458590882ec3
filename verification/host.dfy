/** The host as the binding layer sees it. Nothing of the host is implemented:
    its answers are inputs (`Host` for the name lookups and the diagnostics
    area, explicit reply parameters for everything else), and what the layer
    asks of it is recorded as a trace of `HostCall`s, in order. */
module Host {
  import opened Base
  import opened Errors

  /** A pointer the host returns: null or some address. */
  datatype Ptr = Null | Addr(addr: nat)

  /** A non-null host tuple (`box_tuple_t *`). */
  datatype Tuple = Tuple(addr: nat)

  /** The three single-tuple index accessors that share one wrapper. */
  datatype Accessor = BoxIndexGet | BoxIndexMin | BoxIndexMax

  /** The reserved id the host's name lookups return for "no such name". */
  const BoxIdNil: u32 := 2147483647

  /** Requests the layer issues to the host. Reads of the diagnostics area
      (`box_error_last`, `box_error_message`) are not listed: their answer is
      `Host.lastError`. */
  datatype HostCall =
    | SpaceIdByName(name: string)
    | IndexIdByName(spaceId: u32, name: string)
    | BoxInsert(spaceId: u32, row: Bytes)
    | BoxReplace(spaceId: u32, row: Bytes)
    | BoxDelete(spaceId: u32, indexId: u32, key: Bytes)
    | BoxUpdate(spaceId: u32, indexId: u32, key: Bytes, ops: Bytes, indexBase: i32)
    | BoxUpsert(spaceId: u32, indexId: u32, row: Bytes, ops: Bytes, indexBase: i32)
    | BoxTruncate(spaceId: u32)
    | BoxIndexRead(accessor: Accessor, spaceId: u32, indexId: u32, key: Bytes)
    | BoxIndexCount(spaceId: u32, indexId: u32, iteratorType: byte, key: Bytes)
    | BoxIndexIterator(spaceId: u32, indexId: u32, iteratorType: byte, key: Bytes)
    | BoxIteratorNext(handle: nat)
    | BoxIteratorFree(handle: nat)
    | BoxTxnBegin | BoxTxnCommit | BoxTxnRollback
    | BoxTupleBsize(tuple: Tuple)
    | BoxTupleToBuf(tuple: Tuple)
    | BoxTupleField(tuple: Tuple, fieldNo: i32)
    | BoxErrorSet(request: ErrorSet)
    | BoxTupleFormatDefault
    | BoxKeyDefNew(fields: seq<u32>, types: seq<u32>, partCount: u32)
    | BoxTupleFormatNew(keyDef: nat, keyCount: int)
    | BoxTupleNew(format: nat, data: Bytes)
    | BoxReturnTuple(context: nat, tuple: Tuple)
    | LuaTCall(nargs: int, nreturns: int)

  /** The host's answers to the name lookups, and its last error at the moment
      the layer reads it. */
  datatype Host = Host(
    spaceIdByName: string -> u32,
    indexIdByName: (u32, string) -> u32,
    lastError: LastError)

  /** The outcome of serialising a value: its bytes, or `None` when the
      serialiser fails. */
  type Encoding = Option<Bytes>

  /** An outcome together with the requests that produced it. */
  datatype Traced<+T> = Traced(result: Result<T>, calls: seq<HostCall>)

  /** A request that changes data or schema (as opposed to a lookup). */
  predicate IsWrite(c: HostCall) {
    c.BoxInsert? || c.BoxReplace? || c.BoxDelete? || c.BoxUpdate? || c.BoxUpsert? || c.BoxTruncate?
  }

  /** Number of requests in `calls` that satisfy `IsWrite`. */
  function Writes(calls: seq<HostCall>): (n: nat)
    ensures n <= |calls|
    ensures n == 0 <==> forall i :: 0 <= i < |calls| ==> !IsWrite(calls[i])
  {
    if |calls| == 0 then 0
    else (if IsWrite(calls[0]) then 1 else 0) + Writes(calls[1..])
  }

  lemma {:induction false} WritesConcat(a: seq<HostCall>, b: seq<HostCall>)
    ensures Writes(a + b) == Writes(a) + Writes(b)
    decreases |a|
  {
    if |a| == 0 {
      assert a + b == b;
    } else {
      assert (a + b)[0] == a[0] && (a + b)[1..] == a[1..] + b;
      WritesConcat(a[1..], b);
    }
  }
}
