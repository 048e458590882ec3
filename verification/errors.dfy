/** The error side of the binding layer: `io::Error` values, the host's
    diagnostics area, and the helpers that turn one into the other
    (`make_error`, `map_err_to_io`, `set_last_error_wrapper`), together with
    the conversions from the standard library the layer relies on through `?`. */
module Errors {
  import opened Base
  import Utf8

  /** The two `io::ErrorKind`s the layer produces. */
  datatype ErrorKind = Other | InvalidInput

  datatype IoError = IoError(kind: ErrorKind, message: string)

  /** `io::Result<T>`. */
  datatype Result<+T> = Ok(value: T) | Err(error: IoError) {
    predicate IsFailure() { Err? }

    function PropagateFailure<U>(): Result<U>
      requires Err?
    {
      Err(error)
    }

    function Extract(): T
      requires Ok?
    {
      value
    }
  }

  /** A C string as the host hands it over: the bytes before its terminator. */
  type CBytes = b: Bytes | 0 !in b

  /** What `box_error_last` reports: nothing, or an error whose message is a C string. */
  datatype LastError = NoError | HostError(message: CBytes)

  /** `map_err_to_io`: every foreign error becomes an `Other` error with an empty message. */
  function MapErrToIo(): (e: IoError)
    ensures e.kind == Other && |e.message| == 0
  {
    IoError(Other, "")
  }

  /** The message of the `io::Error` the standard library builds from a `NulError`. */
  const NulErrorMessage: string := "data provided contains a nul byte"

  const AdditionalInfo: string := ", additional info : "

  /** `CString::new`: refuses bytes holding a zero byte, otherwise keeps them verbatim. */
  function CStringNew(b: Bytes): (r: Result<CBytes>)
    ensures r.Ok? <==> 0 !in b
    ensures r.Ok? ==> r.value == b
    ensures r.Err? ==> r.error == IoError(InvalidInput, NulErrorMessage)
  {
    if 0 in b then Err(IoError(InvalidInput, NulErrorMessage)) else Ok(b)
  }

  /** The error `make_error` builds. With no host error the message is the
      caller's text; otherwise the host's message, when it is valid UTF-8, is put
      in front of it; an undecodable host message collapses to `map_err_to_io`. */
  function ComposeError(additional: string, last: LastError): (e: IoError)
    ensures e.kind == Other
    ensures last.NoError? ==> e == IoError(Other, additional)
    ensures last.HostError? && Utf8.Decode(last.message).None? ==> e == MapErrToIo()
  {
    match last
    case NoError => IoError(Other, additional)
    case HostError(m) =>
      match Utf8.Decode(m)
      case None => MapErrToIo()
      case Some(text) => IoError(Other, text + AdditionalInfo + additional)
  }

  /** `make_error`: always an error, whatever the caller expected. */
  function MakeError<T>(additional: string, last: LastError): (r: Result<T>)
    ensures r.Err? && r.error == ComposeError(additional, last)
  {
    Err(ComposeError(additional, last))
  }

  /** The message `make_error` composes always ends with the caller's text, except
      when the host's own message is not UTF-8; and when it holds a host part,
      that part is exactly the host's message bytes. */
  lemma MakeErrorKeepsBothParts<T>(additional: string, last: LastError)
    ensures (last.HostError? && Utf8.Decode(last.message).None?)
         || EndsWith(MakeError<T>(additional, last).error.message, additional)
    ensures last.HostError? && Utf8.Decode(last.message).Some? ==>
      var msg := MakeError<T>(additional, last).error.message;
      var k := |msg| - |AdditionalInfo + additional|;
      0 <= k && Utf8.Encode(msg[..k]) == last.message && msg[k..] == AdditionalInfo + additional
  {
    var msg := MakeError<T>(additional, last).error.message;
    if last.HostError? && Utf8.Decode(last.message).Some? {
      var text := Utf8.Decode(last.message).value;
      Utf8.EncodeDecode(last.message);
      assert msg == text + (AdditionalInfo + additional);
      assert msg[..|text|] == text;
    }
  }

  /** A request the layer makes to the host's diagnostics area. */
  datatype ErrorSet = ErrorSet(file: CBytes, line: u32, code: u32, message: CBytes)

  /** `set_last_error_wrapper`: records `message` as the host's last error unless
      it holds a NUL, in which case nothing reaches the host. Returns the request
      sent, if any. */
  function SetLastError(message: string): (r: (Result<()>, Option<ErrorSet>))
    ensures r.0.Ok? <==> '\0' !in message
    ensures r.1.Some? <==> r.0.Ok?
    ensures r.1.Some? ==>
      && r.1.value.line == 1 && r.1.value.code == 1
      && Utf8.Decode(r.1.value.message) == Some(message)
  {
    match CStringNew(Utf8.Encode("rust"))
    case Err(e) => (Err(e), None)
    case Ok(file) =>
      match CStringNew(Utf8.Encode(message))
      case Err(e) =>
        Utf8.NulByteIffNulChar(message);
        (Err(e), None)
      case Ok(text) =>
        Utf8.NulByteIffNulChar(message);
        Utf8.DecodeEncode(message);
        (Ok(()), Some(ErrorSet(file, 1, 1, text)))
  }
}
