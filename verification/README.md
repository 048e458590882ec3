# Tarantool Rust binding layer — a Dafny model

This project models the decision logic of the Rust binding layer that lets
stored procedures written in Rust run inside the Tarantool database server
(`src/tarantool/api.rs`, `src/tarantool/internal.rs`, `src/tarantool/dict.rs`).
The layer is mostly foreign-function glue. On top of the host calls it makes
a number of decisions, and those are what the model covers:

- **Name resolution.** Space and index names are resolved through the host.
  The reserved id 2147483647 (`BOX_ID_NIL`) means "unknown name".
- **The sentinel rules of the operation façade (`TarantoolContext`).** A host
  answer of -1 is an error. A null out-tuple means "not found" or "end of
  scan". Every other answer is success.
- **Error messages.** `make_error` builds them from the host's last error.
  `map_err_to_io` collapses every foreign error to an empty `Other` error.
- **The scripting bridge (`LuaCall`).** It counts pushed arguments and calls
  the function with that count. It then pops typed results off the
  interpreter's stack, checking each value's type tag first.
- **Index scans.** The model covers the three-way `next` classification and
  the single release of the host iterator.
- **Returning a result to the host (`return_tuple`).** This includes building
  a custom tuple format and the status code handed back to the host.
- **The process-wide name dictionaries.** These are two maps with clear, add
  and search operations.

The host is never implemented. Its answers are inputs:

- A `Host` record holds the name lookups and the last error.
- Every other host answer is an explicit reply parameter: a return code, or a
  pointer that is null or not.
- Each operation records the host requests it makes, in order, as a trace of
  `HostCall`s.
- Serialising a value is an input `Option<Bytes>`, where `None` means the
  serialiser failed.
- Deserialising is an input of the same shape.

Text crosses the boundary in both directions. Host bytes become Rust text
through `CStr::to_str`, which checks UTF-8. Rust text becomes host bytes
through `str::as_bytes`, and `CString::new` then refuses any zero byte. The
model has a UTF-8 decoder that follows Table 3-7 of The Unicode Standard, and
an encoder. The two are proved to be inverse in both directions.

Modules, one per file:

| file | module | models |
|---|---|---|
| `base.dfy` | `Base` | machine integer widths, the `as` casts that wrap, and `{:?}` quoting |
| `utf8.dfy` | `Utf8` | UTF-8 well-formedness, and decoding and encoding |
| `errors.dfy` | `Errors` | `io::Result`, `make_error`, `map_err_to_io`, `set_last_error_wrapper`, `CString::new` |
| `stack_types.dfy` | `StackTypes` | `StackValueType`, `raw_to_string`, `to_string` |
| `codes.dfy` | `Codes` | the `IteratorType`, `IndexBase` and `FieldType` codes |
| `host.dfy` | `Host` | host requests, the host oracle, traces |
| `resolve.dfy` | `Resolve` | `get_space_id`, `get_index_id`, `get_space_and_index_id` |
| `lua_stack.dfy` | `LuaStack` | the value stack, `lua_pop`, `lua_pop_and_return`, the `lua_to*_wrapper`s |
| `scripting.dfy` | `Scripting` | `LuaCall`: `new`, the pushes, `call`, `get_value_from_stack`, the pops |
| `tuples.dfy` | `Tuples` | `Decodable` for a tuple, and `DecodableOpt` for an optional tuple |
| `iterators.dfy` | `Iterators` | `index_iterator`, `index_iterator_all`, `TarantoolIterator::next` and `drop` |
| `facade.dfy` | `Facade` | `decode_input_params`, the CRUD wrappers, `index_get_any`, the index reads, `index_count`, `txn_*` |
| `export.dfy` | `Export` | `return_tuple`, `exec_stored_procedure`, `exec_stored_procedure_with_format` |
| `dict.dfy` | `Dict` | the name dictionaries |

Two points about the code are worth knowing:

- `get_space_id` and `get_index_id` ask the host on every call. They never
  read the dictionaries of `dict.rs`. `Resolve` models that: exactly one
  lookup request per resolution.
- `txn_commit` and `txn_rollback` report failures with the same text as
  `txn_begin` ("error on begin tranaction ", misspelling included). The
  model keeps that one shared message (`Facade.TxnContext`).

## Model

| member | source | states |
|---|---|---|
| Base.U32AsI32 | src/tarantool/api.rs:132 | the `index as c_int` cast is the two's-complement inverse of the `as u32` reinterpretation |
| Utf8.DecodeIffEncoding | src/tarantool/internal.rs:160-169 | a byte string is accepted as UTF-8 and decodes to `s` exactly when it is the encoding of `s` |
| Utf8.DecodeEncode | src/tarantool/internal.rs:160-169 | every string survives an encode-then-decode round trip |
| Utf8.EncodeDecode | src/tarantool/internal.rs:160-169 | whatever decodes re-encodes to the same bytes |
| Utf8.NulByteIffNulChar | src/tarantool/internal.rs:212-217 | a string's bytes hold a zero byte exactly when the string holds U+0000, which is when `CString::new` refuses it |
| Errors.MapErrToIo | src/tarantool/internal.rs:232-238 | every foreign error becomes an `Other` error with an empty message |
| Errors.CStringNew | src/tarantool/internal.rs:165 | a C string is built exactly when there is no zero byte, and keeps the bytes; otherwise it is an `InvalidInput` error |
| Errors.ComposeError | src/tarantool/internal.rs:219-230 | the error of `make_error` is always of kind `Other`; with no host error its message is the caller's text; a host message that is not UTF-8 collapses it to the `map_err_to_io` error |
| Errors.MakeError | src/tarantool/internal.rs:219-230 | `make_error` always fails, and its error is the one `ComposeError` describes |
| Errors.MakeErrorKeepsBothParts | src/tarantool/internal.rs:219-230 | unless the host message is not UTF-8 (which gives the empty `map_err_to_io` error), the composed message ends with the caller's text; when it holds a host part, that part re-encodes to exactly the host's message bytes, followed by ", additional info : " |
| Errors.SetLastError | src/tarantool/internal.rs:212-217 | succeeds exactly when the message holds no NUL; only then does a request reach the host, with line 1, code 1 and a payload that decodes back to the message |
| StackTypes.Code | src/tarantool/internal.rs:15-26 | the ten kinds have tags 0 to 8 and 10; tag 9 is unused |
| StackTypes.FromCode | src/tarantool/internal.rs:15-26 | reading a tag back inverts `Code`, and fails exactly for negative tags, 9 and tags above 10 |
| StackTypes.FromCodeOfCode | src/tarantool/internal.rs:15-26 | round trip from kind to tag and back |
| StackTypes.RawToString | src/tarantool/internal.rs:29-43 | total over 32-bit tags; "unknown type" exactly for the tags that name no kind |
| StackTypes.ToString | src/tarantool/internal.rs:45-47 | the name of a kind is `raw_to_string` of its tag, and is never "unknown type" |
| StackTypes.NamesAreDistinct | src/tarantool/internal.rs:29-43 | distinct known tags have distinct names |
| Codes.IteratorCode | src/tarantool/api.rs:21-34 | scan kinds are sent as bytes 0 to 11 |
| Codes.IteratorFromCode | src/tarantool/api.rs:21-34 | inverse of `IteratorCode`, defined exactly on 0 to 11 |
| Codes.IteratorCodeRoundTrip | src/tarantool/api.rs:21-34 | round trip from scan kind to byte and back |
| Codes.IndexBaseCode | src/tarantool/api.rs:43-46 | the field-numbering base is sent as 0 for `Zero` and 1 for `One`, and as nothing else |
| Codes.FieldTypeCode | src/tarantool/api.rs:50-61 | field types are sent as 0 to 9 |
| Codes.FieldTypeFromCode | src/tarantool/api.rs:50-61 | inverse of `FieldTypeCode`, defined exactly on 0 to 9 |
| Codes.FieldTypeCodeRoundTrip | src/tarantool/api.rs:50-61 | round trip from field type to code and back |
| Resolve.GetSpaceId | src/tarantool/internal.rs:172-184 | exactly one host lookup; `Ok(id)` exactly when the id is not 2147483647, else the "unknown space name" error through `make_error` |
| Resolve.GetIndexId | src/tarantool/internal.rs:187-200 | the same rule for the index lookup within the given space id, with the space name quoted in the message |
| Resolve.GetSpaceAndIndexId | src/tarantool/internal.rs:203-210 | the space is looked up first; if it is unknown, no index lookup happens; otherwise the index is looked up under the resolved id, and success returns both ids |
| LuaStack.TopType | src/tarantool/api.rs:319 | on a non-empty stack, the tag of the top value, which reads back as that value's kind; an empty stack gets the model's own answer, `LUA_TNONE` (-1) |
| LuaStack.SetTop | src/tarantool/internal.rs:129-133 | `lua_settop`: a non-negative index sets the height, padding with nil; a negative one counts from the top, keeping the values below |
| LuaStack.Pop | src/tarantool/internal.rs:129-133 | `lua_pop(n)`, as `settop(-n-1)`, removes exactly the top `n` slots |
| LuaStack.PopAndReturn | src/tarantool/internal.rs:135-140 | removes exactly one slot and succeeds with the given value |
| LuaStack.ToIntegerWrapper | src/tarantool/internal.rs:148-152 | never fails, and yields the number's value |
| LuaStack.ToNumberWrapper | src/tarantool/internal.rs:142-146 | never fails, and yields the number's value |
| LuaStack.ToBoolean | src/tarantool/internal.rs:154-158 | the host's truth value is 0 or 1 |
| LuaStack.ToBooleanWrapper | src/tarantool/internal.rs:154-158 | never fails, and is true exactly when the host answers 1 |
| LuaStack.ToLString | src/tarantool/internal.rs:160-163 | the reported length is the length of the string's bytes |
| LuaStack.ToLStringWrapper | src/tarantool/internal.rs:160-169 | fails with the NUL error on an interior zero byte, with the empty `Other` error on invalid UTF-8, and otherwise yields the NUL-free string whose encoding is those bytes |
| Scripting.New | src/tarantool/api.rs:205-212 | a name holding NUL is refused with the stack untouched; otherwise the looked-up global is pushed and the counter starts at 0 |
| Scripting.PushValue | src/tarantool/api.rs:214-216 | one slot and one count more |
| Scripting.PushInt | src/tarantool/api.rs:218-223 | pushes the number and adds one count |
| Scripting.PushUint | src/tarantool/api.rs:232-237 | pushes the number and adds one count |
| Scripting.PushBool | src/tarantool/api.rs:246-251 | pushes the boolean and adds one count |
| Scripting.PushNil | src/tarantool/api.rs:260-265 | pushes nil and adds one count |
| Scripting.PushStr | src/tarantool/api.rs:288-296 | pushes the bytes and adds one count, incrementing the counter inline to the same effect |
| Scripting.PushTuple | src/tarantool/api.rs:267-276 | the count is bumped before serialising; a serialisation failure is an error with nothing pushed; otherwise the new host tuple is pushed |
| Scripting.PushIntOpt | src/tarantool/api.rs:225-230 | one counted argument either way; the new top slot is the number, or nil for `None` |
| Scripting.PushUintOpt | src/tarantool/api.rs:239-244 | one counted argument either way; the new top slot is the number, or nil for `None` |
| Scripting.PushBoolOpt | src/tarantool/api.rs:253-258 | one counted argument either way; the new top slot is the boolean, or nil for `None` |
| Scripting.PushStrOpt | src/tarantool/api.rs:298-305 | one counted argument either way; the new top slot is the string's bytes, or nil for `None` |
| Scripting.PushTupleOpt | src/tarantool/api.rs:278-286 | the counter grows by one in every case; it fails exactly for a present value that does not serialise, and then nothing is pushed; otherwise the new top slot is the host tuple, or nil for `None` |
| Scripting.IntOptPopsBack | src/tarantool/api.rs:225-230 | `pop_integer` after `push_int_opt` gives back the pushed value (`None` for nil) and restores the stack |
| Scripting.UintOptPopsBack | src/tarantool/api.rs:239-244 | `pop_number` after `push_uint_opt` gives back the pushed value (`None` for nil) and restores the stack |
| Scripting.BoolOptPopsBack | src/tarantool/api.rs:253-258 | `pop_boolean` after `push_bool_opt` gives back the pushed value and restores the stack |
| Scripting.StrOptPopsBack | src/tarantool/api.rs:298-305 | `pop_str` after `push_str_opt` of a string's bytes gives back the same string when it holds no NUL, and restores the stack |
| Scripting.TupleOptPopsBack | src/tarantool/api.rs:278-286 | `pop_tuple` after a `push_tuple_opt` that serialised gives back the host tuple built from it (`None` for nil) and restores the stack |
| Scripting.PushArgsCounts | src/tarantool/api.rs:214-305 | pushing any sequence of arguments adds exactly its length to the counter and its values, in order, to the stack |
| Scripting.Call | src/tarantool/api.rs:308-315 | the host is asked for a call with nargs = the counter and nreturns = -1; any non-zero answer is the "error on call stored proc!" error; the function and its arguments are replaced by the results |
| Scripting.CallPassesEveryPushedArgument | src/tarantool/api.rs:205-315 | look up, push `k` arguments, call: the host is asked for exactly `k` arguments, and the stack afterwards is the stack before the lookup plus the results |
| Scripting.GetValueFromStack | src/tarantool/api.rs:317-330 | the expected tag with extraction succeeding pops one slot and returns the value; nil pops one slot and returns `None`; a failed extraction or any other tag is an error with the stack unchanged, and the mismatch message names both types; an empty stack is treated the same way, which is the model's choice |
| Scripting.PopNumber | src/tarantool/api.rs:333-335 | the pop protocol for `NUMBER`; yields `x` exactly when the top is the number `x` |
| Scripting.PopInteger | src/tarantool/api.rs:337-339 | the pop protocol for `NUMBER` too; yields `x` exactly when the top is the number `x` |
| Scripting.PopBoolean | src/tarantool/api.rs:341-343 | the pop protocol for `BOOLEAN`; yields `b` exactly when the top is the boolean `b` |
| Scripting.PopStr | src/tarantool/api.rs:345-347 | the pop protocol for `STRING`; a string slot pops exactly when its bytes are NUL-free valid UTF-8, and the result encodes back to those bytes |
| Scripting.StrWrapper | src/tarantool/internal.rs:160-169 | on a string value, succeeds exactly for NUL-free valid UTF-8 bytes, and the result encodes back to them |
| Scripting.IsTupleWrapper | src/tarantool/api.rs:349-357 | succeeds exactly on a host tuple; anything else is the "No tuple as ret param!" error |
| Scripting.PopTuple | src/tarantool/api.rs:359-361 | the pop protocol for tag 10; yields a tuple exactly when the top is that host tuple, and other boxed values stay on the stack with an error |
| Scripting.ResultsPopInReverseOrder | src/tarantool/api.rs:308-343 | after a call returning `(flag, count)`, the first pop yields `count`, the second yields `flag`, and the stack is back to what lay below the call |
| Tuples.Decode | src/tarantool/api.rs:115-126 | copies the tuple out (size, then buffer) and yields the deserialised value, or the empty `Other` error |
| Tuples.DecodeField | src/tarantool/api.rs:128-137 | one field request with the index cast to a C `int` (unchanged below 2^31), then deserialisation |
| Tuples.DecodeOpt | src/tarantool/api.rs:139-146 | an absent tuple is `Ok(None)` with no host request; a present one is decoded |
| Tuples.DecodeFieldOpt | src/tarantool/api.rs:147-153 | an absent tuple is `Ok(None)` with no host request; a present one has its field decoded |
| Tuples.AbsentTupleIgnoresDecoder | src/tarantool/api.rs:139-153 | decoding an absent tuple does not depend on the deserialiser |
| Iterators.IndexIterator | src/tarantool/api.rs:398-413 | names are resolved, then the key is encoded, then the scan is requested; a null iterator is an error naming both; success owns the exact key bytes the host was given |
| Iterators.IndexIteratorAll | src/tarantool/api.rs:391-396 | a full scan: `index_iterator` with scan kind `ALL` (sent as 2) |
| Iterators.Next | src/tarantool/api.rs:180-194 | -1 is an error whatever the out-pointer; otherwise a null out-pointer ends the scan and any other is the next tuple; a failure is never mistaken for the end |
| Iterators.Drop | src/tarantool/api.rs:169-175 | releases exactly the scan's own host iterator |
| Iterators.Drain | src/tarantool/api.rs:155-194 | consuming a scan yields one tuple per reply up to the first reply that ends it, fails exactly when that reply is -1, and frees the host iterator once, after the last `next` |
| Facade.DecodeInputParams | src/tarantool/api.rs:379-389 | succeeds exactly when the arguments deserialise, with the decoded value; every failure is the `Other` error "Can't decode input parameters of Rust stored procedure ! Incorrect format of input message!" |
| Facade.Insert | src/tarantool/api.rs:415-428 | the row is encoded before the space is resolved; exactly one write request exactly when both succeed; -1 is an error labelled with the quoted space name, and anything else is success |
| Facade.Replace | src/tarantool/api.rs:430-443 | the same as `insert`, with a replace request |
| Facade.Delete | src/tarantool/api.rs:445-461 | names first, then the key; one delete request exactly when both succeed; -1 is an error naming space and index |
| Facade.Update | src/tarantool/api.rs:463-481 | names, then key, then operations; one update request carrying the base as 0 or 1, exactly when all succeed; -1 is an error |
| Facade.Upsert | src/tarantool/api.rs:483-501 | the same as `update`, with a whole row in place of the key |
| Facade.TruncateSpace | src/tarantool/api.rs:503-515 | one truncate request exactly when the space resolves; -1 is an error |
| Facade.ResolutionFailureStopsBeforeWrite | src/tarantool/api.rs:445-481 | when name resolution fails, no write request is made and the outcome does not depend on the write's answer |
| Facade.IndexGetAny | src/tarantool/api.rs:531-557 | resolution errors come first; then -1 is an error, a null out-tuple is `Ok(None)`, and any other is that tuple |
| Facade.IndexGet | src/tarantool/api.rs:559-565 | `index_get_any` over `box_index_get`; the one read request is a get |
| Facade.IndexMin | src/tarantool/api.rs:567-573 | `index_get_any` over `box_index_min`; the one read request is a min |
| Facade.IndexMax | src/tarantool/api.rs:575-581 | `index_get_any` over `box_index_max`; the one read request is a max |
| Facade.AccessorsShareOutcomes | src/tarantool/api.rs:531-581 | the three accessors agree on every outcome; only the request differs |
| Facade.IndexCount | src/tarantool/api.rs:583-599 | -1 is an error; every other count, negative ones included, is returned unchanged |
| Facade.TxnBegin | src/tarantool/api.rs:607-614 | one begin request; -1 is an error, and anything else is success |
| Facade.TxnCommit | src/tarantool/api.rs:616-623 | one commit request; -1 is an error with the begin message |
| Facade.TxnRollback | src/tarantool/api.rs:625-632 | one rollback request; -1 is an error with the begin message |
| Export.FieldNumbers | src/tarantool/api.rs:659 | `n` field numbers, the `i`-th being `i` cast to `u32` |
| Export.FieldTypeCodes | src/tarantool/api.rs:660 | the field types' codes, position by position |
| Export.FormatRequests | src/tarantool/api.rs:656-663 | the default format is asked for exactly when there is no custom format; a custom format of `n` types is built in two requests: a key definition of `n` parts over fields `0..n-1` (numbered `as u32`) carrying those types' codes, then a format from that key definition with one key |
| Export.ReturnTuple | src/tarantool/api.rs:650-680 | an error is recorded as the host's last error (unless its text holds NUL) and returns -1; a value is built into a tuple of the chosen format and returned, and the status is the host's `box_return_tuple` answer; a format of `n < 2^32` types keys fields `0..n-1` |
| Export.ExecStoredProcedure | src/tarantool/api.rs:683-689 | `return_tuple` with no format: never builds a custom format, and starts with the default one |
| Export.ExecStoredProcedureWithFormat | src/tarantool/api.rs:691-702 | `return_tuple` with the given format: never asks for the default one |
| Dict.SearchSpaceId | src/tarantool/dict.rs:27-29 | finds a space id exactly when the name has an entry, and returns that entry |
| Dict.SearchIndexId | src/tarantool/dict.rs:31-36 | `None` when the space has no inner map, or has one without the name; otherwise the entry |
| Dict.ClearDictionaries | src/tarantool/dict.rs:11-14 | afterwards every space search and every index search misses |
| Dict.AddSpaceDictEntry | src/tarantool/dict.rs:16-19 | always `Ok(())`; the name now finds the id, overwriting any old entry; all other names, and the index map, are unchanged |
| Dict.AddSpaceIndexDictEntry | src/tarantool/dict.rs:21-25 | always `Ok(())`; creates the space's inner map on demand; the name now finds the id under that space; other names in the space, every other space, and the space map are unchanged |
| Dict.ClearThenAddSpace | src/tarantool/dict.rs:11-19 | after clear and one add, exactly that name is known |
| Dict.IndexNamesArePerSpace | src/tarantool/dict.rs:21-36 | the same index name added under two spaces keeps both ids |
| Dict.AddIsIdempotent | src/tarantool/dict.rs:16-25 | adding the same entry twice is the same as adding it once |

## Left out

- Serialisation and deserialisation (`decode_serde`, `serialize_to_ptr`, `serialize_to_buf_mut`) delegate to the MessagePack library. Their outcomes are inputs. No encoding round trip is claimed.
- `sequence_next`, `txn_id`, `fiber_yield` and `fiber_sleep` are thin host pass-throughs. `sequence_next` uses its name only in its error message; the host request always names sequence id 2. The fiber calls take floating-point durations and are scheduler hooks.
- `TarantoolContext::new` and `init_call` only store their arguments or forward them to `LuaCall::new`.
- The locks around the dictionaries are not modelled. The maps are modelled sequentially, one operation at a time.
- `src/tarantool/macros.rs` is not part of this model. Its entry point is `exec_stored_procedure` under another name, and the `init_dictionaries` it calls is not shown.
- The example stored procedures and the benchmark client are not part of this model.
- Console output (`print!`, and the `println!` in `map_err_to_io`) is not modelled.
- Base.Quoted: Rust's `{:?}` also escapes quotes, backslashes and control characters. The model only wraps the text in double quotes.
- Tuples.DecodeField: the field bytes are read through an unbounded slice. That is a memory trust assumption, and the model only records the request.
- Scripting.PopNumber: floating point is not modelled. `LuaValue.Number` carries an integer, and `pop_number`'s `f64` result (`lua_tonumber`) is that integer.
- Scripting.PushInt: `luaL_pushint64` may box values the interpreter's doubles cannot hold exactly. The model pushes the plain number.
- Scripting.PushUint: `luaL_pushuint64` stores values from 2^53 upward as a boxed value (tag 10), as `luaL_pushint64` does. The model pushes the plain number, so `UintOptPopsBack` holds only under that abstraction.
- Scripting.IntOptPopsBack: the round trip holds only under the plain-number push. In the program, `luaL_pushint64` boxes values that a double cannot hold exactly (tag 10), and `pop_integer` then reports a type mismatch instead of giving the value back.
- Scripting.UintOptPopsBack: likewise, the round trip holds only under the plain-number push; from 2^53 upward the program boxes the value and `pop_number` reports a type mismatch.
- LuaStack.TopType: `lua_type(L, -1)` on an empty stack is outside the interpreter's contract, since -1 is then not an acceptable index. The model answers `LUA_TNONE`, and `get_value_from_stack` on an empty stack then reports a type mismatch. That is the model's choice, not a behaviour the source promises.
- Scripting.PushTuple: the default-format and tuple-creation requests are not traced. A null new tuple is not distinguished. The pushed slot is the host tuple whose address is the `created` input.
- Scripting.New: `lua_getfield` may run metamethods. The value it pushes is the input `global`.
- Scripting.Call: `parameters_count` is an `i32` in the source. The model counts without bound, and does not model wrap-around past 2^31 - 1 arguments. It also requires the function and its arguments to be on the stack, which is what the interpreter's calling convention demands of every caller.
- Export.ReturnTuple: the two `unwrap`s are not modelled as panics. A serialisation failure is excluded by taking the encoded bytes as the input. A null new tuple is excluded by the precondition. The host's error-area reads, and `print!`, are not traced.
- Resolve.GetSpaceId: the name length is cast `as u32`. Names of 2^32 bytes or more, which would be truncated, are not modelled. Neither is `from_utf8_unchecked` on names that are not UTF-8, because names are strings.
- Facade.IndexCount: the host's `isize` count is modelled as a 64-bit integer, its width on the 64-bit targets the server runs on.
- Reads of the host's error area (`box_error_last`, `box_error_message`) are not traced. Their answer is `Host.lastError`, fixed for the duration of one operation.
- `error.description()` in `return_tuple` is modelled as the error's message. That is what it returns for every error this layer builds.
