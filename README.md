# Wayfire IPC client: framing and typed calls

A Dafny model of `WayfireSocket` (`src/ipc.rs`), the client of the Wayfire
compositor's IPC socket. The client owns one Unix-domain stream. Each call
builds a `MsgTemplate { method, data }` envelope, serialises it with
serde_json, and writes it as one frame: a 4-byte little-endian `u32` length,
then the payload. It then reads one frame back (`read_exact(4)`, decode the
length `n`, `read_exact(n)`), parses it as a JSON `Value`, logs the value
when it has an `error` member, and decodes it (or, for `get_view` and
`get_focused_view`, its `info` member) into the call's result type.

Modules, following the code's layers:

- `Io` (`io.dfy`): the `io::ErrorKind` values the model tells apart, and `io::Result`.
- `LeBytes` (`le_bytes.dfy`): `u8`, `u32`, the `as u32` cast, and little-endian encoding and decoding at any width. Both round trips are proved by induction.
- `Json` (`json.dfy`): `serde_json::Value` as a tagged datatype, `Value::get`, and serde_json itself as a `Codec` value. A codec holds a serialiser and a parser. It `RoundTrips` a value when parsing what it serialised gives that value back.
- `Framing` (`framing.dfy`): the header, the frame, and `Deframe`. `Deframe` is what reading one frame takes off a byte stream.
- `Stream` (`stream.dfy`): the owned `UnixStream` as a class. `incoming` holds the bytes still to be read; the stream ends after them. `outgoing` holds the bytes written so far. `writable` is how many more bytes the peer takes before the connection breaks. `WriteAll` appends to `outgoing`. `ReadExact` fills an array in place from the front of `incoming`.
- `Ipc` (`ipc.dfy`): the envelope and its JSON form, and the catalogue of the nine typed calls (method name, parameters, unwrap rule). Also the pure specification of one exchange (`Receive`, `ExchangeOf`, `CallResult`), and the `WayfireSocket` class with `SendJson`, `ReadExact`, `ReadMessage` and the typed calls. The class's `errorLog` field holds what `read_message` prints to standard error.

Each state-changing method's contract ties the new stream state and the result to these pure functions of the old state. The lemmas then prove the protocol's properties about those functions.

Notes on the code's behaviour:

- The method names are the code's (`window-rules/list-views`, `input/list-devices`, `wayfire/configuration`, …).
- A response with an `error` member is not turned into an error. It is logged and returned as `Ok`. The calls without an unwrap step then hand it to `from_value`. `get_view` and `get_focused_view` look for `info` in it, and fail with `NotFound` when that member is missing.
- No cap limits the frame length: `read_exact(n)` is attempted for any declared `n`.
- `data.len() as u32` keeps only the low 32 bits of the length. The model writes that cast out (`AsU32`). `Framing.OversizedPayloadMisframed` shows what a reader does with a payload of 2^32 bytes or more.
- `read_exact` always returns exactly the requested number of bytes. So the `try_into().unwrap()` of the 4-byte header cannot panic: `U32FromLeBytes` requires 4 bytes, and `ReadMessage` proves it has them.

## Model

| member | source | states |
|---|---|---|
| LeBytes.ToLe | src/ipc.rs:25 | the little-endian encoding at width k has exactly k bytes |
| LeBytes.FromLe | src/ipc.rs:41 | decoding k bytes gives a number below 256^k |
| LeBytes.FromLeToLe | src/ipc.rs:25-41 | decoding the k-byte encoding of any number below 256^k gives that number back |
| LeBytes.ToLeFromLe | src/ipc.rs:25-41 | encoding the decoded value of any byte string at its own width gives the same bytes back |
| LeBytes.AsU32 | src/ipc.rs:25 | the `as u32` cast leaves every length below 2^32 unchanged |
| LeBytes.U32ToLeBytes | src/ipc.rs:25 | `to_le_bytes` gives 4 bytes |
| LeBytes.U32LeRoundTrip | src/ipc.rs:25-41 | `from_le_bytes(to_le_bytes(x)) == x` for every `u32`, and `to_le_bytes(from_le_bytes(b)) == b` for every 4 bytes |
| Framing.Header | src/ipc.rs:25 | the header is 4 bytes |
| Framing.Frame | src/ipc.rs:25-28 | a frame is 4 + the payload length bytes long |
| Framing.Deframe | src/ipc.rs:40-43 | reading a frame fails only with an early end of stream |
| Framing.HeaderRoundTrip | src/ipc.rs:25-41 | the header decodes to the payload length for every length below 2^32 |
| Framing.HeaderTruncates | src/ipc.rs:25 | for any length, the header decodes to that length modulo 2^32 |
| Framing.DeframeFrame | src/ipc.rs:25-43 | reading back a frame written for a payload below 2^32 bytes, the empty one included, gives that payload and leaves what followed the frame |
| Framing.DeframedIsFrame | src/ipc.rs:40-43 | whatever a read takes off a stream was the frame of the returned payload, followed by the returned rest |
| Framing.DeframeConsumes | src/ipc.rs:40-43 | a read succeeds exactly when the header and the declared n bytes are there; it then returns exactly those n bytes and leaves everything after byte 4 + n |
| Framing.OversizedPayloadMisframed | src/ipc.rs:25-43 | a payload of 2^32 or more bytes is read back as only its first length-mod-2^32 bytes; the remainder is taken as the start of the next frame |
| Json.Get | src/ipc.rs:46 | `Value::get` with a `str` index: the member of an object with that key, `None` otherwise (a definition) |
| Stream.UnixStream.constructor | src/ipc.rs:19 | a new stream has nothing written yet, and the given bytes to read and write budget |
| Stream.UnixStream.WriteAll | src/ipc.rs:27-28 | `write_all` appends all the bytes and succeeds when the peer takes them; otherwise it appends only the part that got through and fails with a broken pipe |
| Stream.UnixStream.ReadExact | src/ipc.rs:35 | `read_exact` fills the whole buffer with the next bytes and removes exactly those from the stream; otherwise it fails with an early end of stream after consuming all that was left |
| LeBytes.U32FromLeBytes | src/ipc.rs:41 | `u32::from_le_bytes` of 4 bytes is the one `u32` whose `to_le_bytes` are those bytes |
| Framing.DeclaredLength | src/ipc.rs:40-41 | the length a header declares is below 2^32, and the header is exactly `Header` of that length |
| Ipc.EnvelopeValue | src/ipc.rs:24 | the envelope serialises as an object with only `method` and `data` members; `get("method")` finds the method name and `get("data")` finds exactly the given data |
| Ipc.Payload | src/ipc.rs:24 | `to_vec(msg)`: when the codec round-trips the envelope's value, parsing the payload gives back a value that reads as `msg` |
| Ipc.MethodName | src/ipc.rs:55-162 | the fixed method string of each call (a definition) |
| Ipc.MethodNamesDistinct | src/ipc.rs:55-162 | two calls send the same method name exactly when they are calls of the same method |
| Ipc.Envelope | src/ipc.rs:54-164 | the envelope carries the call's method name; it has data exactly for `get_option_value`, `get_output` and `get_view`, and that data is a one-member object |
| Ipc.FromValue | src/ipc.rs:60 | `from_value(..)?`: the decoder's value, or an invalid-data error when the decoder fails (a definition) |
| Json.HasKey | src/ipc.rs:46 | `.get(key).is_some()`: the value is an object with that key (a definition) |
| Ipc.UnwrapsInfo | src/ipc.rs:151-172 | the calls that unwrap `info`: `get_view` and `get_focused_view` (a definition) |
| Ipc.Interpret | src/ipc.rs:149-172 | after an exchange, a typed call fails only with invalid data, or with NotFound when it unwraps `info`; a success is the decoder's result on `info` for `get_view`/`get_focused_view` and on the whole response otherwise |
| Ipc.CallResult | src/ipc.rs:149-172 | an I/O or parse error of the exchange comes back unchanged; a response is interpreted by the call's rule (a definition) |
| Ipc.Receive | src/ipc.rs:39-50 | after a successful read the input was exactly the frame of the parsed payload followed by what is left; on a short stream an early end of stream with nothing left |
| Ipc.Logged | src/ipc.rs:46-48 | the `eprintln!` line: the response itself when it has an `error` member, nothing otherwise (a definition) |
| Ipc.ExchangeOf | src/ipc.rs:23-31 | what an exchange writes is a prefix of the request's frame, and no more than the connection takes |
| Ipc.EnvelopeRoundTrip | src/ipc.rs:24 | the endpoint reads the JSON form of an envelope back as the same method and data; `data` appears only when it is given |
| Ipc.CatalogueRoundTrip | src/ipc.rs:53-172 | every typed call's envelope carries its fixed method name and arguments: no data for the six calls without parameters, `{"option": s}` or `{"id": n}` for the others. Only a call's own envelope is recognised as that call |
| Ipc.UnwrapContract | src/ipc.rs:151-172 | `get_view` and `get_focused_view` fail with NotFound exactly when the response has no `info` member, and otherwise decode that member, never the whole response; the other calls decode the response as it came |
| Ipc.ErrorResponsePassesThrough | src/ipc.rs:44-50 | a framed response is returned exactly as parsed, whether or not it has an `error` member, and leaves what followed the frame |
| Ipc.ReceiveConsumesOneFrame | src/ipc.rs:40-44 | `read_message` consumes exactly 4 + n bytes, parses exactly the n payload bytes, and leaves every later byte in place; on a short stream it fails with an early end of stream |
| Ipc.RequestRoundTrip | src/ipc.rs:23-28 | when the codec round-trips the call's envelope value, the frame a typed call writes, read back and parsed, gives the same envelope and so the same call with the same arguments, and leaves what followed |
| Ipc.ExchangeSendsFrame | src/ipc.rs:27-30 | an exchange writes the whole frame and then reads, or writes a strict prefix of the frame, fails with a broken pipe and reads nothing |
| Ipc.WayfireSocket.constructor | src/ipc.rs:20 | the socket owns the given stream and has logged nothing |
| Ipc.WayfireSocket.SendJson | src/ipc.rs:23-31 | writes header then payload, with nothing in between, after the earlier output; then the response, the bytes left and the log are those of one `read_message`; a broken connection stops it after the bytes that got through |
| Ipc.WayfireSocket.ReadExact | src/ipc.rs:33-37 | returns exactly the next n bytes of the stream and removes them; otherwise fails with an early end of stream; never a short buffer |
| Ipc.WayfireSocket.ReadMessage | src/ipc.rs:39-51 | returns the parse of the next frame's payload and leaves the bytes after that frame; the log grows by exactly that response when it has an `error` member, and is unchanged otherwise |
| Ipc.WayfireSocket.Invoke | src/ipc.rs:53-175 | sends the call's envelope, then applies the call's unwrap rule and decoder to the response; an I/O or parse error is passed through unchanged |
| Ipc.WayfireSocket.ListViews | src/ipc.rs:53-63 | sends `window-rules/list-views` with no data and decodes the whole response |
| Ipc.WayfireSocket.ListOutputs | src/ipc.rs:65-75 | sends `window-rules/list-outputs` with no data and decodes the whole response |
| Ipc.WayfireSocket.ListWsets | src/ipc.rs:77-87 | sends `window-rules/list-wsets` with no data and decodes the whole response |
| Ipc.WayfireSocket.ListInputDevices | src/ipc.rs:89-99 | sends `input/list-devices` with no data and decodes the whole response |
| Ipc.WayfireSocket.GetConfiguration | src/ipc.rs:101-111 | sends `wayfire/configuration` with no data and decodes the whole response |
| Ipc.WayfireSocket.GetOptionValue | src/ipc.rs:113-125 | sends `wayfire/get-config-option` with `{"option": option}` and decodes the whole response |
| Ipc.WayfireSocket.GetOutput | src/ipc.rs:127-139 | sends `window-rules/output-info` with `{"id": output_id}` and decodes the whole response |
| Ipc.WayfireSocket.GetView | src/ipc.rs:141-158 | sends `window-rules/view-info` with `{"id": view_id}`; fails with NotFound when the response has no `info` member, and otherwise decodes that member |
| Ipc.WayfireSocket.GetFocusedView | src/ipc.rs:160-175 | sends `window-rules/get-focused-view` with no data; fails with NotFound when the response has no `info` member, and otherwise decodes that member |

## Left out

- `connect` (src/ipc.rs:16-21): the `WAYFIRE_SOCKET` lookup, its panic when the variable is unset, and `UnixStream::connect` are process environment and socket I/O. The model starts from a connected stream, which the constructor is given.
- The tokio runtime: `async`/`.await` suspension and the kernel-level chunking of reads and writes are not modelled. Each `write_all` or `read_exact` is one step on the byte sequences.
- serde_json's text format and parser: `to_vec` and `from_slice` form the `Codec` parameter. The round-trip lemma assumes only that the codec round-trips the envelope value being sent. Which `io::ErrorKind` a parse failure converts to is the codec's choice.
- The JSON shape of `MsgTemplate` is an assumption: `data` is left out when it is `None`. The derive attributes of `MsgTemplate` are in `src/models.rs`, which is not part of this model. `EnvelopeValue`, and with it `EnvelopeRoundTrip` and `RequestRoundTrip`, depend on this assumption.
- The `?` on `serde_json::to_vec(msg)` (src/ipc.rs:24) is left out: serialising a `MsgTemplate` (a `String` method and string-keyed `Value` data) cannot fail, so `Codec.serialize` is total.
- Other I/O failures: tokio's `read_exact` and `write_all` pass on any operating-system error (`ConnectionReset`, for one). The model's reads fail only at the end of the stream (UnexpectedEof) and its writes only when the peer takes no more (BrokenPipe). Every other OS error is folded into these two cases.
- `from_value` into `View`, `Output`, `WorkspaceSet`, `InputDevice`, `WayfireConfiguration` and `OptionValueResponse`: these records live in `src/models.rs`, which is not part of this model. Each typed call takes the decoder for its result type as a parameter. A decoder failure becomes an invalid-data error.
- JSON numbers are integers only, and unbounded. serde_json holds numbers as i64, u64 or f64, and it parses larger integers as floats. So the codec law is required only of the values the client sends, whose numbers are `i64` ids. Floating-point numbers are not modelled.
- Error messages: errors carry their `io::ErrorKind` only. The text "Missing 'info' field in response" is not kept, and neither are the OS and serde messages.
- `get_focused_view` returns `Box<dyn Error>` instead of `io::Error`. The model gives it the same error kinds as the other calls.
- The text of the `eprintln!` line: the model logs the response value that line prints.
- Memory: allocating `vec![0; n]` for a huge declared length can abort the process. The model has unbounded memory.
- The demo drivers src/main.rs and rustfire/src/main.rs only call these methods and print the results. The `list_views(true)` filter that rustfire/src/main.rs calls has no implementation in src/ipc.rs, so no toplevel/mapped filter is modelled.
- Concurrency: the model is sequential. It has no second caller that could interleave frames on the same stream.
