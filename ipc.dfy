/** `WayfireSocket`: the client of Wayfire's IPC socket. Each call builds a
    `MsgTemplate` envelope, sends it as one frame, reads one frame back,
    parses it as a JSON value and decodes that into the call's result type. */
module Ipc {
  import opened Io
  import opened LeBytes
  import opened Json
  import opened Framing
  import opened Stream

  newtype i64 = x: int | -0x8000_0000_0000_0000 <= x < 0x8000_0000_0000_0000

  /** `MsgTemplate { method, data }`: the request envelope (`name` is the `method` field). */
  datatype MsgTemplate = MsgTemplate(name: string, data: Option<Value>)

  /** The JSON object `serde_json::to_vec` writes for an envelope: the method
      name under "method" and, only when there are parameters, "data". */
  function EnvelopeValue(m: MsgTemplate): (v: Value)
    ensures v.Object? && v.members.Keys <= {"method", "data"}
    ensures Get(v, "method") == Some(String(m.name)) && Get(v, "data") == m.data
  {
    match m.data
    case None => Object(map["method" := String(m.name)])
    case Some(d) => Object(map["method" := String(m.name), "data" := d])
  }

  /** The envelope a JSON value spells, as the endpoint reads it: an object
      with a string "method", an optional "data" and no other member. */
  function EnvelopeOf(v: Value): Option<MsgTemplate>
  {
    match v
    case Object(ms) =>
      if "method" in ms && ms["method"].String? && ms.Keys <= {"method", "data"} then
        Some(MsgTemplate(ms["method"].s, if "data" in ms then Some(ms["data"]) else None))
      else None
    case _ => None
  }

  /** The envelope survives its JSON form: the endpoint reads back the very
      method name and parameters, and "data" is present only when given. */
  lemma EnvelopeRoundTrip(m: MsgTemplate)
    ensures EnvelopeOf(EnvelopeValue(m)) == Some(m)
    ensures HasKey(EnvelopeValue(m), "data") <==> m.data.Some?
  {
  }

  /** `serde_json::to_vec(msg)`: the payload bytes of an envelope. */
  function Payload(c: Codec, m: MsgTemplate): (bytes: seq<u8>)
    ensures RoundTrips(c, EnvelopeValue(m)) ==>
              c.parse(bytes).Ok? && EnvelopeOf(c.parse(bytes).value) == Some(m)
  {
    EnvelopeRoundTrip(m);
    c.serialize(EnvelopeValue(m))
  }

  /** The typed calls of `WayfireSocket`, with their arguments. */
  datatype Request =
    | ListViews
    | ListOutputs
    | ListWsets
    | ListInputDevices
    | GetConfiguration
    | GetOptionValue(option: string)
    | GetOutput(outputId: i64)
    | GetView(viewId: i64)
    | GetFocusedView

  /** The fixed method name each call sends. */
  function MethodName(q: Request): string
  {
    match q
    case ListViews => "window-rules/list-views"
    case ListOutputs => "window-rules/list-outputs"
    case ListWsets => "window-rules/list-wsets"
    case ListInputDevices => "input/list-devices"
    case GetConfiguration => "wayfire/configuration"
    case GetOptionValue(_) => "wayfire/get-config-option"
    case GetOutput(_) => "window-rules/output-info"
    case GetView(_) => "window-rules/view-info"
    case GetFocusedView => "window-rules/get-focused-view"
  }

  /** Two requests are calls of the same method, whatever their arguments. */
  predicate SameCall(p: Request, q: Request)
  {
    (p.ListViews? && q.ListViews?) || (p.ListOutputs? && q.ListOutputs?) ||
    (p.ListWsets? && q.ListWsets?) || (p.ListInputDevices? && q.ListInputDevices?) ||
    (p.GetConfiguration? && q.GetConfiguration?) || (p.GetOptionValue? && q.GetOptionValue?) ||
    (p.GetOutput? && q.GetOutput?) || (p.GetView? && q.GetView?) ||
    (p.GetFocusedView? && q.GetFocusedView?)
  }

  /** Each method name belongs to one call only. */
  lemma MethodNamesDistinct(p: Request, q: Request)
    ensures MethodName(p) == MethodName(q) <==> SameCall(p, q)
  {
  }

  /** The envelope each call builds: no data for the calls without
      parameters, a one-member object for the others. */
  function Envelope(q: Request): (m: MsgTemplate)
    ensures m.name == MethodName(q)
    ensures m.data.Some? <==> q.GetOptionValue? || q.GetOutput? || q.GetView?
    ensures m.data.Some? ==> m.data.value.Object? && |m.data.value.members| == 1
  {
    match q
    case GetOptionValue(option) =>
      MsgTemplate(MethodName(q), Some(Object(map["option" := String(option)])))
    case GetOutput(outputId) =>
      MsgTemplate(MethodName(q), Some(Object(map["id" := Number(outputId as int)])))
    case GetView(viewId) =>
      MsgTemplate(MethodName(q), Some(Object(map["id" := Number(viewId as int)])))
    case _ => MsgTemplate(MethodName(q), None)
  }

  /** The value `data` holds when it is an object with exactly the member `key`. */
  function SoleMember(data: Option<Value>, key: string): Option<Value>
  {
    match data
    case Some(Object(ms)) => if ms.Keys == {key} then Some(ms[key]) else None
    case _ => None
  }

  /** The call an envelope stands for, as the endpoint would recognise it. */
  function RequestOf(m: MsgTemplate): Option<Request>
  {
    if m.name == "window-rules/list-views" && m.data == None then Some(ListViews)
    else if m.name == "window-rules/list-outputs" && m.data == None then Some(ListOutputs)
    else if m.name == "window-rules/list-wsets" && m.data == None then Some(ListWsets)
    else if m.name == "input/list-devices" && m.data == None then Some(ListInputDevices)
    else if m.name == "wayfire/configuration" && m.data == None then Some(GetConfiguration)
    else if m.name == "window-rules/get-focused-view" && m.data == None then Some(GetFocusedView)
    else if m.name == "wayfire/get-config-option" then
      match SoleMember(m.data, "option")
      case Some(String(option)) => Some(GetOptionValue(option))
      case _ => None
    else if m.name == "window-rules/output-info" || m.name == "window-rules/view-info" then
      match SoleMember(m.data, "id")
      case Some(Number(n)) =>
        if -0x8000_0000_0000_0000 <= n < 0x8000_0000_0000_0000 then
          if m.name == "window-rules/output-info" then Some(GetOutput(n as i64)) else Some(GetView(n as i64))
        else None
      case _ => None
    else None
  }

  /** Every call's envelope names that call and carries its arguments, and
      only the envelope of a call is recognised as that call: so no two calls
      share a method name and parameter shape. */
  lemma CatalogueRoundTrip(q: Request, m: MsgTemplate)
    ensures RequestOf(Envelope(q)) == Some(q)
    ensures RequestOf(m) == Some(q) ==> m == Envelope(q)
  {
    if RequestOf(m) == Some(q) {
      RecognisedIsEnvelope(m);
    }
  }

  /** An envelope recognised as a call is that call's envelope. */
  lemma RecognisedIsEnvelope(m: MsgTemplate)
    requires RequestOf(m).Some?
    ensures m == Envelope(RequestOf(m).value)
  {
    var q := RequestOf(m).value;
    if m.name == "wayfire/get-config-option" {
      assert m.data.value.members == map["option" := String(q.option)];
    } else if m.name == "window-rules/output-info" {
      assert m.data.value.members == map["id" := Number(q.outputId as int)];
    } else if m.name == "window-rules/view-info" {
      assert m.data.value.members == map["id" := Number(q.viewId as int)];
    }
  }

  /** The calls whose answer is wrapped in an "info" member. */
  predicate UnwrapsInfo(q: Request)
  {
    q.GetView? || q.GetFocusedView?
  }

  /** `serde_json::from_value(v)?`: the result type's decoder, whose failure
      becomes an invalid-data error. */
  function FromValue<T>(decode: Value -> Option<T>, v: Value): Result<T>
  {
    match decode(v)
    case Some(t) => Ok(t)
    case None => Err(InvalidData)
  }

  /** What a typed call makes of the response `read_message` returned. */
  function Interpret<T>(q: Request, response: Value, decode: Value -> Option<T>): (r: Result<T>)
    ensures r.Err? ==> r.kind == InvalidData || (r.kind == NotFound && UnwrapsInfo(q))
    ensures r.Ok? && UnwrapsInfo(q) ==>
              response.Object? && "info" in response.members &&
              decode(response.members["info"]) == Some(r.value)
    ensures r.Ok? && !UnwrapsInfo(q) ==> decode(response) == Some(r.value)
  {
    if UnwrapsInfo(q) then
      match Get(response, "info")
      case None => Err(NotFound)
      case Some(info) => FromValue(decode, info)
    else FromValue(decode, response)
  }

  /** The unwrap rule: a call that unwraps fails with NotFound exactly when
      the response has no "info" member, and otherwise decodes that member
      and not the whole response; every other call decodes the response
      as it came, an "error" object included. */
  lemma UnwrapContract<T>(q: Request, response: Value, decode: Value -> Option<T>)
    ensures UnwrapsInfo(q) ==>
              (Interpret(q, response, decode) == Err(NotFound) <==> !HasKey(response, "info"))
    ensures UnwrapsInfo(q) && HasKey(response, "info") ==>
              Interpret(q, response, decode) == FromValue(decode, response.members["info"])
    ensures !UnwrapsInfo(q) ==> Interpret(q, response, decode) == FromValue(decode, response)
  {
  }

  datatype Reception = Reception(response: Result<Value>, rest: seq<u8>)

  /** What `read_message` takes off a stream holding `input`: one frame,
      parsed; after an early end of stream nothing is left. */
  function Receive(c: Codec, input: seq<u8>): (r: Reception)
    ensures Deframe(input).Ok? ==>
              input == Frame(Deframe(input).value.payload) + r.rest &&
              r.response == c.parse(Deframe(input).value.payload)
    ensures Deframe(input).Err? ==> r == Reception(Err(UnexpectedEof), [])
  {
    match Deframe(input)
    case Err(k) => Reception(Err(k), [])
    case Ok(frame) =>
      DeframedIsFrame(input);
      Reception(c.parse(frame.payload), frame.rest)
  }

  /** What `read_message` writes to standard error: the response, when it
      has an "error" member. */
  function Logged(response: Result<Value>): seq<Value>
  {
    if response.Ok? && HasKey(response.value, "error") then [response.value] else []
  }

  /** A response is returned as it was parsed whether or not it reports an
      error; an error report only adds one log line, carrying that response. */
  lemma ErrorResponsePassesThrough(c: Codec, payload: seq<u8>, rest: seq<u8>)
    requires |payload| < U32_LIMIT
    ensures Receive(c, Frame(payload) + rest) == Reception(c.parse(payload), rest)
  {
    DeframeFrame(payload, rest);
  }

  /** `read_message` consumes exactly the header and the n bytes it declares,
      leaving every later byte in place; it fails only on a short stream. */
  lemma ReceiveConsumesOneFrame(c: Codec, input: seq<u8>)
    ensures |input| >= HEADER_LEN && |input| >= HEADER_LEN + DeclaredLength(input) ==>
              Receive(c, input).rest == input[HEADER_LEN + DeclaredLength(input)..] &&
              Receive(c, input).response == c.parse(input[HEADER_LEN..HEADER_LEN + DeclaredLength(input)])
    ensures !(|input| >= HEADER_LEN && |input| >= HEADER_LEN + DeclaredLength(input)) ==>
              Receive(c, input) == Reception(Err(UnexpectedEof), [])
  {
    DeframeConsumes(input);
  }

  /** The request round trip: the frame a call writes, read back and parsed
      on the other end with a lawful codec, gives the same envelope and so
      the same call and arguments, and leaves what followed it. */
  lemma RequestRoundTrip(c: Codec, q: Request, rest: seq<u8>)
    requires RoundTrips(c, EnvelopeValue(Envelope(q)))
    requires |Payload(c, Envelope(q))| < U32_LIMIT
    ensures var rcv := Receive(c, Frame(Payload(c, Envelope(q))) + rest);
            rcv.rest == rest && rcv.response.Ok? &&
            EnvelopeOf(rcv.response.value) == Some(Envelope(q)) &&
            RequestOf(Envelope(q)) == Some(q)
  {
    DeframeFrame(Payload(c, Envelope(q)), rest);
    EnvelopeRoundTrip(Envelope(q));
    CatalogueRoundTrip(q, Envelope(q));
  }

  datatype Exchange = Exchange(sent: seq<u8>, response: Result<Value>, rest: seq<u8>)

  /** One exchange for envelope `msg` on a stream that takes `writable` more
      bytes and holds `input`: the whole frame is written and one frame is
      received; or the connection breaks while the frame is written, the
      part that got through is all that is sent and nothing is read. */
  function ExchangeOf(c: Codec, msg: MsgTemplate, writable: nat, input: seq<u8>): (e: Exchange)
    ensures e.sent <= Frame(Payload(c, msg)) && |e.sent| <= writable
  {
    var frame := Frame(Payload(c, msg));
    if |frame| <= writable then
      var rcv := Receive(c, input);
      Exchange(frame, rcv.response, rcv.rest)
    else Exchange(frame[..writable], Err(BrokenPipe), input)
  }

  /** Frames are never cut into or mixed: an exchange writes the whole frame
      and then reads, or writes a strict prefix of the frame, fails with a
      broken pipe and reads nothing. */
  lemma ExchangeSendsFrame(c: Codec, msg: MsgTemplate, writable: nat, input: seq<u8>)
    ensures var e := ExchangeOf(c, msg, writable, input);
            var frame := Frame(Payload(c, msg));
            (e.sent == frame <==> |frame| <= writable) &&
            (e.sent == frame ==> e.response == Receive(c, input).response && e.rest == Receive(c, input).rest) &&
            (e.sent != frame ==>
               e.sent < frame && |e.sent| == writable && e.response == Err(BrokenPipe) && e.rest == input)
  {
  }

  /** What a typed call returns for the response of its exchange. */
  function CallResult<T>(q: Request, response: Result<Value>, decode: Value -> Option<T>): Result<T>
  {
    match response
    case Err(k) => Err(k)
    case Ok(v) => Interpret(q, v, decode)
  }

  class WayfireSocket {
    /** The one connection this socket owns. */
    const client: UnixStream
    /** serde_json, as the socket uses it. */
    const codec: Codec
    /** The responses `read_message` has written to standard error. */
    var errorLog: seq<Value>

    /** `WayfireSocket { client }` around an already connected stream. */
    constructor (client: UnixStream, codec: Codec)
      ensures this.client == client && this.codec == codec && errorLog == []
    {
      this.client := client;
      this.codec := codec;
      errorLog := [];
    }

    /** One request/response exchange for envelope `msg` with response `r`:
        what `ExchangeOf` sends is written after what was written before,
        the response and the bytes left to read are those of `ExchangeOf`,
        and an error response is logged. */
    twostate predicate Exchanged(msg: MsgTemplate, new r: Result<Value>)
      reads this, client
    {
      var e := ExchangeOf(codec, msg, old(client.writable), old(client.incoming));
      r == e.response && client.incoming == e.rest &&
      client.outgoing == old(client.outgoing) + e.sent &&
      client.writable == old(client.writable) - |e.sent| &&
      errorLog == old(errorLog) + Logged(e.response)
    }

    /** `send_json`: writes the header, then the payload, then reads the reply. */
    method SendJson(msg: MsgTemplate) returns (r: Result<Value>)
      modifies client, this`errorLog
      ensures Exchanged(msg, r)
    {
      var data := Payload(codec, msg);
      var header := U32ToLeBytes(AsU32(|data|));
      ghost var frame := Frame(data);
      assert frame == header + data;
      var written := client.WriteAll(header);
      if written.Err? {
        assert header[..old(client.writable)] == frame[..old(client.writable)];
        return Err(written.kind);
      }
      written := client.WriteAll(data);
      if written.Err? {
        assert header + data[..old(client.writable) - |header|] == frame[..old(client.writable)];
        return Err(written.kind);
      }
      r := ReadMessage();
    }

    /** `read_exact(n)`: exactly the next n bytes of the stream, never fewer;
        otherwise an early end of stream with nothing left to read. */
    method ReadExact(n: nat) returns (r: Result<seq<u8>>)
      modifies client
      ensures client.outgoing == old(client.outgoing) && client.writable == old(client.writable)
      ensures r.Ok? <==> n <= |old(client.incoming)|
      ensures r.Ok? ==> |r.value| == n && r.value == old(client.incoming)[..n] &&
                        client.incoming == old(client.incoming)[n..]
      ensures r.Err? ==> r.kind == UnexpectedEof && client.incoming == []
    {
      var buf := new u8[n];
      var filled := client.ReadExact(buf);
      if filled.Err? {
        return Err(filled.kind);
      }
      return Ok(buf[..]);
    }

    /** `read_message`: one frame off the stream, parsed; a response with an
        "error" member is logged and still returned. */
    method ReadMessage() returns (r: Result<Value>)
      modifies client, this`errorLog
      ensures client.outgoing == old(client.outgoing) && client.writable == old(client.writable)
      ensures r == Receive(codec, old(client.incoming)).response
      ensures client.incoming == Receive(codec, old(client.incoming)).rest
      ensures r.Ok? && HasKey(r.value, "error") ==> errorLog == old(errorLog) + [r.value]
      ensures !(r.Ok? && HasKey(r.value, "error")) ==> errorLog == old(errorLog)
    {
      ghost var input := client.incoming;
      var lenBuf := ReadExact(HEADER_LEN);
      if lenBuf.Err? {
        assert Deframe(input).Err?;
        return Err(lenBuf.kind);
      }
      var len := U32FromLeBytes(lenBuf.value) as nat;
      assert len == DeclaredLength(input);
      var responseBuf := ReadExact(len);
      if responseBuf.Err? {
        assert Deframe(input).Err?;
        return Err(responseBuf.kind);
      }
      assert responseBuf.value == input[HEADER_LEN..HEADER_LEN + len];
      assert client.incoming == input[HEADER_LEN + len..];
      assert Deframe(input) == Ok(Deframed(responseBuf.value, client.incoming));
      var parsed := codec.parse(responseBuf.value);
      if parsed.Err? {
        return parsed;
      }
      var response := parsed.value;
      if HasKey(response, "error") {
        errorLog := errorLog + [response];
      }
      r := Ok(response);
    }

    /** Typed call q returned r: its envelope was exchanged, and r is what
        the call's unwrap rule and decoder make of the response. */
    twostate predicate Called<T>(q: Request, decode: Value -> Option<T>, new r: Result<T>)
      reads this, client
    {
      var response := ExchangeOf(codec, Envelope(q), old(client.writable), old(client.incoming)).response;
      Exchanged(Envelope(q), response) && r == CallResult(q, response, decode)
    }

    /** The shared shape of the typed calls: send the call's envelope, then
        interpret the response by the call's unwrap rule and decoder. */
    method Invoke<T>(q: Request, decode: Value -> Option<T>) returns (r: Result<T>)
      modifies client, this`errorLog
      ensures Called(q, decode, r)
    {
      var response := SendJson(Envelope(q));
      match response
      case Err(k) => r := Err(k);
      case Ok(v) =>
        if UnwrapsInfo(q) {
          match Get(v, "info")
          case None => r := Err(NotFound);
          case Some(info) => r := FromValue(decode, info);
        } else {
          r := FromValue(decode, v);
        }
    }
  

    /** `list_views`. */
    method ListViews<T>(decode: Value -> Option<T>) returns (r: Result<T>)
      modifies client, this`errorLog
      ensures Called(Request.ListViews, decode, r)
    {
      r := Invoke(Request.ListViews, decode);
    }

    /** `list_outputs`. */
    method ListOutputs<T>(decode: Value -> Option<T>) returns (r: Result<T>)
      modifies client, this`errorLog
      ensures Called(Request.ListOutputs, decode, r)
    {
      r := Invoke(Request.ListOutputs, decode);
    }

    /** `list_wsets`. */
    method ListWsets<T>(decode: Value -> Option<T>) returns (r: Result<T>)
      modifies client, this`errorLog
      ensures Called(Request.ListWsets, decode, r)
    {
      r := Invoke(Request.ListWsets, decode);
    }

    /** `list_input_devices`. */
    method ListInputDevices<T>(decode: Value -> Option<T>) returns (r: Result<T>)
      modifies client, this`errorLog
      ensures Called(Request.ListInputDevices, decode, r)
    {
      r := Invoke(Request.ListInputDevices, decode);
    }

    /** `get_configuration`. */
    method GetConfiguration<T>(decode: Value -> Option<T>) returns (r: Result<T>)
      modifies client, this`errorLog
      ensures Called(Request.GetConfiguration, decode, r)
    {
      r := Invoke(Request.GetConfiguration, decode);
    }

    /** `get_option_value`. */
    method GetOptionValue<T>(option: string, decode: Value -> Option<T>) returns (r: Result<T>)
      modifies client, this`errorLog
      ensures Called(Request.GetOptionValue(option), decode, r)
    {
      r := Invoke(Request.GetOptionValue(option), decode);
    }

    /** `get_output`. */
    method GetOutput<T>(outputId: i64, decode: Value -> Option<T>) returns (r: Result<T>)
      modifies client, this`errorLog
      ensures Called(Request.GetOutput(outputId), decode, r)
    {
      r := Invoke(Request.GetOutput(outputId), decode);
    }

    /** `get_view`. */
    method GetView<T>(viewId: i64, decode: Value -> Option<T>) returns (r: Result<T>)
      modifies client, this`errorLog
      ensures Called(Request.GetView(viewId), decode, r)
    {
      r := Invoke(Request.GetView(viewId), decode);
    }

    /** `get_focused_view`. */
    method GetFocusedView<T>(decode: Value -> Option<T>) returns (r: Result<T>)
      modifies client, this`errorLog
      ensures Called(Request.GetFocusedView, decode, r)
    {
      r := Invoke(Request.GetFocusedView, decode);
    }
  }
}
