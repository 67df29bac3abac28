/** The wire framing of the compositor's IPC socket: a 4-byte little-endian
    payload length, then the payload. */
module Framing {
  import opened Io
  import opened LeBytes

  const HEADER_LEN: nat := 4

  /** `(data.len() as u32).to_le_bytes()`: the header `send_json` writes for
      a payload of n bytes; the cast keeps only the low 32 bits of n. */
  function Header(n: nat): (r: seq<u8>)
    ensures |r| == HEADER_LEN
  {
    U32ToLeBytes(AsU32(n))
  }

  /** The bytes `send_json` writes for one payload: header, then payload. */
  function Frame(payload: seq<u8>): (r: seq<u8>)
    ensures |r| == HEADER_LEN + |payload|
  {
    Header(|payload|) + payload
  }

  /** `u32::from_le_bytes` of the first four bytes: the length a frame declares. */
  function DeclaredLength(input: seq<u8>): (n: nat)
    requires |input| >= HEADER_LEN
    ensures n < U32_LIMIT && Header(n) == input[..HEADER_LEN]
  {
    U32FromLeBytes(input[..HEADER_LEN]) as nat
  }

  datatype Deframed = Deframed(payload: seq<u8>, rest: seq<u8>)

  /** What `read_message` takes off a stream holding `input`: the declared
      number of payload bytes after the header and what follows them, or an
      early end of stream if either the header or the payload is short. */
  function Deframe(input: seq<u8>): (r: Result<Deframed>)
    ensures r.Err? ==> r.kind == UnexpectedEof
  {
    if |input| < HEADER_LEN then Err(UnexpectedEof)
    else
      var n := DeclaredLength(input);
      if |input| < HEADER_LEN + n then Err(UnexpectedEof)
      else Ok(Deframed(input[HEADER_LEN..HEADER_LEN + n], input[HEADER_LEN + n..]))
  }

  /** The header states the payload length for every length below 2^32. */
  lemma HeaderRoundTrip(n: nat)
    requires n < U32_LIMIT
    ensures DeclaredLength(Header(n)) == n
  {
    HeaderTruncates(n);
  }

  /** For any length, the header states that length modulo 2^32. */
  lemma HeaderTruncates(n: nat)
    ensures DeclaredLength(Header(n)) == n % U32_LIMIT
  {
    var h := Header(n);
    assert h[..HEADER_LEN] == h;
    U32LeRoundTrip(AsU32(n), h);
  }

  /** Reading a frame back yields the original payload, the empty one
      included, and leaves whatever followed the frame. */
  lemma DeframeFrame(payload: seq<u8>, rest: seq<u8>)
    requires |payload| < U32_LIMIT
    ensures Deframe(Frame(payload) + rest) == Ok(Deframed(payload, rest))
  {
    var input := Frame(payload) + rest;
    var h := Header(|payload|);
    assert input[..HEADER_LEN] == h == h[..HEADER_LEN];
    HeaderRoundTrip(|payload|);
    assert DeclaredLength(input) == |payload|;
    assert input[HEADER_LEN..HEADER_LEN + |payload|] == payload;
    assert input[HEADER_LEN + |payload|..] == rest;
  }

  /** Conversely, whatever is read off a stream was a frame of the returned
      payload followed by the returned rest. */
  lemma DeframedIsFrame(input: seq<u8>)
    requires Deframe(input).Ok?
    ensures input == Frame(Deframe(input).value.payload) + Deframe(input).value.rest
  {
    var d := Deframe(input).value;
    var h := input[..HEADER_LEN];
    ToLeFromLe(h);
    assert Pow256(4) == U32_LIMIT;
    assert Header(|d.payload|) == h;
  }

  /** Reading succeeds exactly when the stream holds the header and the
      declared number of bytes, and then consumes exactly those 4 + n bytes. */
  lemma DeframeConsumes(input: seq<u8>)
    ensures Deframe(input).Ok? <==>
              |input| >= HEADER_LEN && |input| >= HEADER_LEN + DeclaredLength(input)
    ensures Deframe(input).Ok? ==>
              var n := DeclaredLength(input);
              |Deframe(input).value.payload| == n &&
              Deframe(input).value.payload == input[HEADER_LEN..HEADER_LEN + n] &&
              Deframe(input).value.rest == input[HEADER_LEN + n..]
  {
  }

  /** A payload of 2^32 bytes or more is framed with a wrapped length: the
      reader takes only its first |payload| mod 2^32 bytes as the payload and
      reads the remainder as the beginning of the next frame. */
  lemma OversizedPayloadMisframed(payload: seq<u8>, rest: seq<u8>)
    requires |payload| >= U32_LIMIT
    ensures var m := |payload| % U32_LIMIT;
            Deframe(Frame(payload) + rest) == Ok(Deframed(payload[..m], payload[m..] + rest))
            && m < |payload|
  {
    var input := Frame(payload) + rest;
    var m := |payload| % U32_LIMIT;
    var h := Header(|payload|);
    assert input[..HEADER_LEN] == h == h[..HEADER_LEN];
    HeaderTruncates(|payload|);
    assert DeclaredLength(input) == m;
    assert input[HEADER_LEN..HEADER_LEN + m] == payload[..m];
    assert input[HEADER_LEN + m..] == payload[m..] + rest;
  }
}
