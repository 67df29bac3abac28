/** The connected Unix-domain stream the socket owns, seen as bytes: what
    the peer has sent and not yet been read, and what has been written. */
module Stream {
  import opened Io
  import opened LeBytes

  class UnixStream {
    /** The bytes the peer has sent that are not read yet; the stream ends after them. */
    var incoming: seq<u8>
    /** Everything written to the stream so far, oldest first. */
    var outgoing: seq<u8>
    /** How many more bytes the peer takes before the connection breaks. */
    var writable: nat

    constructor (incoming: seq<u8>, writable: nat)
      ensures this.incoming == incoming && outgoing == [] && this.writable == writable
    {
      this.incoming := incoming;
      outgoing := [];
      this.writable := writable;
    }

    /** `AsyncWriteExt::write_all`: all of `bytes`, after what was written
        before; or, when the connection breaks first, a broken pipe after
        the part of `bytes` that got through. */
    method WriteAll(bytes: seq<u8>) returns (r: Result<()>)
      modifies this`outgoing, this`writable
      ensures r == if |bytes| <= old(writable) then Ok(()) else Err(BrokenPipe)
      ensures r.Ok? ==> outgoing == old(outgoing) + bytes && writable == old(writable) - |bytes|
      ensures r.Err? ==> outgoing == old(outgoing) + bytes[..old(writable)] && writable == 0
    {
      if writable < |bytes| {
        outgoing := outgoing + bytes[..writable];
        writable := 0;
        return Err(BrokenPipe);
      }
      outgoing := outgoing + bytes;
      writable := writable - |bytes|;
      return Ok(());
    }

    /** `AsyncReadExt::read_exact`: fills the whole of `buf` with the next
        bytes of the stream, or, when the stream ends first, fails with an
        early end of stream after consuming everything that was left. */
    method ReadExact(buf: array<u8>) returns (r: Result<()>)
      modifies this`incoming, buf
      ensures r.Ok? <==> buf.Length <= |old(incoming)|
      ensures r.Ok? ==>
                buf[..] == old(incoming)[..buf.Length] && incoming == old(incoming)[buf.Length..]
      ensures r.Err? ==> r.kind == UnexpectedEof && incoming == []
    {
      var filled := 0;
      while filled < buf.Length
        invariant filled <= buf.Length && filled <= |old(incoming)|
        invariant incoming == old(incoming)[filled..]
        invariant buf[..filled] == old(incoming)[..filled]
      {
        if incoming == [] {
          return Err(UnexpectedEof);
        }
        buf[filled] := incoming[0];
        incoming := incoming[1..];
        filled := filled + 1;
      }
      assert buf[..] == buf[..filled];
      return Ok(());
    }
  }
}
