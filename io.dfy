/** The error side of `std::io::Result` as the client sees it. The stream's
    own failures are modelled as an early end of stream (reads) and a broken
    pipe (writes); other operating-system errors are not told apart. */
module Io {

  /** The `std::io::ErrorKind` values the model distinguishes:
      - UnexpectedEof: `read_exact` hit the end of the stream before its buffer was full;
      - BrokenPipe: `write_all` on a connection the peer has closed;
      - InvalidData: serde_json rejected the bytes or the value (syntax or shape error);
      - NotFound: a response lacked the `info` field a call unwraps. */
  datatype ErrorKind = UnexpectedEof | BrokenPipe | InvalidData | NotFound

  /** `io::Result<T>`. */
  datatype Result<+T> = Ok(value: T) | Err(kind: ErrorKind)
}
