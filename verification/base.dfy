/** Shared vocabulary of the FTP client model: bytes and receive chunks, the
    .NET ASCII decoder, and the result type that stands for the exceptions the
    client throws. */
module Base {

  /** Size of the one receive buffer every socket read goes through. */
  const BufferSize: nat := 512

  newtype Byte = x: int | 0 <= x < 256

  /** What one `Socket.Receive` into the 512-byte buffer can deliver. */
  type Chunk = c: seq<Byte> | |c| <= BufferSize

  /** `Encoding.ASCII` decodes a byte above 0x7F as '?'. */
  function AsciiChar(b: Byte): char
  {
    if b < 0x80 then b as int as char else '?'
  }

  /** `Encoding.ASCII.GetString`: one character per byte. */
  function Ascii(bytes: seq<Byte>): (s: string)
    ensures |s| == |bytes|
  {
    seq(|bytes|, i requires 0 <= i < |bytes| => AsciiChar(bytes[i]))
  }

  lemma AsciiAppend(a: seq<Byte>, b: seq<Byte>)
    ensures Ascii(a + b) == Ascii(a) + Ascii(b)
  {
  }

  /** `a` is what is left of `b` once some of its front is used up. */
  predicate Suffix<T(==)>(a: seq<T>, b: seq<T>)
  {
    |a| <= |b| && b[|b| - |a|..] == a
  }

  /** The bytes of several receives, in order. */
  function Flatten(cs: seq<seq<Byte>>): seq<Byte>
  {
    if |cs| == 0 then [] else cs[0] + Flatten(cs[1..])
  }

  lemma FlattenAppend(a: seq<seq<Byte>>, b: seq<seq<Byte>>)
    ensures Flatten(a + b) == Flatten(a) + Flatten(b)
  {
    if |a| == 0 {
      assert a + b == b;
    } else {
      assert (a + b)[1..] == a[1..] + b;
      FlattenAppend(a[1..], b);
    }
  }

  /** The exceptions the client can raise, by kind. */
  datatype Error =
    | Ftp(message: string)  // FtpException with this text
    | Format                // FormatException from int.Parse / long.Parse
    | Overflow              // OverflowException from int.Parse / long.Parse
    | OutOfRange            // IndexOutOfRange- or ArgumentOutOfRangeException
    | SocketClosed          // send on a control socket that is null or not connected
    | ConnectFailed         // DNS lookup or TCP connect of a data connection failed
    | FileNotFound          // the local file to upload does not exist
    | SeekFailed            // IOException: seek before the beginning of a file
    | Stalled               // the peer sent nothing more: the blocking receive never returns

  datatype Result<+T> = Ok(value: T) | Err(error: Error) {

    predicate IsFailure() {
      Err?
    }

    function PropagateFailure<U>(): Result<U>
      requires Err?
    {
      Err(error)
    }

    function Extract(): T
      requires Ok?
    {
      value
    }
  }
}
