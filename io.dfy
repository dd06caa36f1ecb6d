/**
 * The two ends of Go's io package the framing code is written against.
 *
 * A `Source` is the base io.Reader the stream readers consume: the bytes
 * not yet read, read the way a bytes.Buffer hands them out.  A `Sink` is the
 * base io.Writer the stream writers append to; it accepts a write while the
 * total stays within `limit` bytes and refuses a write that does not fit,
 * writing nothing of it, which stands for any failing writer.
 */
module IO {
  import opened Text
  import opened Wrappers

  const EOF: string := "EOF"
  const UnexpectedEOF: string := "unexpected EOF"
  const ErrShortWrite: string := "short write"

  /**
   * io.ReadFull of `n` bytes from `input`: the bytes read, the bytes left
   * and the error.  Nothing available at all is io.EOF, some but fewer than
   * `n` is io.ErrUnexpectedEOF, and a read of zero bytes always succeeds.
   */
  function FullRead(input: seq<byte>, n: nat): (r: (seq<byte>, seq<byte>, Option<string>))
    ensures r.0 + r.1 == input
    ensures r.2 == None <==> n <= |input|
    ensures r.2 == None ==> |r.0| == n
    ensures r.2 == Some(EOF) <==> input == [] && n > 0
    ensures r.2 != None ==> r.2 == Some(EOF) || r.2 == Some(UnexpectedEOF)
  {
    if n <= |input| then (input[..n], input[n..], None)
    else if input == [] then ([], [], Some(EOF))
    else (input, [], Some(UnexpectedEOF))
  }

  /**
   * One Read into a buffer of `n` bytes, as bytes.Buffer answers it: as many
   * bytes as are available up to `n`, io.EOF once nothing is left (unless
   * the buffer is empty too).
   */
  function PartialRead(input: seq<byte>, n: nat): (r: (seq<byte>, seq<byte>, Option<string>))
    ensures r.0 + r.1 == input
    ensures r.2 == None ==> |r.0| == if n < |input| then n else |input|
    ensures r.2 != None <==> input == [] && n > 0
    ensures r.2 != None ==> r.2 == Some(EOF)
  {
    if input == [] then ([], [], if n == 0 then None else Some(EOF))
    else if n < |input| then (input[..n], input[n..], None)
    else (input, [], None)
  }

  /** A write of `p` after `data`: appended when it fits, refused whole otherwise. */
  function Appended(data: seq<byte>, p: seq<byte>, limit: nat): (r: (seq<byte>, Option<string>))
    ensures r.1 == None <==> |data| + |p| <= limit
    ensures r.0 == if r.1 == None then data + p else data
  {
    if |data| + |p| <= limit then (data + p, None) else (data, Some(ErrShortWrite))
  }

  class Source {
    /** The bytes not read yet. */
    var input: seq<byte>

    constructor (input: seq<byte>)
      ensures this.input == input
    {
      this.input := input;
    }

    method ReadFull(n: nat) returns (b: seq<byte>, err: Option<string>)
      modifies this
      ensures (b, input, err) == FullRead(old(input), n)
    {
      if n <= |input| {
        b, err := input[..n], None;
        input := input[n..];
      } else if input == [] {
        b, err := [], Some(EOF);
      } else {
        b, err := input, Some(UnexpectedEOF);
        input := [];
      }
    }

    method Read(n: nat) returns (b: seq<byte>, err: Option<string>)
      modifies this
      ensures (b, input, err) == PartialRead(old(input), n)
    {
      if input == [] {
        b, err := [], if n == 0 then None else Some(EOF);
      } else if n < |input| {
        b, err := input[..n], None;
        input := input[n..];
      } else {
        b, err := input, None;
        input := [];
      }
    }
  }

  class Sink {
    /** The bytes accepted so far. */
    var data: seq<byte>
    const limit: nat

    constructor (limit: nat)
      ensures data == [] && this.limit == limit
    {
      data := [];
      this.limit := limit;
    }

    method Write(p: seq<byte>) returns (err: Option<string>)
      modifies this
      ensures (data, err) == Appended(old(data), p, limit)
    {
      if |data| + |p| <= limit {
        data := data + p;
        err := None;
      } else {
        err := Some(ErrShortWrite);
      }
    }
  }
}
