/**
 * The older length-prefixed stream (eventkitd/utils/protostream).  Its
 * writer marshals into a buffer it keeps between calls and resets first;
 * its reader has no cap on the size a header announces.
 */
module LegacyProtostream {
  import opened Wrappers
  import opened Text
  import opened Binary
  import IO
  import P = Protostream
  import Pb

  class Writer {
    const base: IO.Sink
    /** The marshal buffer (proto.Buffer), reused by every call. */
    var buf: seq<byte>

    /** NewWriter: an empty buffer. */
    constructor (base: IO.Sink)
      ensures this.base == base && buf == []
    {
      this.base := base;
      buf := [];
    }

    /**
     * Marshal: the buffer is reset and then holds exactly this message's
     * bytes, whatever it held before; the frame written is the one the
     * newer writer writes.
     */
    method Marshal<M>(codec: P.Codec<M>, m: M) returns (err: Option<string>)
      modifies this, base
      ensures (base.data, err) == P.AfterMarshal(old(base.data), base.limit, codec.marshal(m))
      ensures buf == if codec.marshal(m).Ok? then codec.marshal(m).value else []
    {
      buf := [];
      var data := codec.marshal(m);
      if data.Err? {
        return Some(data.error);
      }
      buf := buf + data.value;
      assert buf == data.value;
      if |buf| > P.MaxSerializedSize {
        return Some(P.ErrTooLarge);
      }
      var header := BigEndian(|buf|, P.HeaderSize);
      err := base.Write(header);
      if err != None {
        return;
      }
      err := base.Write(buf);
    }
  }

  /**
   * Reader.Unmarshal on the unread bytes `input`: four header bytes read in
   * full, then as many body bytes as the header says, whatever that is,
   * read in full and unmarshalled.
   */
  function ReadMessage<M>(input: seq<byte>, codec: P.Codec<M>): (r: (seq<byte>, Result<M>))
    ensures |r.0| <= |input| && r.0 == input[|input| - |r.0|..]
    ensures |input| < P.HeaderSize ==> r.0 == [] && r.1 == Err(if input == [] then IO.EOF else IO.UnexpectedEOF)
    ensures |input| >= P.HeaderSize && |input| - P.HeaderSize < FromBigEndian(input[..P.HeaderSize]) ==>
      r.0 == [] && r.1 == Err(if |input| == P.HeaderSize then IO.EOF else IO.UnexpectedEOF)
    ensures r.1.Ok? ==> |r.0| <= |input| - P.HeaderSize
  {
    var (header, rest, e) := IO.FullRead(input, P.HeaderSize);
    if e.Some? then (rest, Err(e.value))
    else
      assert header == input[..P.HeaderSize] && rest == input[P.HeaderSize..];
      var (body, rest2, e2) := IO.FullRead(rest, FromBigEndian(header));
      assert rest2 == input[|input| - |rest2|..];
      if e2.Some? then (rest2, Err(e2.value)) else (rest2, codec.unmarshal(body))
  }

  class Reader {
    const base: IO.Source

    /** NewReader. */
    constructor (base: IO.Source)
      ensures this.base == base
    {
      this.base := base;
    }

    method Unmarshal<M>(codec: P.Codec<M>) returns (r: Result<M>)
      modifies base
      ensures (base.input, r) == ReadMessage(old(base.input), codec)
    {
      var header, err := base.ReadFull(P.HeaderSize);
      if err.Some? {
        return Err(err.value);
      }
      var buf;
      buf, err := base.ReadFull(FromBigEndian(header));
      if err.Some? {
        return Err(err.value);
      }
      r := codec.unmarshal(buf);
    }
  }

  // ------------------------------------------------------------ properties

  /**
   * Any frame whose length fits the 32-bit header reads back as its
   * payload, consuming exactly the frame: there is no cap, so frames the
   * newer reader refuses are read here.
   */
  lemma ReadFrame<M>(data: seq<byte>, more: seq<byte>, codec: P.Codec<M>)
    requires |data| < TwoTo32
    ensures ReadMessage(P.Frame(data) + more, codec) == (more, codec.unmarshal(data))
  {
    var input := P.Frame(data) + more;
    assert input[..P.HeaderSize] == P.Frame(data)[..P.HeaderSize];
    assert input[P.HeaderSize..] == data + more;
    assert (data + more)[..|data|] == data && (data + more)[|data|..] == more;
  }

  /** A frame over 4 MiB: read here, refused by the newer reader. */
  lemma OversizedFrameRead<M>(data: seq<byte>, more: seq<byte>, codec: P.Codec<M>)
    requires P.MaxSerializedSize < |data| < TwoTo32
    ensures ReadMessage(P.Frame(data) + more, codec).1 == codec.unmarshal(data)
    ensures P.ReadMessage(P.Frame(data) + more, codec).1 == Err(P.ErrFrameTooLarge)
  {
    ReadFrame(data, more, codec);
    P.OversizedFrameRefused(data, more, codec);
  }

  /** What this writer writes, this reader reads back. */
  lemma WriteThenRead<M>(out: seq<byte>, limit: nat, codec: P.Codec<M>, m: M)
    requires P.RoundTrips(codec, m)
    ensures P.AfterMarshal(out, limit, codec.marshal(m)).1 == None ==>
      ReadMessage(P.AfterMarshal(out, limit, codec.marshal(m)).0[|out|..], codec) == ([], Ok(m))
  {
    var r := P.AfterMarshal(out, limit, codec.marshal(m));
    if r.1 == None {
      var data := codec.marshal(m).value;
      assert r.0[|out|..] == P.Frame(data) + [];
      ReadFrame(data, [], codec);
    }
  }

  /** The package test: an event named "test event" written by this writer reads back with that name. */
  lemma BasicTest()
    ensures var e := Pb.Event("test event", [], 0, []);
      var (out, err) := P.AfterMarshal([], 1024, P.MarshalEvent(e));
      err == None && ReadMessage(out, P.EventCodec) == ([], Ok(e))
  {
    var e := Pb.Event("test event", [], 0, []);
    assert Pb.EventFields(e) == [Pb.StringField(1, "test event")];
    assert |Pb.EncodeEvent(e)| == 12;
    P.EventRoundTrips(e);
    WriteThenRead([], 1024, P.EventCodec, e);
    var out := P.AfterMarshal([], 1024, P.MarshalEvent(e)).0;
    assert out[0..] == out;
  }
}
