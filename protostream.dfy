/**
 * Length-prefixed message streams (eventkitd/private/protostream): every
 * message is a 4-byte big-endian length followed by its serialized bytes,
 * and neither end handles a message larger than 4 MiB.
 *
 * The serializer is a parameter: a `Codec` pairs the marshal function the
 * writer calls with the unmarshal function the reader calls.  `EventCodec`
 * instantiates it with the protobuf encoding of an event.
 */
module Protostream {
  import opened Wrappers
  import opened Text
  import opened Binary
  import IO
  import Pb

  const MaxSerializedSize: nat := 4 * 1024 * 1024
  const HeaderSize: nat := 4
  const ErrTooLarge: string := "too large of message for stream"
  const ErrFrameTooLarge: string := "frame size larger than max"
  const ErrMalformed: string := "proto: malformed message"

  /** A message serializer: how the writer marshals and the reader unmarshals `M`. */
  datatype Codec<!M> = Codec(marshal: M -> Result<seq<byte>>, unmarshal: seq<byte> -> Result<M>)

  /** `m` marshals to bytes that unmarshal back to `m`, or does not marshal at all. */
  ghost predicate RoundTrips<M>(c: Codec<M>, m: M)
  {
    c.marshal(m).Ok? ==> c.unmarshal(c.marshal(m).value) == Ok(m)
  }

  /** A frame: the length of `data` as a 4-byte big-endian number (uint32 of the length), then `data`. */
  function Frame(data: seq<byte>): (r: seq<byte>)
    ensures |r| == HeaderSize + |data| && r[HeaderSize..] == data
    ensures |data| < TwoTo32 ==> FromBigEndian(r[..HeaderSize]) == |data|
  {
    var header := BigEndian(|data|, HeaderSize);
    assert |data| < TwoTo32 ==> FromBigEndian(header) == |data| by {
      if |data| < TwoTo32 {
        BigEndianRoundTrip(|data|, HeaderSize);
      }
    }
    assert (header + data)[..HeaderSize] == header;
    header + data
  }

  // ------------------------------------------------------------ writer

  /**
   * Writer.Marshal on a base writer holding `out` that refuses to grow past
   * `limit`, given what marshalling returned: a marshal error or an
   * oversized message writes nothing; otherwise the header is written, and
   * the payload only if the header went through.
   */
  function AfterMarshal(out: seq<byte>, limit: nat, data: Result<seq<byte>>): (r: (seq<byte>, Option<string>))
    ensures r.1 == None <==> data.Ok? && |data.value| <= MaxSerializedSize && |out| + HeaderSize + |data.value| <= limit
    ensures r.1 == None ==> r.0 == out + Frame(data.value)
    ensures data.Err? ==> r == (out, Some(data.error))
    ensures data.Ok? && |data.value| > MaxSerializedSize ==> r == (out, Some(ErrTooLarge))
    ensures r.1 != None ==> r.0 == out || (data.Ok? && r.0 == out + Frame(data.value)[..HeaderSize])
  {
    if data.Err? then (out, Some(data.error))
    else if |data.value| > MaxSerializedSize then (out, Some(ErrTooLarge))
    else
      var header := BigEndian(|data.value|, HeaderSize);
      assert Frame(data.value) == header + data.value;
      assert Frame(data.value)[..HeaderSize] == header;
      var (o1, e1) := IO.Appended(out, header, limit);
      if e1 != None then (o1, e1)
      else
        assert o1 + data.value == out + Frame(data.value);
        IO.Appended(o1, data.value, limit)
  }

  class Writer {
    const base: IO.Sink

    /** NewWriter. */
    constructor (base: IO.Sink)
      ensures this.base == base
    {
      this.base := base;
    }

    method Marshal<M>(codec: Codec<M>, m: M) returns (err: Option<string>)
      modifies base
      ensures (base.data, err) == AfterMarshal(old(base.data), base.limit, codec.marshal(m))
    {
      var data := codec.marshal(m);
      if data.Err? {
        return Some(data.error);
      }
      if |data.value| > MaxSerializedSize {
        return Some(ErrTooLarge);
      }
      var header := BigEndian(|data.value|, HeaderSize);
      err := base.Write(header);
      if err != None {
        return;
      }
      err := base.Write(data.value);
    }
  }

  // ------------------------------------------------------------ reader

  /**
   * Reader.Unmarshal on the unread bytes `input`: the bytes left and the
   * message or error.  Four header bytes are read in full, a size over the
   * cap is refused before any of the body is read, then exactly `size`
   * bytes are read in full and unmarshalled.
   */
  function ReadMessage<M>(input: seq<byte>, codec: Codec<M>): (r: (seq<byte>, Result<M>))
    ensures |r.0| <= |input| && r.0 == input[|input| - |r.0|..]
    ensures |input| < HeaderSize ==> r.0 == [] && r.1 == Err(if input == [] then IO.EOF else IO.UnexpectedEOF)
    ensures |input| >= HeaderSize && FromBigEndian(input[..HeaderSize]) > MaxSerializedSize ==>
      r == (input[HeaderSize..], Err(ErrFrameTooLarge))
    ensures r.1.Ok? ==> |r.0| <= |input| - HeaderSize
  {
    var (header, rest, e) := IO.FullRead(input, HeaderSize);
    if e.Some? then (rest, Err(e.value))
    else
      assert header == input[..HeaderSize] && rest == input[HeaderSize..];
      var size := FromBigEndian(header);
      if size > MaxSerializedSize then (rest, Err(ErrFrameTooLarge))
      else
        var (body, rest2, e2) := IO.FullRead(rest, size);
        assert rest2 == input[|input| - |rest2|..];
        if e2.Some? then (rest2, Err(e2.value)) else (rest2, codec.unmarshal(body))
  }

  class Reader {
    const base: IO.Source

    /** NewReader. */
    constructor (base: IO.Source)
      ensures this.base == base
    {
      this.base := base;
    }

    method Unmarshal<M>(codec: Codec<M>) returns (r: Result<M>)
      modifies base
      ensures (base.input, r) == ReadMessage(old(base.input), codec)
    {
      var header, err := base.ReadFull(HeaderSize);
      if err.Some? {
        return Err(err.value);
      }
      var size := FromBigEndian(header);
      if size > MaxSerializedSize {
        return Err(ErrFrameTooLarge);
      }
      var buf;
      buf, err := base.ReadFull(size);
      if err.Some? {
        return Err(err.value);
      }
      r := codec.unmarshal(buf);
    }
  }

  // ------------------------------------------------------------ properties

  /** A frame within the cap reads back as its payload, consuming exactly the frame. */
  lemma ReadFrame<M>(data: seq<byte>, more: seq<byte>, codec: Codec<M>)
    requires |data| <= MaxSerializedSize
    ensures ReadMessage(Frame(data) + more, codec) == (more, codec.unmarshal(data))
  {
    var input := Frame(data) + more;
    assert input[..HeaderSize] == Frame(data)[..HeaderSize];
    assert input[HeaderSize..] == data + more;
    assert (data + more)[..|data|] == data && (data + more)[|data|..] == more;
  }

  /** A header announcing more than 4 MiB is refused, whatever follows it. */
  lemma OversizedFrameRefused<M>(data: seq<byte>, more: seq<byte>, codec: Codec<M>)
    requires MaxSerializedSize < |data| < TwoTo32
    ensures ReadMessage(Frame(data) + more, codec) == (data + more, Err(ErrFrameTooLarge))
  {
    var input := Frame(data) + more;
    assert input[..HeaderSize] == Frame(data)[..HeaderSize];
    assert input[HeaderSize..] == data + more;
  }

  /** A message the writer accepted reads back from the bytes it wrote. */
  lemma WriteThenRead<M>(out: seq<byte>, limit: nat, codec: Codec<M>, m: M)
    requires RoundTrips(codec, m)
    ensures AfterMarshal(out, limit, codec.marshal(m)).1 == None ==>
      ReadMessage(AfterMarshal(out, limit, codec.marshal(m)).0[|out|..], codec) == ([], Ok(m))
  {
    var r := AfterMarshal(out, limit, codec.marshal(m));
    if r.1 == None {
      var data := codec.marshal(m).value;
      assert r.0[|out|..] == Frame(data) + [];
      ReadFrame(data, [], codec);
    }
  }

  /** The writer called on each message in turn, stopping at the first error. */
  function WriteEach<M>(out: seq<byte>, limit: nat, codec: Codec<M>, ms: seq<M>): (r: (seq<byte>, Option<string>))
    ensures |out| <= |r.0| && r.0[..|out|] == out
    decreases |ms|
  {
    if ms == [] then (out, None)
    else
      var (o1, e1) := AfterMarshal(out, limit, codec.marshal(ms[0]));
      if e1 != None then (o1, e1)
      else
        var r := WriteEach(o1, limit, codec, ms[1..]);
        assert r.0[..|out|] == r.0[..|o1|][..|out|];
        r
  }

  /** The reader called until it reports an error: the messages read, and that error. */
  function ReadStream<M>(input: seq<byte>, codec: Codec<M>): (r: (seq<M>, string))
    decreases |input|
  {
    var (rest, res) := ReadMessage(input, codec);
    if res.Err? then ([], res.error)
    else
      var (ms, e) := ReadStream(rest, codec);
      ([res.value] + ms, e)
  }

  /** A successful first write: the rest of the run continues from the frame it wrote. */
  lemma WriteEachStep<M>(out: seq<byte>, limit: nat, codec: Codec<M>, ms: seq<M>)
    requires ms != [] && WriteEach(out, limit, codec, ms).1 == None
    ensures codec.marshal(ms[0]).Ok?
    ensures WriteEach(out, limit, codec, ms) == WriteEach(out + Frame(codec.marshal(ms[0]).value), limit, codec, ms[1..])
  {
  }

  /** A frame of a message that round-trips heads the stream read back. */
  lemma ReadStreamStep<M>(codec: Codec<M>, m: M, tail: seq<byte>)
    requires RoundTrips(codec, m) && codec.marshal(m).Ok? && |codec.marshal(m).value| <= MaxSerializedSize
    ensures ReadStream(Frame(codec.marshal(m).value) + tail, codec).0 == [m] + ReadStream(tail, codec).0
    ensures ReadStream(Frame(codec.marshal(m).value) + tail, codec).1 == ReadStream(tail, codec).1
  {
    ReadFrame(codec.marshal(m).value, tail, codec);
  }

  /** The bytes after a prefix `out` of `w` that continues with `f`. */
  lemma PrefixSplit(w: seq<byte>, out: seq<byte>, f: seq<byte>)
    requires |out + f| <= |w| && w[..|out + f|] == out + f
    ensures w[|out|..] == f + w[|out + f|..]
  {
    assert w[|out|..] == w[|out|..|out + f|] + w[|out + f|..];
    assert w[|out|..|out + f|] == (out + f)[|out|..];
  }

  /**
   * Consecutive frames: whatever a run of writer calls wrote without an
   * error reads back, frame after frame, as the same messages in order,
   * and then io.EOF.
   */
  lemma {:induction false} WriteThenReadStream<M>(out: seq<byte>, limit: nat, codec: Codec<M>, ms: seq<M>)
    requires forall i :: 0 <= i < |ms| ==> RoundTrips(codec, ms[i])
    requires WriteEach(out, limit, codec, ms).1 == None
    ensures ReadStream(WriteEach(out, limit, codec, ms).0[|out|..], codec) == (ms, IO.EOF)
    decreases |ms|
  {
    var w := WriteEach(out, limit, codec, ms).0;
    if ms == [] {
      assert w[|out|..] == [];
    } else {
      WriteEachStep(out, limit, codec, ms);
      var data := codec.marshal(ms[0]).value;
      var o1 := out + Frame(data);
      assert |data| <= MaxSerializedSize;
      assert RoundTrips(codec, ms[0]);
      WriteThenReadStream(o1, limit, codec, ms[1..]);
      var tail := w[|o1|..];
      PrefixSplit(w, out, Frame(data));
      ReadStreamStep(codec, ms[0], tail);
      assert ms == [ms[0]] + ms[1..];
    }
  }

  // ------------------------------------------------------------ events

  /** picobuf.Marshal of an event: its protobuf encoding. */
  function MarshalEvent(e: Pb.Event): (r: Result<seq<byte>>)
    ensures r.Ok?
  {
    Ok(Pb.EncodeEvent(e))
  }

  /** proto.Unmarshal into an event. */
  function UnmarshalEvent(b: seq<byte>): (r: Result<Pb.Event>)
    ensures r.Ok? <==> Pb.DecodeEvent(b).Some?
  {
    match Pb.DecodeEvent(b)
    case Some(e) => Ok(e)
    case None => Err(ErrMalformed)
  }

  const EventCodec: Codec<Pb.Event> := Codec(MarshalEvent, UnmarshalEvent)

  /** Every event whose encoding fits in a byte slice round-trips through the event codec. */
  lemma EventRoundTrips(e: Pb.Event)
    requires Pb.Fits(Pb.EventFields(e))
    ensures RoundTrips(EventCodec, e)
  {
    Pb.EventRoundTrip(e);
  }

  /** An event written to an empty stream reads back unchanged, its name included. */
  lemma EventWriteThenRead(limit: nat, e: Pb.Event)
    requires Pb.Fits(Pb.EventFields(e))
    requires |Pb.EncodeEvent(e)| <= MaxSerializedSize && HeaderSize + |Pb.EncodeEvent(e)| <= limit
    ensures var (out, err) := AfterMarshal([], limit, MarshalEvent(e));
      err == None && ReadMessage(out, EventCodec) == ([], Ok(e))
  {
    EventRoundTrips(e);
    WriteThenRead([], limit, EventCodec, e);
    var out := AfterMarshal([], limit, MarshalEvent(e)).0;
    assert out[0..] == out;
  }

  /** The package test: an event named "test event" is written and read back with that name. */
  lemma BasicTest()
    ensures var e := Pb.Event("test event", [], 0, []);
      var (out, err) := AfterMarshal([], 1024, MarshalEvent(e));
      err == None && ReadMessage(out, EventCodec) == ([], Ok(e))
  {
    var e := Pb.Event("test event", [], 0, []);
    assert Pb.EventFields(e) == [Pb.StringField(1, "test event")];
    assert |Pb.EncodeEvent(e)| == 12;
    EventWriteThenRead(1024, e);
  }
}
