/**
 * The delimited stream format of eventkitd/private/delimited.
 *
 * A stream is a sequence of frames.  Each frame starts with a 3-byte
 * header: a control byte and a big-endian 16-bit size.  A data frame
 * (control 0) is followed by `size` payload bytes, at most 65535; a
 * delimiter frame (control 1) has no payload.  The bytes between two
 * delimiters form one record.  The Writer buffers written bytes and cuts
 * them into data frames; the Reader walks the records with Next and Read.
 *
 * The frame structure is modelled by `Frame` and `Serialize`, the records a
 * frame sequence carries by `Records`; the writer's output is a serialized
 * frame sequence and reading one back gives its records.
 */
module Delimited {
  import opened Text
  import opened Wrappers
  import opened Binary
  import IO

  const FrameHeaderSize: nat := 3
  const MaxFrameSize: nat := 65535
  const ControlData: byte := 0
  const ControlDelimit: byte := 1
  const ErrUnknownControl: string := "unknown control byte"

  function Min(a: nat, b: nat): nat { if a < b then a else b }

  // ------------------------------------------------------------ frames

  datatype Frame = DataFrame(chunk: seq<byte>) | DelimitFrame

  predicate WellSized(fs: seq<Frame>)
  {
    forall i :: 0 <= i < |fs| ==> fs[i].DataFrame? ==> |fs[i].chunk| <= MaxFrameSize
  }

  /** A frame header; the size field holds the size modulo 65536, as a conversion to uint16 does. */
  function Header(control: byte, size: nat): seq<byte>
  {
    [control] + BigEndian(size, 2)
  }

  function Encode(f: Frame): seq<byte>
  {
    match f
    case DataFrame(c) => Header(ControlData, |c|) + c
    case DelimitFrame => Header(ControlDelimit, 0)
  }

  function Serialize(fs: seq<Frame>): seq<byte>
    decreases |fs|
  {
    if fs == [] then [] else Encode(fs[0]) + Serialize(fs[1..])
  }

  /**
   * The records carried by a frame sequence: the payloads between two
   * delimiters, concatenated.  There is always one record more than there
   * are delimiters, the last one possibly empty.
   */
  function Records(fs: seq<Frame>): (rs: seq<seq<byte>>)
    ensures |rs| >= 1
    decreases |fs|
  {
    if fs == [] then [[]]
    else
      var rest := Records(fs[1..]);
      match fs[0]
      case DelimitFrame => [[]] + rest
      case DataFrame(c) => [c + rest[0]] + rest[1..]
  }

  /** The frames after the first delimiter, if there is one. */
  function AfterRecord(fs: seq<Frame>): (r: Option<seq<Frame>>)
    ensures r.Some? ==> |r.value| < |fs| && r.value == fs[|fs| - |r.value|..]
    ensures r.Some? && WellSized(fs) ==> WellSized(r.value)
    decreases |fs|
  {
    if fs == [] then None
    else if fs[0] == DelimitFrame then Some(fs[1..])
    else AfterRecord(fs[1..])
  }

  /** The frames from the first one that is not an empty data frame. */
  function DropEmpty(fs: seq<Frame>): (r: seq<Frame>)
    ensures |r| <= |fs| && r == fs[|fs| - |r|..]
    ensures WellSized(fs) ==> WellSized(r)
    ensures r != [] ==> r[0] != DataFrame([])
    decreases |fs|
  {
    if fs != [] && fs[0] == DataFrame([]) then DropEmpty(fs[1..]) else fs
  }

  // ------------------------------------------------------------ writer

  /** The frames Flush cuts from buffered bytes: full frames, then one shorter frame with the rest. */
  function Chunks(data: seq<byte>): (fs: seq<Frame>)
    ensures WellSized(fs)
    decreases |data|
  {
    if data == [] then []
    else
      var n := Min(|data|, MaxFrameSize);
      [DataFrame(data[..n])] + Chunks(data[n..])
  }

  /** The frames Write emits from buffered bytes: only full frames, while a full frame's worth is buffered. */
  function FullFrames(data: seq<byte>): (fs: seq<Frame>)
    ensures WellSized(fs)
    decreases |data|
  {
    if |data| < MaxFrameSize then [] else [DataFrame(data[..MaxFrameSize])] + FullFrames(data[MaxFrameSize..])
  }

  /** What Write leaves buffered. */
  function Leftover(data: seq<byte>): (r: seq<byte>)
    ensures |r| < MaxFrameSize
    decreases |data|
  {
    if |data| < MaxFrameSize then data else Leftover(data[MaxFrameSize..])
  }

  /** The writer's state: the bytes its base writer holds and its buffer. */
  datatype WriterState = WriterState(out: seq<byte>, buf: seq<byte>)

  /**
   * flushFrame: take up to 65535 bytes off the buffer and write their data
   * frame, header first.  An empty buffer writes nothing.  The bytes taken
   * off the buffer are gone even when a base write fails.
   */
  function AfterFlushFrame(s: WriterState, limit: nat): (r: (WriterState, Option<string>))
    ensures r.0.buf == s.buf[Min(|s.buf|, MaxFrameSize)..]
  {
    var n := Min(|s.buf|, MaxFrameSize);
    if n == 0 then (s, None)
    else
      var (out1, e1) := IO.Appended(s.out, Header(ControlData, n), limit);
      if e1.Some? then (WriterState(out1, s.buf[n..]), e1)
      else
        var (out2, e2) := IO.Appended(out1, s.buf[..n], limit);
        (WriterState(out2, s.buf[n..]), e2)
  }

  /** The flushFrame loop of Write: flush while a full frame's worth is buffered, stopping at an error. */
  function DrainFull(s: WriterState, limit: nat): (r: (WriterState, Option<string>))
    decreases |s.buf|
  {
    if |s.buf| < MaxFrameSize then (s, None)
    else
      var (s1, e) := AfterFlushFrame(s, limit);
      if e.Some? then (s1, e) else DrainFull(s1, limit)
  }

  /** Write: buffer `p`, then emit the full frames. */
  function AfterWrite(s: WriterState, p: seq<byte>, limit: nat): (WriterState, Option<string>)
  {
    DrainFull(s.(buf := s.buf + p), limit)
  }

  /** Flush: flush frames until the buffer is empty, stopping at an error. */
  function AfterFlush(s: WriterState, limit: nat): (r: (WriterState, Option<string>))
    decreases |s.buf|
  {
    if |s.buf| == 0 then (s, None)
    else
      var (s1, e) := AfterFlushFrame(s, limit);
      if e.Some? then (s1, e) else AfterFlush(s1, limit)
  }

  /** Delimit: Flush, then the delimiter frame. */
  function AfterDelimit(s: WriterState, limit: nat): (WriterState, Option<string>)
  {
    var (s1, e) := AfterFlush(s, limit);
    if e.Some? then (s1, e)
    else
      var (out, e2) := IO.Appended(s1.out, Header(ControlDelimit, 0), limit);
      (s1.(out := out), e2)
  }

  class Writer {
    const base: IO.Sink
    var buf: seq<byte>

    function State(): WriterState
      reads this, base
    {
      WriterState(base.data, buf)
    }

    constructor (base: IO.Sink)
      ensures this.base == base && buf == []
    {
      this.base := base;
      buf := [];
    }

    method Write(p: seq<byte>) returns (n: nat, err: Option<string>)
      modifies this, base
      ensures n == |p|
      ensures (State(), err) == AfterWrite(old(State()), p, base.limit)
    {
      buf := buf + p;
      n := |p|;
      err := None;
      while |buf| >= MaxFrameSize
        invariant err == None
        invariant DrainFull(State(), base.limit) == AfterWrite(old(State()), p, base.limit)
        decreases |buf|
      {
        err := FlushFrame();
        if err.Some? {
          return;
        }
      }
    }

    method FlushFrame() returns (err: Option<string>)
      modifies this, base
      ensures (State(), err) == AfterFlushFrame(old(State()), base.limit)
    {
      var n := Min(|buf|, MaxFrameSize);
      var chunk := buf[..n];
      buf := buf[n..];
      if n == 0 {
        return None;
      }
      err := base.Write(Header(ControlData, n));
      if err.Some? {
        return;
      }
      err := base.Write(chunk);
    }

    method Flush() returns (err: Option<string>)
      modifies this, base
      ensures (State(), err) == AfterFlush(old(State()), base.limit)
    {
      while |buf| > 0
        invariant AfterFlush(State(), base.limit) == AfterFlush(old(State()), base.limit)
        decreases |buf|
      {
        err := FlushFrame();
        if err.Some? {
          return;
        }
      }
      return None;
    }

    method Delimit() returns (err: Option<string>)
      modifies this, base
      ensures (State(), err) == AfterDelimit(old(State()), base.limit)
    {
      err := Flush();
      if err.Some? {
        return;
      }
      err := base.Write(Header(ControlDelimit, 0));
    }
  }

  // ------------------------------------------------------------ reader

  datatype Control = Data | Delimit

  /**
   * The reader's state: the unread bytes of its base reader, the control
   * byte of the current frame, the unread payload of the current data
   * frame, and the sticky error.
   */
  datatype ReaderState = ReaderState(input: seq<byte>, control: Control, remaining: seq<byte>, err: Option<string>)

  /** NewReader: positioned as if a delimiter had just been read. */
  function Start(input: seq<byte>): ReaderState
  {
    ReaderState(input, Delimit, [], None)
  }

  /** A data frame readFrame stops on is never empty. */
  predicate Loaded(s: ReaderState)
  {
    s.err == None && s.control == Data ==> |s.remaining| > 0
  }

  /**
   * readFrame: read frame headers until a delimiter, a non-empty data frame
   * or an error.  A truncated payload is io.ErrUnexpectedEOF and an unknown
   * control byte stops with an error.
   */
  function AfterReadFrame(s: ReaderState): (r: ReaderState)
    requires s.err == None
    ensures |r.input| <= |s.input| && (r.err == None ==> |r.input| < |s.input|)
    ensures Loaded(r)
    decreases |s.input|
  {
    var (header, rest, e) := IO.FullRead(s.input, FrameHeaderSize);
    if e.Some? then s.(input := rest, err := e)
    else if header[0] == ControlDelimit then s.(input := rest, control := Delimit)
    else if header[0] != ControlData then s.(input := rest, err := Some(ErrUnknownControl))
    else
      var size := FromBigEndian(header[1..]);
      var (payload, rest', e') := IO.FullRead(rest, size);
      if e'.Some? then
        s.(input := rest', control := Data, remaining := payload,
           err := Some(if e' == Some(IO.EOF) then IO.UnexpectedEOF else e'.value))
      else if size > 0 then s.(input := rest', control := Data, remaining := payload)
      else AfterReadFrame(s.(input := rest', control := Data, remaining := payload))
  }

  /**
   * readFrame as the source has it: an unknown control byte records the
   * error but leaves the control of the previous frame in place, so after a
   * data frame the loop reads on, and a later end of input replaces the
   * error with io.EOF.
   */
  function AfterReadFrameAsWritten(s: ReaderState): (r: ReaderState)
    decreases |s.input|
  {
    var (header, rest, e) := IO.FullRead(s.input, FrameHeaderSize);
    if e.Some? then s.(input := rest, err := e)
    else
      var s1 :=
        if header[0] == ControlDelimit then s.(input := rest, control := Delimit)
        else if header[0] == ControlData then s.(input := rest, control := Data)
        else s.(input := rest, err := Some(ErrUnknownControl));
      if s1.control != Data then s1
      else
        var size := FromBigEndian(header[1..]);
        var (payload, rest', e') := IO.FullRead(rest, size);
        if e'.Some? then
          s1.(input := rest', remaining := payload,
              err := Some(if e' == Some(IO.EOF) then IO.UnexpectedEOF else e'.value))
        else if size > 0 then s1.(input := rest', remaining := payload)
        else AfterReadFrameAsWritten(s1.(input := rest', remaining := payload))
  }

  /** The loop of Next: read frames until the current record's delimiter or an error. */
  function SkipRecord(s: ReaderState): (r: ReaderState)
    ensures |r.input| <= |s.input|
    ensures r.err == None ==> r.control == Delimit
    ensures s.err != None ==> r == s
    decreases |s.input|, if s.err == None then 1 else 0
  {
    if s.control != Delimit && s.err == None then SkipRecord(AfterReadFrame(s)) else s
  }

  /**
   * Next: skip to the next record and load its first frame.  It succeeds
   * when that works, and also at the end of input right after a delimiter:
   * the empty record that ends every stream.
   */
  function AfterNext(s: ReaderState): (r: (ReaderState, bool))
    ensures r.1 ==> s.err == None && Loaded(r.0)
    ensures |r.0.input| <= |s.input| && (r.1 && r.0.err == None ==> |r.0.input| < |s.input|)
  {
    var s1 := SkipRecord(s);
    if s1.err != None then (s1, false)
    else
      var last := s1.control;
      var s2 := AfterReadFrame(s1);
      (s2, s2.err == None || (last == Delimit && s2.err == Some(IO.EOF)))
  }

  /**
   * Read into a buffer of `n` bytes: the sticky error, io.EOF at a
   * delimiter, or min(n, remaining) bytes of the current frame, loading the
   * next frame once this one is used up.
   */
  function AfterRead(s: ReaderState, n: nat): (r: (ReaderState, seq<byte>, Option<string>))
    requires Loaded(s)
    ensures Loaded(r.0)
    ensures r.2 == None <==> s.err == None && s.control == Data
    ensures r.2 == None ==> r.1 == s.remaining[..Min(n, |s.remaining|)]
    ensures r.2 != None ==> r.1 == [] && r.0 == s
  {
    if s.err != None then (s, [], s.err)
    else if s.control != Data then (s, [], Some(IO.EOF))
    else
      var k := Min(n, |s.remaining|);
      var s1 := s.(remaining := s.remaining[k..]);
      (if |s1.remaining| == 0 then AfterReadFrame(s1) else s1, s.remaining[..k], None)
  }

  /** Err: the sticky error, with io.EOF reported as no error. */
  function Visible(s: ReaderState): (e: Option<string>)
    ensures e == None <==> s.err == None || s.err == Some(IO.EOF)
  {
    if s.err == Some(IO.EOF) then None else s.err
  }

  class Reader {
    const base: IO.Source
    var control: Control
    var remaining: seq<byte>
    var err: Option<string>

    function State(): ReaderState
      reads this, base
    {
      ReaderState(base.input, control, remaining, err)
    }

    constructor (base: IO.Source)
      ensures this.base == base && State() == Start(base.input)
    {
      this.base := base;
      control := Delimit;
      remaining := [];
      err := None;
    }

    method Next() returns (ok: bool)
      modifies this, base
      ensures (State(), ok) == AfterNext(old(State()))
    {
      while control != Delimit && err == None
        invariant SkipRecord(State()) == SkipRecord(old(State()))
        decreases |base.input|, if err == None then 1 else 0
      {
        ReadFrame();
      }
      if err != None {
        return false;
      }
      var last := control;
      ReadFrame();
      ok := err == None || (last == Delimit && err == Some(IO.EOF));
    }

    method ReadFrame()
      requires err == None
      modifies this, base
      ensures State() == AfterReadFrame(old(State()))
    {
      while true
        invariant err == None
        invariant AfterReadFrame(State()) == AfterReadFrame(old(State()))
        decreases |base.input|
      {
        var header, e := base.ReadFull(FrameHeaderSize);
        if e != None {
          err := e;
          return;
        }
        if header[0] == ControlDelimit {
          control := Delimit;
          return;
        } else if header[0] != ControlData {
          err := Some(ErrUnknownControl);
          return;
        }
        control := Data;
        var size := FromBigEndian(header[1..]);
        var payload, e' := base.ReadFull(size);
        remaining := payload;
        if e' != None {
          err := Some(if e' == Some(IO.EOF) then IO.UnexpectedEOF else e'.value);
          return;
        }
        if size > 0 {
          return;
        }
      }
    }

    method Read(n: nat) returns (data: seq<byte>, e: Option<string>)
      requires Loaded(State())
      modifies this, base
      ensures (State(), data, e) == AfterRead(old(State()), n)
    {
      if err != None {
        return [], err;
      }
      if control != Data {
        return [], Some(IO.EOF);
      }
      var k := Min(n, |remaining|);
      data := remaining[..k];
      remaining := remaining[k..];
      e := None;
      if |remaining| == 0 {
        ReadFrame();
      }
    }

    function Err(): (e: Option<string>)
      reads this
      ensures e == Visible(ReaderState([], control, remaining, err))
    {
      if err == Some(IO.EOF) then None else err
    }
  }

  // ------------------------------------------------------------ consumer

  /**
   * io.ReadAll over the current record with reads of `k` bytes: the bytes
   * up to io.EOF, which ends the record without an error, or up to the
   * first other error.
   */
  function ReadRecord(s: ReaderState, k: nat): (r: (ReaderState, seq<byte>, Option<string>))
    requires k > 0 && Loaded(s)
    ensures Loaded(r.0) && |r.0.input| <= |s.input| && (r.0.err == None ==> s.err == None)
    decreases |s.input|, if s.err == None then 1 else 0, |s.remaining|
  {
    var (s1, b, e) := AfterRead(s, k);
    if e != None then (s1, [], if e == Some(IO.EOF) then None else e)
    else
      var (s2, rest, e2) := ReadRecord(s1, k);
      (s2, b + rest, e2)
  }

  /**
   * The readAll loop of the package's tests: while Next succeeds read the
   * whole record; at the end, Err.  A read error ends the loop with that
   * error.
   */
  function ReadAll(s: ReaderState, k: nat): (r: (seq<seq<byte>>, Option<string>))
    requires k > 0
    decreases |s.input|, if s.err == None then 1 else 0
  {
    var (s1, ok) := AfterNext(s);
    if !ok then ([], Visible(s1))
    else
      var (s2, data, e) := ReadRecord(s1, k);
      if e != None then ([data], e)
      else
        var (rs, e2) := ReadAll(s2, k);
        ([data] + rs, e2)
  }

  // ------------------------------------------------------------ properties of frames

  lemma WellSizedAppend(a: seq<Frame>, b: seq<Frame>)
    requires WellSized(a) && WellSized(b)
    ensures WellSized(a + b)
  {
    forall i | 0 <= i < |a + b| && (a + b)[i].DataFrame?
      ensures |(a + b)[i].chunk| <= MaxFrameSize
    {
      if i >= |a| {
        assert (a + b)[i] == b[i - |a|];
      }
    }
  }

  lemma {:induction false} SerializeAppend(a: seq<Frame>, b: seq<Frame>)
    ensures Serialize(a + b) == Serialize(a) + Serialize(b)
    decreases |a|
  {
    if a == [] {
      assert a + b == b;
    } else {
      assert (a + b)[1..] == a[1..] + b;
      SerializeAppend(a[1..], b);
    }
  }

  /** Two record lists one after the other, the last record of the first joined with the first of the second. */
  function Glue(ra: seq<seq<byte>>, rb: seq<seq<byte>>): (r: seq<seq<byte>>)
    requires |ra| >= 1 && |rb| >= 1
    ensures |r| == |ra| + |rb| - 1
  {
    ra[..|ra| - 1] + [ra[|ra| - 1] + rb[0]] + rb[1..]
  }

  lemma GlueDelimit(ra: seq<seq<byte>>, rb: seq<seq<byte>>)
    requires |ra| >= 1 && |rb| >= 1
    ensures Glue([[]] + ra, rb) == [[]] + Glue(ra, rb)
  {
    assert ([[]] + ra)[..|ra|] == [[]] + ra[..|ra| - 1];
  }

  lemma GlueData(c: seq<byte>, ra: seq<seq<byte>>, rb: seq<seq<byte>>)
    requires |ra| >= 1 && |rb| >= 1
    ensures var g := Glue(ra, rb); Glue([c + ra[0]] + ra[1..], rb) == [c + g[0]] + g[1..]
  {
    var g := Glue(ra, rb);
    var n := |ra|;
    if n == 1 {
      assert c + ra[0] + rb[0] == c + (ra[0] + rb[0]);
      assert g == [ra[0] + rb[0]] + rb[1..];
    } else {
      assert g == [ra[0]] + (ra[1..n - 1] + [ra[n - 1] + rb[0]] + rb[1..]);
      assert ([c + ra[0]] + ra[1..])[..n - 1] == [c + ra[0]] + ra[1..n - 1];
    }
  }

  /**
   * The records of two frame sequences one after the other: the last
   * record of the first continues with the first record of the second.
   */
  lemma {:induction false} RecordsAppend(a: seq<Frame>, b: seq<Frame>)
    ensures Records(a + b) == Glue(Records(a), Records(b))
    decreases |a|
  {
    if a == [] {
      assert a + b == b;
      var rb := Records(b);
      assert [] + rb[0] == rb[0];
      assert Glue([[]], rb) == [rb[0]] + rb[1..] == rb;
    } else {
      assert (a + b)[1..] == a[1..] + b && (a + b)[0] == a[0];
      RecordsAppend(a[1..], b);
      match a[0]
      case DelimitFrame => GlueDelimit(Records(a[1..]), Records(b));
      case DataFrame(c) => GlueData(c, Records(a[1..]), Records(b));
    }
  }

  /** The frames Flush cuts carry the buffered bytes as a single record. */
  lemma {:induction false} ChunksRecords(data: seq<byte>)
    ensures Records(Chunks(data)) == [data]
    decreases |data|
  {
    if data != [] {
      var n := Min(|data|, MaxFrameSize);
      ChunksRecords(data[n..]);
      assert Chunks(data)[1..] == Chunks(data[n..]);
      assert data[..n] + data[n..] == data;
    }
  }

  /** The full frames Write emits and the frames of what it leaves buffered carry the written bytes as one record. */
  lemma {:induction false} FullFramesRecords(data: seq<byte>)
    ensures Records(FullFrames(data) + Chunks(Leftover(data))) == [data]
    decreases |data|
  {
    if |data| < MaxFrameSize {
      ChunksRecords(data);
      assert FullFrames(data) + Chunks(Leftover(data)) == Chunks(data);
    } else {
      var rest := data[MaxFrameSize..];
      FullFramesRecords(rest);
      var fs := FullFrames(data) + Chunks(Leftover(data));
      assert fs == [DataFrame(data[..MaxFrameSize])] + (FullFrames(rest) + Chunks(Leftover(rest)));
      assert fs[1..] == FullFrames(rest) + Chunks(Leftover(rest));
      assert data[..MaxFrameSize] + rest == data;
    }
  }

  /** Empty data frames carry nothing: dropping them changes neither the records nor what follows the first delimiter. */
  lemma {:induction false} RecordsDropEmpty(fs: seq<Frame>)
    ensures Records(DropEmpty(fs)) == Records(fs) && AfterRecord(DropEmpty(fs)) == AfterRecord(fs)
    decreases |fs|
  {
    if fs != [] && fs[0] == DataFrame([]) {
      RecordsDropEmpty(fs[1..]);
      var rest := Records(fs[1..]);
      assert Records(fs) == [[] + rest[0]] + rest[1..];
      assert [] + rest[0] == rest[0];
    }
  }

  /** What AfterRecord splits off: the first record, then the records after the delimiter. */
  lemma {:induction false} RecordsSplit(fs: seq<Frame>)
    ensures AfterRecord(fs).Some? ==> Records(fs) == [Records(fs)[0]] + Records(AfterRecord(fs).value)
    ensures AfterRecord(fs).None? ==> |Records(fs)| == 1
    decreases |fs|
  {
    if fs != [] {
      RecordsSplit(fs[1..]);
    }
  }

  // ------------------------------------------------------------ properties of the writer

  /** The size field of a data frame's header reads back as its size. */
  lemma {:induction false} HeaderDecodes(size: nat)
    requires size <= MaxFrameSize
    ensures FromBigEndian(Header(ControlData, size)[1..]) == size
  {
    assert Pow256(2) == 65536 by {
      assert Pow256(1) == 256 * Pow256(0);
    }
    BigEndianRoundTrip(size, 2);
    assert Header(ControlData, size)[1..] == BigEndian(size, 2);
  }

  /** The delimiter frame is the three bytes [1, 0, 0]. */
  lemma DelimitHeader()
    ensures Header(ControlDelimit, 0) == [1, 0, 0]
  {
    assert BigEndian(0, 2) == [0, 0] by {
      assert BigEndian(0, 1) == BigEndian(0, 0) + [0];
    }
  }

  lemma Associative(a: seq<byte>, b: seq<byte>, c: seq<byte>)
    ensures a + b + c == a + (b + c)
  {
  }

  lemma TakeDrop(x: seq<byte>, n: nat)
    requires n <= |x|
    ensures x[..n] + x[n..] == x
  {
  }

  lemma SerializeCons(f: Frame, fs: seq<Frame>)
    ensures Serialize([f] + fs) == Encode(f) + Serialize(fs)
  {
    assert ([f] + fs)[1..] == fs;
  }

  /** The first frame Chunks cuts, and the rest. */
  lemma ChunksFirst(data: seq<byte>)
    requires |data| > 0
    ensures var n := Min(|data|, MaxFrameSize);
      |Encode(DataFrame(data[..n]))| == FrameHeaderSize + n
      && Serialize(Chunks(data)) == Encode(DataFrame(data[..n])) + Serialize(Chunks(data[n..]))
  {
    var n := Min(|data|, MaxFrameSize);
    SerializeCons(DataFrame(data[..n]), Chunks(data[n..]));
  }

  /** The first frame FullFrames cuts, and the rest. */
  lemma FullFramesFirst(data: seq<byte>)
    requires |data| >= MaxFrameSize
    ensures |Encode(DataFrame(data[..MaxFrameSize]))| == FrameHeaderSize + MaxFrameSize
    ensures Serialize(FullFrames(data)) == Encode(DataFrame(data[..MaxFrameSize])) + Serialize(FullFrames(data[MaxFrameSize..]))
  {
    SerializeCons(DataFrame(data[..MaxFrameSize]), FullFrames(data[MaxFrameSize..]));
  }

  /**
   * flushFrame of a non-empty buffer writes the data frame of its first
   * chunk, and reports no error if and only if the base writer has room
   * for the whole frame.
   */
  lemma FlushFrameEmits(s: WriterState, limit: nat)
    requires |s.buf| > 0
    ensures var (s', e) := AfterFlushFrame(s, limit); var n := Min(|s.buf|, MaxFrameSize);
      (e == None <==> |s.out| + FrameHeaderSize + n <= limit)
      && (e == None ==> s'.out == s.out + Encode(DataFrame(s.buf[..n])))
  {
  }

  /** One successful flushFrame of Flush: the first frame of the buffer is out, and Flush goes on from there. */
  lemma FlushStep(s: WriterState, limit: nat)
    requires |s.buf| > 0 && AfterFlushFrame(s, limit).1 == None
    ensures var n := Min(|s.buf|, MaxFrameSize);
      AfterFlushFrame(s, limit).0 == WriterState(s.out + Encode(DataFrame(s.buf[..n])), s.buf[n..])
      && AfterFlush(s, limit) == AfterFlush(AfterFlushFrame(s, limit).0, limit)
      && Serialize(Chunks(s.buf)) == Encode(DataFrame(s.buf[..n])) + Serialize(Chunks(s.buf[n..]))
  {
    FlushFrameEmits(s, limit);
    ChunksFirst(s.buf);
  }

  /** Flush writes exactly the frames Chunks cuts from the buffer and empties it. */
  lemma {:induction false} FlushEmits(s: WriterState, limit: nat)
    ensures AfterFlush(s, limit).1 == None ==> AfterFlush(s, limit).0 == WriterState(s.out + Serialize(Chunks(s.buf)), [])
    decreases |s.buf|
  {
    if |s.buf| > 0 && AfterFlushFrame(s, limit).1 == None {
      var n := Min(|s.buf|, MaxFrameSize);
      FlushStep(s, limit);
      FlushEmits(AfterFlushFrame(s, limit).0, limit);
      Associative(s.out, Encode(DataFrame(s.buf[..n])), Serialize(Chunks(s.buf[n..])));
    }
  }

  /** Flush reports no error when the base writer has room for the frames of the buffer. */
  lemma {:induction false} FlushFits(s: WriterState, limit: nat)
    requires |s.out| + |Serialize(Chunks(s.buf))| <= limit
    ensures AfterFlush(s, limit).1 == None
    decreases |s.buf|
  {
    if |s.buf| > 0 {
      var n := Min(|s.buf|, MaxFrameSize);
      FlushFrameEmits(s, limit);
      ChunksFirst(s.buf);
      FlushFits(AfterFlushFrame(s, limit).0, limit);
    }
  }

  /** One flushFrame of Write's loop: the first full frame is out, and the loop goes on from there. */
  lemma DrainStep(s: WriterState, limit: nat)
    requires |s.buf| >= MaxFrameSize && AfterFlushFrame(s, limit).1 == None
    ensures AfterFlushFrame(s, limit).0 == WriterState(s.out + Encode(DataFrame(s.buf[..MaxFrameSize])), s.buf[MaxFrameSize..])
    ensures DrainFull(s, limit) == DrainFull(AfterFlushFrame(s, limit).0, limit)
    ensures Serialize(FullFrames(s.buf)) == Encode(DataFrame(s.buf[..MaxFrameSize])) + Serialize(FullFrames(s.buf[MaxFrameSize..]))
  {
    FlushFrameEmits(s, limit);
    FullFramesFirst(s.buf);
  }

  /**
   * Write emits only full frames, exactly those FullFrames cuts from the
   * buffer and `p`, and keeps the rest, fewer than 65535 bytes, buffered.
   */
  lemma {:induction false} DrainFullEmits(s: WriterState, limit: nat)
    ensures DrainFull(s, limit).1 == None ==>
      DrainFull(s, limit).0 == WriterState(s.out + Serialize(FullFrames(s.buf)), Leftover(s.buf))
    decreases |s.buf|
  {
    if |s.buf| >= MaxFrameSize && AfterFlushFrame(s, limit).1 == None {
      DrainStep(s, limit);
      DrainFullEmits(AfterFlushFrame(s, limit).0, limit);
      Associative(s.out, Encode(DataFrame(s.buf[..MaxFrameSize])), Serialize(FullFrames(s.buf[MaxFrameSize..])));
    }
  }

  /** Write reports no error when the base writer has room for the full frames. */
  lemma {:induction false} DrainFullFits(s: WriterState, limit: nat)
    requires |s.out| + |Serialize(FullFrames(s.buf))| <= limit
    ensures DrainFull(s, limit).1 == None
    decreases |s.buf|
  {
    if |s.buf| >= MaxFrameSize {
      FlushFrameEmits(s, limit);
      FullFramesFirst(s.buf);
      DrainFullFits(AfterFlushFrame(s, limit).0, limit);
    }
  }

  /** Delimit writes the frames of the buffer and then the delimiter frame [1, 0, 0]. */
  lemma DelimitEmits(s: WriterState, limit: nat)
    ensures AfterDelimit(s, limit).1 == None ==>
      AfterDelimit(s, limit).0 == WriterState(s.out + Serialize(Chunks(s.buf) + [DelimitFrame]), [])
  {
    FlushEmits(s, limit);
    DelimitHeader();
    SerializeAppend(Chunks(s.buf), [DelimitFrame]);
    assert Serialize([DelimitFrame]) == [1, 0, 0];
  }

  /** Delimit reports no error when the base writer has room for the frames of the buffer and the delimiter. */
  lemma DelimitFits(s: WriterState, limit: nat)
    requires |s.out| + |Serialize(Chunks(s.buf) + [DelimitFrame])| <= limit
    ensures AfterDelimit(s, limit).1 == None
  {
    SerializeAppend(Chunks(s.buf), [DelimitFrame]);
    assert |Serialize([DelimitFrame])| == FrameHeaderSize;
    FlushFits(s, limit);
    FlushEmits(s, limit);
  }

  // ------------------------------------------------------------ writer sessions

  datatype Op = WriteOp(p: seq<byte>) | FlushOp | DelimitOp

  function Apply(s: WriterState, op: Op, limit: nat): (WriterState, Option<string>)
  {
    match op
    case WriteOp(p) => AfterWrite(s, p, limit)
    case FlushOp => AfterFlush(s, limit)
    case DelimitOp => AfterDelimit(s, limit)
  }

  /** A caller issuing `ops` in order, stopping at the first error. */
  function Session(s: WriterState, ops: seq<Op>, limit: nat): (WriterState, Option<string>)
    decreases |ops|
  {
    if ops == [] then (s, None)
    else
      var r := Session(s, ops[..|ops| - 1], limit);
      if r.1 != None then r else Apply(r.0, ops[|ops| - 1], limit)
  }

  /** The records the caller means: the bytes written between two Delimit calls. */
  function Expected(ops: seq<Op>): (rs: seq<seq<byte>>)
    ensures |rs| >= 1
    decreases |ops|
  {
    if ops == [] then [[]] else Extend(Expected(ops[..|ops| - 1]), ops[|ops| - 1])
  }

  lemma ExpectedSnoc(ops: seq<Op>, op: Op)
    ensures Expected(ops + [op]) == Extend(Expected(ops), op)
  {
    assert (ops + [op])[..|ops|] == ops;
  }

  /** One operation's effect on the records: a write extends the last one, a delimit starts a new one. */
  function Extend(rs: seq<seq<byte>>, op: Op): (r: seq<seq<byte>>)
    requires |rs| >= 1
    ensures |r| >= 1
  {
    match op
    case WriteOp(p) => rs[..|rs| - 1] + [rs[|rs| - 1] + p]
    case FlushOp => rs
    case DelimitOp => rs + [[]]
  }

  function OpFrames(buf: seq<byte>, op: Op): (fs: seq<Frame>)
    ensures WellSized(fs)
  {
    match op
    case WriteOp(p) => FullFrames(buf + p)
    case FlushOp => Chunks(buf)
    case DelimitOp => WellSizedAppend(Chunks(buf), [DelimitFrame]); Chunks(buf) + [DelimitFrame]
  }

  function OpBuffer(buf: seq<byte>, op: Op): seq<byte>
  {
    match op
    case WriteOp(p) => Leftover(buf + p)
    case _ => []
  }

  /** The frames a session from an empty writer emits when no write fails, and what it leaves buffered. */
  function SessionFrames(ops: seq<Op>): (r: (seq<Frame>, seq<byte>))
    ensures WellSized(r.0)
    decreases |ops|
  {
    if ops == [] then ([], [])
    else
      var r := SessionFrames(ops[..|ops| - 1]);
      var op := ops[|ops| - 1];
      WellSizedAppend(r.0, OpFrames(r.1, op));
      (r.0 + OpFrames(r.1, op), OpBuffer(r.1, op))
  }

  lemma ApplyEmits(s: WriterState, op: Op, limit: nat)
    ensures Apply(s, op, limit).1 == None ==>
      Apply(s, op, limit).0 == WriterState(s.out + Serialize(OpFrames(s.buf, op)), OpBuffer(s.buf, op))
  {
    match op
    case WriteOp(p) => DrainFullEmits(s.(buf := s.buf + p), limit);
    case FlushOp => FlushEmits(s, limit);
    case DelimitOp => DelimitEmits(s, limit);
  }

  /** A session that reports no error has written exactly the serialized session frames. */
  lemma {:induction false} SessionEmits(out: seq<byte>, ops: seq<Op>, limit: nat)
    ensures Session(WriterState(out, []), ops, limit).1 == None ==>
      Session(WriterState(out, []), ops, limit).0 == WriterState(out + Serialize(SessionFrames(ops).0), SessionFrames(ops).1)
    decreases |ops|
  {
    if ops != [] {
      var init, op := ops[..|ops| - 1], ops[|ops| - 1];
      var s1 := Session(WriterState(out, []), init, limit);
      if s1.1 == None {
        SessionEmits(out, init, limit);
        var fs, buf := SessionFrames(init).0, SessionFrames(init).1;
        ApplyEmits(s1.0, op, limit);
        SerializeAppend(fs, OpFrames(buf, op));
        Associative(out, Serialize(fs), Serialize(OpFrames(buf, op)));
      }
    }
  }

  /** The records of what one operation emits, with what it leaves buffered. */
  lemma OpRecords(buf: seq<byte>, op: Op)
    ensures Records(OpFrames(buf, op) + Chunks(OpBuffer(buf, op))) ==
      match op
      case WriteOp(p) => [buf + p]
      case FlushOp => [buf]
      case DelimitOp => [buf, []]
  {
    match op
    case WriteOp(p) =>
      FullFramesRecords(buf + p);
    case FlushOp =>
      ChunksRecords(buf);
      assert OpFrames(buf, op) + Chunks(OpBuffer(buf, op)) == Chunks(buf);
    case DelimitOp =>
      ChunksRecords(buf);
      assert OpFrames(buf, op) + Chunks(OpBuffer(buf, op)) == Chunks(buf) + [DelimitFrame];
      RecordsAppend(Chunks(buf), [DelimitFrame]);
      assert Records([DelimitFrame]) == [[], []];
      assert Glue([buf], [[], []]) == [buf, []] by {
        assert buf + [] == buf;
      }
  }

  lemma GlueWrite(rs: seq<seq<byte>>, buf: seq<byte>, p: seq<byte>)
    requires |rs| >= 1
    ensures var e := Glue(rs, [buf]); Glue(rs, [buf + p]) == e[..|e| - 1] + [e[|e| - 1] + p]
  {
    var e := Glue(rs, [buf]);
    assert e[..|e| - 1] == rs[..|rs| - 1];
    assert rs[|rs| - 1] + (buf + p) == rs[|rs| - 1] + buf + p;
  }

  lemma GlueDelimitEnd(rs: seq<seq<byte>>, buf: seq<byte>)
    requires |rs| >= 1
    ensures Glue(rs, [buf, []]) == Glue(rs, [buf]) + [[]]
  {
  }

  /** One operation after frames `fs` and buffer `buf` extends their records as the caller means. */
  lemma StepRecords(fs: seq<Frame>, buf: seq<byte>, op: Op)
    ensures Records(fs + OpFrames(buf, op) + Chunks(OpBuffer(buf, op))) == Extend(Records(fs + Chunks(buf)), op)
  {
    var rs := Records(fs);
    ChunksRecords(buf);
    RecordsAppend(fs, Chunks(buf));
    var x := OpFrames(buf, op) + Chunks(OpBuffer(buf, op));
    assert fs + OpFrames(buf, op) + Chunks(OpBuffer(buf, op)) == fs + x;
    RecordsAppend(fs, x);
    OpRecords(buf, op);
    match op
    case WriteOp(p) => GlueWrite(rs, buf, p);
    case FlushOp =>
    case DelimitOp => GlueDelimitEnd(rs, buf);
  }

  /** The session frames, with what is still buffered, carry exactly the records the caller wrote. */
  lemma {:induction false} SessionRecords(ops: seq<Op>)
    ensures Records(SessionFrames(ops).0 + Chunks(SessionFrames(ops).1)) == Expected(ops)
    decreases |ops|
  {
    if ops != [] {
      var init := ops[..|ops| - 1];
      SessionRecords(init);
      StepRecords(SessionFrames(init).0, SessionFrames(init).1, ops[|ops| - 1]);
    }
  }

  // ------------------------------------------------------------ properties of the reader

  /** readFrame on a delimiter frame. */
  lemma ReadDelimitFrame(s: ReaderState, rest: seq<byte>)
    requires s.err == None && s.input == Encode(DelimitFrame) + rest
    ensures AfterReadFrame(s) == s.(input := rest, control := Delimit)
  {
    DelimitHeader();
    assert s.input[..3] == [1, 0, 0] && s.input[3..] == rest;
  }

  /** readFrame on a data frame: it loads a non-empty payload and reads on past an empty one. */
  lemma ReadDataFrame(s: ReaderState, c: seq<byte>, rest: seq<byte>)
    requires s.err == None && |c| <= MaxFrameSize && s.input == Encode(DataFrame(c)) + rest
    ensures AfterReadFrame(s) ==
      if c == [] then AfterReadFrame(s.(input := rest, control := Data, remaining := []))
      else s.(input := rest, control := Data, remaining := c)
  {
    HeaderDecodes(|c|);
    var h := Header(ControlData, |c|);
    assert s.input == h + (c + rest);
    assert s.input[..3] == h && s.input[3..] == c + rest;
    assert (c + rest)[..|c|] == c && (c + rest)[|c|..] == rest;
  }

  /**
   * On a serialized frame sequence readFrame skips the empty data frames
   * and stops on the next frame: a delimiter, a non-empty data frame with
   * its payload loaded, or the end of input.
   */
  lemma {:induction false} ReadFrameSerialized(s: ReaderState, fs: seq<Frame>)
    requires s.err == None && WellSized(fs) && s.input == Serialize(fs)
    ensures var r, d := AfterReadFrame(s), DropEmpty(fs);
      (d == [] ==> r.err == Some(IO.EOF) && r.input == [])
      && (d != [] ==> r.err == None && r.input == Serialize(d[1..]))
      && (d != [] && d[0] == DelimitFrame ==> r.control == Delimit)
      && (d != [] && d[0].DataFrame? ==> r.control == Data && r.remaining == d[0].chunk)
    decreases |fs|
  {
    if fs != [] {
      var rest := Serialize(fs[1..]);
      match fs[0]
      case DelimitFrame =>
        ReadDelimitFrame(s, rest);
      case DataFrame(c) =>
        assert fs[0] in fs;
        ReadDataFrame(s, c, rest);
        if c == [] {
          ReadFrameSerialized(s.(input := rest, control := Data, remaining := []), fs[1..]);
        }
    }
  }

  /** One Read of ReadRecord's loop inside a frame: the first `k` bytes, then the rest of the record. */
  lemma ReadRecordInFrame(s: ReaderState, k: nat)
    requires k > 0 && s.err == None && s.control == Data && k < |s.remaining|
    ensures var t := s.(remaining := s.remaining[k..]);
      ReadRecord(s, k).0 == ReadRecord(t, k).0 && ReadRecord(s, k).2 == ReadRecord(t, k).2
      && ReadRecord(s, k).1 == s.remaining[..k] + ReadRecord(t, k).1
  {
  }

  /** The Read of ReadRecord's loop that uses up a frame: its bytes, then the rest of the record from the next frame. */
  lemma ReadRecordLastOfFrame(s: ReaderState, k: nat)
    requires k > 0 && s.err == None && s.control == Data && 0 < |s.remaining| <= k
    ensures var t := AfterReadFrame(s.(remaining := []));
      ReadRecord(s, k).0 == ReadRecord(t, k).0 && ReadRecord(s, k).2 == ReadRecord(t, k).2
      && ReadRecord(s, k).1 == s.remaining + ReadRecord(t, k).1
  {
    assert s.remaining[..|s.remaining|] == s.remaining;
    assert s.remaining[|s.remaining|..] == [];
  }

  /** At a delimiter or at the end of input the record is over. */
  lemma ReadRecordAtEnd(t: ReaderState, k: nat)
    requires k > 0 && (t.err == Some(IO.EOF) || (t.err == None && t.control == Delimit))
    ensures ReadRecord(t, k) == (t, [], None)
  {
  }

  /** Where the reader stands after a record of `fs`: on its delimiter, or at the end of input when it has none. */
  predicate AtRecordEnd(t: ReaderState, fs: seq<Frame>)
  {
    match AfterRecord(fs)
    case Some(after) => t.err == None && t.control == Delimit && t.input == Serialize(after)
    case None => t.err == Some(IO.EOF)
  }

  /**
   * Reading a record to its end from inside a data frame gives the rest of
   * the frame and the rest of the record, and leaves the reader on the
   * record's delimiter, or at the end of input when there is none.
   */
  lemma {:induction false} ReadRecordSerialized(s: ReaderState, fs: seq<Frame>, k: nat)
    requires k > 0 && s.err == None && s.control == Data && |s.remaining| > 0
    requires WellSized(fs) && s.input == Serialize(fs)
    ensures ReadRecord(s, k).2 == None && ReadRecord(s, k).1 == s.remaining + Records(fs)[0]
    ensures AtRecordEnd(ReadRecord(s, k).0, fs)
    decreases |fs|, |s.remaining|, 1
  {
    if k < |s.remaining| {
      var s1 := s.(remaining := s.remaining[k..]);
      ReadRecordInFrame(s, k);
      ReadRecordSerialized(s1, fs, k);
      TakeDrop(s.remaining, k);
      Associative(s.remaining[..k], s1.remaining, Records(fs)[0]);
    } else {
      ReadRecordLastOfFrame(s, k);
      ReadRecordAfterFrame(s.(remaining := []), fs, k);
    }
  }

  /** Reading on from the end of a data frame gives the rest of the record. */
  lemma {:induction false} ReadRecordAfterFrame(s: ReaderState, fs: seq<Frame>, k: nat)
    requires k > 0 && s.err == None && s.control == Data && s.remaining == []
    requires WellSized(fs) && s.input == Serialize(fs)
    ensures var t := AfterReadFrame(s);
      Loaded(t) && ReadRecord(t, k).2 == None && ReadRecord(t, k).1 == Records(fs)[0]
      && AtRecordEnd(ReadRecord(t, k).0, fs)
    decreases |fs|, 0, 0
  {
    var t := AfterReadFrame(s);
    var d := DropEmpty(fs);
    ReadFrameSerialized(s, fs);
    RecordsDropEmpty(fs);
    if d == [] || d[0] == DelimitFrame {
      ReadRecordAtEnd(t, k);
      assert Records(d)[0] == [];
    } else {
      ReadRecordSerialized(t, d[1..], k);
      assert Records(d)[0] == d[0].chunk + Records(d[1..])[0];
    }
  }

  /** After the end of input the loop is over, and Err reports nothing. */
  lemma ReadAllAtEof(t: ReaderState, k: nat)
    requires k > 0 && t.err == Some(IO.EOF)
    ensures ReadAll(t, k) == ([], None)
  {
  }

  /** One turn of the loop at a delimiter: Next loads the next frame, the record is read, and the loop goes on. */
  lemma ReadAllStep(s: ReaderState, k: nat)
    requires k > 0 && s.err == None && s.control == Delimit
    requires AfterReadFrame(s).err == None || AfterReadFrame(s).err == Some(IO.EOF)
    ensures var r := ReadRecord(AfterReadFrame(s), k);
      r.2 == None ==> ReadAll(s, k) == ([r.1] + ReadAll(r.0, k).0, ReadAll(r.0, k).1)
  {
  }

  /**
   * Round trip: from a position just past a delimiter (where NewReader
   * starts), the readAll loop returns exactly the records of a serialized
   * frame sequence, the empty last record included, and no error.
   */
  lemma {:induction false} ReadAllSerialized(s: ReaderState, fs: seq<Frame>, k: nat)
    requires k > 0 && s.err == None && s.control == Delimit
    requires WellSized(fs) && s.input == Serialize(fs)
    ensures ReadAll(s, k) == (Records(fs), None)
    decreases |fs|, 1
  {
    var d := DropEmpty(fs);
    var t := AfterReadFrame(s);
    ReadFrameSerialized(s, fs);
    RecordsDropEmpty(fs);
    ReadAllStep(s, k);
    if d == [] {
      ReadRecordAtEnd(t, k);
      ReadAllAtEof(t, k);
      assert Records(d) == [[]];
      assert [[]] + ReadAll(t, k).0 == [[]];
    } else if d[0] == DelimitFrame {
      ReadRecordAtEnd(t, k);
      ReadAllSerialized(t, d[1..], k);
      assert Records(d) == [[]] + Records(d[1..]);
    } else {
      ReadAllRecord(t, d, k);
    }
  }

  /** The loop from a loaded data frame: this record, then the records after its delimiter. */
  lemma {:induction false} ReadAllRecord(t: ReaderState, d: seq<Frame>, k: nat)
    requires k > 0 && d != [] && d[0].DataFrame? && WellSized(d)
    requires t.err == None && t.control == Data && t.remaining == d[0].chunk != [] && t.input == Serialize(d[1..])
    ensures var r := ReadRecord(t, k);
      r.2 == None && [r.1] + ReadAll(r.0, k).0 == Records(d) && ReadAll(r.0, k).1 == None
    decreases |d|, 0
  {
    var rest := d[1..];
    ReadRecordSerialized(t, rest, k);
    RecordsSplit(rest);
    var rs := Records(rest);
    assert Records(d) == [d[0].chunk + rs[0]] + rs[1..];
    var t' := ReadRecord(t, k).0;
    match AfterRecord(rest)
    case Some(after) => ReadAllSerialized(t', after, k);
    case None => ReadAllAtEof(t', k);
  }

  /**
   * What is written is what is read: after a session that ends with Flush
   * and reports no error, reading the base writer's bytes from the start
   * gives exactly the records the caller wrote between delimits, and no
   * error.
   */
  lemma WriteThenRead(ops: seq<Op>, limit: nat, k: nat)
    requires k > 0
    ensures var (s', e) := Session(WriterState([], []), ops + [FlushOp], limit);
      e == None ==> ReadAll(Start(s'.out), k) == (Expected(ops), None)
  {
    var all := ops + [FlushOp];
    assert all[..|all| - 1] == ops;
    SessionEmits([], all, limit);
    SessionRecords(all);
    var (fs, buf) := SessionFrames(all);
    assert buf == [] && Chunks(buf) == [] && fs + Chunks(buf) == fs;
    var (s', e) := Session(WriterState([], []), all, limit);
    if e == None {
      assert s'.out == Serialize(fs);
      ReadAllSerialized(Start(s'.out), fs, k);
    }
  }

  /** The records the first 3 operations of the edge-case session mean. */
  lemma EdgesRecords3(sample: seq<byte>)
    ensures Expected([DelimitOp, WriteOp(sample), WriteOp(sample)]) == [[], sample + sample]
  {
    var prefix: seq<Op> := [DelimitOp];
    assert Expected(prefix) == [[], []] by {
      assert prefix[..0] == [];
    }
    assert [] + sample == sample;
    ExpectedSnoc(prefix, WriteOp(sample));
    prefix := prefix + [WriteOp(sample)];
    assert Expected(prefix) == [[], sample];
    ExpectedSnoc(prefix, WriteOp(sample));
    prefix := prefix + [WriteOp(sample)];
    assert Expected(prefix) == [[], sample + sample];
    assert prefix == [DelimitOp, WriteOp(sample), WriteOp(sample)];
  }

  /** The records the first 6 operations of the edge-case session mean. */
  lemma EdgesRecords6(sample: seq<byte>)
    ensures Expected([DelimitOp, WriteOp(sample), WriteOp(sample), WriteOp(sample), DelimitOp, WriteOp(sample)]) == [[], sample + sample + sample, sample]
  {
    EdgesRecords3(sample);
    var prefix: seq<Op> := [DelimitOp, WriteOp(sample), WriteOp(sample)];
    ExpectedSnoc(prefix, WriteOp(sample));
    prefix := prefix + [WriteOp(sample)];
    assert Expected(prefix) == [[], sample + sample + sample];
    ExpectedSnoc(prefix, DelimitOp);
    prefix := prefix + [DelimitOp];
    assert Expected(prefix) == [[], sample + sample + sample, []];
    assert [] + sample == sample;
    ExpectedSnoc(prefix, WriteOp(sample));
    prefix := prefix + [WriteOp(sample)];
    assert Expected(prefix) == [[], sample + sample + sample, sample];
    assert prefix == [DelimitOp, WriteOp(sample), WriteOp(sample), WriteOp(sample), DelimitOp, WriteOp(sample)];
  }

  /** The records the first 9 operations of the edge-case session mean. */
  lemma EdgesRecords9(sample: seq<byte>)
    ensures Expected([DelimitOp, WriteOp(sample), WriteOp(sample), WriteOp(sample), DelimitOp, WriteOp(sample), DelimitOp, DelimitOp, WriteOp(sample)]) == [[], sample + sample + sample, sample, [], sample]
  {
    EdgesRecords6(sample);
    var prefix: seq<Op> := [DelimitOp, WriteOp(sample), WriteOp(sample), WriteOp(sample), DelimitOp, WriteOp(sample)];
    ExpectedSnoc(prefix, DelimitOp);
    prefix := prefix + [DelimitOp];
    assert Expected(prefix) == [[], sample + sample + sample, sample, []];
    ExpectedSnoc(prefix, DelimitOp);
    prefix := prefix + [DelimitOp];
    assert Expected(prefix) == [[], sample + sample + sample, sample, [], []];
    assert [] + sample == sample;
    ExpectedSnoc(prefix, WriteOp(sample));
    prefix := prefix + [WriteOp(sample)];
    assert Expected(prefix) == [[], sample + sample + sample, sample, [], sample];
    assert prefix == [DelimitOp, WriteOp(sample), WriteOp(sample), WriteOp(sample), DelimitOp, WriteOp(sample), DelimitOp, DelimitOp, WriteOp(sample)];
  }

  /** The records the whole edge-case session of the package's tests means. */
  lemma EdgesRecords(sample: seq<byte>)
    ensures Expected([DelimitOp, WriteOp(sample), WriteOp(sample), WriteOp(sample), DelimitOp, WriteOp(sample), DelimitOp, DelimitOp, WriteOp(sample), WriteOp(sample), DelimitOp, DelimitOp]) == [[], sample + sample + sample, sample, [], sample + sample, [], []]
  {
    EdgesRecords9(sample);
    var prefix: seq<Op> := [DelimitOp, WriteOp(sample), WriteOp(sample), WriteOp(sample), DelimitOp, WriteOp(sample), DelimitOp, DelimitOp, WriteOp(sample)];
    ExpectedSnoc(prefix, WriteOp(sample));
    prefix := prefix + [WriteOp(sample)];
    assert Expected(prefix) == [[], sample + sample + sample, sample, [], sample + sample];
    ExpectedSnoc(prefix, DelimitOp);
    prefix := prefix + [DelimitOp];
    assert Expected(prefix) == [[], sample + sample + sample, sample, [], sample + sample, []];
    ExpectedSnoc(prefix, DelimitOp);
    prefix := prefix + [DelimitOp];
    assert Expected(prefix) == [[], sample + sample + sample, sample, [], sample + sample, [], []];
    assert prefix == [DelimitOp, WriteOp(sample), WriteOp(sample), WriteOp(sample), DelimitOp, WriteOp(sample), DelimitOp, DelimitOp, WriteOp(sample), WriteOp(sample), DelimitOp, DelimitOp];
  }

  /**
   * The edge cases of the package's tests: leading, repeated and trailing
   * delimiters give empty records, and a record of several writes reads
   * back whole, whatever the sample's length.
   */
  lemma EdgesTest(sample: seq<byte>, limit: nat, k: nat)
    requires k > 0
    ensures var ops := [DelimitOp, WriteOp(sample), WriteOp(sample), WriteOp(sample), DelimitOp, WriteOp(sample), DelimitOp, DelimitOp, WriteOp(sample), WriteOp(sample), DelimitOp, DelimitOp];
      var r := Session(WriterState([], []), ops + [FlushOp], limit);
      r.1 == None ==> ReadAll(Start(r.0.out), k) == ([[], sample + sample + sample, sample, [], sample + sample, [], []], None)
  {
    EdgesRecords(sample);
    WriteThenRead([DelimitOp, WriteOp(sample), WriteOp(sample), WriteOp(sample), DelimitOp, WriteOp(sample), DelimitOp, DelimitOp, WriteOp(sample), WriteOp(sample), DelimitOp, DelimitOp], limit, k);
  }

  // ------------------------------------------------------------ errors

  /** An unknown control byte is an error Err reports. */
  lemma UnknownControlReported(s: ReaderState, header: seq<byte>, rest: seq<byte>)
    requires s.err == None && |header| == FrameHeaderSize && header[0] != ControlData && header[0] != ControlDelimit
    requires s.input == header + rest
    ensures AfterReadFrame(s).err == Some(ErrUnknownControl) && Visible(AfterReadFrame(s)) != None
  {
    assert s.input[..3] == header;
  }

  /** A stream that ends inside a payload is io.ErrUnexpectedEOF, which Err reports. */
  lemma TruncatedPayload(s: ReaderState, payload: seq<byte>, k: nat)
    requires s.err == None && 0 < |payload| <= MaxFrameSize && k < |payload|
    requires s.input == Header(ControlData, |payload|) + payload[..k]
    ensures AfterReadFrame(s).err == Some(IO.UnexpectedEOF) && Visible(AfterReadFrame(s)) == Some(IO.UnexpectedEOF)
  {
    HeaderDecodes(|payload|);
    assert s.input[..3] == Header(ControlData, |payload|) && s.input[3..] == payload[..k];
    if k == 0 {
      assert payload[..k] == [];
    }
  }

  /**
   * As written, a corrupt control byte right after a data frame is lost:
   * the reader at the end of a data frame's payload, facing [2, 0, 0] and
   * then the end of input, records the error, reads on, and replaces it
   * with io.EOF, so Err reports nothing and Next just ends the iteration.
   * The corrected readFrame stops at the unknown control byte.
   */
  lemma UnknownControlMasked()
    ensures var s := ReaderState([2, 0, 0], Data, [], None);
      var w := AfterReadFrameAsWritten(s);
      w.err == Some(IO.EOF) && Visible(w) == None && !AfterNext(w).1
      && AfterReadFrame(s).err == Some(ErrUnknownControl) && Visible(AfterReadFrame(s)) == Some(ErrUnknownControl)
  {
    var s := ReaderState([2, 0, 0], Data, [], None);
    assert [2, 0, 0][..3] == [2, 0, 0] && [2, 0, 0][3..] == [];
    assert FromBigEndian([0, 0]) == 0 by {
      assert [0, 0][..1] == [0];
      assert [0][..0] == [];
    }
    assert [2, 0, 0][1..] == [0, 0];
  }
}
