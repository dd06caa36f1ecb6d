/**
 * The older reader of the same delimited frame format, in
 * eventkitd/utils/delimited.  It keeps a count of the payload bytes left in
 * the current data frame and reads them straight from its base reader.  A
 * delimiter stops reads with io.EOF until the caller asks to Advance past
 * it; NewReader already reads the first frame header.
 *
 * The frame format, `Frame`, `Serialize` and `Records` are those of
 * `Delimited`; the package's own writer is not part of this model, and the
 * round trip below is stated against the writer of `Delimited`, which
 * writes the same format.
 */
module LegacyDelimited {
  import opened Text
  import opened Wrappers
  import opened Binary
  import IO
  import D = Delimited

  const ErrLegacyUnknownControl: string := "delimited stream: unknown control byte"

  /**
   * The reader's state: the unread bytes of its base reader, the payload
   * bytes left in the current data frame, whether it sits on a delimiter,
   * and the sticky error.
   */
  datatype LegacyState = LegacyState(input: seq<byte>, remaining: nat, delimited: bool, err: Option<string>)

  /**
   * unframe: read one frame header.  A data frame sets the payload count, a
   * delimiter sets `delimited`; a short header or an unknown control byte
   * sets the error and leaves the rest as it was.
   */
  function AfterUnframe(s: LegacyState): (r: LegacyState)
    ensures |r.input| <= |s.input| && (s.err == None && r.err == None ==> |r.input| < |s.input|)
    ensures r.err == s.err || r.err.Some?
    ensures Coherent(s) ==> Coherent(r)
  {
    var (header, rest, e) := IO.FullRead(s.input, D.FrameHeaderSize);
    if e.Some? then s.(input := rest, err := e)
    else if header[0] == D.ControlData then s.(input := rest, remaining := FromBigEndian(header[1..]), delimited := false)
    else if header[0] == D.ControlDelimit then s.(input := rest, remaining := 0, delimited := true)
    else s.(input := rest, err := Some(ErrLegacyUnknownControl))
  }

  /** NewReader: a reader that has read the first frame header. */
  function Start(input: seq<byte>): LegacyState
  {
    AfterUnframe(LegacyState(input, 0, false, None))
  }

  /**
   * Read into a buffer of `n` bytes: the sticky error; io.EOF on a
   * delimiter; up to min(n, remaining) bytes from the base reader, whose
   * io.EOF in the middle of a payload becomes io.ErrUnexpectedEOF and
   * sticks; or, with the frame used up, the next frame header and again.
   */
  function AfterRead(s: LegacyState, n: nat): (r: (LegacyState, seq<byte>, Option<string>))
    ensures |r.0.input| <= |s.input| && (r.0.err == None ==> s.err == None)
    ensures r.2 == None && n > 0 ==> |r.0.input| < |s.input|
    ensures r.2 != None ==> r.1 == []
    ensures r.2 == None ==> s.err == None && !r.0.delimited && r.0.err == None
    ensures Coherent(s) ==> Coherent(r.0)
    decreases |s.input|, if s.err == None then 1 else 0
  {
    if s.err != None then (s, [], s.err)
    else if s.delimited then (s, [], Some(IO.EOF))
    else if s.remaining > 0 then
      var (b, rest, e) := IO.PartialRead(s.input, D.Min(n, s.remaining));
      var e' := if e == Some(IO.EOF) then Some(IO.UnexpectedEOF) else e;
      (s.(input := rest, remaining := s.remaining - |b|, err := e'), b, e')
    else AfterRead(AfterUnframe(s), n)
  }

  /** Delimited: on a delimiter, with no error. */
  predicate IsDelimited(s: LegacyState)
  {
    s.err == None && s.delimited
  }

  /**
   * What every state of the reader satisfies: unframe clears `remaining` on
   * a delimiter and clears `delimited` on a data frame, and Read only
   * counts `remaining` down.
   */
  predicate Coherent(s: LegacyState)
  {
    s.delimited ==> s.remaining == 0
  }

  /** Advance: past the delimiter the reader sits on, if it sits on one. */
  function AfterAdvance(s: LegacyState): (r: LegacyState)
    ensures |r.input| <= |s.input| && (Coherent(s) && IsDelimited(s) && r.err == None ==> |r.input| < |s.input|)
    ensures Coherent(s) ==> Coherent(r)
  {
    if s.err == None && s.delimited && s.remaining == 0 then AfterUnframe(s) else s
  }

  class Reader {
    const base: IO.Source
    var remaining: nat
    var err: Option<string>
    var delimited: bool

    function State(): LegacyState
      reads this, base
    {
      LegacyState(base.input, remaining, delimited, err)
    }

    constructor (base: IO.Source)
      modifies base
      ensures this.base == base && State() == Start(old(base.input))
    {
      this.base := base;
      remaining := 0;
      err := None;
      delimited := false;
      new;
      Unframe();
    }

    method Unframe()
      modifies this, base
      ensures State() == AfterUnframe(old(State()))
    {
      var header, e := base.ReadFull(D.FrameHeaderSize);
      if e != None {
        err := e;
        return;
      }
      if header[0] == D.ControlData {
        remaining := FromBigEndian(header[1..]);
        delimited := false;
      } else if header[0] == D.ControlDelimit {
        remaining := 0;
        delimited := true;
      } else {
        err := Some(ErrLegacyUnknownControl);
      }
    }

    method Read(n: nat) returns (data: seq<byte>, e: Option<string>)
      modifies this, base
      ensures (State(), data, e) == AfterRead(old(State()), n)
    {
      while true
        invariant AfterRead(State(), n) == AfterRead(old(State()), n)
        decreases |base.input|, if err == None then 1 else 0
      {
        if err != None {
          return [], err;
        }
        if delimited {
          return [], Some(IO.EOF);
        }
        if remaining > 0 {
          data, e := base.Read(D.Min(n, remaining));
          remaining := remaining - |data|;
          if e == Some(IO.EOF) {
            e := Some(IO.UnexpectedEOF);
          }
          if e != None {
            err := e;
          }
          return;
        }
        Unframe();
      }
    }

    function Delimited(): (b: bool)
      reads this
      ensures b == IsDelimited(LegacyState([], remaining, delimited, err))
    {
      err == None && delimited
    }

    method Advance()
      modifies this, base
      ensures State() == AfterAdvance(old(State()))
    {
      if err == None && delimited && remaining == 0 {
        Unframe();
      }
    }
  }

  // ------------------------------------------------------------ consumer

  /** io.ReadAll with reads of `k` bytes: the bytes up to io.EOF, which ends the record without an error. */
  function ReadRecord(s: LegacyState, k: nat): (r: (LegacyState, seq<byte>, Option<string>))
    requires k > 0
    ensures |r.0.input| <= |s.input| && (r.0.err == None ==> s.err == None)
    ensures Coherent(s) ==> Coherent(r.0)
    decreases |s.input|
  {
    var (s1, b, e) := AfterRead(s, k);
    if e != None then (s1, [], if e == Some(IO.EOF) then None else e)
    else
      var (s2, rest, e2) := ReadRecord(s1, k);
      (s2, b + rest, e2)
  }

  /**
   * The readAll loop of the package's tests: read a record; stop unless
   * the reader sits on a delimiter; otherwise Advance and go on.  A read
   * error ends the loop with that error.
   */
  function ReadAll(s: LegacyState, k: nat): (r: (seq<seq<byte>>, Option<string>))
    requires k > 0 && Coherent(s)
    decreases |s.input|, if s.err == None then 1 else 0
  {
    var (t, data, e) := ReadRecord(s, k);
    if e != None then ([], e)
    else if !IsDelimited(t) then ([data], None)
    else
      var (rs, e2) := ReadAll(AfterAdvance(t), k);
      ([data] + rs, e2)
  }

  // ------------------------------------------------------------ properties

  /** unframe on a delimiter frame. */
  lemma UnframeDelimit(s: LegacyState, rest: seq<byte>)
    requires s.err == None && s.input == D.Encode(D.DelimitFrame) + rest
    ensures AfterUnframe(s) == s.(input := rest, remaining := 0, delimited := true)
  {
    D.DelimitHeader();
    assert s.input[..3] == [1, 0, 0] && s.input[3..] == rest;
  }

  /** unframe on a data frame: the payload count is the frame's size, the payload is next. */
  lemma UnframeData(s: LegacyState, c: seq<byte>, rest: seq<byte>)
    requires s.err == None && |c| <= D.MaxFrameSize && s.input == D.Encode(D.DataFrame(c)) + rest
    ensures AfterUnframe(s) == s.(input := c + rest, remaining := |c|, delimited := false)
  {
    D.HeaderDecodes(|c|);
    var h := D.Header(D.ControlData, |c|);
    assert s.input == h + (c + rest);
    assert s.input[..3] == h && s.input[3..] == c + rest;
  }

  /** With the current frame used up, a read starts with the next frame header. */
  lemma ReadRecordUnframes(s: LegacyState, k: nat)
    requires k > 0 && s.err == None && !s.delimited && s.remaining == 0
    ensures ReadRecord(s, k) == ReadRecord(AfterUnframe(s), k)
  {
  }

  /** One read inside a payload of `pay` followed by more frames. */
  lemma ReadRecordInPayload(s: LegacyState, pay: seq<byte>, more: seq<byte>, k: nat)
    requires k > 0 && s.err == None && !s.delimited && s.remaining == |pay| > 0 && s.input == pay + more
    ensures var m := D.Min(k, |pay|); var t := s.(input := pay[m..] + more, remaining := |pay| - m);
      ReadRecord(s, k).0 == ReadRecord(t, k).0 && ReadRecord(s, k).2 == ReadRecord(t, k).2
      && ReadRecord(s, k).1 == pay[..m] + ReadRecord(t, k).1
  {
    var m := D.Min(k, |pay|);
    assert s.input[..m] == pay[..m];
    assert s.input[m..] == pay[m..] + more;
  }

  /** Where the reader stands after a record of `fs`: on its delimiter, or at the end of input when it has none. */
  predicate AtRecordEnd(t: LegacyState, fs: seq<D.Frame>)
  {
    match D.AfterRecord(fs)
    case Some(after) => t.err == None && t.delimited && t.remaining == 0 && t.input == D.Serialize(after)
    case None => t.err == Some(IO.EOF)
  }

  /**
   * Reading a record from inside a data frame whose unread payload is
   * `pay` gives that payload and the rest of the record, and leaves the
   * reader on the record's delimiter, or at the end of input.  Empty data
   * frames are read past like any other.
   */
  lemma {:induction false} ReadRecordSerialized(s: LegacyState, pay: seq<byte>, fs: seq<D.Frame>, k: nat)
    requires k > 0 && s.err == None && !s.delimited && s.remaining == |pay|
    requires D.WellSized(fs) && s.input == pay + D.Serialize(fs)
    ensures ReadRecord(s, k).2 == None && ReadRecord(s, k).1 == pay + D.Records(fs)[0]
    ensures AtRecordEnd(ReadRecord(s, k).0, fs)
    decreases |fs|, |pay| + 1
  {
    if |pay| > 0 {
      var m := D.Min(k, |pay|);
      ReadRecordInPayload(s, pay, D.Serialize(fs), k);
      ReadRecordSerialized(s.(input := pay[m..] + D.Serialize(fs), remaining := |pay| - m), pay[m..], fs, k);
      D.TakeDrop(pay, m);
      D.Associative(pay[..m], pay[m..], D.Records(fs)[0]);
    } else {
      assert s.input == D.Serialize(fs);
      ReadRecordUnframes(s, k);
      ReadRecordNextFrame(s, fs, k);
    }
  }

  /** The rest of a record from a frame boundary. */
  lemma {:induction false} ReadRecordNextFrame(s: LegacyState, fs: seq<D.Frame>, k: nat)
    requires k > 0 && s.err == None && !s.delimited && s.remaining == 0
    requires D.WellSized(fs) && s.input == D.Serialize(fs)
    ensures var u := AfterUnframe(s);
      ReadRecord(u, k).2 == None && ReadRecord(u, k).1 == D.Records(fs)[0] && AtRecordEnd(ReadRecord(u, k).0, fs)
    decreases |fs|, 0
  {
    var u := AfterUnframe(s);
    if fs == [] {
      assert u.err == Some(IO.EOF);
    } else {
      var rest := D.Serialize(fs[1..]);
      if fs[0] == D.DelimitFrame {
        UnframeDelimit(s, rest);
      } else {
        var c := fs[0].chunk;
        assert fs[0] in fs;
        UnframeData(s, c, rest);
        ReadRecordSerialized(u, c, fs[1..], k);
        assert D.Records(fs)[0] == c + D.Records(fs[1..])[0];
      }
    }
  }

  /**
   * Round trip: from a frame boundary (where NewReader and Advance call
   * unframe), the readAll loop returns exactly the records of a serialized
   * frame sequence, the empty last record included, and no error.
   */
  lemma {:induction false} ReadAllSerialized(s: LegacyState, fs: seq<D.Frame>, k: nat)
    requires k > 0 && s.err == None && s.remaining == 0
    requires D.WellSized(fs) && s.input == D.Serialize(fs)
    ensures ReadAll(AfterUnframe(s), k) == (D.Records(fs), None)
    decreases |fs|, 1
  {
    var u := AfterUnframe(s);
    if fs == [] {
      assert u.err == Some(IO.EOF);
      assert ReadRecord(u, k) == (u, [], None);
    } else {
      var rest := D.Serialize(fs[1..]);
      if fs[0] == D.DelimitFrame {
        UnframeDelimit(s, rest);
        assert ReadRecord(u, k) == (u, [], None);
        ReadAllSerialized(u, fs[1..], k);
        assert D.Records(fs) == [[]] + D.Records(fs[1..]);
      } else {
        var c := fs[0].chunk;
        assert fs[0] in fs;
        UnframeData(s, c, rest);
        ReadAllRecord(u, c, fs[1..], k);
        assert D.Records(fs) == [c + D.Records(fs[1..])[0]] + D.Records(fs[1..])[1..];
      }
    }
  }

  /** The loop from the start of a data frame's payload: this record, then the records after its delimiter. */
  lemma {:induction false} ReadAllRecord(u: LegacyState, c: seq<byte>, fs: seq<D.Frame>, k: nat)
    requires k > 0 && u.err == None && !u.delimited && u.remaining == |c|
    requires D.WellSized(fs) && u.input == c + D.Serialize(fs)
    ensures ReadAll(u, k) == ([c + D.Records(fs)[0]] + D.Records(fs)[1..], None)
    decreases |fs|, 0
  {
    ReadRecordSerialized(u, c, fs, k);
    D.RecordsSplit(fs);
    var t := ReadRecord(u, k).0;
    match D.AfterRecord(fs)
    case Some(after) =>
      ReadAllSerialized(t, after, k);
    case None =>
      assert !IsDelimited(t);
      assert ReadAll(u, k) == ([ReadRecord(u, k).1], None);
      assert ReadRecord(u, k).1 == c + D.Records(fs)[0];
      assert D.Records(fs)[1..] == [];
      assert [c + D.Records(fs)[0]] + D.Records(fs)[1..] == [c + D.Records(fs)[0]];
  }

  /**
   * What the writer of `Delimited` writes, this reader reads: after a
   * session that ends with Flush and reports no error, NewReader on the
   * written bytes and the readAll loop give exactly the records the caller
   * wrote between delimits, and no error.
   */
  lemma WriteThenRead(ops: seq<D.Op>, limit: nat, k: nat)
    requires k > 0
    ensures var r := D.Session(D.WriterState([], []), ops + [D.FlushOp], limit);
      r.1 == None ==> ReadAll(Start(r.0.out), k) == (D.Expected(ops), None)
  {
    var all := ops + [D.FlushOp];
    assert all[..|all| - 1] == ops;
    D.SessionEmits([], all, limit);
    D.SessionRecords(all);
    var fs := D.SessionFrames(all).0;
    assert D.SessionFrames(all).1 == [] && fs + D.Chunks([]) == fs;
    var r := D.Session(D.WriterState([], []), all, limit);
    if r.1 == None {
      ReadAllSerialized(LegacyState(r.0.out, 0, false, None), fs, k);
    }
  }

  /** The edge cases of the package's tests read back as the tests expect. */
  lemma EdgesTest(sample: seq<byte>, limit: nat, k: nat)
    requires k > 0
    ensures var ops := [D.DelimitOp, D.WriteOp(sample), D.WriteOp(sample), D.WriteOp(sample), D.DelimitOp, D.WriteOp(sample),
                        D.DelimitOp, D.DelimitOp, D.WriteOp(sample), D.WriteOp(sample), D.DelimitOp, D.DelimitOp];
      var r := D.Session(D.WriterState([], []), ops + [D.FlushOp], limit);
      r.1 == None ==> ReadAll(Start(r.0.out), k)
                      == ([[], sample + sample + sample, sample, [], sample + sample, [], []], None)
  {
    D.EdgesRecords(sample);
    WriteThenRead([D.DelimitOp, D.WriteOp(sample), D.WriteOp(sample), D.WriteOp(sample), D.DelimitOp, D.WriteOp(sample),
                   D.DelimitOp, D.DelimitOp, D.WriteOp(sample), D.WriteOp(sample), D.DelimitOp, D.DelimitOp], limit, k);
  }

  /** An unknown control byte is an error every later Read returns. */
  lemma UnknownControlReported(s: LegacyState, header: seq<byte>, rest: seq<byte>, n: nat)
    requires s.err == None && |header| == D.FrameHeaderSize && header[0] != D.ControlData && header[0] != D.ControlDelimit
    requires s.input == header + rest
    ensures AfterUnframe(s).err == Some(ErrLegacyUnknownControl)
    ensures AfterRead(AfterUnframe(s), n) == (AfterUnframe(s), [], Some(ErrLegacyUnknownControl))
  {
    assert s.input[..3] == header;
  }

  /** A stream that ends inside a payload makes a read fail with io.ErrUnexpectedEOF. */
  lemma TruncatedPayload(size: nat, n: nat)
    requires 0 < size <= D.MaxFrameSize && n > 0
    ensures var s := Start(D.Header(D.ControlData, size));
      s.remaining == size && AfterRead(s, n).2 == Some(IO.UnexpectedEOF)
  {
    D.HeaderDecodes(size);
    var h := D.Header(D.ControlData, size);
    assert h[..3] == h && h[3..] == [];
  }
}
