/**
 * The UDP client of eventkit (client.go).
 *
 * The client batches events into an outgoing packet: the bytes "EK", then
 * a zlib stream into which it writes, one after another, a header Packet
 * message (identity and start time), one Packet message per event, and
 * finally a trailer Packet message carrying only the send offset.  Because
 * protocol-buffer messages merge on concatenation, the receiver decodes
 * the whole stream as one Packet (module Transport proves this).
 *
 * The packet keeps a byte budget: `written` counts the uncompressed bytes
 * and the packet reports itself full as soon as written plus the expected
 * trailer size exceeds the limit.  The run loop takes events from a
 * bounded queue, sends full packets, flushes on ticks, reports dropped
 * events as a "drops" event, and drains the queue on cancellation.
 *
 * Sending a datagram is recorded as appending its bytes to `sent`.  The
 * pieces of the run loop that happen concurrently (Submit callers, the
 * ticker, cancellation) are given as an explicit schedule.
 */
module Client {
  import opened Wrappers
  import opened Text
  import opened Binary
  import opened Clock
  import opened Pb
  import opened PbUtils
  import opened Zlib

  const DefaultQueueDepth: int := 100
  const DefaultMaxUncompressedBytes: int := 1000
  const DefaultFlushInterval: Duration := 15 * Second

  /** The expected size of a compressed trailer, reserved in the byte budget. */
  const TrailerSize: int := 24

  /** "EK", the magic number in front of every datagram. */
  const Magic: seq<byte> := [0x45, 0x4B]

  /** An event as submitted to a destination. */
  datatype ClientEvent = ClientEvent(name: GoString, scope: seq<GoString>, timestamp: Time, tags: seq<Tag>)

  datatype Identity = Identity(application: GoString, version: GoString, instance: GoString)

  // ----------------------------------------------------- the packet messages

  function HeaderPacket(id: Identity, start: Instant): Packet
  {
    Packet(id.application, id.version, id.instance, Some(AsTimestamp(start)), 0, [])
  }

  function EventPacket(e: Pb.Event): Packet { EmptyPacket.(events := [e]) }

  function TrailerPacket(sendOffset: Duration): Packet { EmptyPacket.(sendOffsetNs := sendOffset) }

  function EventPackets(es: seq<Pb.Event>): (ps: seq<Packet>)
    ensures |ps| == |es|
    decreases |es|
  {
    if es == [] then [] else [EventPacket(es[0])] + EventPackets(es[1..])
  }

  /** addEvent's conversion: the timestamp becomes a (saturated) offset from the packet start. */
  function ToPbEvent(ev: ClientEvent, start: Time): Pb.Event
  {
    Pb.Event(ev.name, ev.scope, Sub(ev.timestamp, start), ev.tags)
  }

  /**
   * The serializer and the compressor the client writes with.  The client
   * is built with Wire, protocol-buffer marshalling and zlib compression;
   * its run loop is proved for any codec, and module Transport proves what
   * the receiver decodes from the Wire datagrams.
   */
  datatype Codec = Codec(marshal: Packet -> seq<byte>, compress: seq<byte> -> seq<byte>)

  const Wire: Codec := Codec(Marshal, Compress)

  /** What decides when a packet is full: the codec's sizes and the byte limit. */
  datatype Budget = Budget(codec: Codec, maxUncompressed: int)

  /** The abstract value of an outgoing packet. */
  datatype Draft = Draft(id: Identity, start: Instant, added: seq<Pb.Event>)

  /** The messages written one after another, serialized with `c`. */
  function Encoded(c: Codec, ps: seq<Packet>): seq<byte>
    decreases |ps|
  {
    if ps == [] then [] else c.marshal(ps[0]) + Encoded(c, ps[1..])
  }

  /** The messages of a packet before its trailer: the header, then one message per event. */
  function Messages(d: Draft): seq<Packet>
  {
    [HeaderPacket(d.id, d.start)] + EventPackets(d.added)
  }

  /** The uncompressed bytes written into the packet's zlib stream so far. */
  function Stream(c: Codec, d: Draft): seq<byte>
  {
    Encoded(c, Messages(d))
  }

  /** The byte budget used: the magic number plus the uncompressed stream. */
  function Written(c: Codec, d: Draft): int { |Magic| + |Stream(c, d)| }

  function IsFull(d: Draft, b: Budget): bool
  {
    Written(b.codec, d) + TrailerSize > b.maxUncompressed
  }

  /** The bytes finalize returns when the packet is sent at `now`. */
  function Datagram(c: Codec, d: Draft, now: Time): seq<byte>
  {
    Magic + c.compress(Stream(c, d) + c.marshal(TrailerPacket(Sub(now, d.start))))
  }

  lemma {:induction false} EventPacketsAppend(es: seq<Pb.Event>, fs: seq<Pb.Event>)
    ensures EventPackets(es + fs) == EventPackets(es) + EventPackets(fs)
    decreases |es|
  {
    if es == [] {
      assert es + fs == fs;
    } else {
      assert (es + fs)[1..] == es[1..] + fs;
      EventPacketsAppend(es[1..], fs);
    }
  }

  lemma {:induction false} EncodedAppend(c: Codec, ps: seq<Packet>, qs: seq<Packet>)
    ensures Encoded(c, ps + qs) == Encoded(c, ps) + Encoded(c, qs)
    decreases |ps|
  {
    if ps == [] {
      assert ps + qs == qs;
    } else {
      assert (ps + qs)[1..] == ps[1..] + qs;
      EncodedAppend(c, ps[1..], qs);
    }
  }

  lemma EncodedSnoc(c: Codec, ps: seq<Packet>, p: Packet)
    ensures Encoded(c, ps + [p]) == Encoded(c, ps) + c.marshal(p)
  {
    EncodedAppend(c, ps, [p]);
    assert [p][1..] == [];
  }

  /** With the Wire codec the stream is the protocol-buffer encoding of the messages. */
  lemma {:induction false} EncodedWire(ps: seq<Packet>)
    ensures Encoded(Wire, ps) == MarshalAll(ps)
    decreases |ps|
  {
    if ps != [] {
      EncodedWire(ps[1..]);
    }
  }

  lemma SnocAssoc<T>(a: seq<T>, b: seq<T>, x: T)
    ensures (a + b) + [x] == a + (b + [x])
  {
  }

  /** Adding an event appends exactly that event's Packet message to the stream. */
  lemma StreamAdd(c: Codec, d: Draft, e: Pb.Event)
    ensures Stream(c, d.(added := d.added + [e])) == Stream(c, d) + c.marshal(EventPacket(e))
  {
    var h := [HeaderPacket(d.id, d.start)];
    var ps := EventPackets(d.added);
    var x := EventPacket(e);
    EventPacketsAppend(d.added, [e]);
    assert EventPackets([e]) == [x];
    SnocAssoc(h, ps, x);
    EncodedAppend(c, h + ps, [x]);
    assert Encoded(c, [x]) == c.marshal(x) + Encoded(c, []);
  }

  lemma StreamFresh(c: Codec, id: Identity, start: Instant)
    ensures Stream(c, Draft(id, start, [])) == c.marshal(HeaderPacket(id, start))
  {
    assert Messages(Draft(id, start, [])) == [HeaderPacket(id, start)];
    assert Encoded(c, [HeaderPacket(id, start)]) == c.marshal(HeaderPacket(id, start)) + Encoded(c, []);
  }

  // ------------------------------------------------------- the run loop, abstractly

  /** A packet handed to send, with the instant it was finalized. */
  datatype Flushed = Flushed(draft: Draft, at: Time)

  /** Run's packet in progress and the packets it has sent. */
  datatype RunState = RunState(current: Draft, flushed: seq<Flushed>)

  /** sendAndReset: send the current packet and start a fresh one. */
  function SendAndReset(r: RunState, now: Instant): RunState
  {
    RunState(Draft(r.current.id, now, []), r.flushed + [Flushed(r.current, now)])
  }

  /** Add each event in turn, sending and replacing the packet whenever it reports full. */
  function AddAll(r: RunState, evs: seq<ClientEvent>, b: Budget, now: Instant): RunState
    decreases |evs|
  {
    if evs == [] then r
    else
      var d := r.current.(added := r.current.added + [ToPbEvent(evs[0], r.current.start)]);
      var r' := if IsFull(d, b) then SendAndReset(RunState(d, r.flushed), now) else RunState(d, r.flushed);
      AddAll(r', evs[1..], b, now)
  }

  /** The event the loop adds to report `drops` dropped events. */
  function DropsEvent(drops: int64, now: Time): ClientEvent
  {
    ClientEvent("drops", ["storj.io/eventkit"], now, [Tag("events", Some(Int64Value(drops)))])
  }

  /** The state UDPClient shares between Submit and Run. */
  datatype ClientState = ClientState(queue: seq<ClientEvent>, dropped: int64, run: RunState)

  /** Top of each loop iteration: report and clear a positive drop count. */
  function DropsCheck(s: ClientState, b: Budget, now: Instant): ClientState
  {
    if s.dropped > 0 then
      ClientState(s.queue, 0, AddAll(s.run, [DropsEvent(s.dropped, now)], b, now))
    else s
  }

  datatype Choice = Receive | Tick | Cancel

  /**
   * The select of one loop iteration.  Receive is only ready with a queued
   * event.  The boolean is true when Run returns.
   */
  function Select(s: ClientState, choice: Choice, b: Budget, now: Instant): (ClientState, bool)
    requires choice == Receive ==> |s.queue| > 0
  {
    match choice
    case Receive =>
      (s.(queue := s.queue[1..], run := AddAll(s.run, [s.queue[0]], b, now)), false)
    case Tick =>
      (if |s.run.current.added| > 0 then s.(run := SendAndReset(s.run, now)) else s, false)
    case Cancel =>
      (ClientState([], s.dropped, FinalSend(AddAll(s.run, s.queue, b, now), now)), true)
  }

  /** The send after the drain: the last packet goes out only when it holds an event. */
  function FinalSend(r: RunState, now: Time): RunState
  {
    if |r.current.added| > 0 then r.(flushed := r.flushed + [Flushed(r.current, now)]) else r
  }

  /** The queue and the drop counter, the state Submit shares with Run. */
  datatype Intake = Intake(queue: seq<ClientEvent>, dropped: int64)

  /**
   * Submit as written: each event that meets a full queue is counted as
   * dropped, and the first event that finds room is queued and ends the
   * call, so the events after it are neither queued nor counted.
   */
  function SubmitAsWritten(i: Intake, events: seq<ClientEvent>, queueDepth: int): Intake
  {
    if events != [] && |i.queue| < queueDepth then i.(queue := i.queue + [events[0]])
    else i.(dropped := WrapInt64(i.dropped + |events|))
  }

  /** Submit as evidently intended: every event is either queued or counted as dropped. */
  function SubmitEach(i: Intake, events: seq<ClientEvent>, queueDepth: int): Intake
    decreases |events|
  {
    if events == [] then i
    else if |i.queue| < queueDepth then SubmitEach(i.(queue := i.queue + [events[0]]), events[1..], queueDepth)
    else SubmitEach(i.(dropped := WrapInt64(i.dropped + 1)), events[1..], queueDepth)
  }

  /** What happens around the run loop, in order. */
  datatype Happening = Submitted(events: seq<ClientEvent>) | Woken(choice: Choice, at: Instant)

  /**
   * One happening while the loop waits in its select.  A wake-up runs the
   * ready select case and, unless that case returns, the drops check at the
   * top of the next iteration, whose clock reading is taken as `at`.  A
   * Receive wake-up with an empty queue is not a ready case and changes
   * nothing.
   */
  function Step(s: ClientState, h: Happening, queueDepth: int, b: Budget): (ClientState, bool)
  {
    match h
    case Submitted(events) =>
      var i := SubmitEach(Intake(s.queue, s.dropped), events, queueDepth);
      (s.(queue := i.queue, dropped := i.dropped), false)
    case Woken(choice, at) =>
      if choice == Receive && |s.queue| == 0 then (s, false)
      else
        var (s', done) := Select(s, choice, b, at);
        if done then (s', true) else (DropsCheck(s', b, at), false)
  }

  /** The run loop over a schedule of happenings, up to the cancellation that ends it. */
  function RunSteps(s: ClientState, hs: seq<Happening>, queueDepth: int, b: Budget): ClientState
    decreases |hs|
  {
    if hs == [] then s
    else
      var (s', done) := Step(s, hs[0], queueDepth, b);
      if done then s' else RunSteps(s', hs[1..], queueDepth, b)
  }

  /** The datagrams sent for the given flushed packets, in order. */
  function Datagrams(c: Codec, fs: seq<Flushed>): (ds: seq<seq<byte>>)
    ensures |ds| == |fs|
    decreases |fs|
  {
    if fs == [] then [] else Datagrams(c, fs[..|fs| - 1]) + [Datagram(c, fs[|fs| - 1].draft, fs[|fs| - 1].at)]
  }

  // ------------------------------------------------------------- properties

  /** The content of an event, without its timing. */
  datatype Content = Content(name: GoString, scope: seq<GoString>, tags: seq<Tag>)

  function PbContent(e: Pb.Event): Content { Content(e.name, e.scope, e.tags) }
  function EventContent(e: ClientEvent): Content { Content(e.name, e.scope, e.tags) }

  function PbContents(es: seq<Pb.Event>): (cs: seq<Content>)
    ensures |cs| == |es|
    decreases |es|
  {
    if es == [] then [] else [PbContent(es[0])] + PbContents(es[1..])
  }

  function EventContents(es: seq<ClientEvent>): (cs: seq<Content>)
    ensures |cs| == |es|
    decreases |es|
  {
    if es == [] then [] else [EventContent(es[0])] + EventContents(es[1..])
  }

  /** Every event the run has taken, in order: those of the sent packets, then those of the current one. */
  function Taken(r: RunState): seq<Content>
  {
    FlushedContents(r.flushed) + PbContents(r.current.added)
  }

  function FlushedContents(fs: seq<Flushed>): seq<Content>
    decreases |fs|
  {
    if fs == [] then [] else PbContents(fs[0].draft.added) + FlushedContents(fs[1..])
  }

  lemma {:induction false} PbContentsAppend(a: seq<Pb.Event>, b: seq<Pb.Event>)
    ensures PbContents(a + b) == PbContents(a) + PbContents(b)
    decreases |a|
  {
    if a == [] {
      assert a + b == b;
    } else {
      assert (a + b)[1..] == a[1..] + b;
      PbContentsAppend(a[1..], b);
    }
  }

  lemma {:induction false} FlushedContentsAppend(a: seq<Flushed>, b: seq<Flushed>)
    ensures FlushedContents(a + b) == FlushedContents(a) + FlushedContents(b)
    decreases |a|
  {
    if a == [] {
      assert a + b == b;
    } else {
      assert (a + b)[1..] == a[1..] + b;
      FlushedContentsAppend(a[1..], b);
    }
  }

  lemma AddOneTaken(r: RunState, ev: ClientEvent, b: Budget, now: Instant)
    ensures Taken(AddAll(r, [ev], b, now)) == Taken(r) + [EventContent(ev)]
  {
    var d := r.current.(added := r.current.added + [ToPbEvent(ev, r.current.start)]);
    PbContentsAppend(r.current.added, [ToPbEvent(ev, r.current.start)]);
    assert PbContents([ToPbEvent(ev, r.current.start)]) == [EventContent(ev)];
    if IsFull(d, b) {
      FlushedContentsAppend(r.flushed, [Flushed(d, now)]);
      assert FlushedContents([Flushed(d, now)]) == PbContents(d.added) + FlushedContents([]);
    }
    assert [ev][1..] == [];
  }

  /**
   * Nothing is lost or duplicated: after adding `evs`, the events taken by
   * the run are the ones taken before followed by `evs`, in order.
   */
  lemma {:induction false} AddAllTaken(r: RunState, evs: seq<ClientEvent>, b: Budget, now: Instant)
    ensures Taken(AddAll(r, evs, b, now)) == Taken(r) + EventContents(evs)
    decreases |evs|
  {
    if evs != [] {
      var r1 := AddAll(r, [evs[0]], b, now);
      AddOneTaken(r, evs[0], b, now);
      assert [evs[0]][1..] == [];
      assert AddAll(r, evs, b, now) == AddAll(r1, evs[1..], b, now);
      AddAllTaken(r1, evs[1..], b, now);
    }
  }

  /** Adding never unsends: the packets sent before stay, and every packet sent while adding was full. */
  lemma {:induction false} AddAllSendsFull(r: RunState, evs: seq<ClientEvent>, b: Budget, now: Instant)
    ensures var r' := AddAll(r, evs, b, now);
      |r'.flushed| >= |r.flushed| && r'.flushed[..|r.flushed|] == r.flushed
      && forall i :: |r.flushed| <= i < |r'.flushed| ==> IsFull(r'.flushed[i].draft, b)
    decreases |evs|
  {
    if evs != [] {
      var d := r.current.(added := r.current.added + [ToPbEvent(evs[0], r.current.start)]);
      var r1 := if IsFull(d, b) then SendAndReset(RunState(d, r.flushed), now) else RunState(d, r.flushed);
      AddAllSendsFull(r1, evs[1..], b, now);
      var r' := AddAll(r1, evs[1..], b, now);
      assert r'.flushed[..|r1.flushed|] == r1.flushed;
      assert r'.flushed[..|r.flushed|] == r1.flushed[..|r.flushed|];
    }
  }

  /** An event fills the packet exactly when the budget, counted with the trailer, is exceeded. */
  lemma OversizedEventAccepted(r: RunState, ev: ClientEvent, b: Budget, now: Instant)
    requires IsFull(r.current.(added := r.current.added + [ToPbEvent(ev, r.current.start)]), b)
    ensures var r' := AddAll(r, [ev], b, now);
      r'.flushed == r.flushed + [Flushed(r.current.(added := r.current.added + [ToPbEvent(ev, r.current.start)]), now)]
      && r'.current.added == []
  {
    assert [ev][1..] == [];
  }

  /** A tick sends exactly when the packet holds an event, and then starts an empty one. */
  lemma TickSendsNonEmpty(s: ClientState, b: Budget, now: Instant)
    ensures var (s', done) := Select(s, Tick, b, now);
      !done && s'.queue == s.queue
      && (|s.run.current.added| > 0 <==> |s'.run.flushed| == |s.run.flushed| + 1)
      && (|s.run.current.added| == 0 ==> s' == s)
      && Taken(s'.run) == Taken(s.run)
  {
    if |s.run.current.added| > 0 {
      FlushedContentsAppend(s.run.flushed, [Flushed(s.run.current, now)]);
      assert FlushedContents([Flushed(s.run.current, now)]) == PbContents(s.run.current.added) + FlushedContents([]);
    }
  }

  /**
   * Cancellation drains exactly the queued events, in order, and sends
   * everything: the sent packets then hold every event ever taken.
   */
  lemma CancelDrains(s: ClientState, b: Budget, now: Instant)
    ensures var (s', done) := Select(s, Cancel, b, now);
      done && s'.queue == []
      && FlushedContents(s'.run.flushed) == Taken(s.run) + EventContents(s.queue)
  {
    var r := AddAll(s.run, s.queue, b, now);
    AddAllTaken(s.run, s.queue, b, now);
    if |r.current.added| > 0 {
      FlushedContentsAppend(r.flushed, [Flushed(r.current, now)]);
      assert FlushedContents([Flushed(r.current, now)]) == PbContents(r.current.added) + FlushedContents([]);
    } else {
      assert PbContents(r.current.added) == [];
    }
  }

  /** The top of the loop moves the whole observed drop count into one "drops" event. */
  lemma DropsReported(s: ClientState, b: Budget, now: Instant)
    ensures var s' := DropsCheck(s, b, now);
      s'.queue == s.queue
      && (s.dropped > 0 ==> s'.dropped == 0 && Taken(s'.run) == Taken(s.run) + [EventContent(DropsEvent(s.dropped, now))])
      && (s.dropped <= 0 ==> s' == s)
  {
    AddOneTaken(s.run, DropsEvent(s.dropped, now), b, now);
  }

  /** As written, a second event submitted to a queue with room is lost without being counted. */
  lemma SubmitLosesLaterEvents(a: ClientEvent, b: ClientEvent)
    ensures var i := SubmitAsWritten(Intake([], 0), [a, b], DefaultQueueDepth);
      i.queue == [a] && i.dropped == 0
  {
  }

  /**
   * Corrected, every submitted event is accounted for: the queue takes
   * events in order while it has room and each remaining one is counted
   * as dropped.
   */
  lemma {:induction false} SubmitEachAccounts(i: Intake, events: seq<ClientEvent>, queueDepth: int)
    requires |i.queue| <= queueDepth
    ensures var k := if |events| <= queueDepth - |i.queue| then |events| else queueDepth - |i.queue|;
      var i' := SubmitEach(i, events, queueDepth);
      i'.queue == i.queue + events[..k] && i'.dropped == WrapInt64(i.dropped + (|events| - k))
    decreases |events|
  {
    if events == [] {
      assert i.dropped == WrapInt64(i.dropped + 0);
    } else if |i.queue| < queueDepth {
      var j := i.(queue := i.queue + [events[0]]);
      SubmitEachAccounts(j, events[1..], queueDepth);
      var k := if |events| <= queueDepth - |i.queue| then |events| else queueDepth - |i.queue|;
      assert j.queue + events[1..][..k - 1] == i.queue + events[..k];
    } else {
      var j := i.(dropped := WrapInt64(i.dropped + 1));
      SubmitEachAccounts(j, events[1..], queueDepth);
      WrapInt64Add(i.dropped + 1, |events| - 1);
      assert events[..0] == [] && events[1..][..0] == [];
    }
  }

  /** Whether the schedule cancels the loop. */
  predicate Cancels(hs: seq<Happening>)
  {
    exists i :: 0 <= i < |hs| && hs[i].Woken? && hs[i].choice == Cancel
  }

  predicate IsPrefix(a: seq<Content>, b: seq<Content>)
  {
    |a| <= |b| && b[..|a|] == a
  }

  lemma PrefixTrans(a: seq<Content>, b: seq<Content>, c: seq<Content>)
    requires IsPrefix(a, b) && IsPrefix(b, c)
    ensures IsPrefix(a, c)
  {
    assert c[..|a|] == c[..|b|][..|a|];
  }

  /**
   * One happening keeps the queue within its depth and loses nothing the
   * run has taken; only a cancellation returns, and it leaves the queue
   * empty with every event taken before it in the sent packets.
   */
  lemma StepKeepsTaken(s: ClientState, h: Happening, queueDepth: int, b: Budget)
    requires |s.queue| <= queueDepth
    ensures var (s', done) := Step(s, h, queueDepth, b);
      |s'.queue| <= queueDepth
      && (done <==> h.Woken? && h.choice == Cancel)
      && (!done ==> IsPrefix(Taken(s.run), Taken(s'.run)))
      && (done ==> s'.queue == [] && IsPrefix(Taken(s.run), FlushedContents(s'.run.flushed)))
  {
    match h
    case Submitted(events) =>
      SubmitEachAccounts(Intake(s.queue, s.dropped), events, queueDepth);
      assert Taken(s.run)[..|Taken(s.run)|] == Taken(s.run);
    case Woken(choice, at) =>
      if choice == Receive && |s.queue| == 0 {
        assert Taken(s.run)[..|Taken(s.run)|] == Taken(s.run);
      } else if choice == Cancel {
        CancelDrains(s, b, at);
        var t := Taken(s.run);
        assert (t + EventContents(s.queue))[..|t|] == t;
      } else {
        var (s1, _) := Select(s, choice, b, at);
        if choice == Receive {
          AddOneTaken(s.run, s.queue[0], b, at);
          assert (Taken(s.run) + [EventContent(s.queue[0])])[..|Taken(s.run)|] == Taken(s.run);
        } else {
          TickSendsNonEmpty(s, b, at);
          assert Taken(s.run)[..|Taken(s.run)|] == Taken(s.run);
        }
        DropsReported(s1, b, at);
        var t1 := Taken(s1.run);
        assert t1[..|t1|] == t1;
        assert (t1 + [EventContent(DropsEvent(s1.dropped, at))])[..|t1|] == t1;
        PrefixTrans(Taken(s.run), t1, Taken(DropsCheck(s1, b, at).run));
      }
  }

  /**
   * Over any schedule the run loses nothing it has taken: the events taken
   * before stay, in order, ahead of those taken later, and the queue never
   * exceeds its depth.  A cancelled loop ends with an empty queue and every
   * event it ever took in the packets it sent.
   */
  lemma {:induction false} RunKeepsTaken(s: ClientState, hs: seq<Happening>, queueDepth: int, b: Budget)
    requires |s.queue| <= queueDepth
    ensures var s' := RunSteps(s, hs, queueDepth, b);
      |s'.queue| <= queueDepth
      && (!Cancels(hs) ==> IsPrefix(Taken(s.run), Taken(s'.run)))
      && (Cancels(hs) ==> s'.queue == [] && IsPrefix(Taken(s.run), FlushedContents(s'.run.flushed)))
    decreases |hs|
  {
    if hs == [] {
      assert Taken(s.run)[..|Taken(s.run)|] == Taken(s.run);
      assert !Cancels(hs);
    } else {
      StepKeepsTaken(s, hs[0], queueDepth, b);
      var (s1, done) := Step(s, hs[0], queueDepth, b);
      if done {
        assert Cancels(hs);
      } else {
        RunKeepsTaken(s1, hs[1..], queueDepth, b);
        CancelsTail(hs);
        var s' := RunSteps(s1, hs[1..], queueDepth, b);
        if Cancels(hs) {
          PrefixTrans(Taken(s.run), Taken(s1.run), FlushedContents(s'.run.flushed));
        } else {
          PrefixTrans(Taken(s.run), Taken(s1.run), Taken(s'.run));
        }
      }
    }
  }

  /** A schedule that does not start with cancellation cancels exactly when its tail does. */
  lemma CancelsTail(hs: seq<Happening>)
    requires |hs| > 0 && !(hs[0].Woken? && hs[0].choice == Cancel)
    ensures Cancels(hs) <==> Cancels(hs[1..])
  {
    if Cancels(hs) {
      var i :| 0 <= i < |hs| && hs[i].Woken? && hs[i].choice == Cancel;
      assert i > 0 && hs[1..][i - 1] == hs[i];
    }
    if Cancels(hs[1..]) {
      var i :| 0 <= i < |hs[1..]| && hs[1..][i].Woken? && hs[1..][i].choice == Cancel;
      assert hs[i + 1] == hs[1..][i];
    }
  }

  lemma {:induction false} AddAllSnoc(r: RunState, evs: seq<ClientEvent>, ev: ClientEvent, b: Budget, now: Instant)
    ensures AddAll(r, evs + [ev], b, now) == AddAll(AddAll(r, evs, b, now), [ev], b, now)
    decreases |evs|
  {
    if evs == [] {
      assert evs + [ev] == [ev];
    } else {
      var d := r.current.(added := r.current.added + [ToPbEvent(evs[0], r.current.start)]);
      var r' := if IsFull(d, b) then SendAndReset(RunState(d, r.flushed), now) else RunState(d, r.flushed);
      assert (evs + [ev])[1..] == evs[1..] + [ev];
      AddAllSnoc(r', evs[1..], ev, b, now);
    }
  }


  lemma DatagramsSnoc(c: Codec, fs: seq<Flushed>, f: Flushed)
    ensures Datagrams(c, fs + [f]) == Datagrams(c, fs) + [Datagram(c, f.draft, f.at)]
  {
    assert (fs + [f])[..|fs|] == fs;
  }

  /** Sending the datagram of `f` extends the record of sent bytes by exactly it. */
  lemma SentSnoc(c: Codec, sent: seq<seq<byte>>, base: seq<seq<byte>>, fs: seq<Flushed>, f: Flushed, data: seq<byte>)
    requires sent == base + Datagrams(c, fs) && data == Datagram(c, f.draft, f.at)
    ensures sent + [data] == base + Datagrams(c, fs + [f])
  {
    DatagramsSnoc(c, fs, f);
    SnocAssoc(base, Datagrams(c, fs), data);
  }

  /** Every datagram starts with the magic number. */
  lemma DatagramMagic(c: Codec, d: Draft, now: Time)
    ensures |Datagram(c, d, now)| >= 2 && Datagram(c, d, now)[..2] == Magic
  {
  }

  // --------------------------------------------------------------- the objects

  /** The packet being filled: its byte budget, its event count and the bytes fed to the compressor. */
  class OutgoingPacket {
    const codec: Codec
    var written: int
    var maxUncompressed: int
    var events: int
    var startTime: Instant
    /** The uncompressed bytes written into the zlib writer so far. */
    var stream: seq<byte>
    ghost var model: Draft

    ghost predicate Valid()
      reads this
    {
      startTime == model.start && stream == Stream(codec, model) && written == |Magic| + |stream|
      && events == |model.added|
    }

    /** newOutgoingPacket: "EK", then the header message, with the budget counting both. */
    constructor (codec: Codec, id: Identity, now: Instant, maxUncompressedBytes: int)
      ensures Valid() && this.codec == codec && model == Draft(id, now, []) && maxUncompressed == maxUncompressedBytes
      ensures events == 0 && written == 2 + |codec.marshal(HeaderPacket(id, now))|
    {
      this.codec := codec;
      var data := codec.marshal(HeaderPacket(id, now));
      startTime := now;
      maxUncompressed := maxUncompressedBytes;
      written := |Magic| + |data|;
      stream := data;
      events := 0;
      model := Draft(id, now, []);
      StreamFresh(codec, id, now);
    }

    /** addEvent: append one Packet message holding the event; report whether the budget is exhausted. */
    method AddEvent(ev: ClientEvent) returns (full: bool)
      requires Valid()
      modifies this
      ensures Valid() && startTime == old(startTime) && maxUncompressed == old(maxUncompressed)
      ensures model == old(model).(added := old(model.added) + [ToPbEvent(ev, startTime)])
      ensures written == old(written) + |codec.marshal(EventPacket(ToPbEvent(ev, startTime)))|
      ensures events == old(events) + 1
      ensures full == IsFull(model, Budget(codec, maxUncompressed)) && (full <==> written + TrailerSize > maxUncompressed)
    {
      var v := ToPbEvent(ev, startTime);
      var data := codec.marshal(EventPacket(v));
      StreamAdd(codec, model, v);
      written := written + |data|;
      stream := stream + data;
      events := events + 1;
      model := model.(added := model.added + [v]);
      full := written + TrailerSize > maxUncompressed;
    }

    /** finalize: the trailer carries the time since the start; the stream is compressed behind "EK". */
    method Finalize(now: Time) returns (data: seq<byte>)
      requires Valid()
      ensures data == Datagram(codec, model, now)
    {
      data := Magic + codec.compress(stream + codec.marshal(TrailerPacket(Sub(now, startTime))));
    }
  }

  class UDPClient {
    const id: Identity
    const addr: GoString
    const codec: Codec
    var queueDepth: int
    var maxUncompressedBytes: int
    var flushInterval: Duration
    var queue: seq<ClientEvent>
    var dropped: int64
    /** The datagrams handed to the network, in order. */
    var sent: seq<seq<byte>>

    /** NewUDPClient: the defaults for depth, budget and interval. */
    constructor (application: GoString, version: GoString, instance: GoString, addr: GoString)
      ensures id == Identity(application, version, instance) && this.addr == addr && codec == Wire
      ensures queueDepth == DefaultQueueDepth && maxUncompressedBytes == DefaultMaxUncompressedBytes
      ensures flushInterval == DefaultFlushInterval
      ensures queue == [] && dropped == 0 && sent == []
    {
      id := Identity(application, version, instance);
      this.addr := addr;
      codec := Wire;
      queueDepth := DefaultQueueDepth;
      maxUncompressedBytes := DefaultMaxUncompressedBytes;
      flushInterval := DefaultFlushInterval;
      queue := [];
      dropped := 0;
      sent := [];
    }

    /** The packets of this client are written with its codec and identity. */
    ghost predicate Owns(p: OutgoingPacket)
      reads p
    {
      p.Valid() && p.codec == codec && p.model.id == id
    }

    /** Submit, as the source has it. */
    method Submit(events: seq<ClientEvent>)
      modifies this
      ensures Intake(queue, dropped) == SubmitAsWritten(Intake(old(queue), old(dropped)), events, queueDepth)
      ensures sent == old(sent) && queueDepth == old(queueDepth) && maxUncompressedBytes == old(maxUncompressedBytes)
    {
      var n := 0;
      while n < |events|
        invariant 0 <= n <= |events|
        invariant queue == old(queue) && sent == old(sent) && queueDepth == old(queueDepth)
        invariant maxUncompressedBytes == old(maxUncompressedBytes)
        invariant dropped == WrapInt64(old(dropped) + n)
        invariant n > 0 ==> |queue| >= queueDepth
      {
        if |queue| < queueDepth {
          queue := queue + [events[n]];
          return;
        }
        WrapInt64Add(old(dropped) + n, 1);
        dropped := WrapInt64(dropped + 1);
        n := n + 1;
      }
    }

    /** Submit, corrected to offer every event to the queue. */
    method SubmitAll(events: seq<ClientEvent>)
      modifies this
      ensures Intake(queue, dropped) == SubmitEach(Intake(old(queue), old(dropped)), events, queueDepth)
      ensures sent == old(sent) && queueDepth == old(queueDepth) && maxUncompressedBytes == old(maxUncompressedBytes)
    {
      var n := 0;
      while n < |events|
        invariant 0 <= n <= |events|
        invariant sent == old(sent) && queueDepth == old(queueDepth)
        invariant maxUncompressedBytes == old(maxUncompressedBytes)
        invariant SubmitEach(Intake(queue, dropped), events[n..], queueDepth)
                  == SubmitEach(Intake(old(queue), old(dropped)), events, queueDepth)
      {
        assert events[n..][1..] == events[n + 1..];
        if |queue| < queueDepth {
          queue := queue + [events[n]];
        } else {
          dropped := WrapInt64(dropped + 1);
        }
        n := n + 1;
      }
    }

    /** sendAndReset: finalize and send the packet, then open a new one. */
    method SendAndReset(p: OutgoingPacket, now: Instant, ghost base: seq<seq<byte>>, ghost flushed: seq<Flushed>)
      returns (p': OutgoingPacket, ghost flushed': seq<Flushed>)
      requires Owns(p) && sent == base + Datagrams(codec, flushed)
      modifies this
      ensures fresh(p') && Owns(p') && p'.model == Draft(id, now, []) && p'.maxUncompressed == p.maxUncompressed
      ensures flushed' == flushed + [Flushed(p.model, now)] && sent == base + Datagrams(codec, flushed')
      ensures queue == old(queue) && dropped == old(dropped) && queueDepth == old(queueDepth)
      ensures maxUncompressedBytes == old(maxUncompressedBytes)
    {
      p' := new OutgoingPacket(codec, id, now, p.maxUncompressed);
      var data := p.Finalize(now);
      ghost var f := Flushed(p.model, now);
      SentSnoc(codec, sent, base, flushed, f, data);
      flushed' := flushed + [f];
      sent := sent + [data];
    }

    /** Add one event to the packet, sending and replacing it when it reports full. */
    method Offer(p: OutgoingPacket, ev: ClientEvent, now: Instant, ghost base: seq<seq<byte>>, ghost flushed: seq<Flushed>)
      returns (p': OutgoingPacket, ghost flushed': seq<Flushed>)
      requires Owns(p) && sent == base + Datagrams(codec, flushed)
      modifies this, p
      ensures Owns(p') && p'.maxUncompressed == old(p.maxUncompressed) && (p' == p || fresh(p'))
      ensures RunState(p'.model, flushed')
              == AddAll(RunState(old(p.model), flushed), [ev], Budget(codec, old(p.maxUncompressed)), now)
      ensures sent == base + Datagrams(codec, flushed')
      ensures queue == old(queue) && dropped == old(dropped) && queueDepth == old(queueDepth)
      ensures maxUncompressedBytes == old(maxUncompressedBytes)
    {
      assert [ev][1..] == [];
      var full := p.AddEvent(ev);
      if full {
        p', flushed' := SendAndReset(p, now, base, flushed);
      } else {
        p', flushed' := p, flushed;
      }
    }

    /** Add the events in order, as the cancellation drain and AddAll do. */
    method OfferAll(p: OutgoingPacket, evs: seq<ClientEvent>, now: Instant, ghost base: seq<seq<byte>>, ghost flushed: seq<Flushed>)
      returns (p': OutgoingPacket, ghost flushed': seq<Flushed>)
      requires Owns(p) && sent == base + Datagrams(codec, flushed)
      modifies this, p
      ensures Owns(p') && p'.maxUncompressed == old(p.maxUncompressed) && (p' == p || fresh(p'))
      ensures RunState(p'.model, flushed')
              == AddAll(RunState(old(p.model), flushed), evs, Budget(codec, old(p.maxUncompressed)), now)
      ensures sent == base + Datagrams(codec, flushed')
      ensures queue == old(queue) && dropped == old(dropped) && queueDepth == old(queueDepth)
      ensures maxUncompressedBytes == old(maxUncompressedBytes)
    {
      ghost var b := Budget(codec, p.maxUncompressed);
      ghost var r0 := RunState(p.model, flushed);
      p', flushed' := p, flushed;
      var n := 0;
      while n < |evs|
        invariant 0 <= n <= |evs|
        invariant Owns(p') && p'.maxUncompressed == b.maxUncompressed && (p' == p || fresh(p'))
        invariant RunState(p'.model, flushed') == AddAll(r0, evs[..n], b, now)
        invariant sent == base + Datagrams(codec, flushed')
        invariant queue == old(queue) && dropped == old(dropped) && queueDepth == old(queueDepth)
        invariant maxUncompressedBytes == old(maxUncompressedBytes)
      {
        AddAllSnoc(r0, evs[..n], evs[n], b, now);
        assert evs[..n + 1] == evs[..n] + [evs[n]];
        p', flushed' := Offer(p', evs[n], now, base, flushed');
        n := n + 1;
      }
      assert evs[..n] == evs;
    }

    /** The top of the loop: report a positive drop count as a "drops" event. */
    method CheckDrops(p: OutgoingPacket, now: Instant, ghost base: seq<seq<byte>>, ghost flushed: seq<Flushed>)
      returns (p': OutgoingPacket, ghost flushed': seq<Flushed>)
      requires Owns(p) && sent == base + Datagrams(codec, flushed)
      modifies this, p
      ensures Owns(p') && p'.maxUncompressed == old(p.maxUncompressed) && (p' == p || fresh(p'))
      ensures ClientState(queue, dropped, RunState(p'.model, flushed'))
              == DropsCheck(ClientState(old(queue), old(dropped), RunState(old(p.model), flushed)),
                            Budget(codec, old(p.maxUncompressed)), now)
      ensures sent == base + Datagrams(codec, flushed')
      ensures queueDepth == old(queueDepth) && maxUncompressedBytes == old(maxUncompressedBytes)
    {
      p', flushed' := p, flushed;
      var drops := dropped;
      if drops > 0 {
        dropped := WrapInt64(dropped - drops);
        p', flushed' := Offer(p, DropsEvent(drops, now), now, base, flushed);
      }
    }

    /** Cancellation: drain the events queued now, then send a packet that holds any event. */
    method Drain(p: OutgoingPacket, now: Instant, ghost base: seq<seq<byte>>, ghost flushed: seq<Flushed>)
      returns (p': OutgoingPacket, ghost flushed': seq<Flushed>)
      requires Owns(p) && sent == base + Datagrams(codec, flushed)
      modifies this, p
      ensures Owns(p') && p'.maxUncompressed == old(p.maxUncompressed) && (p' == p || fresh(p'))
      ensures queue == [] && dropped == old(dropped)
      ensures RunState(p'.model, flushed')
              == FinalSend(AddAll(RunState(old(p.model), flushed), old(queue), Budget(codec, old(p.maxUncompressed)), now), now)
      ensures sent == base + Datagrams(codec, flushed')
      ensures queueDepth == old(queueDepth) && maxUncompressedBytes == old(maxUncompressedBytes)
    {
      var left := queue;
      p', flushed' := OfferAll(p, left, now, base, flushed);
      queue := [];
      flushed' := SendLast(p', now, base, flushed');
    }

    /** The send that ends Run: only a packet holding an event goes out, and it is not replaced. */
    method SendLast(p: OutgoingPacket, now: Instant, ghost base: seq<seq<byte>>, ghost flushed: seq<Flushed>)
      returns (ghost flushed': seq<Flushed>)
      requires Owns(p) && sent == base + Datagrams(codec, flushed)
      modifies this
      ensures RunState(p.model, flushed') == FinalSend(RunState(p.model, flushed), now)
      ensures sent == base + Datagrams(codec, flushed')
      ensures queue == old(queue) && dropped == old(dropped)
      ensures queueDepth == old(queueDepth) && maxUncompressedBytes == old(maxUncompressedBytes)
    {
      if p.events > 0 {
        var data := p.Finalize(now);
        SentSnoc(codec, sent, base, flushed, Flushed(p.model, now), data);
        sent := sent + [data];
        flushed' := flushed + [Flushed(p.model, now)];
      } else {
        flushed' := flushed;
      }
    }

    /** A ready select case, then, unless it returns, the drops check at the top of the next iteration. */
    method Iterate(p: OutgoingPacket, choice: Choice, now: Instant, ghost base: seq<seq<byte>>, ghost flushed: seq<Flushed>)
      returns (p': OutgoingPacket, ghost flushed': seq<Flushed>, done: bool)
      requires Owns(p) && sent == base + Datagrams(codec, flushed)
      requires choice == Receive ==> |queue| > 0
      modifies this, p
      ensures Owns(p') && p'.maxUncompressed == old(p.maxUncompressed) && (p' == p || fresh(p'))
      ensures (ClientState(queue, dropped, RunState(p'.model, flushed')), done)
              == Step(ClientState(old(queue), old(dropped), RunState(old(p.model), flushed)), Woken(choice, now),
                      old(queueDepth), Budget(codec, old(p.maxUncompressed)))
      ensures sent == base + Datagrams(codec, flushed')
      ensures queueDepth == old(queueDepth) && maxUncompressedBytes == old(maxUncompressedBytes)
    {
      p', flushed' := p, flushed;
      done := false;
      match choice {
        case Receive =>
          var em := queue[0];
          queue := queue[1..];
          p', flushed' := Offer(p', em, now, base, flushed');
        case Tick =>
          if p'.events > 0 {
            p', flushed' := SendAndReset(p', now, base, flushed');
          }
        case Cancel =>
          p', flushed' := Drain(p', now, base, flushed');
          done := true;
      }
      if !done {
        p', flushed' := CheckDrops(p', now, base, flushed');
      }
    }

    /**
     * Run over a schedule: the packet opens at `start`, the first loop top
     * checks the drops at `start`, then Submit calls and loop wake-ups
     * happen in the given order, and the loop returns at cancellation.
     */
    method Run(start: Instant, hs: seq<Happening>)
      modifies this
      ensures var b := Budget(codec, old(maxUncompressedBytes));
        var s := RunSteps(DropsCheck(ClientState(old(queue), old(dropped), RunState(Draft(id, start, []), [])), b, start),
                          hs, old(queueDepth), b);
        queue == s.queue && dropped == s.dropped && sent == old(sent) + Datagrams(codec, s.run.flushed)
    {
      ghost var b := Budget(codec, maxUncompressedBytes);
      ghost var final := RunSteps(DropsCheck(ClientState(queue, dropped, RunState(Draft(id, start, []), [])), b, start),
                                  hs, queueDepth, b);
      var p := new OutgoingPacket(codec, id, start, maxUncompressedBytes);
      ghost var flushed: seq<Flushed> := [];
      ghost var base := sent;
      p, flushed := CheckDrops(p, start, base, flushed);
      var n := 0;
      var done := false;
      while n < |hs| && !done
        invariant 0 <= n <= |hs|
        invariant fresh(p) && Owns(p) && p.maxUncompressed == b.maxUncompressed
        invariant queueDepth == old(queueDepth) && maxUncompressedBytes == old(maxUncompressedBytes)
        invariant base == old(sent) && sent == base + Datagrams(codec, flushed)
        invariant !done ==> RunSteps(ClientState(queue, dropped, RunState(p.model, flushed)), hs[n..], queueDepth, b) == final
        invariant done ==> ClientState(queue, dropped, RunState(p.model, flushed)) == final
        decreases |hs| - n
      {
        assert hs[n..][1..] == hs[n + 1..];
        match hs[n] {
          case Submitted(events) =>
            SubmitAll(events);
          case Woken(choice, at) =>
            if choice != Receive || |queue| > 0 {
              p, flushed, done := Iterate(p, choice, at, base, flushed);
            }
        }
        n := n + 1;
      }
    }
  }
}
