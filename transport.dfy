/**
 * The receiving end of the UDP transport (transport/udp.go).
 *
 * A datagram is accepted when it holds at least four bytes starting with
 * the magic number "EK"; the rest of the datagram is a zlib stream whose
 * content is decoded as one Packet message.  The end-to-end theorem of
 * this module is that a datagram the client builds decodes to the packet
 * the client meant: its identity, its start time, the send offset of the
 * trailer and every added event, in order.
 */
module Transport {
  import opened Wrappers
  import opened Text
  import opened Binary
  import opened Clock
  import opened Pb
  import opened PbUtils
  import opened Zlib
  import opened Client

  /** The size of the receive buffers the listener's pool hands out. */
  const BufferSize: nat := 10 * 1024

  const ErrMissingMagic := "missing magic number"

  /** parsePacket: check the magic number, decompress the first `n` bytes after it, decode. */
  function ParsePacket(n: int, buf: seq<byte>): (r: Result<Packet>)
    requires 0 <= n <= |buf|
    ensures (n < 4 || buf[..2] != Magic) ==> r == Err(ErrMissingMagic)
  {
    if n < 4 || buf[..2] != Magic then Err(ErrMissingMagic)
    else
      match Decompress(buf[2..n])
      case Err(e) => Err(e)
      case Ok(data) => Unmarshal(data)
  }

  /** Only the first `n` bytes of the buffer matter: stale pool bytes after them are ignored. */
  lemma ParsePacketIgnoresTail(n: int, buf: seq<byte>, other: seq<byte>)
    requires 0 <= n <= |buf| && n <= |other| && buf[..n] == other[..n]
    ensures ParsePacket(n, buf) == ParsePacket(n, other)
  {
    if n >= 4 {
      assert buf[..2] == buf[..n][..2] && other[..2] == other[..n][..2];
      assert buf[2..n] == buf[..n][2..] && other[2..n] == other[..n][2..];
    }
  }

  /** A datagram that passes the magic check but is not a valid zlib stream of a Packet yields an error and no packet. */
  lemma ParsePacketErrors(n: int, buf: seq<byte>)
    requires 4 <= n <= |buf| && buf[..2] == Magic
    ensures Decompress(buf[2..n]).Err? ==> ParsePacket(n, buf) == Err(Decompress(buf[2..n]).error)
    ensures Decompress(buf[2..n]).Ok? && Unmarshal(Decompress(buf[2..n]).value).Err? ==> ParsePacket(n, buf).Err?
    ensures ParsePacket(n, buf).Ok? <==> Decompress(buf[2..n]).Ok? && Unmarshal(Decompress(buf[2..n]).value).Ok?
  {
  }

  // ----------------------------------------------------------- end to end

  /** Merging one message per event appends the events, in order. */
  lemma {:induction false} MergeEventPackets(base: Packet, es: seq<Pb.Event>)
    ensures MergeAll(base, EventPackets(es)) == base.(events := base.events + es)
    decreases |es|
  {
    if es == [] {
      assert base.events + es == base.events;
    } else {
      var next := Merge(base, EventPacket(es[0]));
      assert next == base.(events := base.events + [es[0]]);
      MergeEventPackets(next, es[1..]);
      assert base.events + [es[0]] + es[1..] == base.events + es;
    }
  }

  /** The packet the receiver reconstructs from a client datagram. */
  function Sent(d: Draft, now: Time): Packet
  {
    Packet(d.id.application, d.id.version, d.id.instance, Some(AsTimestamp(d.start)), Sub(now, d.start), d.added)
  }

  lemma MergeMessages(d: Draft, now: Time)
    ensures MergeAll(EmptyPacket, Messages(d) + [TrailerPacket(Sub(now, d.start))]) == Sent(d, now)
  {
    var h := HeaderPacket(d.id, d.start);
    var t := TrailerPacket(Sub(now, d.start));
    var es := EventPackets(d.added);
    MergeEmpty(h);
    assert Messages(d) + [t] == [h] + (es + [t]);
    assert ([h] + (es + [t]))[1..] == es + [t];
    assert MergeAll(EmptyPacket, [h] + (es + [t])) == MergeAll(h, es + [t]);
    MergeAllAppend(h, es, [t]);
    MergeEventPackets(h, d.added);
    var m := h.(events := d.added);
    assert MergeAll(m, [t]) == MergeAll(Merge(m, t), []);
  }

  /** The uncompressed content of a client datagram: the stream, then the trailer message. */
  lemma DatagramContent(d: Draft, now: Time)
    ensures Datagram(Wire, d, now) == Magic + Compress(MarshalAll(Messages(d) + [TrailerPacket(Sub(now, d.start))]))
  {
    var t := TrailerPacket(Sub(now, d.start));
    EncodedSnoc(Wire, Messages(d), t);
    EncodedWire(Messages(d) + [t]);
  }

  /**
   * What the client sends is what the receiver gets: a datagram built from
   * a packet draft and sent at `now` parses, whatever stale bytes follow it
   * in the receive buffer, to the packet with the draft's identity and
   * start time, the time since the start as send offset, and the added
   * events in order.
   */
  lemma ParseDatagram(d: Draft, now: Time, stale: seq<byte>)
    requires |MarshalAll(Messages(d) + [TrailerPacket(Sub(now, d.start))])| < TwoTo64
    ensures ParsePacket(|Datagram(Wire, d, now)|, Datagram(Wire, d, now) + stale) == Ok(Sent(d, now))
  {
    var ps := Messages(d) + [TrailerPacket(Sub(now, d.start))];
    var inner := MarshalAll(ps);
    DatagramContent(d, now);
    UnmarshalConcatenation(ps);
    MergeMessages(d, now);
    DecompressWhole(inner);
    ParseFramed(Compress(inner), inner, Sent(d, now), stale);
  }

  lemma DecompressWhole(data: seq<byte>)
    ensures Decompress(Compress(data)) == Ok(data)
  {
    DecompressCompress(data, []);
    assert Compress(data) + [] == Compress(data);
  }

  /** A magic number, then a zlib stream of an encoded packet, parses to that packet. */
  lemma ParseFramed(z: seq<byte>, inner: seq<byte>, p: Packet, stale: seq<byte>)
    requires Decompress(z) == Ok(inner) && Unmarshal(inner) == Ok(p)
    ensures ParsePacket(|Magic + z|, Magic + z + stale) == Ok(p)
  {
    var buf := Magic + z + stale;
    assert |z| >= 2;
    assert buf[..2] == Magic;
    assert buf[2..|Magic + z|] == z;
  }

  /** Each event's offset is its timestamp minus the packet start, saturated to int64. */
  lemma ReceivedOffsets(d: Draft, ev: ClientEvent)
    ensures ToPbEvent(ev, d.start).timestampOffsetNs == Sub(ev.timestamp, d.start)
    ensures MinInt64 <= ev.timestamp - d.start <= MaxInt64 ==> ToPbEvent(ev, d.start).timestampOffsetNs == ev.timestamp - d.start
  {
  }

  // -------------------------------------------------------------- listener

  /** The remote end of a datagram. */
  datatype Addr = Addr(ip: seq<byte>, port: nat)

  /** What the socket read reports: a datagram and its sender, or an error. */
  datatype Incoming = Received(datagram: seq<byte>, from: Addr) | ReadFailed(err: string)

  class UDPListener {
    const addr: GoString
    /** The pooled receive buffer; reads overwrite its prefix and leave the rest as it was. */
    const buf: array<byte>

    ghost predicate Valid()
      reads this
    {
      buf.Length == BufferSize
    }

    /** ListenUDP: the pool hands out buffers of 10*1024 bytes. */
    constructor (addr: GoString)
      ensures Valid() && this.addr == addr && fresh(buf)
    {
      this.addr := addr;
      buf := new byte[BufferSize](_ => 0);
    }

    /**
     * Next: read one datagram into the buffer (a datagram longer than the
     * buffer is cut to it) and parse the bytes read.  A read error comes
     * back without a source; a parse error comes back with the source.
     */
    method Next(incoming: Incoming) returns (packet: Option<Packet>, source: Option<Addr>, err: Option<string>)
      requires Valid()
      modifies buf
      ensures Valid()
      ensures incoming.ReadFailed? ==> packet == None && source == None && err == Some(incoming.err) && buf[..] == old(buf[..])
      ensures incoming.Received? ==>
        var n := if |incoming.datagram| < BufferSize then |incoming.datagram| else BufferSize;
        buf[..n] == incoming.datagram[..n] && buf[n..] == old(buf[n..])
        && source == Some(incoming.from)
        && match ParsePacket(n, incoming.datagram[..n])
           case Ok(p) => packet == Some(p) && err == None
           case Err(e) => packet == None && err == Some(e)
    {
      if incoming.ReadFailed? {
        return None, None, Some(incoming.err);
      }
      var data := incoming.datagram;
      var n := if |data| < buf.Length then |data| else buf.Length;
      var i := 0;
      while i < n
        invariant 0 <= i <= n
        invariant buf[..i] == data[..i] && buf[i..] == old(buf[i..])
      {
        buf[i] := data[i];
        i := i + 1;
        assert buf[..i] == buf[..i - 1] + [data[i - 1]];
      }
      source := Some(incoming.from);
      ParsePacketIgnoresTail(n, buf[..], data[..n]);
      var r := ParsePacket(n, buf[..]);
      match r {
        case Ok(p) =>
          packet, err := Some(p), None;
        case Err(e) =>
          packet, err := None, Some(e);
      }
    }
  }
}
