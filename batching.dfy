/**
 * The buffer shared by the two BatchQueue destinations
 * (destination/batch.go and eventkitd-bigquery/bigquery/batch.go).
 *
 * Both queues append each received event to a buffer and report it full
 * as soon as its length reaches the batch threshold; a full buffer is
 * handed whole to the target destination and replaced by an empty one.
 * A tick forwards a non-empty buffer, and shutdown forwards what is left.
 * The target's Submit calls are recorded as the sequence of batches it
 * received.
 */
module Batching {
  import Client

  type Event = Client.ClientEvent

  /** The buffer of events and the batches forwarded to the target so far. */
  datatype Batcher = Batcher(buffer: seq<Event>, forwarded: seq<seq<Event>>)

  const Empty := Batcher([], [])

  /** addEvent's answer: the buffer has reached the threshold. */
  function IsFull(buffer: seq<Event>, threshold: int): bool
  {
    |buffer| >= threshold
  }

  /** sendAndReset: the whole buffer goes to the target and an empty one replaces it. */
  function SendAndReset(b: Batcher): Batcher
  {
    Batcher([], b.forwarded + [b.buffer])
  }

  /** One received event: append it, and forward the buffer if that made it full. */
  function Accept(b: Batcher, ev: Event, threshold: int): Batcher
  {
    var buffer := b.buffer + [ev];
    if IsFull(buffer, threshold) then SendAndReset(b.(buffer := buffer)) else b.(buffer := buffer)
  }

  function AcceptAll(b: Batcher, evs: seq<Event>, threshold: int): Batcher
    decreases |evs|
  {
    if evs == [] then b else AcceptAll(Accept(b, evs[0], threshold), evs[1..], threshold)
  }

  /** A tick: forward the buffer only when it holds an event. */
  function Tick(b: Batcher): Batcher
  {
    if |b.buffer| > 0 then SendAndReset(b) else b
  }

  /** The submit after the shutdown drain: forward what is left, if anything. */
  function FinalSend(b: Batcher): Batcher
  {
    if |b.buffer| > 0 then b.(forwarded := b.forwarded + [b.buffer]) else b
  }

  /**
   * The select of one loop iteration, given the queued events: Receive
   * takes the oldest (it is ready only when one is queued), Tick forwards a
   * non-empty buffer, and cancellation drains the events queued at that
   * moment, forwards what is left and ends the loop (the boolean).
   */
  function Select(queue: seq<Event>, b: Batcher, choice: Client.Choice, threshold: int): (seq<Event>, Batcher, bool)
    requires choice == Client.Receive ==> |queue| > 0
  {
    match choice
    case Receive => (queue[1..], Accept(b, queue[0], threshold), false)
    case Tick => (queue, Tick(b), false)
    case Cancel => ([], FinalSend(AcceptAll(b, queue, threshold)), true)
  }

  /** What the queue holds and has forwarded, oldest first: the forwarded batches, the buffer, the queued events. */
  function Holding(queue: seq<Event>, b: Batcher): seq<Event>
  {
    Seen(b) + queue
  }

  function Flatten(bs: seq<seq<Event>>): seq<Event>
    decreases |bs|
  {
    if bs == [] then [] else Flatten(bs[..|bs| - 1]) + bs[|bs| - 1]
  }

  /** Every event the queue has received, in order: the forwarded batches, then the buffer. */
  function Seen(b: Batcher): seq<Event>
  {
    Flatten(b.forwarded) + b.buffer
  }

  /** The size every forwarded batch has: the threshold, or 1 when the threshold is below 1. */
  function BatchSize(threshold: int): nat
  {
    if threshold <= 1 then 1 else threshold
  }

  // ------------------------------------------------------------ properties

  lemma FlattenSnoc(bs: seq<seq<Event>>, x: seq<Event>)
    ensures Flatten(bs + [x]) == Flatten(bs) + x
  {
    assert (bs + [x])[..|bs|] == bs;
  }

  lemma AcceptSeen(b: Batcher, ev: Event, threshold: int)
    ensures Seen(Accept(b, ev, threshold)) == Seen(b) + [ev]
  {
    FlattenSnoc(b.forwarded, b.buffer + [ev]);
  }

  /** Nothing is lost or duplicated: the forwarded batches and the buffer hold every accepted event in FIFO order. */
  lemma {:induction false} AcceptAllSeen(b: Batcher, evs: seq<Event>, threshold: int)
    ensures Seen(AcceptAll(b, evs, threshold)) == Seen(b) + evs
    decreases |evs|
  {
    if evs != [] {
      AcceptSeen(b, evs[0], threshold);
      AcceptAllSeen(Accept(b, evs[0], threshold), evs[1..], threshold);
      assert Seen(b) + [evs[0]] + evs[1..] == Seen(b) + evs;
    }
  }

  /**
   * Batches have a fixed size: from a buffer shorter than the batch size,
   * accepting events only appends batches of exactly the batch size, keeps
   * the buffer shorter than it, and forwards (buffer + events) / size
   * batches.  With a threshold of at most 1 every event is its own batch.
   */
  lemma {:induction false} AcceptAllSizes(b: Batcher, evs: seq<Event>, threshold: int)
    requires |b.buffer| < BatchSize(threshold)
    ensures var b' := AcceptAll(b, evs, threshold);
      |b'.buffer| < BatchSize(threshold)
      && |b'.forwarded| >= |b.forwarded| && b'.forwarded[..|b.forwarded|] == b.forwarded
      && (forall i :: |b.forwarded| <= i < |b'.forwarded| ==> |b'.forwarded[i]| == BatchSize(threshold))
      && |b'.buffer| + BatchSize(threshold) * (|b'.forwarded| - |b.forwarded|) == |b.buffer| + |evs|
    decreases |evs|
  {
    if evs != [] {
      var n := BatchSize(threshold);
      var b1 := Accept(b, evs[0], threshold);
      AcceptSize(b, evs[0], threshold);
      var b' := AcceptAll(b1, evs[1..], threshold);
      assert b' == AcceptAll(b, evs, threshold);
      AcceptAllSizes(b1, evs[1..], threshold);
      assert b'.forwarded[..|b.forwarded|] == b.forwarded by {
        assert b'.forwarded[..|b1.forwarded|] == b1.forwarded;
        assert b'.forwarded[..|b.forwarded|] == b1.forwarded[..|b.forwarded|];
      }
      forall i | |b.forwarded| <= i < |b'.forwarded| ensures |b'.forwarded[i]| == n {
        if i < |b1.forwarded| {
          assert b'.forwarded[i] == b'.forwarded[..|b1.forwarded|][i];
        }
      }
    }
  }

  /** One event: the buffer stays below the batch size, and a forwarded batch has exactly that size. */
  lemma AcceptSize(b: Batcher, ev: Event, threshold: int)
    requires |b.buffer| < BatchSize(threshold)
    ensures var b1 := Accept(b, ev, threshold);
      |b1.buffer| < BatchSize(threshold)
      && (b1.forwarded == b.forwarded || (b1.forwarded == b.forwarded + [b.buffer + [ev]] && |b.buffer + [ev]| == BatchSize(threshold)))
      && |b1.buffer| + BatchSize(threshold) * (|b1.forwarded| - |b.forwarded|) == |b.buffer| + 1
  {
  }

  lemma {:induction false} AcceptAllSnoc(b: Batcher, evs: seq<Event>, ev: Event, threshold: int)
    ensures AcceptAll(b, evs + [ev], threshold) == Accept(AcceptAll(b, evs, threshold), ev, threshold)
    decreases |evs|
  {
    if evs == [] {
      assert [ev][1..] == [];
    } else {
      assert (evs + [ev])[1..] == evs[1..] + [ev];
      AcceptAllSnoc(Accept(b, evs[0], threshold), evs[1..], ev, threshold);
    }
  }

  /**
   * No select case loses or reorders an event: a Receive or a Tick keeps
   * what the queue holds, and cancellation forwards all of it and empties
   * the queue.
   */
  lemma SelectKeeps(queue: seq<Event>, b: Batcher, choice: Client.Choice, threshold: int)
    requires choice == Client.Receive ==> |queue| > 0
    ensures var (q', b', done) := Select(queue, b, choice, threshold);
      (done <==> choice == Client.Cancel)
      && (!done ==> Holding(q', b') == Holding(queue, b))
      && (done ==> q' == [] && Flatten(b'.forwarded) == Holding(queue, b))
  {
    match choice
    case Receive =>
      AcceptSeen(b, queue[0], threshold);
      assert [queue[0]] + queue[1..] == queue;
    case Tick =>
      TickSeen(b);
    case Cancel =>
      AcceptAllSeen(b, queue, threshold);
      FinalSendForwardsAll(AcceptAll(b, queue, threshold));
  }

  /** A tick forwards exactly a non-empty buffer and loses nothing. */
  lemma TickSeen(b: Batcher)
    ensures Seen(Tick(b)) == Seen(b)
    ensures |b.buffer| > 0 <==> Tick(b).forwarded == b.forwarded + [b.buffer]
    ensures Tick(b).buffer == []
  {
    if |b.buffer| > 0 {
      FlattenSnoc(b.forwarded, b.buffer);
    }
  }

  /** After the final send every received event has been forwarded. */
  lemma FinalSendForwardsAll(b: Batcher)
    ensures Flatten(FinalSend(b).forwarded) == Seen(b)
  {
    if |b.buffer| > 0 {
      FlattenSnoc(b.forwarded, b.buffer);
    } else {
      assert b.buffer == [];
    }
  }

  /** 25 events with batch size 10 reach the target as exactly two batches of 10, five events still buffered. */
  lemma TwentyFiveInBatchesOfTen(evs: seq<Event>)
    requires |evs| == 25
    ensures var b := AcceptAll(Empty, evs, 10);
      |b.forwarded| == 2 && |b.forwarded[0]| == 10 && |b.forwarded[1]| == 10 && |b.buffer| == 5
  {
    AcceptAllSizes(Empty, evs, 10);
  }
}
