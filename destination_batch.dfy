/**
 * The batching destination of the client library (destination/batch.go).
 *
 * Submit offers every event to a bounded queue and counts each one that
 * finds it full in the "dropped_events" counter; the run loop takes queued
 * events into the buffer of the shared Batching module and hands full
 * buffers, and on a tick any non-empty buffer, to the target destination.
 */
module DestinationBatch {
  import opened Clock
  import opened Batching
  import Client

  /** The queue, the "dropped_events" counter and the buffer, the state Submit shares with Run. */
  datatype QueueState = QueueState(queue: seq<Event>, dropped: nat, batcher: Batcher)

  /** Submit: each event joins the queue while it has room; each one that does not is counted as dropped. */
  function Offer(s: QueueState, events: seq<Event>, queueSize: int): QueueState
    decreases |events|
  {
    if events == [] then s
    else if |s.queue| < queueSize then Offer(s.(queue := s.queue + [events[0]]), events[1..], queueSize)
    else Offer(s.(dropped := s.dropped + 1), events[1..], queueSize)
  }

  /** What happens around the run loop, in order: Submit calls and loop wake-ups. */
  datatype Signal = Submitted(events: seq<Event>) | Woken(choice: Client.Choice)

  /** One signal; a Receive wake-up with nothing queued is not a ready case and changes nothing. */
  function Step(s: QueueState, sig: Signal, queueSize: int, threshold: int): (QueueState, bool)
  {
    match sig
    case Submitted(events) => (Offer(s, events, queueSize), false)
    case Woken(choice) =>
      if choice == Client.Receive && |s.queue| == 0 then (s, false)
      else
        var (q', b', done) := Select(s.queue, s.batcher, choice, threshold);
        (QueueState(q', s.dropped, b'), done)
  }

  /** The run loop over a schedule of signals, up to the cancellation that ends it. */
  function RunSteps(s: QueueState, sigs: seq<Signal>, queueSize: int, threshold: int): QueueState
    decreases |sigs|
  {
    if sigs == [] then s
    else
      var (s', done) := Step(s, sigs[0], queueSize, threshold);
      if done then s' else RunSteps(s', sigs[1..], queueSize, threshold)
  }

  /** The number of events submitted before the loop is cancelled. */
  function Offered(sigs: seq<Signal>): nat
    decreases |sigs|
  {
    if sigs == [] then 0
    else match sigs[0]
      case Submitted(events) => |events| + Offered(sigs[1..])
      case Woken(choice) => if choice == Client.Cancel then 0 else Offered(sigs[1..])
  }

  /** Whether the schedule cancels the loop. */
  predicate Cancelled(sigs: seq<Signal>)
  {
    exists i :: 0 <= i < |sigs| && sigs[i] == Woken(Client.Cancel)
  }

  /** What has reached the queue so far: everything held, or once cancelled everything forwarded. */
  function Delivered(s: QueueState, cancelled: bool): seq<Event>
  {
    if cancelled then Flatten(s.batcher.forwarded) else Holding(s.queue, s.batcher)
  }

  // ------------------------------------------------------------ properties

  /** Submit accounts for every event: the queue takes them in order while it has room, the rest are counted. */
  lemma {:induction false} OfferAccounts(s: QueueState, events: seq<Event>, queueSize: int)
    requires |s.queue| <= queueSize
    ensures var k := if |events| <= queueSize - |s.queue| then |events| else queueSize - |s.queue|;
      var s' := Offer(s, events, queueSize);
      s'.queue == s.queue + events[..k] && s'.dropped == s.dropped + (|events| - k) && s'.batcher == s.batcher
    decreases |events|
  {
    if events != [] {
      var k := if |events| <= queueSize - |s.queue| then |events| else queueSize - |s.queue|;
      if |s.queue| < queueSize {
        OfferAccounts(s.(queue := s.queue + [events[0]]), events[1..], queueSize);
        assert s.queue + [events[0]] + events[1..][..k - 1] == s.queue + events[..k];
      } else {
        OfferAccounts(s.(dropped := s.dropped + 1), events[1..], queueSize);
        assert events[..0] == [] && events[1..][..0] == [];
      }
    }
  }

  /**
   * One signal ends the loop exactly on cancellation, keeps the queue
   * within its capacity (empty once cancelled), keeps what the queue holds
   * in order, and counts every submitted event either as held or as
   * dropped.
   */
  lemma StepAccounts(s: QueueState, sig: Signal, queueSize: int, threshold: int)
    requires |s.queue| <= queueSize
    ensures var (s', done) := Step(s, sig, queueSize, threshold);
      var h := Holding(s.queue, s.batcher);
      var h' := Delivered(s', done);
      var n := if sig.Submitted? then |sig.events| else 0;
      (done <==> sig == Woken(Client.Cancel))
      && (!done ==> |s'.queue| <= queueSize)
      && (done ==> s'.queue == [])
      && |h| <= |h'| && h'[..|h|] == h
      && s'.dropped + |h'| == s.dropped + n + |h|
  {
    var h := Holding(s.queue, s.batcher);
    match sig
    case Submitted(events) =>
      OfferAccounts(s, events, queueSize);
      var s' := Offer(s, events, queueSize);
      var k := |s'.queue| - |s.queue|;
      assert Holding(s'.queue, s'.batcher) == h + events[..k];
      assert (h + events[..k])[..|h|] == h;
    case Woken(choice) =>
      if choice == Client.Receive && |s.queue| == 0 {
        assert h[..|h|] == h;
      } else {
        SelectKeeps(s.queue, s.batcher, choice, threshold);
        assert h[..|h|] == h;
      }
  }

  lemma PrefixChain(a: seq<Event>, b: seq<Event>, c: seq<Event>)
    requires |a| <= |b| && b[..|a|] == a && |b| <= |c| && c[..|b|] == b
    ensures |a| <= |c| && c[..|a|] == a
  {
    assert c[..|a|] == c[..|b|][..|a|];
  }

  /** A schedule that does not start with cancellation cancels exactly when its tail does. */
  lemma CancelledTail(sigs: seq<Signal>)
    requires |sigs| > 0 && sigs[0] != Woken(Client.Cancel)
    ensures Cancelled(sigs) <==> Cancelled(sigs[1..])
  {
    if Cancelled(sigs) {
      var i :| 0 <= i < |sigs| && sigs[i] == Woken(Client.Cancel);
      assert i > 0 && sigs[1..][i - 1] == sigs[i];
    }
    if Cancelled(sigs[1..]) {
      var i :| 0 <= i < |sigs[1..]| && sigs[1..][i] == Woken(Client.Cancel);
      assert sigs[i + 1] == sigs[1..][i];
    }
  }

  /**
   * Over any schedule, nothing submitted is lost: what the queue held is
   * kept in order, and every event submitted before cancellation is either
   * held (forwarded, once cancelled) or counted in "dropped_events".  A
   * cancelled loop ends with an empty queue.
   */
  lemma {:induction false} RunAccounts(s: QueueState, sigs: seq<Signal>, queueSize: int, threshold: int)
    requires |s.queue| <= queueSize
    ensures var s' := RunSteps(s, sigs, queueSize, threshold);
      var h := Holding(s.queue, s.batcher);
      var h' := Delivered(s', Cancelled(sigs));
      |h| <= |h'| && h'[..|h|] == h
      && s'.dropped + |h'| == s.dropped + Offered(sigs) + |h|
      && (Cancelled(sigs) ==> s'.queue == [])
    decreases |sigs|
  {
    var h := Holding(s.queue, s.batcher);
    if sigs == [] {
      assert h[..|h|] == h;
      assert !Cancelled(sigs);
    } else {
      StepAccounts(s, sigs[0], queueSize, threshold);
      var (s1, done) := Step(s, sigs[0], queueSize, threshold);
      if done {
        assert Cancelled(sigs);
      } else {
        RunAccounts(s1, sigs[1..], queueSize, threshold);
        CancelledTail(sigs);
        PrefixChain(h, Holding(s1.queue, s1.batcher), Delivered(RunSteps(s1, sigs[1..], queueSize, threshold), Cancelled(sigs)));
      }
    }
  }

  /** With a batch size of at most 1, every event is forwarded on its own as soon as it is received. */
  lemma ThresholdOneForwardsEach(s: QueueState, queueSize: int, threshold: int)
    requires threshold <= 1 && |s.queue| > 0
    ensures var (s', _) := Step(s, Woken(Client.Receive), queueSize, threshold);
      s'.batcher == Batcher([], s.batcher.forwarded + [s.batcher.buffer + [s.queue[0]]])
  {
  }

  // ------------------------------------------------------------ the queue

  class BatchQueue {
    const batchThreshold: int
    const flushInterval: Duration
    const queueSize: int
    /** The events Submit has queued and Run has not taken yet. */
    var submitQueue: seq<Event>
    /** The buffer of the batch being collected. */
    var events: seq<Event>
    /** The batches handed to the target's Submit, in order. */
    var forwarded: seq<seq<Event>>
    /** The "dropped_events" counter. */
    var dropped: nat

    function State(): QueueState
      reads this
    {
      QueueState(submitQueue, dropped, Batcher(events, forwarded))
    }

    /** NewBatchQueue: an empty queue of the given capacity and an empty buffer. */
    constructor (queueSize: int, batchSize: int, flushInterval: Duration)
      requires queueSize >= 0
      ensures this.queueSize == queueSize && batchThreshold == batchSize && this.flushInterval == flushInterval
      ensures submitQueue == [] && events == [] && forwarded == [] && dropped == 0
    {
      this.queueSize := queueSize;
      batchThreshold := batchSize;
      this.flushInterval := flushInterval;
      submitQueue := [];
      events := [];
      forwarded := [];
      dropped := 0;
    }

    /** addEvent: append the event and report whether the buffer has reached the threshold. */
    method AddEvent(ev: Event) returns (full: bool)
      modifies this
      ensures events == old(events) + [ev] && full == IsFull(events, batchThreshold)
      ensures submitQueue == old(submitQueue) && forwarded == old(forwarded) && dropped == old(dropped)
    {
      events := events + [ev];
      full := |events| >= batchThreshold;
    }

    /** sendAndReset: hand the buffer to the target and start an empty one. */
    method SendAndReset()
      modifies this
      ensures Batcher(events, forwarded) == Batching.SendAndReset(old(Batcher(events, forwarded)))
      ensures submitQueue == old(submitQueue) && dropped == old(dropped)
    {
      var eventsToSend := events;
      events := [];
      forwarded := forwarded + [eventsToSend];
    }

    /** Submit: offer every event to the queue, counting each one that finds it full. */
    method Submit(evs: seq<Event>)
      modifies this
      ensures State() == Offer(old(State()), evs, queueSize)
    {
      var n := 0;
      while n < |evs|
        invariant 0 <= n <= |evs|
        invariant Offer(State(), evs[n..], queueSize) == Offer(old(State()), evs, queueSize)
        invariant events == old(events) && forwarded == old(forwarded)
      {
        assert evs[n..][1..] == evs[n + 1..];
        if |submitQueue| < queueSize {
          submitQueue := submitQueue + [evs[n]];
        } else {
          dropped := dropped + 1;
        }
        n := n + 1;
      }
    }

    /** Cancellation: add the events queued now, then hand a non-empty buffer to the target. */
    method Drain()
      modifies this
      ensures submitQueue == [] && dropped == old(dropped)
      ensures Batcher(events, forwarded) == FinalSend(AcceptAll(old(Batcher(events, forwarded)), old(submitQueue), batchThreshold))
    {
      ghost var b0 := Batcher(events, forwarded);
      ghost var q0 := submitQueue;
      var left := |submitQueue|;
      var i := 0;
      while i < left
        invariant 0 <= i <= left && submitQueue == q0[i..] && dropped == old(dropped)
        invariant Batcher(events, forwarded) == AcceptAll(b0, q0[..i], batchThreshold)
      {
        AcceptAllSnoc(b0, q0[..i], q0[i], batchThreshold);
        assert q0[..i + 1] == q0[..i] + [q0[i]];
        var em := submitQueue[0];
        submitQueue := submitQueue[1..];
        var full := AddEvent(em);
        if full {
          SendAndReset();
        }
        i := i + 1;
      }
      assert q0[..left] == q0;
      if |events| > 0 {
        forwarded := forwarded + [events];
      }
    }

    /** One loop iteration whose select case is ready; `done` when Run returns. */
    method Iterate(choice: Client.Choice) returns (done: bool)
      requires choice == Client.Receive ==> |submitQueue| > 0
      modifies this
      ensures (submitQueue, Batcher(events, forwarded), done)
              == Select(old(submitQueue), old(Batcher(events, forwarded)), choice, batchThreshold)
      ensures dropped == old(dropped)
    {
      done := false;
      match choice
      case Receive =>
        var em := submitQueue[0];
        submitQueue := submitQueue[1..];
        var full := AddEvent(em);
        if full {
          SendAndReset();
        }
      case Tick =>
        if |events| > 0 {
          SendAndReset();
        }
      case Cancel =>
        Drain();
        done := true;
    }

    /** Run over a schedule: Submit calls and loop wake-ups in the given order, up to cancellation. */
    method Run(sigs: seq<Signal>)
      modifies this
      ensures State() == RunSteps(old(State()), sigs, queueSize, batchThreshold)
    {
      ghost var final := RunSteps(State(), sigs, queueSize, batchThreshold);
      var n := 0;
      var done := false;
      while n < |sigs| && !done
        invariant 0 <= n <= |sigs|
        invariant !done ==> RunSteps(State(), sigs[n..], queueSize, batchThreshold) == final
        invariant done ==> State() == final
        decreases |sigs| - n
      {
        assert sigs[n..][1..] == sigs[n + 1..];
        match sigs[n] {
          case Submitted(evs) =>
            Submit(evs);
          case Woken(choice) =>
            if choice != Client.Receive || |submitQueue| > 0 {
              done := Iterate(choice);
            }
        }
        n := n + 1;
      }
    }
  }
}
