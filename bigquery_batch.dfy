/**
 * The batching destination of the BigQuery sink
 * (eventkitd-bigquery/bigquery/batch.go).
 *
 * Submit takes one event and, when the bounded queue is full, counts it in
 * an atomic drop counter instead; at the top of every loop iteration the
 * run loop moves a positive drop count to the "dropped_events" metric.  The
 * buffer, the ticks and the shutdown drain are those of the Batching
 * module.
 */
module BigQueryBatch {
  import opened Clock
  import opened Batching
  import Client

  /**
   * The queue, the atomic drop counter, the "dropped_events" metric and the
   * buffer.
   */
  datatype QueueState = QueueState(queue: seq<Event>, dropped: nat, reported: nat, batcher: Batcher)

  /** Submit: queue the event when there is room, otherwise count it as dropped. */
  function Offer(s: QueueState, event: Event, queueSize: int): QueueState
  {
    if |s.queue| < queueSize then s.(queue := s.queue + [event]) else s.(dropped := s.dropped + 1)
  }

  /** The top of the loop: a positive drop count moves to the metric and the counter goes back by as much. */
  function DropsCheck(s: QueueState): QueueState
  {
    var drops := s.dropped;
    if drops > 0 then s.(reported := s.reported + drops, dropped := s.dropped - drops) else s
  }

  /** What happens around the run loop, in order: Submit calls and loop wake-ups. */
  datatype Signal = Submitted(event: Event) | Woken(choice: Client.Choice)

  /**
   * One signal.  A wake-up runs the ready select case and then the top of
   * the next iteration, the drops check, unless the case ended the loop; a
   * Receive wake-up with nothing queued is not a ready case.
   */
  function Step(s: QueueState, sig: Signal, queueSize: int, threshold: int): (QueueState, bool)
  {
    match sig
    case Submitted(event) => (Offer(s, event, queueSize), false)
    case Woken(choice) =>
      if choice == Client.Receive && |s.queue| == 0 then (s, false)
      else
        var (q', b', done) := Select(s.queue, s.batcher, choice, threshold);
        var s' := s.(queue := q', batcher := b');
        if done then (s', true) else (DropsCheck(s'), false)
  }

  function Loop(s: QueueState, sigs: seq<Signal>, queueSize: int, threshold: int): QueueState
    decreases |sigs|
  {
    if sigs == [] then s
    else
      var (s', done) := Step(s, sigs[0], queueSize, threshold);
      if done then s' else Loop(s', sigs[1..], queueSize, threshold)
  }

  /** Run over a schedule of signals: the first drops check, then the signals up to cancellation. */
  function RunSteps(s: QueueState, sigs: seq<Signal>, queueSize: int, threshold: int): QueueState
  {
    Loop(DropsCheck(s), sigs, queueSize, threshold)
  }

  /** The number of events submitted before the loop is cancelled. */
  function Offered(sigs: seq<Signal>): nat
    decreases |sigs|
  {
    if sigs == [] then 0
    else match sigs[0]
      case Submitted(_) => 1 + Offered(sigs[1..])
      case Woken(choice) => if choice == Client.Cancel then 0 else Offered(sigs[1..])
  }

  /** Whether the schedule cancels the loop. */
  predicate Cancelled(sigs: seq<Signal>)
  {
    exists i :: 0 <= i < |sigs| && sigs[i] == Woken(Client.Cancel)
  }

  /** What has reached the queue so far: everything held, or once cancelled everything forwarded. */
  function Delivered(s: QueueState, cancelled: bool): seq<Event>
  {
    if cancelled then Flatten(s.batcher.forwarded) else Holding(s.queue, s.batcher)
  }

  // ------------------------------------------------------------ properties

  /** The drops check loses no drop: it moves the whole count to the metric and leaves the rest of the state alone. */
  lemma DropsCheckMoves(s: QueueState)
    ensures var s' := DropsCheck(s);
      s'.dropped == 0 && s'.reported == s.reported + s.dropped
      && s'.queue == s.queue && s'.batcher == s.batcher
  {
  }

  /**
   * One signal ends the loop exactly on cancellation, keeps the queue
   * within its capacity (empty once cancelled), keeps what the queue holds
   * in order, and counts a submitted event either as held or as dropped,
   * whether still pending or already in the metric.  After a wake-up that
   * does not end the loop nothing is pending.
   */
  lemma StepAccounts(s: QueueState, sig: Signal, queueSize: int, threshold: int)
    requires |s.queue| <= queueSize
    ensures var (s', done) := Step(s, sig, queueSize, threshold);
      var h := Holding(s.queue, s.batcher);
      var h' := Delivered(s', done);
      var n := if sig.Submitted? then 1 else 0;
      (done <==> sig == Woken(Client.Cancel))
      && (!done ==> |s'.queue| <= queueSize)
      && (done ==> s'.queue == [])
      && |h| <= |h'| && h'[..|h|] == h
      && s'.dropped + s'.reported + |h'| == s.dropped + s.reported + n + |h|
      && (sig.Woken? && !done && (sig.choice != Client.Receive || |s.queue| > 0) ==> s'.dropped == 0)
  {
    var h := Holding(s.queue, s.batcher);
    match sig
    case Submitted(event) =>
      if |s.queue| < queueSize {
        assert Holding(s.queue + [event], s.batcher) == h + [event];
        assert (h + [event])[..|h|] == h;
      } else {
        assert h[..|h|] == h;
      }
    case Woken(choice) =>
      if choice == Client.Receive && |s.queue| == 0 {
        assert h[..|h|] == h;
      } else {
        SelectKeeps(s.queue, s.batcher, choice, threshold);
        assert h[..|h|] == h;
      }
  }

  lemma PrefixChain(a: seq<Event>, b: seq<Event>, c: seq<Event>)
    requires |a| <= |b| && b[..|a|] == a && |b| <= |c| && c[..|b|] == b
    ensures |a| <= |c| && c[..|a|] == a
  {
    assert c[..|a|] == c[..|b|][..|a|];
  }

  lemma CancelledTail(sigs: seq<Signal>)
    requires |sigs| > 0 && sigs[0] != Woken(Client.Cancel)
    ensures Cancelled(sigs) <==> Cancelled(sigs[1..])
  {
    if Cancelled(sigs) {
      var i :| 0 <= i < |sigs| && sigs[i] == Woken(Client.Cancel);
      assert i > 0 && sigs[1..][i - 1] == sigs[i];
    }
    if Cancelled(sigs[1..]) {
      var i :| 0 <= i < |sigs[1..]| && sigs[1..][i] == Woken(Client.Cancel);
      assert sigs[i + 1] == sigs[1..][i];
    }
  }

  lemma {:induction false} LoopAccounts(s: QueueState, sigs: seq<Signal>, queueSize: int, threshold: int)
    requires |s.queue| <= queueSize
    ensures var s' := Loop(s, sigs, queueSize, threshold);
      var h := Holding(s.queue, s.batcher);
      var h' := Delivered(s', Cancelled(sigs));
      |h| <= |h'| && h'[..|h|] == h
      && s'.dropped + s'.reported + |h'| == s.dropped + s.reported + Offered(sigs) + |h|
      && (Cancelled(sigs) ==> s'.queue == [])
    decreases |sigs|
  {
    var h := Holding(s.queue, s.batcher);
    if sigs == [] {
      assert h[..|h|] == h;
      assert !Cancelled(sigs);
    } else {
      StepAccounts(s, sigs[0], queueSize, threshold);
      var (s1, done) := Step(s, sigs[0], queueSize, threshold);
      if done {
        assert Cancelled(sigs);
      } else {
        LoopAccounts(s1, sigs[1..], queueSize, threshold);
        CancelledTail(sigs);
        PrefixChain(h, Holding(s1.queue, s1.batcher), Delivered(Loop(s1, sigs[1..], queueSize, threshold), Cancelled(sigs)));
      }
    }
  }

  /**
   * Over any schedule, nothing submitted is lost: what the queue held is
   * kept in order, and every event submitted before cancellation is either
   * held (forwarded, once cancelled) or counted as dropped, in the pending
   * counter or in the metric.  A cancelled loop ends with an empty queue.
   */
  lemma RunAccounts(s: QueueState, sigs: seq<Signal>, queueSize: int, threshold: int)
    requires |s.queue| <= queueSize
    ensures var s' := RunSteps(s, sigs, queueSize, threshold);
      var h := Holding(s.queue, s.batcher);
      var h' := Delivered(s', Cancelled(sigs));
      |h| <= |h'| && h'[..|h|] == h
      && s'.dropped + s'.reported + |h'| == s.dropped + s.reported + Offered(sigs) + |h|
      && (Cancelled(sigs) ==> s'.queue == [])
  {
    DropsCheckMoves(s);
    LoopAccounts(DropsCheck(s), sigs, queueSize, threshold);
  }

  // --------------------------------------------------- the test's scenario

  function Submits(evs: seq<Event>): (sigs: seq<Signal>)
    ensures |sigs| == |evs| && forall i :: 0 <= i < |evs| ==> sigs[i] == Submitted(evs[i])
  {
    seq(|evs|, i requires 0 <= i < |evs| => Submitted(evs[i]))
  }

  function Receives(k: nat): (sigs: seq<Signal>)
    ensures |sigs| == k && forall i :: 0 <= i < k ==> sigs[i] == Woken(Client.Receive)
  {
    seq(k, _ => Woken(Client.Receive))
  }

  /** Submitting into a queue with room for all of them queues every event, in order. */
  lemma {:induction false} SubmitsQueue(s: QueueState, evs: seq<Event>, queueSize: int, threshold: int)
    requires |s.queue| + |evs| <= queueSize
    ensures Loop(s, Submits(evs), queueSize, threshold) == s.(queue := s.queue + evs)
    decreases |evs|
  {
    if evs == [] {
      assert s.queue + evs == s.queue;
    } else {
      var s1 := s.(queue := s.queue + [evs[0]]);
      assert Submits(evs)[1..] == Submits(evs[1..]);
      SubmitsQueue(s1, evs[1..], queueSize, threshold);
      assert s1.queue + evs[1..] == s.queue + evs;
    }
  }

  /** Each Receive wake-up takes the oldest queued event into the buffer; nothing was dropped meanwhile. */
  lemma {:induction false} ReceivesAccept(s: QueueState, k: nat, queueSize: int, threshold: int)
    requires k <= |s.queue| && s.dropped == 0
    ensures var s' := Loop(s, Receives(k), queueSize, threshold);
      s'.queue == s.queue[k..] && s'.batcher == AcceptAll(s.batcher, s.queue[..k], threshold)
      && s'.dropped == 0 && s'.reported == s.reported
    decreases k
  {
    if k > 0 {
      var s1 := s.(queue := s.queue[1..], batcher := Accept(s.batcher, s.queue[0], threshold));
      assert Receives(k)[1..] == Receives(k - 1);
      ReceivesAccept(s1, k - 1, queueSize, threshold);
      assert s.queue[1..][k - 1..] == s.queue[k..];
      assert s.queue[..k][1..] == s.queue[1..][..k - 1];
    }
  }

  /** Events submitted into a queue with room for all of them and then received reach the buffer, in order. */
  lemma SubmitThenReceive(evs: seq<Event>, queueSize: int, threshold: int)
    requires |evs| <= queueSize
    ensures RunSteps(QueueState([], 0, 0, Empty), Submits(evs) + Receives(|evs|), queueSize, threshold)
            == QueueState([], 0, 0, AcceptAll(Empty, evs, threshold))
  {
    var s0 := QueueState([], 0, 0, Empty);
    assert DropsCheck(s0) == s0;
    LoopAppend(s0, Submits(evs), Receives(|evs|), queueSize, threshold);
    SubmitsQueue(s0, evs, queueSize, threshold);
    assert [] + evs == evs;
    ReceivesAccept(s0.(queue := evs), |evs|, queueSize, threshold);
    assert evs[..|evs|] == evs && evs[|evs|..] == [];
  }

  /**
   * The scenario of the package's test: with room for 1000 events and
   * batches of 10, 25 submitted events are forwarded as two batches of 10
   * once the loop has received them, and 5 stay in the buffer.
   */
  lemma TwentyFiveSubmitsTwoBatches(evs: seq<Event>)
    requires |evs| == 25
    ensures var s := RunSteps(QueueState([], 0, 0, Empty), Submits(evs) + Receives(25), 1000, 10);
      |s.batcher.forwarded| == 2 && |s.batcher.forwarded[0]| == 10 && |s.batcher.forwarded[1]| == 10
      && |s.batcher.buffer| == 5 && s.queue == [] && s.dropped == 0 && s.reported == 0
  {
    SubmitThenReceive(evs, 1000, 10);
    TwentyFiveInBatchesOfTen(evs);
  }

  /** A schedule without cancellation runs to its end, so the next one continues from its state. */
  lemma {:induction false} LoopAppend(s: QueueState, a: seq<Signal>, b: seq<Signal>, queueSize: int, threshold: int)
    requires forall i :: 0 <= i < |a| ==> a[i] != Woken(Client.Cancel)
    ensures Loop(s, a + b, queueSize, threshold) == Loop(Loop(s, a, queueSize, threshold), b, queueSize, threshold)
    decreases |a|
  {
    if a == [] {
      assert a + b == b;
    } else {
      assert (a + b)[0] == a[0] && (a + b)[1..] == a[1..] + b;
      var (s1, done) := Step(s, a[0], queueSize, threshold);
      LoopAppend(s1, a[1..], b, queueSize, threshold);
    }
  }

  // ------------------------------------------------------------ the queue

  class BatchQueue {
    const batchThreshold: int
    const flushInterval: Duration
    const queueSize: int
    /** The events Submit has queued and Run has not taken yet. */
    var submitQueue: seq<Event>
    /** The buffer of the batch being collected. */
    var events: seq<Event>
    /** The batches handed to the target's Submit, in order. */
    var forwarded: seq<seq<Event>>
    /** The atomic drop counter. */
    var droppedEvents: nat
    /** The "dropped_events" metric. */
    var reported: nat

    function State(): QueueState
      reads this
    {
      QueueState(submitQueue, droppedEvents, reported, Batcher(events, forwarded))
    }

    /** NewBatchQueue: an empty queue of the given capacity and an empty buffer. */
    constructor (queueSize: int, batchSize: int, flushInterval: Duration)
      requires queueSize >= 0
      ensures this.queueSize == queueSize && batchThreshold == batchSize && this.flushInterval == flushInterval
      ensures State() == QueueState([], 0, 0, Empty)
    {
      this.queueSize := queueSize;
      batchThreshold := batchSize;
      this.flushInterval := flushInterval;
      submitQueue := [];
      events := [];
      forwarded := [];
      droppedEvents := 0;
      reported := 0;
    }

    /** addEvent: append the event and report whether the buffer has reached the threshold. */
    method AddEvent(ev: Event) returns (full: bool)
      modifies this
      ensures events == old(events) + [ev] && full == IsFull(events, batchThreshold)
      ensures submitQueue == old(submitQueue) && forwarded == old(forwarded)
      ensures droppedEvents == old(droppedEvents) && reported == old(reported)
    {
      events := events + [ev];
      full := |events| >= batchThreshold;
    }

    /** sendAndReset: hand the buffer to the target and start an empty one. */
    method SendAndReset()
      modifies this
      ensures Batcher(events, forwarded) == Batching.SendAndReset(old(Batcher(events, forwarded)))
      ensures submitQueue == old(submitQueue) && droppedEvents == old(droppedEvents) && reported == old(reported)
    {
      var eventsToSend := events;
      events := [];
      forwarded := forwarded + [eventsToSend];
    }

    /** Submit: queue the event if there is room, otherwise count it as dropped. */
    method Submit(event: Event)
      modifies this
      ensures State() == Offer(old(State()), event, queueSize)
    {
      if |submitQueue| < queueSize {
        submitQueue := submitQueue + [event];
        return;
      }
      droppedEvents := droppedEvents + 1;
    }

    /** The top of the loop: move a positive drop count to the metric. */
    method CheckDrops()
      modifies this
      ensures State() == DropsCheck(old(State()))
    {
      var drops := droppedEvents;
      if drops > 0 {
        reported := reported + drops;
        droppedEvents := droppedEvents - drops;
      }
    }

    /** Cancellation: add the events queued now, then hand a non-empty buffer to the target. */
    method Drain()
      modifies this
      ensures submitQueue == [] && droppedEvents == old(droppedEvents) && reported == old(reported)
      ensures Batcher(events, forwarded) == FinalSend(AcceptAll(old(Batcher(events, forwarded)), old(submitQueue), batchThreshold))
    {
      ghost var b0 := Batcher(events, forwarded);
      ghost var q0 := submitQueue;
      var left := |submitQueue|;
      var i := 0;
      while i < left
        invariant 0 <= i <= left && submitQueue == q0[i..]
        invariant droppedEvents == old(droppedEvents) && reported == old(reported)
        invariant Batcher(events, forwarded) == AcceptAll(b0, q0[..i], batchThreshold)
      {
        AcceptAllSnoc(b0, q0[..i], q0[i], batchThreshold);
        assert q0[..i + 1] == q0[..i] + [q0[i]];
        var em := submitQueue[0];
        submitQueue := submitQueue[1..];
        var full := AddEvent(em);
        if full {
          SendAndReset();
        }
        i := i + 1;
      }
      assert q0[..left] == q0;
      if |events| > 0 {
        forwarded := forwarded + [events];
      }
    }

    /** One select whose case is ready; `done` when Run returns. */
    method Iterate(choice: Client.Choice) returns (done: bool)
      requires choice == Client.Receive ==> |submitQueue| > 0
      modifies this
      ensures (submitQueue, Batcher(events, forwarded), done)
              == Select(old(submitQueue), old(Batcher(events, forwarded)), choice, batchThreshold)
      ensures droppedEvents == old(droppedEvents) && reported == old(reported)
    {
      done := false;
      match choice
      case Receive =>
        var em := submitQueue[0];
        submitQueue := submitQueue[1..];
        var full := AddEvent(em);
        if full {
          SendAndReset();
        }
      case Tick =>
        if |events| > 0 {
          SendAndReset();
        }
      case Cancel =>
        Drain();
        done := true;
    }

    /** Run over a schedule: Submit calls and loop wake-ups in the given order, up to cancellation. */
    method Run(sigs: seq<Signal>)
      modifies this
      ensures State() == RunSteps(old(State()), sigs, queueSize, batchThreshold)
    {
      ghost var final := RunSteps(State(), sigs, queueSize, batchThreshold);
      CheckDrops();
      var n := 0;
      var done := false;
      while n < |sigs| && !done
        invariant 0 <= n <= |sigs|
        invariant !done ==> Loop(State(), sigs[n..], queueSize, batchThreshold) == final
        invariant done ==> State() == final
        decreases |sigs| - n
      {
        assert sigs[n..][1..] == sigs[n + 1..];
        match sigs[n] {
          case Submitted(event) =>
            Submit(event);
          case Woken(choice) =>
            if choice != Client.Receive || |submitQueue| > 0 {
              done := Iterate(choice);
              if !done {
                CheckDrops();
              }
            }
        }
        n := n + 1;
      }
    }
  }
}
