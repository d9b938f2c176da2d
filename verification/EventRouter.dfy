/** The event router on the heap: pooled event objects cleared in place, a bounded channel, and the
    consumer goroutine's batch. Each method is one step, or a known run of steps, of the router. */
module EventRouter {
  import opened TelemetryEvents
  import opened Collections
  import BatchLoop
  import opened EventRouterSpec

  /** A pooled event object; `c` is its sixteen fields. */
  class Event {
    var c: Contents

    constructor ()
      ensures c == ZERO
    {
      c := ZERO;
    }

    /** The field-by-field clearing of `PutEvent`. */
    method Clear()
      modifies this
      ensures c == ZERO
      ensures c.id == 0 && c.typ == "" && c.timestamp == ZERO_TIME && c.processID == 0 && c.parentID == 0
      ensures c.binaryPath == c.sha256 == c.commandLine == c.username == c.filePath == c.fileAction == ""
      ensures c.protocol == c.localIP == c.remoteIP == "" && c.localPort == 0 && c.remotePort == 0
    {
      c := c.(id := 0);
      c := c.(typ := "");
      c := c.(timestamp := ZERO_TIME);
      c := c.(processID := 0);
      c := c.(parentID := 0);
      c := c.(binaryPath := "");
      c := c.(sha256 := "");
      c := c.(commandLine := "");
      c := c.(username := "");
      c := c.(filePath := "");
      c := c.(fileAction := "");
      c := c.(protocol := "");
      c := c.(localIP := "");
      c := c.(localPort := 0);
      c := c.(remoteIP := "");
      c := c.(remotePort := 0);
    }
  }

  /** What a router has done so far, for its specification only. */
  datatype History = History(
    accepted: seq<Event>, flushed: seq<seq<Event>>, delivered: seq<Event>, atExit: nat,
    submitted: nat, sent: seq<Contents>, handled: seq<Contents>)

  class Router {
    const capacity: nat
    var eventChan: seq<Event>
    var closed: bool
    var droppedEvents: nat
    var pool: set<Event>
    var batch: seq<Event>    // the consumer goroutine's own
    var writing: seq<Event>  // the part of a batch its flush has not dealt with
    var phase: BatchLoop.Phase
    ghost var known: set<Event>
    ghost var subs: seq<Submitter<Event>>
    ghost var past: History

    ghost function Mem(): map<Event, Contents>
      reads this, known
    {
      map e | e in known :: e.c
    }

    ghost function LoopView(): BatchLoop.Loop<Event>
      reads this
    {
      BatchLoop.Loop(capacity, eventChan, batch, writing, phase, closed, false,
                     past.accepted, past.flushed, past.delivered, past.atExit)
    }

    ghost function View(): State<Event>
      reads this, known
    {
      State(LoopView(), Mem(), pool, subs, past.submitted, droppedEvents, past.sent, past.handled)
    }

    constructor (capacity: nat, ghost submitters: nat)
      ensures View() == Init(capacity, submitters) && known == {}
    {
      this.capacity := capacity;
      eventChan, closed, droppedEvents, pool, batch, writing, phase := [], false, 0, {}, [], [], BatchLoop.Running;
      known, subs := {}, seq(submitters, _ => Idle);
      past := History([], [], [], 0, 0, [], []);
    }

    /** A cleared object: one from the pool, or a new one when the pool is empty. */
    method GetEvent(ghost i: nat) returns (e: Event)
      requires Good(View()) && i < |subs| && subs[i].Idle?
      modifies this
      ensures Enabled(old(View()), Get(i, e)) && View() == Apply(old(View()), Get(i, e))
      ensures e.c == ZERO && known == old(known) + {e} && (e in old(known) || fresh(e))
    {
      ghost var v := View();
      if pool != {} {
        e := Pick(pool);
        assert v.mem[e] == ZERO;
        pool := pool - {e};
      } else {
        e := new Event();
        known := known + {e};
      }
      subs := subs[i := Holding(e)];
      assert Mem() == Apply(v, Get(i, e)).mem;
    }

    /** Clear the object and give it back to the pool. */
    method PutEvent(e: Event)
      requires e in known
      modifies e, this`pool
      ensures View() == Recycle(old(View()), e)
    {
      ghost var m := Mem();
      e.Clear();
      pool := pool + {e};
      assert Mem() == m[e := ZERO];
    }

    /** The first half of `Submit`: the queue-length test. */
    method QueueTest(e: Event, ghost i: nat) returns (dropped: bool)
      requires e in known && i < |subs| && subs[i] == Holding(e)
      modifies this, e
      ensures known == old(known) && View() == Apply(old(View()), Check(i))
      ensures dropped <==> droppedEvents > old(droppedEvents)
      ensures dropped <==>
        old(e.c).typ == "file" && old(e.c).fileAction == "read" && 5 * (|old(eventChan)| + 1) > 4 * capacity
      ensures if dropped then subs[i].Idle? else subs[i] == Checked(e)
    {
      ghost var v := View();
      past := past.(submitted := past.submitted + 1);
      var watermark := Watermark(capacity);
      WatermarkIsFourFifths(capacity, |eventChan|);
      dropped := |eventChan| >= watermark && e.c.typ == "file" && e.c.fileAction == "read";
      if dropped {
        droppedEvents := droppedEvents + 1;
        subs := subs[i := Idle];
        PutEvent(e);
      } else {
        subs := subs[i := Checked(e)];
        assert Mem() == v.mem;
      }
    }

    /** The second half: the non-blocking send. */
    method TrySend(e: Event, ghost i: nat) returns (ok: bool)
      requires e in known && i < |subs| && subs[i] == Checked(e)
      modifies this, e
      ensures known == old(known)
      ensures ok <==> |old(eventChan)| < capacity
      ensures View() == Apply(old(View()), if ok then Push(i) else Overflow(i))
    {
      ghost var v := View();
      subs := subs[i := Idle];
      ok := |eventChan| < capacity;
      if ok {
        eventChan := eventChan + [e];
        past := past.(accepted := past.accepted + [e], sent := past.sent + [e.c]);
        assert Mem() == v.mem;
      } else {
        droppedEvents := droppedEvents + 1;
        PutEvent(e);
      }
    }

    /** `Submit` when nothing comes between its halves: refused exactly when the queue is full, or the
        event is a file read and one more would take the queue beyond 80% of its capacity. */
    method Submit(e: Event, ghost i: nat) returns (ok: bool)
      requires Good(View()) && e in known && i < |subs| && subs[i] == Holding(e)
      modifies this, e
      ensures Good(View()) && known == old(known)
      ensures !ok <==>
        || |old(eventChan)| >= capacity
        || (old(e.c).typ == "file" && old(e.c).fileAction == "read" && 5 * (|old(eventChan)| + 1) > 4 * capacity)
      ensures if ok then eventChan == old(eventChan) + [e] && droppedEvents == old(droppedEvents)
        else eventChan == old(eventChan) && droppedEvents == old(droppedEvents) + 1 && e in pool
    {
      ApplyKeepsGood(View(), Check(i));
      var dropped := QueueTest(e, i);
      if dropped {
        return false;
      }
      ok := SendChecked(e, i);
    }

    method SendChecked(e: Event, ghost i: nat) returns (ok: bool)
      requires Good(View()) && e in known && i < |subs| && subs[i] == Checked(e)
      modifies this, e
      ensures Good(View()) && known == old(known)
      ensures ok <==> |old(eventChan)| < capacity
      ensures if ok then eventChan == old(eventChan) + [e] && droppedEvents == old(droppedEvents)
        else eventChan == old(eventChan) && droppedEvents == old(droppedEvents) + 1 && e in pool
    {
      ApplyKeepsGood(View(), if |eventChan| < capacity then Push(i) else Overflow(i));
      ok := TrySend(e, i);
    }

    // ---------- The consumer goroutine ----------

    method StartFlush()
      modifies this
      ensures known == old(known) && View() == old(View()).(loop := BatchLoop.Flush(old(LoopView())))
    {
      ghost var m := Mem();
      if batch != [] {
        past := past.(flushed := past.flushed + [batch]);
        writing, batch := batch, [];
      }
      assert Mem() == m;
    }

    method Collect(e: Event)
      modifies this
      ensures known == old(known) && View() == old(View()).(loop := BatchLoop.Collect(old(LoopView()), e))
    {
      ghost var m := Mem();
      batch := batch + [e];
      assert Mem() == m;
      if |batch| >= BatchLoop.BATCH {
        StartFlush();
      }
    }

    /** One turn of the flush loop: deal with the event, then recycle its object. */
    method WriteNext()
      requires Good(View()) && writing != []
      modifies this, known
      ensures known == old(known) && writing == old(writing)[1..]
      ensures Enabled(old(View()), Consume(BatchLoop.WriteOne))
      ensures View() == Apply(old(View()), Consume(BatchLoop.WriteOne))
    {
      ghost var v := View();
      var e := writing[0];
      assert e == BatchLoop.Pending(LoopView())[0];
      assert e in Mem() && e in known;
      past := past.(handled := past.handled + [e.c], delivered := past.delivered + [e]);
      writing := writing[1..];
      assert Mem() == v.mem;
      PutEvent(e);
    }

    /** `flushBatch`: every event of the batch, in order, each object recycled, whether or not the
        transaction could be begun. */
    method FlushBatch()
      requires Good(View())
      modifies this, known
      ensures known == old(known) && View() == WriteAll(old(View()))
    {
      ghost var v := View();
      while writing != []
        invariant known == old(known) && v == View() && Good(v) && WriteAll(v) == WriteAll(old(View()))
        decreases |writing|
      {
        WriteAllStep(v);
        WriteNext();
        v := View();
      }
    }

    /** Receive the oldest queued event into the batch and flush the batch if that fills it. */
    method Receive()
      requires Good(View()) && writing == [] && eventChan != [] && !phase.Exited?
      modifies this, known
      ensures known == old(known) && Good(View()) && writing == [] && eventChan == old(eventChan)[1..]
      ensures phase == old(phase) && closed == old(closed)
      ensures past.sent == old(past.sent) && past.accepted == old(past.accepted)
      ensures View() == ConsumeAndFlush(old(View()), if old(phase).Running? then BatchLoop.Recv else BatchLoop.DrainOne)
    {
      OtherConsumeKeepsGood(View(), if phase.Running? then BatchLoop.Recv else BatchLoop.DrainOne);
      Take();
      FlushBatch();
    }

    method Take()
      requires writing == [] && eventChan != [] && !phase.Exited?
      modifies this
      ensures known == old(known)
      ensures View() == Apply(old(View()), Consume(if old(phase).Running? then BatchLoop.Recv else BatchLoop.DrainOne))
    {
      var e := eventChan[0];
      ghost var m := Mem();
      eventChan := eventChan[1..];
      assert Mem() == m;
      Collect(e);
    }

    /** The tick of the 100 ms ticker. */
    method Tick()
      requires Good(View()) && writing == [] && phase.Running?
      modifies this, known
      ensures known == old(known) && Good(View()) && writing == [] && batch == []
      ensures phase == old(phase) && closed == old(closed)
      ensures past.sent == old(past.sent) && past.accepted == old(past.accepted)
      ensures View() == ConsumeAndFlush(old(View()), BatchLoop.Tick)
    {
      ApplyKeepsGood(View(), Consume(BatchLoop.Tick));
      StartFlush();
      FlushBatch();
    }

    /** The close signal has been seen: empty the queue, flush what is left, end. */
    method Drain()
      requires Good(View()) && writing == [] && phase == BatchLoop.Draining
      modifies this, known
      ensures known == old(known) && Good(View())
      ensures phase == BatchLoop.Exited(true) && writing == [] && eventChan == []
      ensures past.sent == old(past.sent) && past.accepted == old(past.accepted)
      ensures past.handled == past.sent && past.delivered == past.accepted
    {
      while eventChan != []
        invariant known == old(known) && Good(View()) && writing == [] && phase == BatchLoop.Draining
        invariant past.sent == old(past.sent) && past.accepted == old(past.accepted)
        decreases |eventChan|
      {
        Receive();
      }
      Finish();
    }

    method EndLoop()
      requires writing == [] && phase == BatchLoop.Draining && eventChan == []
      modifies this
      ensures known == old(known) && View() == Apply(old(View()), Consume(BatchLoop.DrainEmpty))
    {
      StartFlush();
      ghost var m := Mem();
      phase := BatchLoop.Exited(true);
      past := past.(atExit := |past.accepted|);
      assert Mem() == m;
    }

    method Finish()
      requires Good(View()) && writing == [] && phase == BatchLoop.Draining && eventChan == []
      modifies this, known
      ensures known == old(known) && Good(View())
      ensures phase == BatchLoop.Exited(true) && writing == [] && eventChan == []
      ensures past.sent == old(past.sent) && past.accepted == old(past.accepted)
      ensures past.handled == past.sent && past.delivered == past.accepted
    {
      OtherConsumeKeepsGood(View(), BatchLoop.DrainEmpty);
      EndLoop();
      FlushBatch();
      StopDeliversAllUnlessSentLate(View());
    }

    /** The select may take other ready cases, any number of times, before it takes the close. */
    method TurnsBeforeClose()
      requires Good(View()) && writing == [] && phase.Running? && closed
      modifies this, known
      ensures known == old(known) && Good(View()) && writing == [] && phase.Running? && closed
      ensures past.sent == old(past.sent) && past.accepted == old(past.accepted)
    {
      var turns :| 0 <= turns;
      for i := 0 to turns
        invariant known == old(known) && Good(View()) && writing == [] && phase.Running? && closed
        invariant past.sent == old(past.sent) && past.accepted == old(past.accepted)
      {
        var tick: bool := *;
        if eventChan != [] && !tick {
          Receive();
        } else {
          Tick();
        }
      }
    }

    method SeeClose()
      requires Good(View()) && writing == [] && phase.Running? && closed
      modifies this`phase
      ensures Good(View()) && phase == BatchLoop.Draining
    {
      ghost var m := Mem();
      ApplyKeepsGood(View(), Consume(BatchLoop.SeeClose));
      phase := BatchLoop.Draining;
      assert Mem() == m;
    }

    method Close()
      requires Good(View()) && !closed
      modifies this`closed
      ensures Good(View()) && closed
    {
      ghost var m := Mem();
      ApplyKeepsGood(View(), Consume(BatchLoop.Close));
      closed := true;
      assert Mem() == m;
    }

    /** `Stop` when no `Submit` overlaps, whatever the consumer does first: everything accepted has been
        handled, once, in order, with the contents it was sent with. */
    method Stop()
      requires Good(View()) && writing == [] && phase.Running? && !closed
      modifies this, known
      ensures Good(View()) && phase == BatchLoop.Exited(true) && eventChan == [] && batch == [] && writing == []
      ensures past.handled == old(past.sent) && past.delivered == old(past.accepted)
    {
      Close();
      TurnsBeforeClose();
      SeeClose();
      Drain();
    }
  }
}
