/** The telemetry pipeline as one producer and its consumer see it: `Ingest` from end to end, the
    batching loop with its flush, `Stop` and cancellation. */
module TelemetryPipeline {
  import opened Text
  import opened TelemetryEvents
  import opened TelemetrySpec
  import opened BatchLoop
  import Dedup = Deduplication

  /** The store behind the pipeline, if there is one, and which of its inserts succeed. */
  datatype Store = NoStore | Store(inserts: Event -> bool)

  /** Whether the flush counts an event as persisted: the insert of a process, file or network event may
      fail, and an event of any other type counts although it has no table. */
  predicate CountsAsPersisted(e: Event, store: Store) {
    store.Store? && ((e.typ == "process" || e.typ == "file" || e.typ == "network") ==> store.inserts(e))
  }

  function Persisted(events: seq<Event>, store: Store): nat {
    if events == [] then 0
    else (if CountsAsPersisted(events[0], store) then 1 else 0) + Persisted(events[1..], store)
  }

  /** The loop once its flush has dealt with the whole batch. */
  function Flushed(l: Loop<Event>): Loop<Event> {
    l.(writing := [], delivered := l.delivered + l.writing)
  }

  lemma FlushedKeepsInv(l: Loop<Event>)
    requires Inv(l)
    ensures Inv(Flushed(l))
  {
    assert l.delivered + Pending(l) == l.delivered + l.writing + (l.batch + l.queue);
    assert Pending(Flushed(l)) == l.batch + l.queue;
  }

  /** The receive of a loop that is running, or draining. */
  function Taking(l: Loop<Event>): Action<Event> {
    if l.phase.Running? then Recv else DrainOne
  }

  lemma ReceiveKeepsInv(l: Loop<Event>)
    requires Inv(l) && l.writing == [] && l.queue != [] && !l.phase.Exited?
    ensures var m := BatchLoop.Apply(l, Taking(l));
      m == BatchLoop.Collect(l.(queue := l.queue[1..]), l.queue[0]) && m.accepted == l.accepted && Inv(Flushed(m))
  {
    BatchLoop.ApplyKeepsInv(l, Taking(l));
    FlushedKeepsInv(BatchLoop.Apply(l, Taking(l)));
  }

  lemma EndKeepsInv(l: Loop<Event>, drained: bool)
    requires Inv(l) && l.writing == []
    requires if drained then l.phase == Draining && l.queue == [] else l.phase.Running? && l.cancelled
    ensures Inv(Flushed(Exit(l, drained)))
  {
    BatchLoop.ApplyKeepsInv(l, if drained then DrainEmpty else SeeCancel);
    FlushedKeepsInv(Exit(l, drained));
  }

  datatype Outcome = Duplicate | Filtered | Buffered | Overflowed

  ghost function OutcomeOf(h: seq<Dedup.Seen>, ttl: int, excludes: seq<string>, l: Loop<Event>, e: Event, now: int)
    : Outcome
  {
    if Dedup.Repeats(h, Dedup.Key(e), now, ttl) then Duplicate else AdmittedAs(excludes, l, e)
  }

  function AdmittedAs(excludes: seq<string>, l: Loop<Event>, e: Event): Outcome {
    if ShouldFilter(excludes, e) then Filtered
    else if |l.queue| < l.capacity then Buffered
    else Overflowed
  }

  /** Exactly one counter tells what became of an event, but for the silent drop. */
  function CountOutcome(m: Metrics, o: Outcome): Metrics {
    match o
    case Duplicate => m.(deduplicated := m.deduplicated + 1)
    case Filtered => m.(filtered := m.filtered + 1)
    case Buffered => m.(buffered := m.buffered + 1)
    case Overflowed => m
  }

  function Arrived(m: Metrics): Metrics {
    m.(ingested := m.ingested + 1, normalized := m.normalized + 1)
  }

  function Tally(m: Metrics, o: Outcome): Metrics {
    CountOutcome(Arrived(m), o)
  }

  /** What becomes of an event moves its own counter and no other. */
  lemma TallyMeaning(m: Metrics, o: Outcome)
    ensures var t := Tally(m, o);
      && t.ingested == m.ingested + 1 && t.normalized == m.normalized + 1 && t.persisted == m.persisted
      && t.deduplicated - m.deduplicated == (if o.Duplicate? then 1 else 0)
      && t.filtered - m.filtered == (if o.Filtered? then 1 else 0)
      && t.buffered - m.buffered == (if o.Buffered? then 1 else 0)
  {
  }

  /** Without a store nothing counts as persisted; with one, an event counts unless its type has a table and
      the insert fails. */
  lemma {:induction false} PersistedMeaning(events: seq<Event>, store: Store)
    ensures store.NoStore? ==> Persisted(events, store) == 0
    ensures store.Store? && (forall i :: 0 <= i < |events| ==> store.inserts(events[i])) ==>
      Persisted(events, store) == |events|
    ensures store.Store? && (forall i :: 0 <= i < |events| ==> !store.inserts(events[i])) ==>
      Persisted(events, store) == |Tableless(events)|
  {
    if events == [] {
    } else {
      PersistedMeaning(events[1..], store);
    }
  }

  function Tableless(events: seq<Event>): seq<Event> {
    if events == [] then []
    else (if events[0].typ in {"process", "file", "network"} then [] else [events[0]]) + Tableless(events[1..])
  }

  lemma {:induction false} PersistedConcat(a: seq<Event>, b: seq<Event>, store: Store)
    ensures Persisted(a + b, store) == Persisted(a, store) + Persisted(b, store)
  {
    if a == [] {
      assert a + b == b;
    } else {
      assert (a + b)[1..] == a[1..] + b;
      PersistedConcat(a[1..], b, store);
    }
  }

  function Enqueued(l: Loop<Event>, o: Outcome, e: Event): Loop<Event> {
    if o.Buffered? then l.(queue := l.queue + [e], accepted := l.accepted + [e]) else l
  }

  lemma EnqueuedKeepsInv(l: Loop<Event>, o: Outcome, e: Event)
    requires Inv(l) && (o.Buffered? ==> |l.queue| < l.capacity)
    ensures Inv(Enqueued(l, o, e))
  {
    if o.Buffered? {
      SendKeepsInv(l, e);
    }
  }

  /** What the loop has done so far, for its specification only. */
  datatype Trail = Trail(accepted: seq<Event>, flushed: seq<seq<Event>>, delivered: seq<Event>, atExit: nat)

  class Pipeline {
    const capacity: nat
    const excludes: seq<string>
    const dedup: Dedup.Deduplicator
    var queue: seq<Event>
    var closed: bool
    var metrics: Metrics
    var batch: seq<Event>    // the consumer goroutine's own
    var writing: seq<Event>  // the part of a batch its flush has not dealt with
    var phase: Phase
    var cancelled: bool
    ghost var past: Trail
    ghost var overflowed: nat

    ghost function LoopView(): Loop<Event>
      reads this
    {
      Loop(capacity, queue, batch, writing, phase, closed, cancelled,
           past.accepted, past.flushed, past.delivered, past.atExit)
    }

    ghost predicate Valid()
      reads this, dedup
    {
      dedup.Valid() && Inv(LoopView()) && Tallied()
    }

    /** Every ingested event is counted once as what became of it. */
    ghost predicate Tallied()
      reads this
    {
      && metrics.ingested == metrics.normalized
      && metrics.ingested == metrics.deduplicated + metrics.filtered + metrics.buffered + overflowed
      && metrics.buffered == |past.accepted|
    }

    constructor (capacity: nat, ttl: int, excludes: seq<string>, ghost start: int)
      ensures Valid() && fresh(dedup) && LoopView() == BatchLoop.Init(capacity) && metrics == Metrics(0, 0, 0, 0, 0, 0)
      ensures this.excludes == excludes && dedup.ttl == ttl && dedup.last == start && overflowed == 0
    {
      this.capacity, this.excludes := capacity, excludes;
      dedup := new Dedup.Deduplicator(ttl, start);
      queue, closed, metrics := [], false, Metrics(0, 0, 0, 0, 0, 0);
      batch, writing, phase, cancelled := [], [], Running, false;
      past, overflowed := Trail([], [], [], 0), 0;
    }

    method FilterEvent(e: Event) returns (excluded: bool)
      ensures excluded <==> ShouldFilter(excludes, e)
      ensures excluded <==> e.typ == "file" && exists i :: 0 <= i < |excludes| && excludes[i] <= e.filePath
    {
      if e.typ == "file" {
        for i := 0 to |excludes|
          invariant forall j :: 0 <= j < i ==> !HasPrefix(e.filePath, excludes[j])
        {
          if HasPrefix(e.filePath, excludes[i]) {
            return true;
          }
        }
      }
      excluded := false;
    }

    /** An event is a duplicate of one accepted less than the TTL ago, or filtered, or appended to the
        queue, or dropped because the queue is full. */
    method Ingest(raw: RawEvent, now: int, hash: string -> string)
      requires Valid() && dedup.last <= now
      modifies this, dedup
      ensures Valid() && dedup.last == now
      ensures var e := Normalize(raw, now, hash);
        var o := OutcomeOf(old(dedup.history), dedup.ttl, excludes, old(LoopView()), e, now);
        && dedup.history == Dedup.Recorded(old(dedup.history), Dedup.Key(e), now, o.Duplicate?)
        && metrics == Tally(old(metrics), o)
        && LoopView() == Enqueued(old(LoopView()), o, e)
        && overflowed == old(overflowed) + (if o.Overflowed? then 1 else 0)
    {
      var e := Normalize(raw, now, hash);
      EnqueuedKeepsInv(LoopView(), OutcomeOf(dedup.history, dedup.ttl, excludes, LoopView(), e, now), e);
      IngestNormal(e, now);
    }

    method IngestNormal(e: Event, now: int)
      requires dedup.Valid() && dedup.last <= now
      modifies this`queue, this`metrics, this`past, this`overflowed, dedup
      ensures dedup.Valid() && dedup.last == now
      ensures var o := OutcomeOf(old(dedup.history), dedup.ttl, excludes, old(LoopView()), e, now);
        && dedup.history == Dedup.Recorded(old(dedup.history), Dedup.Key(e), now, o.Duplicate?)
        && metrics == Tally(old(metrics), o)
        && LoopView() == Enqueued(old(LoopView()), o, e)
        && overflowed == old(overflowed) + (if o.Overflowed? then 1 else 0)
    {
      var dup := Decide(e, now);
      if !dup {
        Admit(e);
      }
    }

    /** Count the event and ask the deduplicator. */
    method Decide(e: Event, now: int) returns (dup: bool)
      requires dedup.Valid() && dedup.last <= now
      modifies this`metrics, dedup
      ensures dedup.Valid() && dedup.last == now
      ensures dup <==> Dedup.Repeats(old(dedup.history), Dedup.Key(e), now, dedup.ttl)
      ensures dedup.history == Dedup.Recorded(old(dedup.history), Dedup.Key(e), now, dup)
      ensures metrics == if dup then CountOutcome(Arrived(old(metrics)), Duplicate) else Arrived(old(metrics))
    {
      metrics := metrics.(ingested := metrics.ingested + 1);
      metrics := metrics.(normalized := metrics.normalized + 1);
      dup := dedup.IsDuplicate(e, now);
      if dup {
        metrics := metrics.(deduplicated := metrics.deduplicated + 1);
      }
    }

    /** An event that is no duplicate: filtered, or sent if there is room. */
    method Admit(e: Event)
      modifies this`queue, this`metrics, this`past, this`overflowed
      ensures var o := AdmittedAs(excludes, old(LoopView()), e);
        && metrics == CountOutcome(old(metrics), o)
        && LoopView() == Enqueued(old(LoopView()), o, e)
        && overflowed == old(overflowed) + (if o.Overflowed? then 1 else 0)
    {
      var excluded := FilterEvent(e);
      if excluded {
        metrics := metrics.(filtered := metrics.filtered + 1);
        return;
      }
      TrySend(e);
    }

    /** The non-blocking send; a full queue drops the event without counting it. */
    method TrySend(e: Event)
      modifies this`queue, this`metrics, this`past, this`overflowed
      ensures if |old(queue)| < capacity then
          && LoopView() == Enqueued(old(LoopView()), Buffered, e) && overflowed == old(overflowed)
          && metrics == old(metrics).(buffered := old(metrics).buffered + 1)
        else LoopView() == old(LoopView()) && overflowed == old(overflowed) + 1 && metrics == old(metrics)
    {
      if |queue| < capacity {
        queue := queue + [e];
        past := past.(accepted := past.accepted + [e]);
        metrics := metrics.(buffered := metrics.buffered + 1);
      } else {
        overflowed := overflowed + 1;
      }
    }

    // ---------- The consumer goroutine ----------

    method StartFlush()
      modifies this`batch, this`writing, this`past
      ensures LoopView() == BatchLoop.Flush(old(LoopView()))
    {
      if batch != [] {
        past := past.(flushed := past.flushed + [batch]);
        writing, batch := batch, [];
      }
    }

    /** `flushBatch`: every event of the batch is dealt with, in order, and counted if its insert worked. */
    method FlushBatch(store: Store)
      modifies this`writing, this`metrics, this`past
      ensures LoopView() == Flushed(old(LoopView()))
      ensures metrics == old(metrics).(persisted := old(metrics).persisted + Persisted(old(writing), store))
    {
      while writing != []
        invariant Flushed(LoopView()) == Flushed(old(LoopView()))
        invariant metrics == old(metrics).(persisted := metrics.persisted)
        invariant metrics.persisted + Persisted(writing, store)
          == old(metrics).persisted + Persisted(old(writing), store)
        decreases |writing|
      {
        var e := writing[0];
        if CountsAsPersisted(e, store) {
          metrics := metrics.(persisted := metrics.persisted + 1);
        }
        assert past.delivered + writing == past.delivered + [e] + writing[1..];
        past := past.(delivered := past.delivered + [e]);
        writing := writing[1..];
      }
      assert past.delivered + [] == past.delivered;
    }

    /** The flush of whatever the batch holds. */
    method Flush(store: Store)
      requires writing == []
      modifies this`batch, this`writing, this`metrics, this`past
      ensures LoopView() == Flushed(BatchLoop.Flush(old(LoopView())))
      ensures metrics == old(metrics).(persisted := old(metrics).persisted + Persisted(old(batch), store))
    {
      StartFlush();
      FlushBatch(store);
    }

    /** Put a received event into the batch and flush the batch if that fills it. */
    method Collect(e: Event, store: Store)
      requires writing == []
      modifies this`batch, this`writing, this`metrics, this`past
      ensures LoopView() == Flushed(BatchLoop.Collect(old(LoopView()), e))
      ensures metrics == old(metrics).(persisted := metrics.persisted)
    {
      batch := batch + [e];
      if |batch| >= BATCH {
        Flush(store);
      } else {
        assert past.delivered + [] == past.delivered;
      }
    }

    /** Receive the oldest queued event. */
    method Receive(store: Store)
      requires Valid() && writing == [] && queue != [] && !phase.Exited?
      modifies this`queue, this`batch, this`writing, this`metrics, this`past
      ensures Valid() && writing == [] && queue == old(queue)[1..] && past.accepted == old(past.accepted)
      ensures LoopView() == Flushed(BatchLoop.Apply(old(LoopView()), Taking(old(LoopView()))))
    {
      ReceiveKeepsInv(LoopView());
      var e := queue[0];
      queue := queue[1..];
      Collect(e, store);
    }

    /** The tick of the 100 ms ticker. */
    method Tick(store: Store)
      requires Valid() && writing == [] && phase.Running?
      modifies this`batch, this`writing, this`metrics, this`past
      ensures Valid() && writing == [] && batch == [] && past.accepted == old(past.accepted)
      ensures LoopView() == Flushed(BatchLoop.Apply(old(LoopView()), BatchLoop.Tick))
      ensures metrics == old(metrics).(persisted := old(metrics).persisted + Persisted(old(batch), store))
    {
      BatchLoop.ApplyKeepsInv(LoopView(), BatchLoop.Tick);
      FlushedKeepsInv(BatchLoop.Apply(LoopView(), BatchLoop.Tick));
      Flush(store);
    }

    /** The last flush, after which the goroutine returns: the queue is empty and a close was seen, or the
        context was cancelled. */
    method EndLoop(drained: bool, store: Store)
      requires Valid() && writing == []
      requires if drained then phase == Draining && queue == [] else phase.Running? && cancelled
      modifies this`batch, this`writing, this`metrics, this`past, this`phase
      ensures Valid() && LoopView() == Flushed(Exit(old(LoopView()), drained))
      ensures metrics == old(metrics).(persisted := old(metrics).persisted + Persisted(old(batch), store))
    {
      EndKeepsInv(LoopView(), drained);
      Flush(store);
      phase := Exited(drained);
      past := past.(atExit := |past.accepted|);
    }

    /** The close signal has been seen: empty the queue, flush what is left, end. */
    method Drain(store: Store)
      requires Valid() && writing == [] && phase == Draining
      modifies this
      ensures Valid() && phase == Exited(true) && queue == [] && batch == [] && writing == []
      ensures past.delivered == old(past.accepted)
    {
      while queue != []
        invariant Valid() && writing == [] && phase == Draining && past.accepted == old(past.accepted)
        decreases |queue|
      {
        Receive(store);
      }
      EndLoop(true, store);
      EndedLoopDelivered(LoopView());
    }

    /** The select may take other ready cases, any number of times, before it takes the close or the
        cancellation. */
    method OtherTurns(store: Store)
      requires Valid() && writing == [] && phase.Running?
      modifies this`queue, this`batch, this`writing, this`metrics, this`past
      ensures Valid() && writing == [] && past.accepted == old(past.accepted)
    {
      var turns :| 0 <= turns;
      for i := 0 to turns
        invariant Valid() && writing == [] && past.accepted == old(past.accepted)
      {
        var tick: bool := *;
        if queue != [] && !tick {
          Receive(store);
        } else {
          Tick(store);
        }
      }
    }

    /** `Stop` with no `Ingest` overlapping, whatever the consumer does first: everything buffered is
        delivered, in order. */
    method Stop(store: Store)
      requires Valid() && writing == [] && phase.Running? && !closed
      modifies this
      ensures Valid() && phase == Exited(true) && queue == [] && batch == [] && writing == []
      ensures past.delivered == old(past.accepted)
    {
      BatchLoop.ApplyKeepsInv(LoopView(), Close);
      closed := true;
      OtherTurns(store);
      BatchLoop.ApplyKeepsInv(LoopView(), SeeClose);
      phase := Draining;
      Drain(store);
    }

    /** Cancellation, once it is seen, flushes the batch in hand and leaves the queue as it stands: what was
        delivered is what came before it. */
    method CancelRun(store: Store)
      requires Valid() && writing == [] && phase.Running?
      modifies this
      ensures Valid() && phase == Exited(false) && batch == [] && writing == []
      ensures queue == old(queue) && past.delivered + queue == old(past.accepted)
      ensures past.delivered == old(past.delivered) + old(batch)
    {
      BatchLoop.ApplyKeepsInv(LoopView(), Cancel);
      cancelled := true;
      EndLoop(false, store);
      EndedLoopDelivered(LoopView());
    }
  }
}
