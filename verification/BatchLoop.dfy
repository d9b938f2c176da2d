/** The consumer loop that the event router and the telemetry pipeline share: a bounded queue, a batch
    of at most 100, a ticker, a close signal that drains, and a cancellation that does not. Every
    channel operation is one action, so a run is any interleaving of senders and consumer. */
module BatchLoop {
  import opened Collections

  const BATCH: nat := 100

  datatype Phase = Running | Draining | Exited(drained: bool)

  /** `accepted`, `flushed`, `delivered` and `atExit` are history: what was ever sent, the batches handed
      to the flush, the events the flush has dealt with, and how many had been sent when the loop ended. */
  datatype Loop<T> = Loop(
    capacity: nat, queue: seq<T>, batch: seq<T>, writing: seq<T>,
    phase: Phase, closed: bool, cancelled: bool,
    accepted: seq<T>, flushed: seq<seq<T>>, delivered: seq<T>, atExit: nat)

  datatype Action<T> =
    | Send(e: T)      // a non-blocking send that found room
    | Handoff(e: T)   // a send that met the waiting receiver of an empty channel
    | Recv | Tick | SeeClose | DrainOne | DrainEmpty | SeeCancel
    | WriteOne        // the flush deals with its next event
    | Close | Cancel

  function Init<T>(capacity: nat): Loop<T> {
    Loop(capacity, [], [], [], Running, false, false, [], [], [], 0)
  }

  /** The consumer is at its select. */
  predicate Waiting<T>(l: Loop<T>, phase: Phase) {
    l.phase == phase && l.writing == []
  }

  predicate Enabled<T>(l: Loop<T>, a: Action<T>) {
    match a
    case Send(_) => |l.queue| < l.capacity
    case Handoff(_) => l.queue == [] && Waiting(l, Running)
    case Recv => l.queue != [] && Waiting(l, Running)
    case Tick => Waiting(l, Running)
    case SeeClose => l.closed && Waiting(l, Running)
    case DrainOne => l.queue != [] && Waiting(l, Draining)
    case DrainEmpty => l.queue == [] && Waiting(l, Draining)
    case SeeCancel => l.cancelled && Waiting(l, Running)
    case WriteOne => l.writing != []
    case Close => !l.closed
    case Cancel => true
  }

  function Flush<T>(l: Loop<T>): Loop<T> {
    if l.batch == [] then l
    else l.(batch := [], writing := l.batch, flushed := l.flushed + [l.batch])
  }

  function Collect<T>(l: Loop<T>, e: T): Loop<T> {
    var m := l.(batch := l.batch + [e]);
    if |m.batch| >= BATCH then Flush(m) else m
  }

  function Exit<T>(l: Loop<T>, drained: bool): Loop<T> {
    Flush(l).(phase := Exited(drained), atExit := |l.accepted|)
  }

  function Apply<T>(l: Loop<T>, a: Action<T>): Loop<T>
    requires Enabled(l, a)
  {
    match a
    case Send(e) => l.(queue := l.queue + [e], accepted := l.accepted + [e])
    case Handoff(e) => Collect(l.(accepted := l.accepted + [e]), e)
    case Recv => Collect(l.(queue := l.queue[1..]), l.queue[0])
    case Tick => Flush(l)
    case SeeClose => l.(phase := Draining)
    case DrainOne => Collect(l.(queue := l.queue[1..]), l.queue[0])
    case DrainEmpty => Exit(l, true)
    case SeeCancel => Exit(l, false)
    case WriteOne => l.(writing := l.writing[1..], delivered := l.delivered + [l.writing[0]])
    case Close => l.(closed := true)
    case Cancel => l.(cancelled := true)
  }

  // ---------- What every run keeps ----------

  function Concat<T>(batches: seq<seq<T>>): seq<T> {
    if batches == [] then [] else Concat(batches[..|batches| - 1]) + batches[|batches| - 1]
  }

  /** The events the loop has accepted and not yet dealt with, oldest first. */
  function Pending<T>(l: Loop<T>): seq<T> {
    l.writing + l.batch + l.queue
  }

  /** First in, first out, nothing lost or repeated, batches bounded. */
  ghost predicate Fifo<T>(l: Loop<T>) {
    && l.delivered + Pending(l) == l.accepted
    && Concat(l.flushed) == l.delivered + l.writing
    && |l.batch| < BATCH
    && (l.writing != [] ==> l.batch == [])
    && (forall i :: 0 <= i < |l.flushed| ==> 1 <= |l.flushed[i]| <= BATCH)
    && |l.queue| <= l.capacity
  }

  /** Draining needs a close; a loop that has ended holds no batch, and after a drain the queue holds
      exactly what was sent since. */
  ghost predicate Ended<T>(l: Loop<T>) {
    && (l.phase == Draining ==> l.closed)
    && (l.phase.Exited? ==> l.batch == [] && l.atExit <= |l.accepted|)
    && (l.phase.Exited? && l.phase.drained ==> |l.queue| == |l.accepted| - l.atExit)
  }

  ghost predicate Inv<T>(l: Loop<T>) {
    Fifo(l) && Ended(l)
  }

  /** How an action moves the pending events. */
  ghost predicate Moves<T>(l: Loop<T>, a: Action<T>, m: Loop<T>) {
    Pending(m) ==
      if a.Send? || a.Handoff? then Pending(l) + [a.e]
      else if a.WriteOne? then (if Pending(l) == [] then [] else Pending(l)[1..])
      else Pending(l)
  }

  lemma WriteKeepsFifo<T>(l: Loop<T>)
    requires Fifo(l) && l.writing != []
    ensures Fifo(Apply(l, WriteOne)) && Pending(Apply(l, WriteOne)) == Pending(l)[1..]
  {
    var m := Apply(l, WriteOne);
    assert l.writing == [l.writing[0]] + l.writing[1..];
    assert Pending(l) == [l.writing[0]] + Pending(m);
  }

  lemma FlushKeepsFifo<T>(l: Loop<T>)
    requires Fifo(l) && l.writing == []
    ensures Fifo(Flush(l)) && Pending(Flush(l)) == Pending(l) && Flush(l).batch == []
  {
    var m := Flush(l);
    assert m.flushed != l.flushed ==> m.flushed[..|m.flushed| - 1] == l.flushed;
  }

  /** `e` is next after the batch, and all before it has been delivered. */
  ghost predicate Taken<T>(l: Loop<T>, e: T) {
    && l.writing == [] && |l.queue| <= l.capacity && |l.batch| < BATCH
    && l.delivered + (l.batch + [e] + l.queue) == l.accepted
    && Concat(l.flushed) == l.delivered
    && (forall i :: 0 <= i < |l.flushed| ==> 1 <= |l.flushed[i]| <= BATCH)
  }

  lemma FullBatchKeepsFifo<T>(l: Loop<T>, e: T)
    requires Taken(l, e) && |l.batch| + 1 == BATCH
    ensures Fifo(Collect(l, e)) && Pending(Collect(l, e)) == l.batch + [e] + l.queue
  {
    var full := l.batch + [e];
    var m := Collect(l, e);
    assert m.flushed == l.flushed + [full] && m.flushed[..|m.flushed| - 1] == l.flushed;
    assert full + [] + l.queue == full + l.queue;
  }

  lemma CollectKeepsFifo<T>(l: Loop<T>, e: T)
    requires Taken(l, e)
    ensures Fifo(Collect(l, e)) && Pending(Collect(l, e)) == l.batch + [e] + l.queue
  {
    if |l.batch| + 1 == BATCH {
      FullBatchKeepsFifo(l, e);
    } else {
      var m := Collect(l, e);
      assert m.batch == l.batch + [e] && Pending(m) == m.batch + m.queue;
      assert l.delivered + [] == l.delivered;
    }
  }

  lemma TakeKeepsInv<T>(l: Loop<T>, a: Action<T>)
    requires Inv(l) && Enabled(l, a) && (a.Recv? || a.DrainOne?)
    ensures Inv(Apply(l, a)) && Moves(l, a, Apply(l, a))
  {
    assert l.queue == [l.queue[0]] + l.queue[1..];
    var m := l.(queue := l.queue[1..]);
    assert m.batch + [l.queue[0]] + m.queue == Pending(l);
    CollectKeepsFifo(m, l.queue[0]);
  }

  lemma HandoffKeepsInv<T>(l: Loop<T>, e: T)
    requires Inv(l) && Enabled(l, Handoff(e))
    ensures Inv(Apply(l, Handoff(e))) && Moves(l, Handoff(e), Apply(l, Handoff(e)))
  {
    var m := l.(accepted := l.accepted + [e]);
    assert l.delivered + (l.batch + [e] + l.queue) == m.accepted;
    assert l.batch + [e] + l.queue == Pending(l) + [e];
    CollectKeepsFifo(m, e);
  }

  lemma SendKeepsInv<T>(l: Loop<T>, e: T)
    requires Inv(l) && Enabled(l, Send(e))
    ensures Inv(Apply(l, Send(e))) && Moves(l, Send(e), Apply(l, Send(e)))
  {
    assert Pending(Apply(l, Send(e))) == Pending(l) + [e];
    assert l.delivered + (Pending(l) + [e]) == l.accepted + [e];
  }

  lemma FlushActionsKeepInv<T>(l: Loop<T>, a: Action<T>)
    requires Inv(l) && Enabled(l, a) && (a.Tick? || a.DrainEmpty? || a.SeeCancel?)
    ensures Inv(Apply(l, a)) && Moves(l, a, Apply(l, a))
  {
    FlushKeepsFifo(l);
    assert Pending(Apply(l, a)) == Pending(Flush(l));
  }

  /** Sends append to the pending events and the flush takes from their front; no other action changes
      them. */
  lemma ApplyKeepsInv<T>(l: Loop<T>, a: Action<T>)
    requires Inv(l) && Enabled(l, a)
    ensures Inv(Apply(l, a)) && Moves(l, a, Apply(l, a))
  {
    match a
    case Send(e) => SendKeepsInv(l, e);
    case Handoff(e) => HandoffKeepsInv(l, e);
    case Recv => TakeKeepsInv(l, a);
    case DrainOne => TakeKeepsInv(l, a);
    case Tick => FlushActionsKeepInv(l, a);
    case DrainEmpty => FlushActionsKeepInv(l, a);
    case SeeCancel => FlushActionsKeepInv(l, a);
    case WriteOne => WriteKeepsFifo(l);
    case _ =>
  }

  // ---------- When a batch is flushed ----------

  /** The batch that an action hands to the flush: one filled up to a hundred by a received event, or
      whatever there is at a tick or at the end of the loop. */
  function HandedOver<T>(l: Loop<T>, a: Action<T>): seq<seq<T>>
    requires Enabled(l, a)
  {
    match a
    case Recv => if |l.batch| == 99 then [l.batch + [l.queue[0]]] else []
    case DrainOne => if |l.batch| == 99 then [l.batch + [l.queue[0]]] else []
    case Handoff(e) => if |l.batch| == 99 then [l.batch + [e]] else []
    case Tick => if |l.batch| > 0 then [l.batch] else []
    case DrainEmpty => if |l.batch| > 0 then [l.batch] else []
    case SeeCancel => if |l.batch| > 0 then [l.batch] else []
    case _ => []
  }

  lemma WhenFlushed<T>(l: Loop<T>, a: Action<T>)
    requires Inv(l) && Enabled(l, a)
    ensures var m, b := Apply(l, a), HandedOver(l, a);
      && m.flushed == l.flushed + b
      && (b != [] ==> m.writing == b[0] && m.batch == [])
      && (b == [] && (a.Recv? || a.DrainOne?) ==> m.batch == l.batch + [l.queue[0]])
      && (b == [] && a.Handoff? ==> m.batch == l.batch + [a.e])
      && (b == [] && !a.Recv? && !a.DrainOne? && !a.Handoff? ==> m.batch == l.batch)
  {
    assert l.flushed + [] == l.flushed;
  }

  // ---------- Runs ----------

  ghost predicate CanRun<T>(l: Loop<T>, actions: seq<Action<T>>)
    decreases |actions|
  {
    actions == [] || (Enabled(l, actions[0]) && CanRun(Apply(l, actions[0]), actions[1..]))
  }

  ghost function Run<T>(l: Loop<T>, actions: seq<Action<T>>): Loop<T>
    requires CanRun(l, actions)
    decreases |actions|
  {
    if actions == [] then l else Run(Apply(l, actions[0]), actions[1..])
  }

  function Sent<T>(a: Action<T>): seq<T> {
    if a.Send? || a.Handoff? then [a.e] else []
  }

  function AllSent<T>(actions: seq<Action<T>>): seq<T> {
    if actions == [] then [] else Sent(actions[0]) + AllSent(actions[1..])
  }

  lemma AcceptedGrows<T>(l: Loop<T>, a: Action<T>)
    requires Enabled(l, a)
    ensures Apply(l, a).accepted == l.accepted + Sent(a)
  {
  }

  /** In every run: what was delivered, then what is pending, is exactly what was sent, in order; the
      flushed batches hold what was delivered and what the flush still has, between 1 and 100 events each. */
  lemma {:induction false} RunIsFifo<T>(l: Loop<T>, actions: seq<Action<T>>)
    requires Inv(l) && CanRun(l, actions)
    ensures Inv(Run(l, actions)) && Run(l, actions).accepted == l.accepted + AllSent(actions)
    decreases |actions|
  {
    if actions == [] {
    } else {
      var m := Apply(l, actions[0]);
      ApplyKeepsInv(l, actions[0]);
      AcceptedGrows(l, actions[0]);
      RunIsFifo(m, actions[1..]);
      Regroup(l.accepted, Sent(actions[0]), AllSent(actions[1..]));
    }
  }

  /** Once the loop has ended and its last flush is done, the queue is exactly what was never delivered.
      After a drain that is what was sent later; so a close loses nothing exactly when nothing was sent
      after the loop ended. */
  lemma EndedLoopDelivered<T>(l: Loop<T>)
    requires Inv(l) && l.phase.Exited? && l.writing == []
    ensures l.delivered + l.queue == l.accepted
    ensures l.phase.drained ==> l.delivered == l.accepted[..l.atExit] && l.queue == l.accepted[l.atExit..]
    ensures l.delivered == l.accepted <==> l.queue == []
    ensures l.phase.drained ==> (l.delivered == l.accepted <==> l.atExit == |l.accepted|)
  {
    assert Pending(l) == l.queue;
  }

  // ---------- Draining ends ----------

  function Work<T>(l: Loop<T>): nat {
    4 * |l.queue| + 3 * |l.batch| + 2 * |l.writing|
      + (match l.phase case Running => 2 case Draining => 1 case Exited(_) => 0)
  }

  /** A consumer action that brings a closed loop nearer its end. */
  function NextDrain<T>(l: Loop<T>): Action<T> {
    if l.writing != [] then WriteOne
    else if l.phase.Running? then SeeClose
    else if l.queue != [] then DrainOne
    else DrainEmpty
  }

  ghost predicate CanFinish<T>(l: Loop<T>) {
    Inv(l) && l.closed && (l.phase.Exited? ==> l.phase.drained)
  }

  lemma NextDrainWorks<T>(l: Loop<T>)
    requires l.closed && !(l.phase.Exited? && l.writing == []) && |l.batch| < BATCH
    ensures Enabled(l, NextDrain(l))
    ensures var m := Apply(l, NextDrain(l));
      && Work(m) < Work(l) && m.closed && m.accepted == l.accepted
      && (if m.phase.Exited? then m.phase == (if l.phase.Exited? then l.phase else Exited(true)) else !l.phase.Exited?)
      && m.atExit == (if m.phase.Exited? && !l.phase.Exited? then |l.accepted| else l.atExit)
  {
  }

  lemma DrainProgress<T>(l: Loop<T>)
    requires CanFinish(l) && !(l.phase.Exited? && l.writing == [])
    ensures Enabled(l, NextDrain(l))
    ensures var m := Apply(l, NextDrain(l));
      && Work(m) < Work(l) && CanFinish(m) && m.accepted == l.accepted
      && (if m.phase.Exited? then m.atExit == (if l.phase.Exited? then l.atExit else |l.accepted|)
          else !l.phase.Exited?)
  {
    NextDrainWorks(l);
    ApplyKeepsInv(l, NextDrain(l));
  }

  /** The consumer left alone after a close. */
  ghost function Finish<T>(l: Loop<T>): (m: Loop<T>)
    requires CanFinish(l)
    ensures Inv(m) && m.phase == Exited(true) && m.writing == []
    ensures m.accepted == l.accepted && m.atExit == if l.phase.Exited? then l.atExit else |l.accepted|
    decreases Work(l)
  {
    if l.phase.Exited? && l.writing == [] then l
    else
      DrainProgress(l);
      Finish(Apply(l, NextDrain(l)))
  }

  /** A closed loop to which nobody sends can always finish, and then everything accepted is delivered. */
  lemma CloseCanFinish<T>(l: Loop<T>)
    requires Inv(l) && l.closed && !l.phase.Exited?
    ensures Finish(l).delivered == l.accepted && Finish(l).queue == []
  {
    EndedLoopDelivered(Finish(l));
  }

  // ---------- Every way the consumer can go ----------

  predicate OfConsumer<T>(a: Action<T>) {
    !a.Send? && !a.Handoff? && !a.Close? && !a.Cancel?
  }

  /** A tick that finds nothing to flush. */
  predicate IdleTick<T>(l: Loop<T>, a: Action<T>) {
    a.Tick? && l.batch == []
  }

  /** Whatever the consumer does, but for idle ticks, leaves it less to do. */
  lemma ConsumerProgress<T>(l: Loop<T>, a: Action<T>)
    requires Inv(l) && Enabled(l, a) && OfConsumer(a)
    ensures Apply(l, a).accepted == l.accepted
    ensures if IdleTick(l, a) then Apply(l, a) == l else Work(Apply(l, a)) < Work(l)
  {
  }

  /** How many of the actions are not idle ticks. */
  function BusyActions<T>(l: Loop<T>, actions: seq<Action<T>>): nat
    requires CanRun(l, actions)
    decreases |actions|
  {
    if actions == [] then 0
    else (if IdleTick(l, actions[0]) then 0 else 1) + BusyActions(Apply(l, actions[0]), actions[1..])
  }

  /** No schedule of the consumer keeps it busy for ever. */
  lemma {:induction false} BusyActionsAreFew<T>(l: Loop<T>, actions: seq<Action<T>>)
    requires Inv(l) && CanRun(l, actions) && forall i :: 0 <= i < |actions| ==> OfConsumer(actions[i])
    ensures BusyActions(l, actions) + Work(Run(l, actions)) <= Work(l)
    decreases |actions|
  {
    if actions == [] {
    } else {
      assert OfConsumer(actions[0]);
      ApplyKeepsInv(l, actions[0]);
      ConsumerProgress(l, actions[0]);
      BusyActionsAreFew(Apply(l, actions[0]), actions[1..]);
    }
  }

  /** Closed, not cancelled, and with nothing sent since it ended. */
  ghost predicate Closing<T>(l: Loop<T>) {
    && Inv(l) && l.closed && !l.cancelled
    && (l.phase.Exited? ==> l.phase.drained && l.atExit == |l.accepted|)
  }

  lemma {:induction false} ConsumerKeepsClosing<T>(l: Loop<T>, actions: seq<Action<T>>)
    requires Closing(l) && CanRun(l, actions) && forall i :: 0 <= i < |actions| ==> OfConsumer(actions[i])
    ensures Closing(Run(l, actions)) && Run(l, actions).accepted == l.accepted
    decreases |actions|
  {
    if actions == [] {
    } else {
      assert OfConsumer(actions[0]);
      ApplyKeepsInv(l, actions[0]);
      ConsumerProgress(l, actions[0]);
      ConsumerKeepsClosing(Apply(l, actions[0]), actions[1..]);
    }
  }

  /** However the consumer of a closed loop to which nobody sends goes on: once it has ended and flushed,
      everything accepted is delivered, and until then it has something to do; it is kept busy only so
      long. */
  lemma CloseDeliversAll<T>(l: Loop<T>, actions: seq<Action<T>>)
    requires Closing(l) && CanRun(l, actions) && forall i :: 0 <= i < |actions| ==> OfConsumer(actions[i])
    ensures var m := Run(l, actions);
      && BusyActions(l, actions) <= Work(l)
      && (if m.phase.Exited? && m.writing == [] then m.delivered == l.accepted && m.queue == []
          else OfConsumer(NextDrain(m)) && Enabled(m, NextDrain(m)) && !IdleTick(m, NextDrain(m)))
  {
    var m := Run(l, actions);
    ConsumerKeepsClosing(l, actions);
    BusyActionsAreFew(l, actions);
    if m.phase.Exited? && m.writing == [] {
      EndedLoopDelivered(m);
    } else {
      DrainProgress(m);
    }
  }
}
