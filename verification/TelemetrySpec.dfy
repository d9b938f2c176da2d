/** The telemetry pipeline under any interleaving of its producers with its consumer: every counter
    update, the deduplicator's decision, the send and each consumer action is a step of its own. */
module TelemetrySpec {
  import opened Text
  import opened TelemetryEvents
  import opened BatchLoop
  import Dedup = Deduplication

  datatype RawEvent = RawEvent(
    typ: string, timestamp: int, processID: int32, parentID: int32, binaryPath: string, sha256: string,
    commandLine: string, username: string, filePath: string, fileAction: string, protocol: string,
    localIP: string, localPort: int32, remoteIP: string, remotePort: int32)

  /** Lower-case the type, stamp an unstamped event, fill in a missing hash. */
  function Normalize(raw: RawEvent, now: int, hash: string -> string): Event {
    Event(ToLower(raw.typ), if raw.timestamp == ZERO_TIME then now else raw.timestamp,
          raw.processID, raw.parentID, raw.binaryPath,
          if raw.sha256 == "" && raw.binaryPath != "" then hash(raw.binaryPath) else raw.sha256,
          raw.commandLine, raw.username, raw.filePath, raw.fileAction, raw.protocol,
          raw.localIP, raw.localPort, raw.remoteIP, raw.remotePort)
  }

  /** The event keeps the raw fields as they are, but for a lower-case type, the current time in place of a
      missing one, and a hash of the path in place of a missing hash. */
  lemma NormalizeMeaning(raw: RawEvent, now: int, hash: string -> string)
    ensures var e := Normalize(raw, now, hash);
      && |e.typ| == |raw.typ|
      && (forall i :: 0 <= i < |raw.typ| ==>
            e.typ[i] == if 'A' <= raw.typ[i] <= 'Z' then raw.typ[i] - 'A' + 'a' else raw.typ[i])
      && (raw.timestamp == ZERO_TIME ==> e.timestamp == now)
      && (raw.timestamp != ZERO_TIME ==> e.timestamp == raw.timestamp)
      && (raw.sha256 != "" || raw.binaryPath == "" ==> e.sha256 == raw.sha256)
      && (raw.sha256 == "" && raw.binaryPath != "" ==> e.sha256 == hash(raw.binaryPath))
      && e.processID == raw.processID && e.parentID == raw.parentID && e.binaryPath == raw.binaryPath
      && e.commandLine == raw.commandLine && e.username == raw.username
      && e.filePath == raw.filePath && e.fileAction == raw.fileAction && e.protocol == raw.protocol
      && e.localIP == raw.localIP && e.localPort == raw.localPort
      && e.remoteIP == raw.remoteIP && e.remotePort == raw.remotePort
  {
  }

  predicate ShouldFilter(excludes: seq<string>, e: Event) {
    e.typ == "file" && exists i :: 0 <= i < |excludes| && HasPrefix(e.filePath, excludes[i])
  }

  /** Where a goroutine inside `Ingest` is. */
  datatype Ingester =
    | Idle
    | Begun(e: Event)       // counted as ingested
    | Normal(e: Event)      // counted as normalised
    | Repeated              // found a duplicate, not yet counted
    | Fresh(e: Event)       // past the deduplicator
    | Excluded              // filtered, not yet counted
    | Kept(e: Event)        // past the filter
    | Queued                // sent, not yet counted as buffered

  datatype Metrics = Metrics(
    ingested: nat, normalized: nat, deduplicated: nat, filtered: nat, buffered: nat, persisted: nat)

  /** `overflowed` counts the events dropped without a counter of the source's own. */
  datatype State = State(
    loop: Loop<Event>, cache: Dedup.Cache, history: seq<Dedup.Seen>, last: int, ttl: int,
    excludes: seq<string>, ings: seq<Ingester>, metrics: Metrics, overflowed: nat)

  datatype Step =
    | Begin(i: nat, e: Event)
    | CountNormal(i: nat)
    | Decide(i: nat, now: int)
    | CountDuplicate(i: nat)
    | Filter(i: nat)
    | CountFiltered(i: nat)
    | Push(i: nat) | Meet(i: nat) | Overflow(i: nat)
    | CountBuffered(i: nat)
    | Consume(a: Action<Event>, stored: bool)

  predicate Enabled(s: State, x: Step) {
    match x
    case Begin(i, _) => i < |s.ings| && s.ings[i].Idle?
    case CountNormal(i) => i < |s.ings| && s.ings[i].Begun?
    case Decide(i, now) => i < |s.ings| && s.ings[i].Normal? && s.last <= now
    case CountDuplicate(i) => i < |s.ings| && s.ings[i].Repeated?
    case Filter(i) => i < |s.ings| && s.ings[i].Fresh?
    case CountFiltered(i) => i < |s.ings| && s.ings[i].Excluded?
    case Push(i) => i < |s.ings| && s.ings[i].Kept? && BatchLoop.Enabled(s.loop, Send(s.ings[i].e))
    case Meet(i) => i < |s.ings| && s.ings[i].Kept? && BatchLoop.Enabled(s.loop, Handoff(s.ings[i].e))
    case Overflow(i) => i < |s.ings| && s.ings[i].Kept? && |s.loop.queue| >= s.loop.capacity
    case CountBuffered(i) => i < |s.ings| && s.ings[i].Queued?
    case Consume(a, stored) => !a.Send? && !a.Handoff? && BatchLoop.Enabled(s.loop, a) && (stored ==> a.WriteOne?)
  }

  function Go(s: State, i: nat, x: Ingester): State
    requires i < |s.ings|
  {
    s.(ings := s.ings[i := x])
  }

  function Apply(s: State, x: Step): State
    requires Enabled(s, x)
  {
    match x
    case Begin(i, e) => Go(s, i, Begun(e)).(metrics := s.metrics.(ingested := s.metrics.ingested + 1))
    case CountNormal(i) => Go(s, i, Normal(s.ings[i].e)).(metrics := s.metrics.(normalized := s.metrics.normalized + 1))
    case Decide(i, now) =>
      var key := Dedup.Key(s.ings[i].e);
      var dup := Dedup.Hit(s.cache, key, now, s.ttl);
      Go(s, i, if dup then Repeated else Fresh(s.ings[i].e))
        .(cache := Dedup.Updated(s.cache, key, now, s.ttl, Dedup.LIMIT),
          history := Dedup.Recorded(s.history, key, now, dup), last := now)
    case CountDuplicate(i) => Go(s, i, Idle).(metrics := s.metrics.(deduplicated := s.metrics.deduplicated + 1))
    case Filter(i) => Go(s, i, if ShouldFilter(s.excludes, s.ings[i].e) then Excluded else Kept(s.ings[i].e))
    case CountFiltered(i) => Go(s, i, Idle).(metrics := s.metrics.(filtered := s.metrics.filtered + 1))
    case Push(i) => Go(s, i, Queued).(loop := BatchLoop.Apply(s.loop, Send(s.ings[i].e)))
    case Meet(i) => Go(s, i, Queued).(loop := BatchLoop.Apply(s.loop, Handoff(s.ings[i].e)))
    case Overflow(i) => Go(s, i, Idle).(overflowed := s.overflowed + 1)
    case CountBuffered(i) => Go(s, i, Idle).(metrics := s.metrics.(buffered := s.metrics.buffered + 1))
    case Consume(a, stored) =>
      s.(loop := BatchLoop.Apply(s.loop, a),
         metrics := if stored then s.metrics.(persisted := s.metrics.persisted + 1) else s.metrics)
  }

  function Init(capacity: nat, ttl: int, excludes: seq<string>, ingesters: nat, start: int): State {
    State(BatchLoop.Init(capacity), map[], [], start, ttl, excludes, seq(ingesters, _ => Idle),
          Metrics(0, 0, 0, 0, 0, 0), 0)
  }

  // ---------- Accounting ----------

  function Count(ings: seq<Ingester>, p: Ingester -> bool): nat {
    if ings == [] then 0 else (if p(ings[0]) then 1 else 0) + Count(ings[1..], p)
  }

  lemma {:induction false} CountAfter(ings: seq<Ingester>, i: nat, x: Ingester, p: Ingester -> bool)
    requires i < |ings|
    ensures Count(ings[i := x], p) + (if p(ings[i]) then 1 else 0) == Count(ings, p) + (if p(x) then 1 else 0)
  {
    if i > 0 {
      assert ings[i := x][1..] == ings[1..][i - 1 := x];
      CountAfter(ings[1..], i - 1, x, p);
    } else {
      assert ings[i := x][1..] == ings[1..];
    }
  }

  lemma {:induction false} CountNone(ings: seq<Ingester>, p: Ingester -> bool)
    requires forall i :: 0 <= i < |ings| ==> !p(ings[i])
    ensures Count(ings, p) == 0
  {
    if ings == [] {
    } else {
      CountNone(ings[1..], p);
    }
  }

  predicate InFlight(x: Ingester) { !x.Idle? }
  predicate IsBegun(x: Ingester) { x.Begun? }
  predicate IsQueued(x: Ingester) { x.Queued? }

  /** Every ingested event is counted once as what became of it, or is still inside `Ingest`. */
  ghost predicate Accounted(s: State) {
    && s.metrics.ingested == s.metrics.deduplicated + s.metrics.filtered + s.metrics.buffered + s.overflowed
         + Count(s.ings, InFlight)
    && s.metrics.ingested == s.metrics.normalized + Count(s.ings, IsBegun)
    && |s.loop.accepted| == s.metrics.buffered + Count(s.ings, IsQueued)
    && s.metrics.persisted <= |s.loop.delivered|
  }

  /** Nothing the filter excludes gets past it. */
  ghost predicate Screened(s: State) {
    && (forall i :: 0 <= i < |s.loop.accepted| ==> !ShouldFilter(s.excludes, s.loop.accepted[i]))
    && (forall i :: 0 <= i < |s.ings| && s.ings[i].Kept? ==> !ShouldFilter(s.excludes, s.ings[i].e))
  }

  ghost predicate Good(s: State) {
    && Inv(s.loop) && Accounted(s) && Screened(s)
    && Dedup.Tracks(s.cache, s.history, s.ttl, s.last) && Dedup.Spaced(s.history, s.ttl)
  }

  lemma CountsAfter(s: State, i: nat, x: Ingester)
    requires i < |s.ings|
    ensures var t := s.ings[i := x];
      && Count(t, InFlight) + (if s.ings[i].Idle? then 0 else 1) ==
         Count(s.ings, InFlight) + (if x.Idle? then 0 else 1)
      && Count(t, IsBegun) + (if s.ings[i].Begun? then 1 else 0) ==
         Count(s.ings, IsBegun) + (if x.Begun? then 1 else 0)
      && Count(t, IsQueued) + (if s.ings[i].Queued? then 1 else 0) ==
         Count(s.ings, IsQueued) + (if x.Queued? then 1 else 0)
  {
    CountAfter(s.ings, i, x, InFlight);
    CountAfter(s.ings, i, x, IsBegun);
    CountAfter(s.ings, i, x, IsQueued);
  }

  lemma GoKeepsScreened(s: State, t: State, i: nat, x: Ingester)
    requires Screened(s) && i < |s.ings| && (x.Kept? ==> !ShouldFilter(s.excludes, x.e))
    requires t.ings == s.ings[i := x] && t.loop.accepted == s.loop.accepted && t.excludes == s.excludes
    ensures Screened(t)
  {
  }

  /** The steps that only move one goroutine on, or bump one counter. */
  lemma MoveKeepsGood(s: State, x: Step)
    requires Good(s) && Enabled(s, x) && !x.Decide? && !x.Push? && !x.Meet? && !x.Consume?
    ensures Good(Apply(s, x))
  {
    var t := Apply(s, x);
    CountsAfter(s, x.i, t.ings[x.i]);
    GoKeepsScreened(s, t, x.i, t.ings[x.i]);
  }

  lemma DecideKeepsGood(s: State, i: nat, now: int)
    requires Good(s) && Enabled(s, Decide(i, now))
    ensures Good(Apply(s, Decide(i, now)))
  {
    var e, t := s.ings[i].e, Apply(s, Decide(i, now));
    CountsAfter(s, i, t.ings[i]);
    Dedup.DecisionKeepsHistory(s.cache, s.history, s.ttl, s.last, Dedup.Key(e), now);
    GoKeepsScreened(s, t, i, t.ings[i]);
  }

  lemma SendKeepsGood(s: State, i: nat, a: Action<Event>)
    requires Good(s) && i < |s.ings| && s.ings[i].Kept? && (a == Send(s.ings[i].e) || a == Handoff(s.ings[i].e))
    requires BatchLoop.Enabled(s.loop, a)
    ensures Good(Go(s, i, Queued).(loop := BatchLoop.Apply(s.loop, a)))
  {
    CountsAfter(s, i, Queued);
    BatchLoop.ApplyKeepsInv(s.loop, a);
    AcceptedGrows(s.loop, a);
    DeliveredGrows(s.loop, a);
    var t := Go(s, i, Queued).(loop := BatchLoop.Apply(s.loop, a));
    assert Screened(t);
  }

  lemma DeliveredGrows(l: Loop<Event>, a: Action<Event>)
    requires BatchLoop.Enabled(l, a)
    ensures BatchLoop.Apply(l, a).delivered == l.delivered + (if a.WriteOne? then [l.writing[0]] else [])
  {
  }

  lemma ConsumeKeepsGood(s: State, a: Action<Event>, stored: bool)
    requires Good(s) && Enabled(s, Consume(a, stored))
    ensures Good(Apply(s, Consume(a, stored)))
  {
    BatchLoop.ApplyKeepsInv(s.loop, a);
    AcceptedGrows(s.loop, a);
    DeliveredGrows(s.loop, a);
  }

  lemma ApplyKeepsGood(s: State, x: Step)
    requires Good(s) && Enabled(s, x)
    ensures Good(Apply(s, x))
  {
    match x
    case Decide(i, now) => DecideKeepsGood(s, i, now);
    case Push(i) => SendKeepsGood(s, i, Send(s.ings[i].e));
    case Meet(i) => SendKeepsGood(s, i, Handoff(s.ings[i].e));
    case Consume(a, stored) => ConsumeKeepsGood(s, a, stored);
    case _ => MoveKeepsGood(s, x);
  }

  // ---------- Runs ----------

  ghost predicate CanRun(s: State, steps: seq<Step>)
    decreases |steps|
  {
    steps == [] || (Enabled(s, steps[0]) && CanRun(Apply(s, steps[0]), steps[1..]))
  }

  ghost function Run(s: State, steps: seq<Step>): State
    requires CanRun(s, steps)
    decreases |steps|
  {
    if steps == [] then s else Run(Apply(s, steps[0]), steps[1..])
  }

  lemma {:induction false} RunKeepsGood(s: State, steps: seq<Step>)
    requires Good(s) && CanRun(s, steps)
    ensures Good(Run(s, steps))
    decreases |steps|
  {
    if steps == [] {
    } else {
      ApplyKeepsGood(s, steps[0]);
      RunKeepsGood(Apply(s, steps[0]), steps[1..]);
    }
  }

  /** After any interleaving: the delivered, then the pending events are the buffered ones in order; and
      whenever nobody is inside `Ingest`, each ingested event is one of duplicate, filtered, buffered or
      silently dropped. */
  lemma PipelineRun(capacity: nat, ttl: int, excludes: seq<string>, ingesters: nat, start: int, steps: seq<Step>)
    requires CanRun(Init(capacity, ttl, excludes, ingesters, start), steps)
    ensures var t := Run(Init(capacity, ttl, excludes, ingesters, start), steps);
      && Good(t)
      && t.loop.delivered + Pending(t.loop) == t.loop.accepted
      && ((forall i :: 0 <= i < |t.ings| ==> t.ings[i].Idle?) ==>
            && t.metrics.ingested == t.metrics.deduplicated + t.metrics.filtered + t.metrics.buffered + t.overflowed
            && t.metrics.normalized == t.metrics.ingested
            && |t.loop.accepted| == t.metrics.buffered)
  {
    var s := Init(capacity, ttl, excludes, ingesters, start);
    CountNone(s.ings, InFlight);
    CountNone(s.ings, IsBegun);
    CountNone(s.ings, IsQueued);
    assert Good(s);
    RunKeepsGood(s, steps);
    var t := Run(s, steps);
    if forall i :: 0 <= i < |t.ings| ==> t.ings[i].Idle? {
      CountNone(t.ings, InFlight);
      CountNone(t.ings, IsBegun);
      CountNone(t.ings, IsQueued);
    }
  }
}
