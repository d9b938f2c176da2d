/** The event router under any interleaving of its submitters, its consumer and its object pool. The
    queue-length test and the channel send of `Submit` are separate steps. */
module EventRouterSpec {
  import opened BatchLoop
  import opened Collections
  import opened TelemetryEvents

  /** What one event object holds. */
  datatype Contents = Contents(
    id: int, typ: string, timestamp: int, processID: int32, parentID: int32, binaryPath: string,
    sha256: string, commandLine: string, username: string, filePath: string, fileAction: string,
    protocol: string, localIP: string, localPort: int32, remoteIP: string, remotePort: int32)

  const ZERO := Contents(0, "", ZERO_TIME, 0, 0, "", "", "", "", "", "", "", "", 0, "", 0)

  predicate IsFileRead(c: Contents) {
    c.typ == "file" && c.fileAction == "read"
  }

  /** 80% of the capacity, rounded down. */
  function Watermark(capacity: nat): nat {
    4 * capacity / 5
  }

  /** The watermark is the largest whole number within 80% of the capacity, so a queue has reached it exactly
      when one event more would take it beyond. */
  lemma WatermarkIsFourFifths(capacity: nat, queued: nat)
    ensures 5 * Watermark(capacity) <= 4 * capacity < 5 * (Watermark(capacity) + 1)
    ensures queued >= Watermark(capacity) <==> 5 * (queued + 1) > 4 * capacity
  {
  }

  /** Where a submitting goroutine is: between events, filling one, or past the queue-length test. */
  datatype Submitter<R> = Idle | Holding(e: R) | Checked(e: R)

  /** `sent` and `handled` are history: what the events held when they were put on the channel, and when
      the flush dealt with them. */
  datatype State<!R> = State(
    loop: Loop<R>, mem: map<R, Contents>, pool: set<R>, subs: seq<Submitter<R>>,
    submitted: nat, dropped: nat, sent: seq<Contents>, handled: seq<Contents>)

  datatype Step<R> =
    | Get(i: nat, r: R)            // take an object from the pool, or a new one
    | Fill(i: nat, c: Contents)
    | Check(i: nat)                // the queue-length test
    | Push(i: nat) | Meet(i: nat)  // the send finds room, or a waiting receiver
    | Overflow(i: nat)             // the send finds the queue full
    | Consume(a: Action<R>)
    | Forget(r: R)                 // the runtime frees a pooled object

  predicate Enabled<R(==)>(s: State<R>, x: Step<R>) {
    match x
    case Get(i, r) => i < |s.subs| && s.subs[i].Idle? && (r in s.pool || r !in s.mem)
    case Fill(i, _) => i < |s.subs| && s.subs[i].Holding?
    case Check(i) => i < |s.subs| && s.subs[i].Holding? && s.subs[i].e in s.mem
    case Push(i) => i < |s.subs| && s.subs[i].Checked? && s.subs[i].e in s.mem
      && BatchLoop.Enabled(s.loop, Send(s.subs[i].e))
    case Meet(i) => i < |s.subs| && s.subs[i].Checked? && s.subs[i].e in s.mem
      && BatchLoop.Enabled(s.loop, Handoff(s.subs[i].e))
    case Overflow(i) => i < |s.subs| && s.subs[i].Checked? && |s.loop.queue| >= s.loop.capacity
    case Consume(a) => !a.Send? && !a.Handoff? && !a.Cancel? && !a.SeeCancel? && BatchLoop.Enabled(s.loop, a)
      && (a.WriteOne? ==> s.loop.writing[0] in s.mem)
    case Forget(r) => r in s.pool
  }

  /** `PutEvent`: clear the object and pool it. */
  function Recycle<R>(s: State<R>, r: R): State<R> {
    s.(mem := s.mem[r := ZERO], pool := s.pool + {r})
  }

  function SetSub<R>(s: State<R>, i: nat, x: Submitter<R>): State<R>
    requires i < |s.subs|
  {
    s.(subs := s.subs[i := x])
  }

  function Drop<R>(s: State<R>, i: nat): State<R>
    requires i < |s.subs| && !s.subs[i].Idle?
  {
    Recycle(SetSub(s, i, Idle), s.subs[i].e).(dropped := s.dropped + 1)
  }

  predicate Triaged<R>(s: State<R>, r: R)
    requires r in s.mem
  {
    |s.loop.queue| >= Watermark(s.loop.capacity) && IsFileRead(s.mem[r])
  }

  function Apply<R(==)>(s: State<R>, x: Step<R>): State<R>
    requires Enabled(s, x)
  {
    match x
    case Get(i, r) =>
      SetSub(s, i, Holding(r)).(pool := s.pool - {r}, mem := if r in s.mem then s.mem else s.mem[r := ZERO])
    case Fill(i, c) => s.(mem := s.mem[s.subs[i].e := c])
    case Check(i) =>
      var t := s.(submitted := s.submitted + 1);
      if Triaged(s, s.subs[i].e) then Drop(t, i) else SetSub(t, i, Checked(s.subs[i].e))
    case Push(i) =>
      SetSub(s, i, Idle).(loop := BatchLoop.Apply(s.loop, Send(s.subs[i].e)), sent := s.sent + [s.mem[s.subs[i].e]])
    case Meet(i) =>
      SetSub(s, i, Idle).(loop := BatchLoop.Apply(s.loop, Handoff(s.subs[i].e)), sent := s.sent + [s.mem[s.subs[i].e]])
    case Overflow(i) => Drop(s, i)
    case Consume(a) =>
      var t := s.(loop := BatchLoop.Apply(s.loop, a));
      if a.WriteOne? then
        Recycle(t.(handled := s.handled + [s.mem[s.loop.writing[0]]]), s.loop.writing[0])
      else t
    case Forget(r) => s.(pool := s.pool - {r})
  }

  function Init<R>(capacity: nat, submitters: nat): State<R> {
    State(BatchLoop.Init(capacity), map[], {}, seq(submitters, _ => Idle), 0, 0, [], [])
  }

  // ---------- Ownership ----------

  ghost predicate Distinct<R>(q: seq<R>) {
    forall i, j :: 0 <= i < j < |q| ==> q[i] != q[j]
  }

  /** Every live object has one owner: the pool, the loop, or one submitter. */
  ghost predicate OneOwner<R>(s: State<R>) {
    && s.pool <= s.mem.Keys
    && Distinct(Pending(s.loop))
    && (forall r :: r in Pending(s.loop) ==> r in s.mem && r !in s.pool)
    && (forall i :: 0 <= i < |s.subs| && !s.subs[i].Idle? ==> SubOwns(s, i))
    && (forall i, j :: 0 <= i < j < |s.subs| && !s.subs[i].Idle? && !s.subs[j].Idle? ==> s.subs[i].e != s.subs[j].e)
  }

  ghost predicate SubOwns<R>(s: State<R>, i: nat)
    requires i < |s.subs| && !s.subs[i].Idle?
  {
    s.subs[i].e in s.mem && s.subs[i].e !in s.pool && s.subs[i].e !in Pending(s.loop)
  }

  ghost predicate PoolIsClear<R>(s: State<R>) {
    forall r :: r in s.pool ==> r in s.mem && s.mem[r] == ZERO
  }

  ghost function Values<R>(mem: map<R, Contents>, q: seq<R>): (v: seq<Contents>)
    requires forall r :: r in q ==> r in mem
    ensures |v| == |q| && forall i :: 0 <= i < |q| ==> v[i] == mem[q[i]]
  {
    seq(|q|, i requires 0 <= i < |q| => assert q[i] in q; mem[q[i]])
  }

  /** The flush sees exactly what was submitted: what it has handled and what the pending objects hold
      is what was sent. */
  ghost predicate ValuesKept<R>(s: State<R>)
    requires OneOwner(s)
  {
    s.handled + Values(s.mem, Pending(s.loop)) == s.sent
  }

  ghost predicate Counted<R>(s: State<R>) {
    s.submitted == |s.loop.accepted| + s.dropped + CheckedCount(s.subs)
  }

  function CheckedCount<R>(subs: seq<Submitter<R>>): nat {
    if subs == [] then 0 else (if subs[0].Checked? then 1 else 0) + CheckedCount(subs[1..])
  }

  // ---------- Triage ----------

  function QueuedReads<R>(mem: map<R, Contents>, q: seq<R>): nat {
    if q == [] then 0
    else (if q[0] in mem && IsFileRead(mem[q[0]]) then 1 else 0) + QueuedReads(mem, q[1..])
  }

  /** Submitters holding a file read that has passed the queue-length test. */
  function CheckedReads<R>(mem: map<R, Contents>, subs: seq<Submitter<R>>): nat {
    if subs == [] then 0
    else
      (if subs[0].Checked? && subs[0].e in mem && IsFileRead(mem[subs[0].e]) then 1 else 0)
        + CheckedReads(mem, subs[1..])
  }

  /** File reads on the queue, or past the test and about to be, never exceed the watermark by more than
      the number of submitters less one; and a watermark of zero lets none through. */
  ghost predicate ReadsBounded<R>(s: State<R>) {
    var total := QueuedReads(s.mem, s.loop.queue) + CheckedReads(s.mem, s.subs);
    && total + 1 <= Watermark(s.loop.capacity) + |s.subs|
    && (Watermark(s.loop.capacity) == 0 ==> total == 0)
  }

  /** How many file reads the queue can come to hold. */
  function MostReads(capacity: nat, submitters: nat): nat
    requires submitters > 0
  {
    if Watermark(capacity) == 0 then 0
    else if Watermark(capacity) + submitters - 1 <= capacity then Watermark(capacity) + submitters - 1
    else capacity
  }

  ghost predicate Good<R>(s: State<R>) {
    && |s.subs| > 0
    && Inv(s.loop) && OneOwner(s) && PoolIsClear(s) && ValuesKept(s)
    && Counted(s) && ReadsBounded(s)
  }

  // ---------- Counting ----------

  lemma {:induction false} CheckedCountAfter<R>(subs: seq<Submitter<R>>, i: nat, x: Submitter<R>)
    requires i < |subs|
    ensures CheckedCount(subs[i := x]) + (if subs[i].Checked? then 1 else 0)
         == CheckedCount(subs) + (if x.Checked? then 1 else 0)
  {
    if i > 0 {
      assert subs[i := x][1..] == subs[1..][i - 1 := x];
      CheckedCountAfter(subs[1..], i - 1, x);
    } else {
      assert subs[i := x][1..] == subs[1..];
    }
  }

  function ReadIn<R>(mem: map<R, Contents>, r: R): nat {
    if r in mem && IsFileRead(mem[r]) then 1 else 0
  }

  lemma {:induction false} CheckedReadsAfter<R>(mem: map<R, Contents>, subs: seq<Submitter<R>>, i: nat, x: Submitter<R>)
    requires i < |subs|
    ensures CheckedReads(mem, subs[i := x]) + (if subs[i].Checked? then ReadIn(mem, subs[i].e) else 0)
         == CheckedReads(mem, subs) + (if x.Checked? then ReadIn(mem, x.e) else 0)
  {
    if i > 0 {
      assert subs[i := x][1..] == subs[1..][i - 1 := x];
      CheckedReadsAfter(mem, subs[1..], i - 1, x);
    } else {
      assert subs[i := x][1..] == subs[1..];
    }
  }

  lemma {:induction false} CheckedReadsFrame<R>(mem: map<R, Contents>, mem': map<R, Contents>, subs: seq<Submitter<R>>)
    requires forall i :: 0 <= i < |subs| && subs[i].Checked? ==> ReadIn(mem, subs[i].e) == ReadIn(mem', subs[i].e)
    ensures CheckedReads(mem, subs) == CheckedReads(mem', subs)
  {
    if subs == [] {
    } else {
      assert subs[0].Checked? ==> ReadIn(mem, subs[0].e) == ReadIn(mem', subs[0].e);
      CheckedReadsFrame(mem, mem', subs[1..]);
    }
  }

  lemma {:induction false} CheckedReadsAtMost<R>(mem: map<R, Contents>, subs: seq<Submitter<R>>)
    ensures CheckedReads(mem, subs) <= |subs|
  {
    if subs == [] {
    } else {
      CheckedReadsAtMost(mem, subs[1..]);
    }
  }

  lemma {:induction false} QueuedReadsFrame<R>(mem: map<R, Contents>, mem': map<R, Contents>, q: seq<R>)
    requires forall r :: r in q ==> ReadIn(mem, r) == ReadIn(mem', r)
    ensures QueuedReads(mem, q) == QueuedReads(mem', q)
    ensures QueuedReads(mem, q) <= |q|
  {
    if q == [] {
    } else {
      assert q[0] in q;
      QueuedReadsFrame(mem, mem', q[1..]);
    }
  }

  lemma {:induction false} QueuedReadsAppend<R>(mem: map<R, Contents>, q: seq<R>, r: R)
    ensures QueuedReads(mem, q + [r]) == QueuedReads(mem, q) + ReadIn(mem, r)
  {
    if q == [] {
      assert q + [r] == [r];
    } else {
      assert (q + [r])[1..] == q[1..] + [r];
      QueuedReadsAppend(mem, q[1..], r);
    }
  }

  // ---------- Each step keeps the invariant ----------

  /** Clearing or refilling an object that neither the loop nor another submitter owns. */
  lemma ForeignWriteKeepsValues<R>(s: State<R>, r: R, c: Contents)
    requires OneOwner(s) && r !in Pending(s.loop)
    ensures forall q :: q in Pending(s.loop) ==> q in s.mem[r := c]
    ensures Values(s.mem[r := c], Pending(s.loop)) == Values(s.mem, Pending(s.loop))
    ensures QueuedReads(s.mem[r := c], s.loop.queue) == QueuedReads(s.mem, s.loop.queue)
  {
    forall q | q in s.loop.queue
      ensures q in Pending(s.loop)
    {
    }
    QueuedReadsFrame(s.mem, s.mem[r := c], s.loop.queue);
  }

  lemma GetKeepsOneOwner<R>(s: State<R>, i: nat, r: R)
    requires OneOwner(s) && PoolIsClear(s) && Enabled(s, Get(i, r))
    ensures OneOwner(Apply(s, Get(i, r)))
  {
    var t := Apply(s, Get(i, r));
    assert r !in Pending(s.loop);
    forall j | 0 <= j < |t.subs| && !t.subs[j].Idle?
      ensures SubOwns(t, j) && (j != i ==> t.subs[j].e != r)
    {
      assert j != i ==> SubOwns(s, j) && t.subs[j] == s.subs[j];
    }
  }

  lemma GetKeepsGood<R>(s: State<R>, i: nat, r: R)
    requires Good(s) && Enabled(s, Get(i, r))
    ensures Good(Apply(s, Get(i, r)))
  {
    var t := Apply(s, Get(i, r));
    GetKeepsOneOwner(s, i, r);
    if r !in s.mem {
      ForeignWriteKeepsValues(s, r, ZERO);
    }
    CheckedCountAfter(s.subs, i, Holding(r));
    CheckedReadsAfter(s.mem, s.subs, i, Holding(r));
    CheckedReadsFrame(s.mem, t.mem, t.subs);
  }

  lemma FillKeepsGood<R>(s: State<R>, i: nat, c: Contents)
    requires Good(s) && Enabled(s, Fill(i, c))
    ensures Good(Apply(s, Fill(i, c)))
  {
    var t := Apply(s, Fill(i, c));
    assert SubOwns(s, i);
    ForeignWriteKeepsValues(s, s.subs[i].e, c);
    CheckedReadsFrame(s.mem, t.mem, t.subs);
    assert OneOwner(t) by {
      forall j | 0 <= j < |t.subs| && !t.subs[j].Idle?
        ensures SubOwns(t, j)
      {
        assert SubOwns(s, j);
      }
    }
  }

  /** A submitter past the test: it holds a file read only if the queue was below the watermark. */
  lemma PassKeepsGood<R>(s: State<R>, i: nat)
    requires Good(s) && Enabled(s, Check(i)) && !Triaged(s, s.subs[i].e)
    ensures Good(Apply(s, Check(i)))
  {
    var t, r := Apply(s, Check(i)), s.subs[i].e;
    assert SubOwns(s, i);
    CheckedCountAfter(s.subs, i, Checked(r));
    CheckedReadsAfter(s.mem, s.subs, i, Checked(r));
    CheckedReadsAtMost(s.mem, t.subs);
    QueuedReadsFrame(s.mem, s.mem, s.loop.queue);
    assert OneOwner(t);
  }

  /** Dropping an event returns its object, cleared, to the pool. */
  lemma DropKeepsGood<R>(s: State<R>, i: nat, submitted: nat)
    requires Good(s) && i < |s.subs| && !s.subs[i].Idle?
    requires submitted == s.submitted + (if s.subs[i].Checked? then 0 else 1)
    ensures Good(Drop(s.(submitted := submitted), i))
  {
    var t, r := Drop(s.(submitted := submitted), i), s.subs[i].e;
    assert SubOwns(s, i);
    ForeignWriteKeepsValues(s, r, ZERO);
    CheckedCountAfter(s.subs, i, Idle);
    CheckedReadsAfter(s.mem, s.subs, i, Idle);
    forall j | 0 <= j < |t.subs| && t.subs[j].Checked?
      ensures ReadIn(s.mem, t.subs[j].e) == ReadIn(t.mem, t.subs[j].e)
    {
      assert t.subs[j] == s.subs[j] && SubOwns(s, j);
    }
    CheckedReadsFrame(s.mem, t.mem, t.subs);
    assert OneOwner(t) by {
      forall j | 0 <= j < |t.subs| && !t.subs[j].Idle?
        ensures SubOwns(t, j)
      {
        assert t.subs[j] == s.subs[j] && SubOwns(s, j);
      }
    }
  }

  /** A send moves the object, with what it holds, from its submitter to the loop. */
  lemma SendKeepsGood<R>(s: State<R>, i: nat, a: Action<R>)
    requires Good(s) && i < |s.subs| && s.subs[i].Checked? && s.subs[i].e in s.mem
    requires a == Send(s.subs[i].e) || a == Handoff(s.subs[i].e)
    requires BatchLoop.Enabled(s.loop, a)
    ensures Good(SetSub(s, i, Idle).(loop := BatchLoop.Apply(s.loop, a), sent := s.sent + [s.mem[s.subs[i].e]]))
  {
    var t := SetSub(s, i, Idle).(loop := BatchLoop.Apply(s.loop, a), sent := s.sent + [s.mem[s.subs[i].e]]);
    BatchLoop.ApplyKeepsInv(s.loop, a);
    SendKeepsOneOwner(s, i, t);
    SendKeepsValues(s, i, t);
    AcceptedGrows(s.loop, a);
    CheckedCountAfter(s.subs, i, Idle);
    SendKeepsReads(s, i, t);
  }

  lemma SendKeepsReads<R>(s: State<R>, i: nat, t: State<R>)
    requires ReadsBounded(s) && i < |s.subs| && s.subs[i].Checked?
    requires t.mem == s.mem && t.subs == s.subs[i := Idle] && t.loop.capacity == s.loop.capacity
    requires t.loop.queue == s.loop.queue + [s.subs[i].e] || t.loop.queue == s.loop.queue
    ensures ReadsBounded(t)
  {
    CheckedReadsAfter(s.mem, s.subs, i, Idle);
    QueuedReadsAppend(s.mem, s.loop.queue, s.subs[i].e);
  }

  lemma SendKeepsValues<R>(s: State<R>, i: nat, t: State<R>)
    requires OneOwner(s) && OneOwner(t) && ValuesKept(s) && i < |s.subs| && !s.subs[i].Idle? && s.subs[i].e in s.mem
    requires t.mem == s.mem && t.handled == s.handled && t.sent == s.sent + [s.mem[s.subs[i].e]]
    requires Pending(t.loop) == Pending(s.loop) + [s.subs[i].e]
    ensures ValuesKept(t)
  {
    var r := s.subs[i].e;
    assert Values(t.mem, Pending(t.loop)) == Values(s.mem, Pending(s.loop)) + [s.mem[r]];
    Regroup(s.handled, Values(s.mem, Pending(s.loop)), [s.mem[r]]);
  }

  lemma SendKeepsOneOwner<R>(s: State<R>, i: nat, t: State<R>)
    requires OneOwner(s) && i < |s.subs| && !s.subs[i].Idle?
    requires t.mem == s.mem && t.pool == s.pool && t.subs == s.subs[i := Idle]
    requires Pending(t.loop) == Pending(s.loop) + [s.subs[i].e]
    ensures OneOwner(t)
  {
    assert SubOwns(s, i);
    var p, r := Pending(s.loop), s.subs[i].e;
    forall q | q in Pending(t.loop)
      ensures q in p || q == r
    {
    }
    forall j | 0 <= j < |t.subs| && !t.subs[j].Idle?
      ensures SubOwns(t, j)
    {
      assert t.subs[j] == s.subs[j] && SubOwns(s, j);
    }
  }

  /** The flush reads the oldest pending object, then clears and pools it. */
  lemma WriteKeepsGood<R>(s: State<R>)
    requires Good(s) && Enabled(s, Consume(WriteOne))
    ensures Good(Apply(s, Consume(WriteOne)))
  {
    var t, p := Apply(s, Consume(WriteOne)), Pending(s.loop);
    BatchLoop.ApplyKeepsInv(s.loop, WriteOne);
    assert p[0] == s.loop.writing[0];
    WriteKeepsOneOwner(s, t);
    WriteKeepsValues(s, t);
    WriteKeepsReads(s, t);
  }

  lemma WriteKeepsValues<R>(s: State<R>, t: State<R>)
    requires OneOwner(s) && OneOwner(t) && ValuesKept(s) && |Pending(s.loop)| > 0
    requires Pending(t.loop) == Pending(s.loop)[1..] && t.mem == s.mem[Pending(s.loop)[0] := ZERO]
    requires t.sent == s.sent && t.handled == s.handled + [s.mem[Pending(s.loop)[0]]]
    ensures ValuesKept(t)
  {
    var p := Pending(s.loop);
    var v, w := Values(s.mem, p), Values(t.mem, p[1..]);
    forall i | 0 <= i < |w|
      ensures w[i] == v[i + 1]
    {
      assert p[1..][i] == p[i + 1] && p[0] != p[i + 1];
    }
    assert v == [v[0]] + w;
    Regroup(s.handled, [v[0]], w);
  }

  lemma WriteKeepsReads<R>(s: State<R>, t: State<R>)
    requires OneOwner(s) && ReadsBounded(s) && s.loop.writing != []
    requires t.mem == s.mem[s.loop.writing[0] := ZERO] && t.subs == s.subs
    requires t.loop.queue == s.loop.queue && t.loop.capacity == s.loop.capacity
    ensures ReadsBounded(t)
  {
    var p, r := Pending(s.loop), s.loop.writing[0];
    assert p[0] == r;
    forall q | q in s.loop.queue
      ensures q != r
    {
      var k :| 0 <= k < |s.loop.queue| && s.loop.queue[k] == q;
      assert p[|s.loop.writing + s.loop.batch| + k] == q;
    }
    QueuedReadsFrame(s.mem, t.mem, s.loop.queue);
    forall j | 0 <= j < |t.subs| && t.subs[j].Checked?
      ensures ReadIn(s.mem, t.subs[j].e) == ReadIn(t.mem, t.subs[j].e)
    {
      assert SubOwns(s, j) && r in p;
    }
    CheckedReadsFrame(s.mem, t.mem, t.subs);
  }

  lemma WriteKeepsOneOwner<R>(s: State<R>, t: State<R>)
    requires OneOwner(s) && |Pending(s.loop)| > 0 && Pending(t.loop) == Pending(s.loop)[1..]
    requires t.mem == s.mem[Pending(s.loop)[0] := ZERO] && t.pool == s.pool + {Pending(s.loop)[0]} && t.subs == s.subs
    ensures OneOwner(t)
  {
    var p := Pending(s.loop);
    forall q | q in p[1..]
      ensures q in p && q != p[0]
    {
      var k :| 0 <= k < |p[1..]| && p[1..][k] == q;
      assert p[k + 1] == q;
    }
    forall j | 0 <= j < |t.subs| && !t.subs[j].Idle?
      ensures SubOwns(t, j)
    {
      assert SubOwns(s, j) && p[0] in p;
    }
  }

  lemma OtherConsumeKeepsGood<R>(s: State<R>, a: Action<R>)
    requires Good(s) && Enabled(s, Consume(a)) && !a.WriteOne?
    ensures Good(Apply(s, Consume(a)))
  {
    var t := Apply(s, Consume(a));
    BatchLoop.ApplyKeepsInv(s.loop, a);
    AcceptedGrows(s.loop, a);
    assert Pending(t.loop) == Pending(s.loop);
    assert t.loop.queue == s.loop.queue || (s.loop.queue != [] && t.loop.queue == s.loop.queue[1..]);
    assert OneOwner(t) by {
      forall j | 0 <= j < |t.subs| && !t.subs[j].Idle?
        ensures SubOwns(t, j)
      {
        assert SubOwns(s, j);
      }
    }
  }

  lemma ConsumeKeepsGood<R>(s: State<R>, a: Action<R>)
    requires Good(s) && Enabled(s, Consume(a))
    ensures Good(Apply(s, Consume(a)))
  {
    if a.WriteOne? {
      WriteKeepsGood(s);
    } else {
      OtherConsumeKeepsGood(s, a);
    }
  }

  lemma CheckKeepsGood<R>(s: State<R>, i: nat)
    requires Good(s) && Enabled(s, Check(i))
    ensures Good(Apply(s, Check(i)))
  {
    if Triaged(s, s.subs[i].e) {
      DropKeepsGood(s, i, s.submitted + 1);
    } else {
      PassKeepsGood(s, i);
    }
  }

  lemma ForgetKeepsGood<R>(s: State<R>, r: R)
    requires Good(s) && Enabled(s, Forget(r))
    ensures Good(Apply(s, Forget(r)))
  {
    var t := Apply(s, Forget(r));
    assert OneOwner(t) by {
      forall j | 0 <= j < |t.subs| && !t.subs[j].Idle?
        ensures SubOwns(t, j)
      {
        assert SubOwns(s, j);
      }
    }
  }

  /** No step, in any order, can make two owners share an object, lose or reorder an event, change what
      a sent event holds, leave something in a pooled object, or let file reads past the bound. */
  lemma ApplyKeepsGood<R>(s: State<R>, x: Step<R>)
    requires Good(s) && Enabled(s, x)
    ensures Good(Apply(s, x))
  {
    match x
    case Get(i, r) => GetKeepsGood(s, i, r);
    case Fill(i, c) => FillKeepsGood(s, i, c);
    case Check(i) => CheckKeepsGood(s, i);
    case Push(i) => SendKeepsGood(s, i, Send(s.subs[i].e));
    case Meet(i) => SendKeepsGood(s, i, Handoff(s.subs[i].e));
    case Overflow(i) => DropKeepsGood(s, i, s.submitted);
    case Consume(a) => ConsumeKeepsGood(s, a);
    case Forget(r) => ForgetKeepsGood(s, r);
  }

  // ---------- Runs ----------

  ghost predicate CanRun<R>(s: State<R>, steps: seq<Step<R>>)
    decreases |steps|
  {
    steps == [] || (Enabled(s, steps[0]) && CanRun(Apply(s, steps[0]), steps[1..]))
  }

  ghost function Run<R>(s: State<R>, steps: seq<Step<R>>): State<R>
    requires CanRun(s, steps)
    decreases |steps|
  {
    if steps == [] then s else Run(Apply(s, steps[0]), steps[1..])
  }

  lemma {:induction false} RunKeepsGood<R>(s: State<R>, steps: seq<Step<R>>)
    requires Good(s) && CanRun(s, steps)
    ensures Good(Run(s, steps))
    decreases |steps|
  {
    if steps == [] {
    } else {
      ApplyKeepsGood(s, steps[0]);
      RunKeepsGood(Apply(s, steps[0]), steps[1..]);
    }
  }

  lemma {:induction false} NobodyChecked<R>(mem: map<R, Contents>, subs: seq<Submitter<R>>)
    requires forall i :: 0 <= i < |subs| ==> subs[i].Idle?
    ensures CheckedCount(subs) == 0 && CheckedReads(mem, subs) == 0
  {
    if subs == [] {
    } else {
      NobodyChecked(mem, subs[1..]);
    }
  }

  lemma InitIsGood<R>(capacity: nat, submitters: nat)
    requires submitters > 0
    ensures Good(Init<R>(capacity, submitters))
  {
    var s := Init<R>(capacity, submitters);
    NobodyChecked(s.mem, s.subs);
    assert Values(s.mem, Pending(s.loop)) == [];
  }

  /** What holds of the router after any interleaving of any number of submitters with its consumer. */
  lemma RouterRun<R>(capacity: nat, submitters: nat, steps: seq<Step<R>>)
    requires submitters > 0 && CanRun(Init<R>(capacity, submitters), steps)
    ensures var t := Run(Init<R>(capacity, submitters), steps);
      && Good(t)
      && t.handled + Values(t.mem, Pending(t.loop)) == t.sent
      && (|t.loop.accepted| + t.dropped <= t.submitted <= |t.loop.accepted| + t.dropped + submitters)
      && ((forall i :: 0 <= i < |t.subs| ==> t.subs[i].Idle?) ==> t.submitted == |t.loop.accepted| + t.dropped)
      && QueuedReads(t.mem, t.loop.queue) <= MostReads(capacity, submitters)
      && (submitters == 1 ==> QueuedReads(t.mem, t.loop.queue) <= Watermark(capacity))
  {
    InitIsGood<R>(capacity, submitters);
    RunKeepsGood(Init<R>(capacity, submitters), steps);
    RunKeepsSizes(Init<R>(capacity, submitters), steps);
    var t := Run(Init<R>(capacity, submitters), steps);
    CheckedCountAtMost(t.subs);
    QueuedReadsFrame(t.mem, t.mem, t.loop.queue);
    if forall i :: 0 <= i < |t.subs| ==> t.subs[i].Idle? {
      NobodyChecked(t.mem, t.subs);
    }
  }

  lemma {:induction false} CheckedCountAtMost<R>(subs: seq<Submitter<R>>)
    ensures CheckedCount(subs) <= |subs|
  {
    if subs == [] {
    } else {
      CheckedCountAtMost(subs[1..]);
    }
  }

  lemma {:induction false} RunKeepsSizes<R>(s: State<R>, steps: seq<Step<R>>)
    requires CanRun(s, steps)
    ensures Run(s, steps).loop.capacity == s.loop.capacity && |Run(s, steps).subs| == |s.subs|
    decreases |steps|
  {
    if steps == [] {
    } else {
      RunKeepsSizes(Apply(s, steps[0]), steps[1..]);
    }
  }

  /** An event is refused exactly when it is a file read that met a queue where one more would pass 80% of the
      capacity, or when the queue was full as it was sent; and its object is then in the pool, cleared. */
  lemma RefusedOnlyUnderPressure<R>(s: State<R>, x: Step<R>)
    requires Good(s) && Enabled(s, x)
    ensures Apply(s, x).dropped > s.dropped <==>
      || (x.Overflow? && |s.loop.queue| == s.loop.capacity)
      || (x.Check? && s.mem[s.subs[x.i].e].typ == "file" && s.mem[s.subs[x.i].e].fileAction == "read"
          && 5 * (|s.loop.queue| + 1) > 4 * s.loop.capacity)
    ensures Apply(s, x).dropped > s.dropped ==>
      s.subs[x.i].e in Apply(s, x).pool && Apply(s, x).mem[s.subs[x.i].e] == ZERO
  {
  }

  /** The object whose event a step drops or handles. */
  function Finished<R(==)>(s: State<R>, x: Step<R>): seq<R>
    requires Enabled(s, x)
  {
    match x
    case Check(i) => if Triaged(s, s.subs[i].e) then [s.subs[i].e] else []
    case Overflow(i) => [s.subs[i].e]
    case Consume(a) => if a.WriteOne? then [s.loop.writing[0]] else []
    case _ => []
  }

  /** From `s` to `t` exactly these objects came into the pool, cleared, one for each event dropped or
      handled. */
  ghost predicate Recycles<R>(s: State<R>, t: State<R>, done: seq<R>) {
    && |done| <= 1
    && (forall r :: r in t.pool ==> r in s.pool || r in done)
    && (forall r :: r in done ==> r in t.pool && r !in s.pool && r in t.mem && t.mem[r] == ZERO)
    && t.dropped + |t.handled| == s.dropped + |s.handled| + |done|
  }

  lemma DropRecycles<R>(s: State<R>, i: nat, submitted: nat)
    requires OneOwner(s) && i < |s.subs| && !s.subs[i].Idle?
    ensures Recycles(s, Drop(s.(submitted := submitted), i), [s.subs[i].e])
  {
    assert SubOwns(s, i);
  }

  lemma WriteRecycles<R>(s: State<R>)
    requires OneOwner(s) && Enabled(s, Consume(WriteOne))
    ensures Recycles(s, Apply(s, Consume(WriteOne)), [s.loop.writing[0]])
  {
    assert Pending(s.loop)[0] == s.loop.writing[0];
    assert s.loop.writing[0] in Pending(s.loop);
  }

  lemma OthersRecycleNothing<R>(s: State<R>, x: Step<R>)
    requires Enabled(s, x) && Finished(s, x) == []
    ensures Recycles(s, Apply(s, x), [])
  {
    assert Apply(s, x).pool <= s.pool;
  }

  /** A step brings into the pool exactly the object it finishes with, if it finishes with one, and clears
      it; that is when it drops or handles an event. */
  lemma StepRecyclesOnce<R>(s: State<R>, x: Step<R>)
    requires Good(s) && Enabled(s, x)
    ensures Recycles(s, Apply(s, x), Finished(s, x))
  {
    if Finished(s, x) == [] {
      OthersRecycleNothing(s, x);
    } else {
      match x
      case Check(i) => DropRecycles(s, i, s.submitted + 1);
      case Overflow(i) => DropRecycles(s, i, s.submitted);
      case Consume(_) => WriteRecycles(s);
    }
  }

  /** The objects a run recycles, in order. */
  ghost function Recycled<R>(s: State<R>, steps: seq<Step<R>>): seq<R>
    requires CanRun(s, steps)
    decreases |steps|
  {
    if steps == [] then [] else Finished(s, steps[0]) + Recycled(Apply(s, steps[0]), steps[1..])
  }

  /** A run recycles an object for each event dropped or handled, no more and no less. */
  lemma {:induction false} RunRecyclesEachOnce<R>(s: State<R>, steps: seq<Step<R>>)
    requires Good(s) && CanRun(s, steps)
    ensures var t := Run(s, steps);
      t.dropped + |t.handled| == s.dropped + |s.handled| + |Recycled(s, steps)|
    decreases |steps|
  {
    if steps == [] {
    } else {
      ApplyKeepsGood(s, steps[0]);
      StepRecyclesOnce(s, steps[0]);
      RunRecyclesEachOnce(Apply(s, steps[0]), steps[1..]);
    }
  }

  /** `Stop` with no later or overlapping `Submit`: when the loop has ended and flushed, every accepted
      event was handled, once, in order, as it was sent. What a late send leaves behind is on the queue. */
  lemma StopDeliversAllUnlessSentLate<R>(s: State<R>)
    requires Good(s) && s.loop.phase == Exited(true) && s.loop.writing == []
    ensures s.handled + Values(s.mem, s.loop.queue) == s.sent
    ensures s.handled == s.sent <==> s.loop.atExit == |s.loop.accepted|
    ensures s.loop.delivered == s.loop.accepted[..s.loop.atExit]
  {
    EndedLoopDelivered(s.loop);
    assert Pending(s.loop) == s.loop.queue;
    assert s.loop.queue == [] <==> s.handled == s.sent;
  }

  // ---------- A whole flush ----------

  /** The flush deals with every event of its batch. */
  ghost function WriteAll<R>(s: State<R>): (t: State<R>)
    requires Good(s)
    ensures Good(t) && t.loop.writing == []
    ensures t.loop == s.loop.(writing := [], delivered := s.loop.delivered + s.loop.writing)
    ensures t.sent == s.sent && t.subs == s.subs && t.dropped == s.dropped
    decreases |s.loop.writing|
  {
    if s.loop.writing == [] then s
    else
      assert s.loop.writing[0] == Pending(s.loop)[0];
      WriteKeepsGood(s);
      WriteAll(Apply(s, Consume(WriteOne)))
  }

  lemma WriteAllStep<R>(s: State<R>)
    requires Good(s) && s.loop.writing != []
    ensures Enabled(s, Consume(WriteOne))
    ensures Good(Apply(s, Consume(WriteOne))) && WriteAll(Apply(s, Consume(WriteOne))) == WriteAll(s)
  {
    assert s.loop.writing[0] == Pending(s.loop)[0];
    WriteKeepsGood(s);
  }

  /** One turn of the consumer's select, with the flush it may start. */
  ghost function ConsumeAndFlush<R>(s: State<R>, a: Action<R>): (t: State<R>)
    requires Good(s) && Enabled(s, Consume(a)) && !a.WriteOne?
    ensures Good(t) && t.loop.writing == []
  {
    OtherConsumeKeepsGood(s, a);
    WriteAll(Apply(s, Consume(a)))
  }
}
