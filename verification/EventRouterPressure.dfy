/** The bound on queued file reads is reached: with `k` submitters the queue can come to hold
    `k - 1` more file reads than the watermark, or as many as it has room for. */
module EventRouterPressure {
  import opened EventRouterSpec

  const FILE_READ := ZERO.(typ := "file", fileAction := "read")

  ghost predicate Reachable(s: State<nat>, t: State<nat>) {
    exists steps :: CanRun(s, steps) && Run(s, steps) == t
  }

  lemma OneStep(s: State<nat>, x: Step<nat>)
    requires Enabled(s, x)
    ensures Reachable(s, Apply(s, x))
  {
    var t := Apply(s, x);
    assert CanRun(t, []) && Run(t, []) == t;
    assert [x][1..] == [];
    assert CanRun(s, [x]) && Run(s, [x]) == t;
  }

  lemma {:induction false} RunAppends(s: State<nat>, a: seq<Step<nat>>, b: seq<Step<nat>>)
    requires CanRun(s, a) && CanRun(Run(s, a), b)
    ensures CanRun(s, a + b) && Run(s, a + b) == Run(Run(s, a), b)
    decreases |a|
  {
    if a == [] {
      assert a + b == b;
    } else {
      assert (a + b)[1..] == a[1..] + b;
      RunAppends(Apply(s, a[0]), a[1..], b);
    }
  }

  lemma ReachableTransitive(s: State<nat>, t: State<nat>, u: State<nat>)
    requires Reachable(s, t) && Reachable(t, u)
    ensures Reachable(s, u)
  {
    var a :| CanRun(s, a) && Run(s, a) == t;
    var b :| CanRun(t, b) && Run(t, b) == u;
    RunAppends(s, a, b);
  }

  lemma ThreeSteps(s: State<nat>, x: Step<nat>, y: Step<nat>, z: Step<nat>)
    requires Enabled(s, x) && Enabled(Apply(s, x), y) && Enabled(Apply(Apply(s, x), y), z)
    ensures Reachable(s, Apply(Apply(Apply(s, x), y), z))
  {
    var a := Apply(s, x);
    var b := Apply(a, y);
    OneStep(s, x);
    OneStep(a, y);
    OneStep(b, z);
    ReachableTransitive(s, a, b);
    ReachableTransitive(s, b, Apply(b, z));
  }

  /** `n` file reads are queued, the first `j` submitters hold one each past the test, the others idle. */
  ghost predicate Shape(s: State<nat>, n: nat, j: nat, bound: nat) {
    && |s.loop.queue| == n == QueuedReads(s.mem, s.loop.queue)
    && j <= |s.subs|
    && (forall i :: 0 <= i < j ==> s.subs[i].Checked? && s.subs[i].e in s.mem && IsFileRead(s.mem[s.subs[i].e]))
    && (forall i :: j <= i < |s.subs| ==> s.subs[i].Idle?)
    && (forall r :: r in s.mem ==> r < bound)
    && (forall r :: r in s.loop.queue ==> r < bound)
  }

  lemma AdmittedShape(s: State<nat>, t: State<nat>, n: nat, j: nat, bound: nat)
    requires Shape(s, n, j, bound) && j < |s.subs| && t.loop == s.loop
    requires t.mem == s.mem[bound := FILE_READ] && t.subs == s.subs[j := Checked(bound)]
    ensures Shape(t, n, j + 1, bound + 1)
  {
    QueuedReadsFrame(s.mem, t.mem, s.loop.queue);
  }

  /** The next submitter gets an object, makes it a file read and passes the test. */
  lemma Admit(s: State<nat>, n: nat, j: nat, bound: nat) returns (t: State<nat>)
    requires Shape(s, n, j, bound) && j < |s.subs| && n < Watermark(s.loop.capacity)
    ensures Shape(t, n, j + 1, bound + 1) && Reachable(s, t) && t.loop == s.loop && |t.subs| == |s.subs|
  {
    var a := Apply(s, Get(j, bound));
    var b := Apply(a, Fill(j, FILE_READ));
    t := Apply(b, Check(j));
    ThreeSteps(s, Get(j, bound), Fill(j, FILE_READ), Check(j));
    assert t == s.(mem := s.mem[bound := FILE_READ], subs := s.subs[j := Checked(bound)],
                   pool := s.pool - {bound}, submitted := s.submitted + 1);
    AdmittedShape(s, t, n, j, bound);
  }

  /** The last of the submitters past the test sends. */
  lemma PushLast(s: State<nat>, n: nat, j: nat, bound: nat) returns (t: State<nat>)
    requires Shape(s, n, j, bound) && 0 < j && n < s.loop.capacity
    ensures Shape(t, n + 1, j - 1, bound) && Reachable(s, t)
    ensures t.loop.capacity == s.loop.capacity && |t.subs| == |s.subs|
  {
    t := Apply(s, Push(j - 1));
    OneStep(s, Push(j - 1));
    QueuedReadsAppend(s.mem, s.loop.queue, s.subs[j - 1].e);
  }

  /** One submitter alone fills the queue with `m` file reads. */
  lemma {:induction false} FillQueue(s: State<nat>, n: nat, bound: nat, m: nat) returns (t: State<nat>, bound': nat)
    requires Shape(s, n, 0, bound) && |s.subs| > 0 && n + m < Watermark(s.loop.capacity)
    ensures Shape(t, n + m, 0, bound') && Reachable(s, t)
    ensures t.loop.capacity == s.loop.capacity && |t.subs| == |s.subs|
    decreases m
  {
    if m == 0 {
      t, bound' := s, bound;
      assert CanRun(s, []) && Run(s, []) == s;
    } else {
      var a := Admit(s, n, 0, bound);
      var b := PushLast(a, n, 1, bound + 1);
      t, bound' := FillQueue(b, n + 1, bound + 1, m - 1);
      ReachableTransitive(s, a, b);
      ReachableTransitive(s, b, t);
    }
  }

  /** The first `m` submitters pass the test before any of them sends. */
  lemma {:induction false} AdmitMany(s: State<nat>, n: nat, j: nat, m: nat, bound: nat)
    returns (t: State<nat>, bound': nat)
    requires Shape(s, n, j, bound) && j <= m <= |s.subs| && n < Watermark(s.loop.capacity)
    ensures Shape(t, n, m, bound') && Reachable(s, t) && t.loop == s.loop && |t.subs| == |s.subs|
    decreases m - j
  {
    if j == m {
      t, bound' := s, bound;
      assert CanRun(s, []) && Run(s, []) == s;
    } else {
      var a := Admit(s, n, j, bound);
      t, bound' := AdmitMany(a, n, j + 1, m, bound + 1);
      ReachableTransitive(s, a, t);
    }
  }

  lemma {:induction false} PushAll(s: State<nat>, n: nat, j: nat, bound: nat) returns (t: State<nat>)
    requires Shape(s, n, j, bound) && n + j <= s.loop.capacity
    ensures Shape(t, n + j, 0, bound) && Reachable(s, t)
    decreases j
  {
    if j == 0 {
      t := s;
      assert CanRun(s, []) && Run(s, []) == s;
    } else {
      var a := PushLast(s, n, j, bound);
      t := PushAll(a, n + 1, j - 1, bound);
      ReachableTransitive(s, a, t);
    }
  }

  /** Whatever the capacity, some interleaving of `k` submitters queues as many file reads as the bound
      allows. */
  lemma ReadBoundIsReached(capacity: nat, k: nat) returns (t: State<nat>)
    requires k > 0
    ensures Reachable(Init<nat>(capacity, k), t)
    ensures QueuedReads(t.mem, t.loop.queue) == MostReads(capacity, k)
  {
    var s := Init<nat>(capacity, k);
    var w := Watermark(capacity);
    if w == 0 {
      t := s;
      assert CanRun(s, []) && Run(s, []) == s;
    } else {
      var m: nat := MostReads(capacity, k) - w + 1;
      var a, b := FillQueue(s, 0, 0, w - 1);
      var c, d := AdmitMany(a, w - 1, 0, m, b);
      t := PushAll(c, w - 1, m, d);
      ReachableTransitive(s, a, c);
      ReachableTransitive(s, c, t);
    }
  }
}
