/** The process-tree correlation engine as a value: every process node ever made, in creation order,
    and the nodes still filed under a pid. Child pointers are indices into that order. */
module ProcessTreeSpec {
  import opened Text
  import opened TelemetryEvents

  datatype FileActivity = FileActivity(filePath: string, action: string, at: int)
  datatype NetworkActivity = NetworkActivity(protocol: string, remoteIP: string, remotePort: int32, at: int)
  datatype RegistryActivity = RegistryActivity(keyPath: string, action: string, at: int)
  datatype AlertActivity = AlertActivity(ruleName: string, description: string, at: int)

  datatype Record = Record(
    pid: int32, parentPID: int32, binaryPath: string, commandLine: string, username: string, launchedAt: int,
    files: seq<FileActivity>, nets: seq<NetworkActivity>, regs: seq<RegistryActivity>,
    alerts: seq<AlertActivity>, children: seq<nat>)

  type Tree = seq<Record>

  datatype State = State(tree: Tree, filed: map<int32, nat>, window: int)

  // ---------- Operations ----------

  ghost predicate FiledAs(t: Tree, n: nat, pid: int32) {
    n < |t| && t[n].pid == pid
  }

  /** Every node is filed under its own pid. */
  ghost predicate FiledInTree(s: State) {
    forall pid :: pid in s.filed ==> FiledAs(s.tree, s.filed[pid], pid)
  }

  ghost function Sweep(s: State, now: int): (t: State)
    requires FiledInTree(s)
    ensures FiledInTree(t)
  {
    s.(filed := map pid | pid in s.filed && (assert FiledAs(s.tree, s.filed[pid], pid);
                                             now - s.tree[s.filed[pid]].launchedAt <= s.window) :: s.filed[pid])
  }

  function NewRecord(ev: Event): Record {
    Record(ev.processID, ev.parentID, ev.binaryPath, ev.commandLine, ev.username, ev.timestamp, [], [], [], [], [])
  }

  function Adopt(r: Record, child: nat): Record {
    r.(children := r.children + [child])
  }

  /** File the new node under its pid, then hang it below whatever is filed under its parent's pid,
      which is the new node itself when the two pids are equal. */
  ghost function Launch(s: State, ev: Event): (t: State)
    requires FiledInTree(s)
    ensures FiledInTree(t)
  {
    var n := |s.tree|;
    var filed := s.filed[ev.processID := n];
    var tree := s.tree + [NewRecord(ev)];
    if ev.parentID in filed then
      var p := filed[ev.parentID];
      State(tree[p := Adopt(tree[p], n)], filed, s.window)
    else State(tree, filed, s.window)
  }

  /** What an event of another kind adds to the record of its process. */
  function Note(r: Record, ev: Event): Record {
    if ev.typ == "file" then r.(files := r.files + [FileActivity(ev.filePath, ev.fileAction, ev.timestamp)])
    else if ev.typ == "network" then
      r.(nets := r.nets + [NetworkActivity(ev.protocol, ev.remoteIP, ev.remotePort, ev.timestamp)])
    else if ev.typ == "registry" then r.(regs := r.regs + [RegistryActivity(ev.filePath, ev.fileAction, ev.timestamp)])
    else r
  }

  ghost function Update(s: State, pid: int32, r: Record): (t: State)
    requires FiledInTree(s) && pid in s.filed && r.pid == pid
    ensures FiledInTree(t)
  {
    s.(tree := s.tree[s.filed[pid] := r])
  }

  ghost function Correlate(s: State, ev: Event, now: int): (t: State)
    requires FiledInTree(s)
    ensures FiledInTree(t)
  {
    var u := Sweep(s, now);
    if ev.typ == "process" then Launch(u, ev)
    else if ev.processID in u.filed then Update(u, ev.processID, Note(u.tree[u.filed[ev.processID]], ev))
    else u
  }

  ghost function RecordAlert(s: State, pid: int32, ruleName: string, description: string, now: int): (t: State)
    requires FiledInTree(s)
    ensures FiledInTree(t)
  {
    if pid in s.filed then
      var r := s.tree[s.filed[pid]];
      Update(s, pid, r.(alerts := r.alerts + [AlertActivity(ruleName, description, now)]))
    else s
  }

  datatype Op =
    | DoCorrelate(ev: Event, now: int)
    | DoRecordAlert(pid: int32, ruleName: string, description: string, now: int)

  ghost function Apply(s: State, op: Op): (t: State)
    requires FiledInTree(s)
    ensures FiledInTree(t)
  {
    match op
    case DoCorrelate(ev, now) => Correlate(s, ev, now)
    case DoRecordAlert(pid, ruleName, description, now) => RecordAlert(s, pid, ruleName, description, now)
  }

  ghost function Run(s: State, ops: seq<Op>): (t: State)
    requires FiledInTree(s)
    ensures FiledInTree(t)
    decreases |ops|
  {
    if ops == [] then s else Run(Apply(s, ops[0]), ops[1..])
  }

  function Init(window: int): State {
    State([], map[], window)
  }

  // ---------- The shape every run keeps ----------

  predicate SelfParented(r: Record) {
    r.pid == r.parentPID
  }

  ghost predicate IsChild(t: Tree, p: int, k: int, c: int) {
    0 <= p < |t| && 0 <= k < |t[p].children| && t[p].children[k] == c
  }

  /** A child is made after the node whose pid it names as its parent, except that a self-parented node is
      its own child; and no node is a child twice. */
  ghost predicate Forest(t: Tree) {
    && (forall p, k, c :: IsChild(t, p, k, c) ==> p <= c < |t|)
    && (forall p, k :: IsChild(t, p, k, p) ==> SelfParented(t[p]))
    && (forall p :: 0 <= p < |t| && SelfParented(t[p]) ==> exists k :: IsChild(t, p, k, p))
    && (forall p, k, c :: IsChild(t, p, k, c) ==> t[c].parentPID == t[p].pid)
    && (forall p, k, q, l, c :: IsChild(t, p, k, c) && IsChild(t, q, l, c) ==> p == q && k == l)
  }

  lemma RecordEditKeepsForest(t: Tree, n: nat, r: Record)
    requires Forest(t) && n < |t|
    requires r.children == t[n].children && r.pid == t[n].pid && r.parentPID == t[n].parentPID
    ensures Forest(t[n := r])
  {
    var u := t[n := r];
    assert forall p, k, c :: IsChild(u, p, k, c) <==> IsChild(t, p, k, c);
    forall p | 0 <= p < |u| && SelfParented(u[p])
      ensures exists k :: IsChild(u, p, k, p)
    {
      var k :| IsChild(t, p, k, p);
      assert IsChild(u, p, k, p);
    }
  }

  lemma LaunchKeepsForest(s: State, ev: Event)
    requires FiledInTree(s) && Forest(s.tree)
    ensures Forest(Launch(s, ev).tree)
  {
    var n, t := |s.tree|, s.tree;
    var u := Launch(s, ev).tree;
    var filed := s.filed[ev.processID := n];
    var adopted := ev.parentID in filed;
    var parent := if adopted then filed[ev.parentID] else 0;
    assert u[n].pid == ev.processID && u[n].parentPID == ev.parentID;
    var slot := if parent == n || !adopted then 0 else |t[parent].children|;
    forall p, k, c
      ensures IsChild(u, p, k, c) <==> (IsChild(t, p, k, c) || (adopted && p == parent && c == n && k == slot))
    {
    }
    forall p | 0 <= p < |u| && SelfParented(u[p])
      ensures exists k :: IsChild(u, p, k, p)
    {
      if p < n {
        var k :| IsChild(t, p, k, p);
        assert IsChild(u, p, k, p);
      } else {
        assert IsChild(u, n, 0, n);
      }
    }
    assert adopted && parent == n ==> ev.parentID == ev.processID;
  }

  ghost predicate Good(s: State) {
    FiledInTree(s) && Forest(s.tree)
  }

  lemma ApplyKeepsGood(s: State, op: Op)
    requires Good(s)
    ensures Good(Apply(s, op))
  {
    match op
    case DoCorrelate(ev, now) =>
      var u := Sweep(s, now);
      if ev.typ == "process" {
        LaunchKeepsForest(u, ev);
      } else if ev.processID in u.filed {
        RecordEditKeepsForest(u.tree, u.filed[ev.processID], Note(u.tree[u.filed[ev.processID]], ev));
      }
    case DoRecordAlert(pid, ruleName, description, now) =>
      if pid in s.filed {
        var r := s.tree[s.filed[pid]];
        RecordEditKeepsForest(s.tree, s.filed[pid],
                              r.(alerts := r.alerts + [AlertActivity(ruleName, description, now)]));
      }
  }

  /** The child pointers form a forest after every run, whatever pids are reused and evicted. */
  lemma {:induction false} RunKeepsGood(s: State, ops: seq<Op>)
    requires Good(s)
    ensures Good(Run(s, ops))
    decreases |ops|
  {
    if ops == [] {
    } else {
      ApplyKeepsGood(s, ops[0]);
      RunKeepsGood(Apply(s, ops[0]), ops[1..]);
    }
  }

  // ---------- Descendants ----------

  ghost predicate ChildOf(t: Tree, p: int, c: int) {
    exists k :: IsChild(t, p, k, c)
  }

  /** `w` is a line of descent from `r` to `d`. */
  ghost predicate IsDescent(t: Tree, w: seq<nat>, r: nat, d: nat) {
    && |w| > 0 && w[0] == r && w[|w| - 1] == d && r < |t|
    && forall i :: 0 <= i < |w| - 1 ==> ChildOf(t, w[i], w[i + 1])
  }

  ghost predicate Below(t: Tree, r: nat, d: nat) {
    exists w :: IsDescent(t, w, r, d)
  }

  lemma BelowItself(t: Tree, r: nat)
    requires r < |t|
    ensures Below(t, r, r)
  {
    assert IsDescent(t, [r], r, r);
  }

  lemma BelowThroughChild(t: Tree, r: nat, k: nat, c: nat, d: nat)
    requires IsChild(t, r, k, c) && Below(t, c, d)
    ensures Below(t, r, d)
  {
    var w :| IsDescent(t, w, c, d);
    var w' := [r] + w;
    forall i | 0 <= i < |w'| - 1
      ensures ChildOf(t, w'[i], w'[i + 1])
    {
      assert i > 0 ==> ChildOf(t, w[i - 1], w[i]);
    }
    assert IsDescent(t, w', r, d);
  }

  lemma BelowIsItselfOrThroughChild(t: Tree, r: nat, d: nat)
    requires Forest(t) && Below(t, r, d)
    ensures d == r || exists k, c: nat :: IsChild(t, r, k, c) && Below(t, c, d)
  {
    var w :| IsDescent(t, w, r, d);
    if |w| > 1 {
      assert ChildOf(t, w[0], w[1]);
      var k :| IsChild(t, r, k, w[1]);
      var w' := w[1..];
      forall i | 0 <= i < |w'| - 1
        ensures ChildOf(t, w'[i], w'[i + 1])
      {
        assert ChildOf(t, w[i + 1], w[i + 2]);
      }
      assert IsDescent(t, w', w[1], d);
      assert Below(t, w[1], d);
    }
  }

  /** A child of a node that is not its own parent is made later and is not its own parent either: it
      would be a child twice. */
  lemma ChildrenAreLater(t: Tree, r: nat, k: nat, c: nat)
    requires Forest(t) && r < |t| && !SelfParented(t[r]) && IsChild(t, r, k, c)
    ensures r < c < |t| && !SelfParented(t[c])
  {
    assert SelfParented(t[c]) ==> exists l :: IsChild(t, c, l, c);
  }

  // ---------- The recursive collectors ----------

  /** The nodes the collectors visit from `r`, in order. */
  ghost function Visits(t: Tree, r: nat): (o: seq<nat>)
    requires Forest(t) && r < |t| && !SelfParented(t[r])
    ensures forall i :: 0 <= i < |o| ==> o[i] < |t|
    decreases |t| - r, 0
  {
    [r] + VisitsFrom(t, r, 0)
  }

  ghost function VisitsFrom(t: Tree, r: nat, k: nat): (o: seq<nat>)
    requires Forest(t) && r < |t| && !SelfParented(t[r]) && k <= |t[r].children|
    ensures forall i :: 0 <= i < |o| ==> o[i] < |t|
    decreases |t| - r - 1, |t[r].children| - k + 1
  {
    if k == |t[r].children| then []
    else
      var c := t[r].children[k];
      assert IsChild(t, r, k, c);
      ChildrenAreLater(t, r, k, c);
      Visits(t, c) + VisitsFrom(t, r, k + 1)
  }

  /** They visit exactly the descendants. */
  lemma {:induction false} VisitsAreDescendants(t: Tree, r: nat)
    requires Forest(t) && r < |t| && !SelfParented(t[r])
    ensures forall d: nat :: d in Visits(t, r) <==> Below(t, r, d)
    decreases |t| - r, 0
  {
    VisitsFromAreDescendants(t, r, 0);
    forall d: nat
      ensures d in Visits(t, r) <==> Below(t, r, d)
    {
      BelowItself(t, r);
      if d in VisitsFrom(t, r, 0) {
        var k: nat, c: nat :| IsChild(t, r, k, c) && Below(t, c, d);
        BelowThroughChild(t, r, k, c, d);
      }
      if Below(t, r, d) {
        BelowIsItselfOrThroughChild(t, r, d);
      }
    }
  }

  lemma {:induction false} VisitsFromAreDescendants(t: Tree, r: nat, k: nat)
    requires Forest(t) && r < |t| && !SelfParented(t[r]) && k <= |t[r].children|
    ensures forall d: nat ::
      d in VisitsFrom(t, r, k) <==> exists j, c: nat :: k <= j && IsChild(t, r, j, c) && Below(t, c, d)
    decreases |t| - r - 1, |t[r].children| - k + 1
  {
    if k == |t[r].children| {
    } else {
      var c := t[r].children[k];
      assert IsChild(t, r, k, c);
      ChildrenAreLater(t, r, k, c);
      VisitsAreDescendants(t, c);
      VisitsFromAreDescendants(t, r, k + 1);
    }
  }

  ghost predicate NoRepeats(o: seq<nat>) {
    forall i, j :: 0 <= i < j < |o| ==> o[i] != o[j]
  }

  lemma ConcatNoRepeats(o: seq<nat>, q: seq<nat>)
    requires NoRepeats(o) && NoRepeats(q) && forall d :: d in o ==> d !in q
    ensures NoRepeats(o + q)
  {
    forall i, j | 0 <= i < j < |o + q|
      ensures (o + q)[i] != (o + q)[j]
    {
      assert i < |o| ==> (o + q)[i] in o;
      assert j >= |o| ==> (o + q)[j] in q;
    }
  }

  /** A node below two children of `r` would have to be below one child through the other. */
  lemma {:induction false} SiblingsShareNothing(t: Tree, r: nat, j: nat, a: nat, k: nat, b: nat,
                                                w: seq<nat>, v: seq<nat>, d: nat)
    requires Forest(t) && r < |t| && !SelfParented(t[r]) && j != k
    requires IsChild(t, r, j, a) && IsChild(t, r, k, b)
    requires IsDescent(t, w, a, d) && IsDescent(t, v, b, d)
    ensures false
    decreases |w|
  {
    ChildrenAreLater(t, r, j, a);
    ChildrenAreLater(t, r, k, b);
    DescentClimbs(t, w, a, d);
    DescentClimbs(t, v, b, d);
    if |w| == 1 && |v| > 1 {
      assert ChildOf(t, v[|v| - 2], v[|v| - 1]);
      assert IsDescent(t, v[..|v| - 1], b, v[|v| - 2]);
      DescentClimbs(t, v[..|v| - 1], b, v[|v| - 2]);
    } else if |w| > 1 && |v| == 1 {
      assert ChildOf(t, w[|w| - 2], w[|w| - 1]);
      assert IsDescent(t, w[..|w| - 1], a, w[|w| - 2]);
      DescentClimbs(t, w[..|w| - 1], a, w[|w| - 2]);
    } else if |w| > 1 {
      assert ChildOf(t, w[|w| - 2], w[|w| - 1]) && ChildOf(t, v[|v| - 2], v[|v| - 1]);
      assert w[|w| - 2] == v[|v| - 2];
      assert IsDescent(t, w[..|w| - 1], a, w[|w| - 2]) && IsDescent(t, v[..|v| - 1], b, v[|v| - 2]);
      SiblingsShareNothing(t, r, j, a, k, b, w[..|w| - 1], v[..|v| - 1], w[|w| - 2]);
    }
  }

  lemma {:induction false} DescentClimbs(t: Tree, w: seq<nat>, r: nat, d: nat)
    requires Forest(t) && IsDescent(t, w, r, d)
    ensures r <= d < |t|
    decreases |w|
  {
    if |w| <= 1 {
    } else {
      assert ChildOf(t, w[|w| - 2], w[|w| - 1]);
      assert IsDescent(t, w[..|w| - 1], r, w[|w| - 2]);
      DescentClimbs(t, w[..|w| - 1], r, w[|w| - 2]);
    }
  }

  /** No node is visited twice. */
  lemma {:induction false} VisitsOnce(t: Tree, r: nat)
    requires Forest(t) && r < |t| && !SelfParented(t[r])
    ensures NoRepeats(Visits(t, r))
    decreases |t| - r, 0
  {
    VisitsFromOnce(t, r, 0);
    VisitsFromAreDescendants(t, r, 0);
    forall d: nat | d in VisitsFrom(t, r, 0)
      ensures d != r
    {
      var k: nat, c: nat :| IsChild(t, r, k, c) && Below(t, c, d);
      ChildrenAreLater(t, r, k, c);
      var w :| IsDescent(t, w, c, d);
      DescentClimbs(t, w, c, d);
    }
    ConcatNoRepeats([r], VisitsFrom(t, r, 0));
  }

  lemma {:induction false} VisitsFromOnce(t: Tree, r: nat, k: nat)
    requires Forest(t) && r < |t| && !SelfParented(t[r]) && k <= |t[r].children|
    ensures NoRepeats(VisitsFrom(t, r, k))
    decreases |t| - r - 1, |t[r].children| - k + 1
  {
    if k == |t[r].children| {
    } else {
      var c := t[r].children[k];
      assert IsChild(t, r, k, c);
      ChildrenAreLater(t, r, k, c);
      VisitsOnce(t, c);
      VisitsFromOnce(t, r, k + 1);
      VisitsAreDescendants(t, c);
      VisitsFromAreDescendants(t, r, k + 1);
      forall d: nat | d in Visits(t, c)
        ensures d !in VisitsFrom(t, r, k + 1)
      {
        if d in VisitsFrom(t, r, k + 1) {
          var j: nat, b: nat :| k + 1 <= j && IsChild(t, r, j, b) && Below(t, b, d);
          var w :| IsDescent(t, w, c, d);
          var v :| IsDescent(t, v, b, d);
          SiblingsShareNothing(t, r, k, c, j, b, w, v, d);
        }
      }
      ConcatNoRepeats(Visits(t, c), VisitsFrom(t, r, k + 1));
    }
  }

  // ---------- When the recursion ends ----------

  /** The recursion from `r` returns within `depth` nested calls. */
  ghost predicate Returns(t: Tree, r: nat, depth: nat)
    requires Forest(t) && r < |t|
    decreases depth
  {
    depth > 0 && forall k, c: nat :: IsChild(t, r, k, c) ==> Returns(t, c, depth - 1)
  }

  lemma {:induction false} OthersReturn(t: Tree, r: nat)
    requires Forest(t) && r < |t| && !SelfParented(t[r])
    ensures Returns(t, r, |t| - r)
    decreases |t| - r
  {
    forall k: nat, c: nat | IsChild(t, r, k, c)
      ensures Returns(t, c, |t| - r - 1)
    {
      ChildrenAreLater(t, r, k, c);
      OthersReturn(t, c);
      MoreDepthReturns(t, c, |t| - c, |t| - r - 1);
    }
  }

  lemma {:induction false} MoreDepthReturns(t: Tree, r: nat, depth: nat, more: nat)
    requires Forest(t) && r < |t| && Returns(t, r, depth) && depth <= more
    ensures Returns(t, r, more)
    decreases depth
  {
    forall k: nat, c: nat | IsChild(t, r, k, c)
      ensures Returns(t, c, more - 1)
    {
      MoreDepthReturns(t, c, depth - 1, more - 1);
    }
  }

  lemma {:induction false} SelfParentNeverReturns(t: Tree, r: nat, depth: nat)
    requires Forest(t) && r < |t| && SelfParented(t[r])
    ensures !Returns(t, r, depth)
    decreases depth
  {
    if depth == 0 {
    } else {
      SelfParentNeverReturns(t, r, depth - 1);
      var k :| IsChild(t, r, k, r);
    }
  }

  ghost predicate Terminates(t: Tree, r: nat)
    requires Forest(t) && r < |t|
  {
    exists depth: nat :: Returns(t, r, depth)
  }

  /** The recursion from a node returns exactly when the node is not its own parent. */
  lemma ReturnsIffNotSelfParented(t: Tree, r: nat)
    requires Forest(t) && r < |t|
    ensures Terminates(t, r) <==> !SelfParented(t[r])
  {
    if SelfParented(t[r]) {
      forall depth: nat
        ensures !Returns(t, r, depth)
      {
        SelfParentNeverReturns(t, r, depth);
      }
    } else {
      OthersReturn(t, r);
    }
  }

  /** A reconstruction for the filed `pid` returns. */
  ghost predicate Reconstructs(s: State, pid: int32)
    requires Good(s) && pid in s.filed
  {
    assert FiledAs(s.tree, s.filed[pid], pid);
    Terminates(s.tree, s.filed[pid])
  }

  /** Reconstruction for a filed pid returns exactly when its record does not name the pid as its own
      parent. */
  lemma FiledReturnsIffOtherParent(s: State, pid: int32)
    requires Good(s) && pid in s.filed
    ensures FiledAs(s.tree, s.filed[pid], pid)
    ensures Reconstructs(s, pid) <==> s.tree[s.filed[pid]].parentPID != pid
  {
    assert FiledAs(s.tree, s.filed[pid], pid);
    ReturnsIffNotSelfParented(s.tree, s.filed[pid]);
  }

  // ---------- What a run leaves filed ----------

  predicate IsLaunch(op: Op) {
    op.DoCorrelate? && op.ev.typ == "process"
  }

  /** Launch `k` of the run is the one its pid is filed by: no later launch reuses the pid, and no later
      event comes when its node has outlived the window. */
  predicate StillFiled(ops: seq<Op>, window: int, k: nat) {
    && k < |ops| && IsLaunch(ops[k])
    && forall j :: k < j < |ops| && ops[j].DoCorrelate? ==> KeepsFiled(ops[k].ev, window, ops[j])
  }

  predicate KeepsFiled(ev: Event, window: int, later: Op)
    requires later.DoCorrelate?
  {
    && later.now - ev.timestamp <= window
    && !(IsLaunch(later) && later.ev.processID == ev.processID)
  }

  lemma {:induction false} RunLast(s: State, ops: seq<Op>)
    requires FiledInTree(s) && ops != []
    ensures Run(s, ops) == Apply(Run(s, ops[..|ops| - 1]), ops[|ops| - 1])
    decreases |ops|
  {
    if |ops| == 1 {
      assert ops[1..] == [] && ops[..0] == [];
    } else {
      assert ops[1..][..|ops| - 2] == ops[..|ops| - 1][1..];
      RunLast(Apply(s, ops[0]), ops[1..]);
    }
  }

  /** How many nodes a run makes. */
  function LaunchCount(ops: seq<Op>): nat {
    if ops == [] then 0
    else LaunchCount(ops[..|ops| - 1]) + (if IsLaunch(ops[|ops| - 1]) then 1 else 0)
  }

  /** The node that launch `k` of a run makes. */
  function NodeOf(ops: seq<Op>, k: nat): nat
    requires k < |ops|
  {
    LaunchCount(ops[..k])
  }

  /** The event's pid is filed, as node `n`, which the event made. */
  ghost predicate FiledFor(s: State, ev: Event, n: nat) {
    && ev.processID in s.filed && s.filed[ev.processID] == n && FiledAs(s.tree, n, ev.processID)
    && s.tree[n].parentPID == ev.parentID && s.tree[n].launchedAt == ev.timestamp
  }

  /** `pid` is filed, as the node that launch `k` of the run made. */
  ghost predicate FiledBy(s: State, ops: seq<Op>, k: nat, pid: int32)
    requires k < |ops| && ops[k].DoCorrelate?
  {
    ops[k].ev.processID == pid && FiledFor(s, ops[k].ev, NodeOf(ops, k))
  }

  /** What one more operation does to a filed pid. */
  lemma ApplyFiled(s: State, op: Op, pid: int32)
    requires FiledInTree(s)
    ensures var t := Apply(s, op);
      if IsLaunch(op) && op.ev.processID == pid then FiledFor(t, op.ev, |s.tree|)
      else
        && (pid in t.filed <==> Outlasts(s, op, pid))
        && (pid in t.filed ==> SameLaunch(s, t, pid))
  {
    assert pid in s.filed ==> FiledAs(s.tree, s.filed[pid], pid);
    assert FiledInTree(Apply(s, op));
  }

  /** `pid` is filed, and `op` does not find its node too old. */
  ghost predicate Outlasts(s: State, op: Op, pid: int32) {
    && pid in s.filed && FiledAs(s.tree, s.filed[pid], pid)
    && (op.DoCorrelate? ==> op.now - s.tree[s.filed[pid]].launchedAt <= s.window)
  }

  ghost predicate SameLaunch(s: State, t: State, pid: int32) {
    && pid in s.filed && pid in t.filed
    && t.filed[pid] == s.filed[pid]
    && FiledAs(s.tree, s.filed[pid], pid) && FiledAs(t.tree, t.filed[pid], pid)
    && t.tree[t.filed[pid]].parentPID == s.tree[s.filed[pid]].parentPID
    && t.tree[t.filed[pid]].launchedAt == s.tree[s.filed[pid]].launchedAt
  }

  lemma {:induction false} RunKeepsWindow(s: State, ops: seq<Op>)
    requires FiledInTree(s)
    ensures Run(s, ops).window == s.window
    decreases |ops|
  {
    if ops == [] {
    } else {
      RunKeepsWindow(Apply(s, ops[0]), ops[1..]);
    }
  }

  /** Launch `k` files `pid` for good. */
  predicate Files(ops: seq<Op>, window: int, k: nat, pid: int32) {
    StillFiled(ops, window, k) && ops[k].ev.processID == pid
  }

  /** A launch that files `pid` either comes last, or did so before the last operation and outlasts it. */
  lemma FilesStep(ops: seq<Op>, window: int, k: nat, pid: int32)
    requires ops != [] && k < |ops|
    ensures var n := |ops| - 1;
      Files(ops, window, k, pid) <==>
        if k == n then IsLaunch(ops[n]) && ops[n].ev.processID == pid
        else Files(ops[..n], window, k, pid) && (ops[n].DoCorrelate? ==> KeepsFiled(ops[k].ev, window, ops[n]))
  {
    var n := |ops| - 1;
    assert forall j :: 0 <= j < n ==> ops[..n][j] == ops[j];
  }

  /** A run makes one node for each launch. */
  lemma {:induction false} TreeHasLaunches(window: int, ops: seq<Op>)
    ensures |Run(Init(window), ops).tree| == LaunchCount(ops)
    decreases |ops|
  {
    if ops == [] {
    } else {
      RunLast(Init(window), ops);
      TreeHasLaunches(window, ops[..|ops| - 1]);
    }
  }

  /** After a run, a pid is filed exactly when some launch of it is still filed, and it is filed as that
      launch made it. */
  lemma {:induction false} FiledByLaunch(window: int, ops: seq<Op>, pid: int32)
    ensures pid in Run(Init(window), ops).filed <==> exists k: nat :: Files(ops, window, k, pid)
    ensures forall k: nat :: Files(ops, window, k, pid) ==> FiledBy(Run(Init(window), ops), ops, k, pid)
    decreases |ops|
  {
    if ops == [] {
    } else {
      var n := |ops| - 1;
      var s := Run(Init(window), ops[..n]);
      FiledByLaunch(window, ops[..n], pid);
      RunLast(Init(window), ops);
      RunKeepsWindow(Init(window), ops[..n]);
      TreeHasLaunches(window, ops[..n]);
      FiledByLaunchStep(s, ops[..n], ops, pid);
    }
  }

  lemma FiledByLaunchStep(s: State, before: seq<Op>, ops: seq<Op>, pid: int32)
    requires ops != [] && before == ops[..|ops| - 1] && FiledInTree(s) && |s.tree| == LaunchCount(before)
    requires pid in s.filed <==> exists k: nat :: Files(before, s.window, k, pid)
    requires forall k: nat :: Files(before, s.window, k, pid) ==> FiledBy(s, before, k, pid)
    ensures pid in Apply(s, ops[|ops| - 1]).filed <==> exists k: nat :: Files(ops, s.window, k, pid)
    ensures forall k: nat :: Files(ops, s.window, k, pid) ==> FiledBy(Apply(s, ops[|ops| - 1]), ops, k, pid)
  {
    var n, window := |ops| - 1, s.window;
    var op := ops[n];
    var t := Apply(s, op);
    ApplyFiled(s, op, pid);
    forall k: nat | Files(ops, window, k, pid)
      ensures FiledBy(t, ops, k, pid)
    {
      FilesStep(ops, window, k, pid);
      assert ops[..k] == before[..k];
      if k < n {
        assert FiledBy(s, before, k, pid);
      }
    }
    if pid in t.filed {
      if IsLaunch(op) && op.ev.processID == pid {
        FilesStep(ops, window, n, pid);
      } else {
        var k: nat :| Files(before, window, k, pid);
        assert FiledBy(s, before, k, pid);
        FilesStep(ops, window, k, pid);
      }
    }
  }

  /** A launch that names its own pid as its parent. */
  predicate SelfParentEvent(op: Op) {
    IsLaunch(op) && op.ev.processID == op.ev.parentID
  }

  /** After a run, a filed pid's reconstruction returns exactly when the launch that files it did not name
      the pid as its own parent. */
  lemma ReconstructsIffOtherParentLaunched(window: int, ops: seq<Op>, pid: int32)
    requires Good(Run(Init(window), ops)) && pid in Run(Init(window), ops).filed
    ensures Reconstructs(Run(Init(window), ops), pid) <==>
      forall k: nat :: Files(ops, window, k, pid) ==> !SelfParentEvent(ops[k])
  {
    var s := Run(Init(window), ops);
    FiledByLaunch(window, ops, pid);
    FiledReturnsIffOtherParent(s, pid);
    var k: nat :| Files(ops, window, k, pid);
    assert FiledBy(s, ops, k, pid);
  }

  /** After a run, all filed pids' reconstructions return exactly when no launch that is still filed named
      its own pid as its parent. */
  lemma AllReconstructIffNoSelfParentFiled(window: int, ops: seq<Op>)
    ensures Good(Run(Init(window), ops))
    ensures var s := Run(Init(window), ops);
      (forall pid :: pid in s.filed ==> Reconstructs(s, pid)) <==>
      (forall k: nat :: StillFiled(ops, window, k) ==> !SelfParentEvent(ops[k]))
  {
    RunKeepsGood(Init(window), ops);
    var s := Run(Init(window), ops);
    forall pid | pid in s.filed
      ensures Reconstructs(s, pid) <==> forall k: nat :: Files(ops, window, k, pid) ==> !SelfParentEvent(ops[k])
    {
      ReconstructsIffOtherParentLaunched(window, ops, pid);
    }
    forall k: nat | StillFiled(ops, window, k)
      ensures Files(ops, window, k, ops[k].ev.processID) && ops[k].ev.processID in s.filed
    {
      var pid := ops[k].ev.processID;
      assert Files(ops, window, k, pid);
      FiledByLaunch(window, ops, pid);
    }
  }

  /** Straight after such a launch the pid is filed and its reconstruction never returns. */
  lemma SelfParentHangs(s: State, op: Op)
    requires Good(s) && SelfParentEvent(op)
    ensures var t, pid := Apply(s, op), op.ev.processID;
      Good(t) && FiledFor(t, op.ev, |s.tree|) && !Reconstructs(t, pid)
  {
    ApplyKeepsGood(s, op);
    ApplyFiled(s, op, op.ev.processID);
    FiledReturnsIffOtherParent(Apply(s, op), op.ev.processID);
  }

  /** One event is enough. */
  lemma OneEventHangs(now: int)
    ensures var ev := Event("process", now, 4, 4, "", "", "", "", "", "", "", "", 0, "", 0);
      var s := Run(Init(60), [DoCorrelate(ev, now)]);
      Good(s) && 4 in s.filed && !Reconstructs(s, 4)
  {
    var op := DoCorrelate(Event("process", now, 4, 4, "", "", "", "", "", "", "", "", 0, "", 0), now);
    SelfParentHangs(Init(60), op);
    assert [op][1..] == [];
  }

  // ---------- What a timeline holds ----------

  /** What a timeline says happened; the engine's wording is built from these parts. */
  datatype Detail =
    | Executed(binaryPath: string, commandLine: string, username: string)
    | FileTouched(action: string, filePath: string)
    | Connected(protocol: string, remoteIP: string, remotePort: int32)
    | RegistryTouched(action: string, keyPath: string)
    | AlertRaised(ruleName: string, description: string)

  datatype Item = Item(timestamp: int, detail: Detail)

  function FileItem(f: FileActivity): Item {
    Item(f.at, FileTouched(f.action, f.filePath))
  }

  function NetItem(n: NetworkActivity): Item {
    Item(n.at, Connected(n.protocol, n.remoteIP, n.remotePort))
  }

  function RegItem(r: RegistryActivity): Item {
    Item(r.at, RegistryTouched(r.action, r.keyPath))
  }

  function AlertItem(a: AlertActivity): Item {
    Item(a.at, AlertRaised(a.ruleName, a.description))
  }

  function LaunchItem(r: Record): Item {
    Item(r.launchedAt, Executed(r.binaryPath, r.commandLine, r.username))
  }

  function Map<A, B>(s: seq<A>, f: A -> B): (r: seq<B>)
    ensures |r| == |s| && forall i :: 0 <= i < |s| ==> r[i] == f(s[i])
  {
    seq(|s|, i requires 0 <= i < |s| => f(s[i]))
  }

  /** Everything recorded of one process. */
  function ItemsOf(r: Record): seq<Item> {
    [LaunchItem(r)] + Map(r.files, FileItem) + Map(r.nets, NetItem) + Map(r.regs, RegItem) + Map(r.alerts, AlertItem)
  }

  function NameOf(a: AlertActivity): string {
    a.ruleName
  }

  function AlertNamesOf(r: Record): seq<string> {
    Map(r.alerts, NameOf)
  }

  /** What `f` gives for each node of `o`, end to end. */
  ghost function Gather<A>(t: Tree, o: seq<nat>, f: Record -> seq<A>): seq<A>
    requires forall i :: 0 <= i < |o| ==> o[i] < |t|
  {
    if o == [] then [] else f(t[o[0]]) + Gather(t, o[1..], f)
  }

  lemma {:induction false} GatherConcat<A>(t: Tree, o: seq<nat>, q: seq<nat>, f: Record -> seq<A>)
    requires forall i :: 0 <= i < |o| ==> o[i] < |t|
    requires forall i :: 0 <= i < |q| ==> q[i] < |t|
    ensures Gather(t, o + q, f) == Gather(t, o, f) + Gather(t, q, f)
  {
    if o == [] {
      assert o + q == q;
    } else {
      assert (o + q)[1..] == o[1..] + q;
      GatherConcat(t, o[1..], q, f);
    }
  }

  lemma GatherOne<A>(t: Tree, o: seq<nat>, n: nat, f: Record -> seq<A>)
    requires n < |t| && forall i :: 0 <= i < |o| ==> o[i] < |t|
    ensures Gather(t, o + [n], f) == Gather(t, o, f) + f(t[n])
  {
    GatherConcat(t, o, [n], f);
    assert Gather(t, [n], f) == f(t[n]);
  }

  /** The visits from the `k`-th child of `r` on are those of that child, then those of the rest. */
  lemma VisitChild(t: Tree, r: nat, k: nat, before: seq<nat>)
    requires Forest(t) && r < |t| && !SelfParented(t[r]) && k < |t[r].children|
    ensures var c := t[r].children[k];
      && r < c < |t| && !SelfParented(t[c])
      && before + VisitsFrom(t, r, k) == before + Visits(t, c) + VisitsFrom(t, r, k + 1)
  {
    assert IsChild(t, r, k, t[r].children[k]);
    ChildrenAreLater(t, r, k, t[r].children[k]);
  }
}
