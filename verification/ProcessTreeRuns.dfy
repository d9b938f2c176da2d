/** What each event changes in the process tree, field by field, and whose child every node of a run is. */
module ProcessTreeRuns {
  import opened ProcessTreeSpec
  import opened TelemetryEvents

  // ---------- One launch ----------

  /** The launch hangs its node below node `p`: the new node itself when it names its own pid, else the node
      filed under the parent's pid if that has not outlived the window. */
  ghost predicate HangsBelow(s: State, ev: Event, now: int, p: nat) {
    if ev.parentID == ev.processID then p == |s.tree|
    else
      && ev.parentID in s.filed && s.filed[ev.parentID] == p && p < |s.tree|
      && now - s.tree[p].launchedAt <= s.window
  }

  function Extra(hangs: bool, n: nat): seq<nat> {
    if hangs then [n] else []
  }

  /** A launch makes one node, with the fields of the event, as the last child of the node it hangs below;
      nothing else changes. */
  lemma LaunchAddsChild(s: State, ev: Event, now: int)
    requires FiledInTree(s) && ev.typ == "process"
    ensures var t, n := Apply(s, DoCorrelate(ev, now)).tree, |s.tree|;
      && |t| == n + 1
      && (forall p: nat :: p < n ==>
            t[p] == s.tree[p].(children := s.tree[p].children + Extra(HangsBelow(s, ev, now, p), n)))
      && t[n] == Record(ev.processID, ev.parentID, ev.binaryPath, ev.commandLine, ev.username, ev.timestamp,
                        [], [], [], [], Extra(HangsBelow(s, ev, now, n), n))
  {
    var u := Sweep(s, now);
    assert ev.parentID in s.filed ==> FiledAs(s.tree, s.filed[ev.parentID], ev.parentID);
  }

  // ---------- One other event ----------

  /** The event's process is filed and has not outlived the window. */
  ghost predicate IsCurrent(s: State, pid: int32, now: int) {
    pid in s.filed && s.filed[pid] < |s.tree| && now - s.tree[s.filed[pid]].launchedAt <= s.window
  }

  /** A file, network or registry event adds its activity to the record of its own process, if that is
      current; nothing else changes in the tree. */
  lemma EventAddsActivity(s: State, ev: Event, now: int)
    requires FiledInTree(s) && ev.typ != "process"
    ensures var t := Apply(s, DoCorrelate(ev, now)).tree;
      && |t| == |s.tree|
      && (forall p: nat :: p < |t| && !(IsCurrent(s, ev.processID, now) && p == s.filed[ev.processID]) ==>
            t[p] == s.tree[p])
    ensures IsCurrent(s, ev.processID, now) ==>
      var r, was := Apply(s, DoCorrelate(ev, now)).tree[s.filed[ev.processID]], s.tree[s.filed[ev.processID]];
      && r == was.(files := r.files, nets := r.nets, regs := r.regs)
      && r.files == was.files + (if ev.typ == "file"
           then [FileActivity(ev.filePath, ev.fileAction, ev.timestamp)] else [])
      && r.nets == was.nets + (if ev.typ == "network"
           then [NetworkActivity(ev.protocol, ev.remoteIP, ev.remotePort, ev.timestamp)] else [])
      && r.regs == was.regs + (if ev.typ == "registry"
           then [RegistryActivity(ev.filePath, ev.fileAction, ev.timestamp)] else [])
  {
  }

  /** An alert adds its name and description to the record filed under the pid, at the time it is recorded. */
  lemma AlertIsRecorded(s: State, pid: int32, ruleName: string, description: string, now: int)
    requires FiledInTree(s)
    ensures var t := Apply(s, DoRecordAlert(pid, ruleName, description, now));
      && t.filed == s.filed && |t.tree| == |s.tree|
      && forall p: nat :: p < |t.tree| ==> t.tree[p] == s.tree[p].(alerts := s.tree[p].alerts +
           if pid in s.filed && p == s.filed[pid] then [AlertActivity(ruleName, description, now)] else [])
  {
  }

  // ---------- A whole run ----------

  /** Launch `j` hangs its node below that of launch `k`. */
  ghost predicate LaunchedBelow(ops: seq<Op>, window: int, k: nat, j: nat)
    requires j < |ops| && IsLaunch(ops[j])
  {
    if ops[j].ev.parentID == ops[j].ev.processID then k == j
    else k < j && Files(ops[..j], window, k, ops[j].ev.parentID) && ops[j].now - ops[k].ev.timestamp <= window
  }

  lemma {:induction false} CountGrows(ops: seq<Op>, k: nat, j: nat)
    requires k < j <= |ops| && IsLaunch(ops[k])
    ensures LaunchCount(ops[..k]) < LaunchCount(ops[..j])
    decreases j
  {
    assert ops[..j][..j - 1] == ops[..j - 1];
    if k == j - 1 {
    } else {
      CountGrows(ops, k, j - 1);
    }
  }

  /** Different launches make different nodes. */
  lemma NodesDiffer(ops: seq<Op>, j: nat, k: nat)
    requires j < |ops| && k < |ops| && IsLaunch(ops[j]) && IsLaunch(ops[k])
    ensures NodeOf(ops, j) == NodeOf(ops, k) ==> j == k
    ensures NodeOf(ops, j) < LaunchCount(ops)
  {
    assert ops[..|ops|] == ops;
    CountGrows(ops, j, |ops|);
    if j < k {
      CountGrows(ops, j, k);
    } else if k < j {
      CountGrows(ops, k, j);
    }
  }

  /** One operation more leaves the older nodes' children as they are, but for a launch, which may add its
      own node. */
  lemma ChildrenStep(s: State, op: Op, p: nat, c: nat)
    requires FiledInTree(s) && p < |s.tree| && c < |Apply(s, op).tree|
    ensures ChildOf(Apply(s, op).tree, p, c) <==>
      ChildOf(s.tree, p, c) || (IsLaunch(op) && c == |s.tree| && HangsBelow(s, op.ev, op.now, p))
  {
    var t := Apply(s, op).tree;
    if IsLaunch(op) {
      LaunchAddsChild(s, op.ev, op.now);
      ExtraChild(s.tree, t, p, c, |s.tree|, HangsBelow(s, op.ev, op.now, p));
    } else {
      assert t[p].children == s.tree[p].children;
      ExtraChild(s.tree, t, p, c, |s.tree|, false);
    }
  }

  lemma ExtraChild(t: Tree, u: Tree, p: nat, c: nat, n: nat, hangs: bool)
    requires p < |t| && p < |u| && u[p].children == t[p].children + Extra(hangs, n)
    ensures ChildOf(u, p, c) <==> ChildOf(t, p, c) || (hangs && c == n)
  {
    if k :| IsChild(t, p, k, c) {
      assert IsChild(u, p, k, c);
    }
    if hangs && c == n {
      assert IsChild(u, p, |t[p].children|, c);
    }
    if k :| IsChild(u, p, k, c) {
      assert k < |t[p].children| ==> IsChild(t, p, k, c);
    }
  }

  /** The new node of a launch has no child, but for itself when it names its own pid. */
  lemma NewNodeChildren(s: State, op: Op, c: nat)
    requires FiledInTree(s) && IsLaunch(op)
    ensures ChildOf(Apply(s, op).tree, |s.tree|, c) <==> c == |s.tree| && op.ev.parentID == op.ev.processID
  {
    var t, n := Apply(s, op).tree, |s.tree|;
    LaunchAddsChild(s, op.ev, op.now);
    assert t[n].children == Extra(HangsBelow(s, op.ev, op.now, n), n);
    if op.ev.parentID == op.ev.processID {
      assert IsChild(t, n, 0, n);
    } else {
      assert op.ev.parentID in s.filed ==> FiledAs(s.tree, s.filed[op.ev.parentID], op.ev.parentID);
    }
  }

  /** Where the last launch of a run hangs, in terms of the run alone. */
  lemma LastLaunchHangs(window: int, ops: seq<Op>, k: nat)
    requires ops != [] && k < |ops| - 1 && IsLaunch(ops[k]) && IsLaunch(ops[|ops| - 1])
    ensures var n := |ops| - 1;
      HangsBelow(Run(Init(window), ops[..n]), ops[n].ev, ops[n].now, NodeOf(ops, k)) <==>
      LaunchedBelow(ops, window, k, n)
  {
    var n := |ops| - 1;
    var s, ev := Run(Init(window), ops[..n]), ops[n].ev;
    var before := ops[..n];
    FiledByLaunch(window, before, ev.parentID);
    RunKeepsWindow(Init(window), before);
    TreeHasLaunches(window, before);
    assert before[..k] == ops[..k];
    NodesDiffer(before, k, k);
    if ev.parentID != ev.processID && HangsBelow(s, ev, ops[n].now, NodeOf(ops, k)) {
      var j: nat :| Files(before, window, j, ev.parentID);
      assert FiledBy(s, before, j, ev.parentID);
      NodesDiffer(before, j, k);
    }
    if LaunchedBelow(ops, window, k, n) {
      assert FiledBy(s, before, k, ev.parentID);
    }
  }

  /** The last launch of a run and an earlier one. */
  lemma ChildrenOfLast(window: int, ops: seq<Op>, k: nat)
    requires k < |ops| - 1 && IsLaunch(ops[k]) && IsLaunch(ops[|ops| - 1])
    ensures var n := |ops| - 1;
      ChildOf(Run(Init(window), ops).tree, NodeOf(ops, k), NodeOf(ops, n)) <==> LaunchedBelow(ops, window, k, n)
  {
    var n := |ops| - 1;
    var before := ops[..n];
    var s := Run(Init(window), before);
    RunLast(Init(window), ops);
    TreeHasLaunches(window, before);
    assert before[..k] == ops[..k];
    NodesDiffer(before, k, k);
    ChildrenStep(s, ops[n], NodeOf(ops, k), |s.tree|);
    LastLaunchHangs(window, ops, k);
    NoChildYet(s.tree, NodeOf(ops, k), |s.tree|, window, before);
  }

  lemma EarlierNode(window: int, ops: seq<Op>, k: nat)
    requires k < |ops| - 1 && IsLaunch(ops[k])
    ensures var before := ops[..|ops| - 1];
      NodeOf(before, k) == NodeOf(ops, k) < |Run(Init(window), before).tree|
  {
    var before := ops[..|ops| - 1];
    assert before[..k] == ops[..k];
    NodesDiffer(before, k, k);
    TreeHasLaunches(window, before);
  }

  lemma ChildrenOfOlder(s: State, op: Op, p: nat, c: nat)
    requires FiledInTree(s) && p < |s.tree| && c < |s.tree|
    ensures ChildOf(Apply(s, op).tree, p, c) <==> ChildOf(s.tree, p, c)
  {
    ChildrenStep(s, op, p, c);
  }

  /** Two launches before the last operation of a run. */
  lemma ChildrenOfEarlier(window: int, ops: seq<Op>, k: nat, j: nat)
    requires k < |ops| - 1 && j < |ops| - 1 && IsLaunch(ops[k]) && IsLaunch(ops[j])
    ensures var before := ops[..|ops| - 1];
      ChildOf(Run(Init(window), ops).tree, NodeOf(ops, k), NodeOf(ops, j)) <==>
      ChildOf(Run(Init(window), before).tree, NodeOf(before, k), NodeOf(before, j))
  {
    var n := |ops| - 1;
    RunLast(Init(window), ops);
    EarlierNode(window, ops, k);
    EarlierNode(window, ops, j);
    ChildrenOfOlder(Run(Init(window), ops[..n]), ops[n], NodeOf(ops, k), NodeOf(ops, j));
  }

  /** The last launch of a run has no earlier one below it. */
  lemma ChildrenBelowLast(window: int, ops: seq<Op>, j: nat)
    requires j < |ops| && IsLaunch(ops[j]) && IsLaunch(ops[|ops| - 1])
    ensures var n := |ops| - 1;
      ChildOf(Run(Init(window), ops).tree, NodeOf(ops, n), NodeOf(ops, j)) <==> LaunchedBelow(ops, window, n, j)
  {
    var n := |ops| - 1;
    RunLast(Init(window), ops);
    TreeHasLaunches(window, ops[..n]);
    NodesDiffer(ops, j, n);
    NewNodeChildren(Run(Init(window), ops[..n]), ops[n], NodeOf(ops, j));
  }

  /** After a run, the node of launch `j` is a child of the node of launch `k` exactly when, as `j` came, its
      parent's pid was filed by `k` inside the window, or `j` is `k` and names its own pid. */
  lemma {:induction false} ChildrenOfRun(window: int, ops: seq<Op>, k: nat, j: nat)
    requires k < |ops| && j < |ops| && IsLaunch(ops[k]) && IsLaunch(ops[j])
    ensures ChildOf(Run(Init(window), ops).tree, NodeOf(ops, k), NodeOf(ops, j)) <==> LaunchedBelow(ops, window, k, j)
    decreases |ops|
  {
    var n := |ops| - 1;
    if k == n {
      ChildrenBelowLast(window, ops, j);
    } else if j == n {
      ChildrenOfLast(window, ops, k);
    } else {
      ChildrenOfEarlier(window, ops, k, j);
      ChildrenOfRun(window, ops[..n], k, j);
      assert ops[..n][..j] == ops[..j];
    }
  }

  lemma NoChildYet(t: Tree, p: nat, c: nat, window: int, ops: seq<Op>)
    requires t == Run(Init(window), ops).tree && c >= |t|
    ensures !ChildOf(t, p, c)
  {
    RunKeepsGood(Init(window), ops);
  }

  // ---------- What is listed of one process ----------

  /** The items of a record are its launch, then one for each file, network, registry and alert activity, at
      its own time and with its own details. */
  lemma ItemsMeaning(r: Record)
    ensures var items, f, n, g, a := ItemsOf(r), |r.files|, |r.nets|, |r.regs|, |r.alerts|;
      && |items| == 1 + f + n + g + a
      && items[0] == Item(r.launchedAt, Executed(r.binaryPath, r.commandLine, r.username))
      && (forall i :: 0 <= i < f ==>
            items[1 + i] == Item(r.files[i].at, FileTouched(r.files[i].action, r.files[i].filePath)))
      && (forall i :: 0 <= i < n ==>
            items[1 + f + i] ==
            Item(r.nets[i].at, Connected(r.nets[i].protocol, r.nets[i].remoteIP, r.nets[i].remotePort)))
      && (forall i :: 0 <= i < g ==>
            items[1 + f + n + i] == Item(r.regs[i].at, RegistryTouched(r.regs[i].action, r.regs[i].keyPath)))
      && (forall i :: 0 <= i < a ==>
            items[1 + f + n + g + i] ==
            Item(r.alerts[i].at, AlertRaised(r.alerts[i].ruleName, r.alerts[i].description)))
  {
  }

  /** And the names grouped of a record are those of its alerts, in order. */
  lemma NamesMeaning(r: Record)
    ensures |AlertNamesOf(r)| == |r.alerts|
    ensures forall i :: 0 <= i < |r.alerts| ==> AlertNamesOf(r)[i] == r.alerts[i].ruleName
  {
  }
}
