/** The process-tree correlation engine on the heap: nodes found by pid, edited in place, and walked by
    recursive collectors that append to a shared slice. */
module ProcessTree {
  import opened Text
  import opened TelemetryEvents
  import opened Collections
  import opened Sorting
  import opened ProcessTreeSpec

  class ProcessNode {
    const pid: int32
    const parentPID: int32
    const binaryPath: string
    const commandLine: string
    const username: string
    const launchedAt: int
    var fileChanges: seq<FileActivity>
    var netConnects: seq<NetworkActivity>
    var registryKeys: seq<RegistryActivity>
    var alerts: seq<AlertActivity>
    var children: seq<ProcessNode>
    ghost const ref: nat  // position in creation order

    constructor (ev: Event, ghost ref: nat)
      ensures this.ref == ref && Val() == NewRecord(ev) && children == []
    {
      pid, parentPID := ev.processID, ev.parentID;
      binaryPath, commandLine, username, launchedAt := ev.binaryPath, ev.commandLine, ev.username, ev.timestamp;
      fileChanges, netConnects, registryKeys, alerts, children := [], [], [], [], [];
      this.ref := ref;
    }

    ghost function Val(): Record
      reads this
    {
      Record(pid, parentPID, binaryPath, commandLine, username, launchedAt,
             fileChanges, netConnects, registryKeys, alerts,
             seq(|children|, i requires 0 <= i < |children| reads this => children[i].ref))
    }
  }

  ghost predicate Known(nodes: seq<ProcessNode>, n: ProcessNode) {
    n.ref < |nodes| && nodes[n.ref] == n
  }

  /** `nodes` lists all nodes in creation order, no child pointer leads out of it, and `t` is its contents. */
  ghost predicate Mirrors(nodes: seq<ProcessNode>, t: Tree)
    reads nodes
  {
    |t| == |nodes| && forall i :: 0 <= i < |nodes| ==> Mirrored(nodes, i, t[i])
  }

  ghost predicate Mirrored(nodes: seq<ProcessNode>, i: nat, r: Record)
    requires i < |nodes|
    reads nodes
  {
    && nodes[i].ref == i && nodes[i].Val() == r
    && forall c :: c in nodes[i].children ==> Known(nodes, c)
  }

  // ---------- Collectors ----------

  /** The slice a collector appends to, and the nodes it was filled from. */
  class Buffer<T> {
    var items: seq<T>
    ghost var order: seq<nat>

    constructor ()
      ensures items == [] && order == []
    {
      items, order := [], [];
    }

    /** The slice is what `f` gives for each of those nodes, end to end. */
    ghost predicate Holds(t: Tree, f: Record -> seq<T>)
      reads this
    {
      (forall i :: 0 <= i < |order| ==> order[i] < |t|) && items == Gather(t, order, f)
    }
  }

  /** Append what `f` makes of each of these. */
  method AppendEach<A, B>(items: seq<A>, f: A -> B, buf: Buffer<B>)
    modifies buf`items
    ensures buf.items == old(buf.items) + Map(items, f)
  {
    for i := 0 to |items|
      invariant buf.items == old(buf.items) + Map(items, f)[..i]
    {
      buf.items := buf.items + [f(items[i])];
    }
  }

  method AppendItems(n: ProcessNode, buf: Buffer<Item>)
    modifies buf`items
    ensures buf.items == old(buf.items) + ItemsOf(n.Val())
  {
    buf.items := buf.items + [Item(n.launchedAt, Executed(n.binaryPath, n.commandLine, n.username))];
    AppendEach(n.fileChanges, FileItem, buf);
    AppendEach(n.netConnects, NetItem, buf);
    AppendEach(n.registryKeys, RegItem, buf);
    AppendEach(n.alerts, AlertItem, buf);
  }

  method CollectNode(ghost nodes: seq<ProcessNode>, ghost t: Tree, n: ProcessNode, buf: Buffer<Item>)
    requires Mirrors(nodes, t) && Known(nodes, n) && buf.Holds(t, ItemsOf)
    modifies buf
    ensures buf.Holds(t, ItemsOf) && buf.order == old(buf.order) + [n.ref]
  {
    assert Mirrored(nodes, n.ref, t[n.ref]);
    GatherOne(t, buf.order, n.ref, ItemsOf);
    AppendItems(n, buf);
    buf.order := buf.order + [n.ref];
  }

  lemma ChildrenAgree(nodes: seq<ProcessNode>, t: Tree, n: ProcessNode)
    requires Mirrors(nodes, t) && Known(nodes, n)
    ensures |n.children| == |t[n.ref].children|
    ensures forall i :: 0 <= i < |n.children| ==>
      Known(nodes, n.children[i]) && t[n.ref].children[i] == n.children[i].ref
  {
    assert Mirrored(nodes, n.ref, t[n.ref]);
  }

  method CollectTimeline(ghost nodes: seq<ProcessNode>, ghost t: Tree, n: ProcessNode, buf: Buffer<Item>)
    requires Mirrors(nodes, t) && Forest(t) && Known(nodes, n) && !SelfParented(t[n.ref])
    requires buf.Holds(t, ItemsOf)
    modifies buf
    ensures buf.Holds(t, ItemsOf) && buf.order == old(buf.order) + Visits(t, n.ref)
    decreases |t| - n.ref, 1
  {
    CollectNode(nodes, t, n, buf);
    CollectTimelineBelow(nodes, t, n, buf);
  }

  method CollectTimelineBelow(ghost nodes: seq<ProcessNode>, ghost t: Tree, n: ProcessNode, buf: Buffer<Item>)
    requires Mirrors(nodes, t) && Forest(t) && Known(nodes, n) && !SelfParented(t[n.ref])
    requires buf.Holds(t, ItemsOf)
    modifies buf
    ensures buf.Holds(t, ItemsOf) && buf.order == old(buf.order) + VisitsFrom(t, n.ref, 0)
    decreases |t| - n.ref, 0
  {
    ChildrenAgree(nodes, t, n);
    var children := n.children;
    for k := 0 to |children|
      invariant Mirrors(nodes, t) && buf.Holds(t, ItemsOf)
      invariant buf.order + VisitsFrom(t, n.ref, k) == old(buf.order) + VisitsFrom(t, n.ref, 0)
    {
      VisitChild(t, n.ref, k, buf.order);
      CollectTimeline(nodes, t, children[k], buf);
    }
  }

  method CollectOwnNames(ghost nodes: seq<ProcessNode>, ghost t: Tree, n: ProcessNode, buf: Buffer<string>)
    requires Mirrors(nodes, t) && Known(nodes, n) && buf.Holds(t, AlertNamesOf)
    modifies buf
    ensures buf.Holds(t, AlertNamesOf) && buf.order == old(buf.order) + [n.ref]
  {
    assert Mirrored(nodes, n.ref, t[n.ref]);
    GatherOne(t, buf.order, n.ref, AlertNamesOf);
    AppendEach(n.alerts, NameOf, buf);
    buf.order := buf.order + [n.ref];
  }

  method CollectAlertNames(ghost nodes: seq<ProcessNode>, ghost t: Tree, n: ProcessNode, buf: Buffer<string>)
    requires Mirrors(nodes, t) && Forest(t) && Known(nodes, n) && !SelfParented(t[n.ref])
    requires buf.Holds(t, AlertNamesOf)
    modifies buf
    ensures buf.Holds(t, AlertNamesOf) && buf.order == old(buf.order) + Visits(t, n.ref)
    decreases |t| - n.ref, 1
  {
    CollectOwnNames(nodes, t, n, buf);
    CollectAlertNamesBelow(nodes, t, n, buf);
  }

  method CollectAlertNamesBelow(ghost nodes: seq<ProcessNode>, ghost t: Tree, n: ProcessNode, buf: Buffer<string>)
    requires Mirrors(nodes, t) && Forest(t) && Known(nodes, n) && !SelfParented(t[n.ref])
    requires buf.Holds(t, AlertNamesOf)
    modifies buf
    ensures buf.Holds(t, AlertNamesOf) && buf.order == old(buf.order) + VisitsFrom(t, n.ref, 0)
    decreases |t| - n.ref, 0
  {
    ChildrenAgree(nodes, t, n);
    var children := n.children;
    for k := 0 to |children|
      invariant Mirrors(nodes, t) && buf.Holds(t, AlertNamesOf)
      invariant buf.order + VisitsFrom(t, n.ref, k) == old(buf.order) + VisitsFrom(t, n.ref, 0)
    {
      VisitChild(t, n.ref, k, buf.order);
      CollectAlertNames(nodes, t, children[k], buf);
    }
  }

  predicate EarlierOrEqual(a: Item, b: Item) {
    a.timestamp <= b.timestamp
  }

  /** `items` is everything recorded of each node from `r` down, once, in time order. */
  ghost predicate IsTimeline(t: Tree, r: nat, items: seq<Item>) {
    && Forest(t) && r < |t| && !SelfParented(t[r])
    && Sorted(items, EarlierOrEqual)
    && multiset(items) == multiset(Gather(t, Visits(t, r), ItemsOf))
  }

  /** `names` is the alert names of each node from `r` down, in visiting order. */
  ghost predicate AreNames(t: Tree, r: nat, names: seq<string>) {
    Forest(t) && r < |t| && !SelfParented(t[r]) && names == Gather(t, Visits(t, r), AlertNamesOf)
  }

  method TimelineFrom(ghost nodes: seq<ProcessNode>, ghost t: Tree, n: ProcessNode) returns (items: seq<Item>)
    requires Mirrors(nodes, t) && Forest(t) && Known(nodes, n) && !SelfParented(t[n.ref])
    ensures IsTimeline(t, n.ref, items)
  {
    var buf := new Buffer();
    CollectTimeline(nodes, t, n, buf);
    assert buf.order == Visits(t, n.ref);
    items := SortSlice(buf.items, EarlierOrEqual);
  }

  method AlertsFrom(ghost nodes: seq<ProcessNode>, ghost t: Tree, n: ProcessNode) returns (names: seq<string>)
    requires Mirrors(nodes, t) && Forest(t) && Known(nodes, n) && !SelfParented(t[n.ref])
    ensures AreNames(t, n.ref, names)
  {
    var buf := new Buffer();
    CollectAlertNames(nodes, t, n, buf);
    assert buf.order == Visits(t, n.ref);
    names := buf.items;
  }

  // ---------- The engine ----------

  class Engine {
    const window: int
    var nodes: map<int32, ProcessNode>
    ghost var made: seq<ProcessNode>

    ghost function View(): State
      reads this, made
    {
      State(seq(|made|, i requires 0 <= i < |made| reads this, made => made[i].Val()),
            map pid | pid in nodes :: nodes[pid].ref, window)
    }

    /** The heap agrees with `View`. */
    ghost predicate Sound()
      reads this, made
    {
      && Mirrors(made, View().tree)
      && forall pid :: pid in nodes ==> Known(made, nodes[pid])
    }

    ghost predicate Valid()
      reads this, made
    {
      Sound() && Good(View())
    }

    constructor (window: int)
      ensures Valid() && View() == Init(window) && made == []
    {
      this.window := window;
      nodes, made := map[], [];
      new;
      assert View() == Init(window);
    }

    method DeleteOld(now: int)
      modifies this`nodes
      ensures nodes == map pid | pid in old(nodes) && now - old(nodes)[pid].launchedAt <= window :: old(nodes)[pid]
    {
      ghost var m := nodes;
      var todo := nodes.Keys;
      while todo != {}
        invariant todo <= m.Keys
        invariant nodes.Keys <= m.Keys && forall pid :: pid in nodes ==> nodes[pid] == m[pid]
        invariant forall pid :: pid in m ==> (pid in nodes <==> pid in todo || now - m[pid].launchedAt <= window)
        decreases todo
      {
        var pid := Pick(todo);
        if now - nodes[pid].launchedAt > window {
          nodes := nodes - {pid};
        }
        todo := todo - {pid};
      }
    }

    method SweepOld(now: int)
      requires Sound() && FiledInTree(View())
      modifies this`nodes
      ensures Sound() && View() == Sweep(old(View()), now)
    {
      ghost var v := View();
      forall pid | pid in nodes
        ensures v.tree[nodes[pid].ref].launchedAt == nodes[pid].launchedAt
      {
        assert Known(made, nodes[pid]) && Mirrored(made, nodes[pid].ref, v.tree[nodes[pid].ref]);
      }
      DeleteOld(now);
      assert View().filed == Sweep(v, now).filed;
      assert View().tree == v.tree;
    }

    method AddNode(ev: Event) returns (node: ProcessNode)
      requires Sound()
      modifies this`nodes, this`made
      ensures Sound() && fresh(node) && made == old(made) + [node] && node.ref == |old(made)|
      ensures nodes == old(nodes)[ev.processID := node]
      ensures View().filed == old(View()).filed[ev.processID := |old(made)|]
      ensures View().tree == old(View()).tree + [NewRecord(ev)]
    {
      ghost var v := View();
      node := new ProcessNode(ev, |made|);
      nodes := nodes[ev.processID := node];
      made := made + [node];
      assert View().tree == v.tree + [NewRecord(ev)];
      ghost var n: nat := |v.tree|;
      assert View().filed == v.filed[ev.processID := n];
      assert forall i :: 0 <= i < |v.tree| ==> old(Mirrored(made, i, v.tree[i]));
    }

    method AppendChild(parent: ProcessNode, child: ProcessNode)
      requires Sound() && Known(made, parent) && Known(made, child)
      modifies parent`children
      ensures Sound() && View().filed == old(View()).filed
      ensures View().tree == old(View()).tree[parent.ref := Adopt(old(View()).tree[parent.ref], child.ref)]
    {
      ghost var t := View().tree;
      assert Mirrored(made, parent.ref, t[parent.ref]);
      parent.children := parent.children + [child];
      ghost var u := t[parent.ref := Adopt(t[parent.ref], child.ref)];
      assert parent.Val() == u[parent.ref];
      forall i: nat | i < |made|
        ensures Mirrored(made, i, u[i])
      {
        assert old(Mirrored(made, i, t[i]));
        assert made[i] == parent ==> i == parent.ref;
      }
      assert View().tree == u;
      assert View().filed == old(View()).filed;
    }

    method LaunchNode(ev: Event)
      requires Sound() && FiledInTree(View())
      modifies this`nodes, this`made, made
      ensures Sound() && View() == Launch(old(View()), ev)
      ensures |made| == |old(made)| + 1 && old(made) <= made && fresh(made[|old(made)|])
    {
      var node := AddNode(ev);
      if ev.parentID in nodes {
        AppendChild(nodes[ev.parentID], node);
      }
    }

    /** Append what a file, network or registry event says to the record of its process. */
    method NoteEvent(node: ProcessNode, ev: Event)
      requires Sound() && Known(made, node)
      modifies node`fileChanges, node`netConnects, node`registryKeys
      ensures Sound()
      ensures View() == old(View()).(tree := old(View()).tree[node.ref := Note(old(View()).tree[node.ref], ev)])
    {
      ghost var v := View();
      assert Mirrored(made, node.ref, v.tree[node.ref]);
      if ev.typ == "file" {
        node.fileChanges := node.fileChanges + [FileActivity(ev.filePath, ev.fileAction, ev.timestamp)];
      } else if ev.typ == "network" {
        node.netConnects := node.netConnects + [NetworkActivity(ev.protocol, ev.remoteIP, ev.remotePort, ev.timestamp)];
      } else if ev.typ == "registry" {
        node.registryKeys := node.registryKeys + [RegistryActivity(ev.filePath, ev.fileAction, ev.timestamp)];
      }
      ghost var r := Note(v.tree[node.ref], ev);
      assert node.Val() == r;
      ghost var u := v.tree[node.ref := r];
      forall i: nat | i < |made|
        ensures Mirrored(made, i, u[i])
      {
        assert old(Mirrored(made, i, v.tree[i]));
        assert made[i] == node ==> i == node.ref;
      }
      assert View().tree == u;
    }

    method NoteAlert(node: ProcessNode, a: AlertActivity)
      requires Sound() && Known(made, node)
      modifies node`alerts
      ensures Sound()
      ensures var r := old(View()).tree[node.ref];
        View() == old(View()).(tree := old(View()).tree[node.ref := r.(alerts := r.alerts + [a])])
    {
      ghost var v := View();
      assert Mirrored(made, node.ref, v.tree[node.ref]);
      ghost var r := v.tree[node.ref].(alerts := v.tree[node.ref].alerts + [a]);
      node.alerts := node.alerts + [a];
      assert node.Val() == r;
      ghost var u := v.tree[node.ref := r];
      forall i: nat | i < |made|
        ensures Mirrored(made, i, u[i])
      {
        assert old(Mirrored(made, i, v.tree[i]));
        assert made[i] == node ==> i == node.ref;
      }
      assert View().tree == u;
    }

    method Correlate(ev: Event, now: int)
      requires Valid()
      modifies this`nodes, this`made, made
      ensures Valid() && View() == Apply(old(View()), DoCorrelate(ev, now))
      ensures old(made) <= made && forall n :: n in made && n !in old(made) ==> fresh(n)
    {
      ApplyKeepsGood(View(), DoCorrelate(ev, now));
      SweepOld(now);
      if ev.typ == "process" {
        LaunchNode(ev);
      } else if ev.processID in nodes {
        assert View().filed[ev.processID] == nodes[ev.processID].ref;
        NoteEvent(nodes[ev.processID], ev);
      }
    }

    method RecordAlert(pid: int32, ruleName: string, description: string, now: int)
      requires Valid()
      modifies made
      ensures Valid() && View() == Apply(old(View()), DoRecordAlert(pid, ruleName, description, now))
    {
      ApplyKeepsGood(View(), DoRecordAlert(pid, ruleName, description, now));
      if pid in nodes {
        assert View().filed[pid] == nodes[pid].ref;
        NoteAlert(nodes[pid], AlertActivity(ruleName, description, now));
      }
    }

    lemma FiledNode(pid: int32)
      requires Valid() && pid in nodes
      ensures Known(made, nodes[pid]) && SelfParented(View().tree[nodes[pid].ref]) == (nodes[pid].parentPID == pid)
    {
      var n := nodes[pid];
      assert Mirrored(made, n.ref, View().tree[n.ref]) && FiledAs(View().tree, View().filed[pid], pid);
    }

    /** What was recorded of a process and its descendants, in time order. The source recurses without a
        visited set, and a process that names itself as its parent keeps it from ever returning. */
    method ReconstructTimeline(pid: int32) returns (r: Option<seq<Item>>)
      requires Valid() && (pid in nodes ==> nodes[pid].parentPID != pid)
      ensures r.Some? <==> pid in nodes
      ensures r.Some? ==> IsTimeline(View().tree, nodes[pid].ref, r.value)
    {
      if pid !in nodes {
        return None;
      }
      FiledNode(pid);
      var items := TimelineFrom(made, View().tree, nodes[pid]);
      r := Some(items);
    }

    method GroupAlerts(pid: int32) returns (r: Option<seq<string>>)
      requires Valid() && (pid in nodes ==> nodes[pid].parentPID != pid)
      ensures r.Some? <==> pid in nodes
      ensures r.Some? ==> AreNames(View().tree, nodes[pid].ref, r.value)
    {
      if pid !in nodes {
        return None;
      }
      FiledNode(pid);
      var names := AlertsFrom(made, View().tree, nodes[pid]);
      r := Some(names);
    }
  }
}
