/** The next-generation engine itself: nodes on the heap, edges appended in place, candidate chains
    in Go slices whose backing arrays sibling branches share. */
module NextgenEngine {
  import opened Text
  import opened TelemetryEvents
  import opened NextgenGraph
  import opened Collections
  import opened NextgenTimeline
  import opened Sorting
  import Spec = NextgenSpec

  type Rule = Spec.Rule
  type Alert = Spec.Alert

  datatype Edge = Edge(kind: EdgeKind, target: Node?, ts: int)

  class Node {
    const id: string
    const typ: string
    const ts: int
    const props: Props
    var edges: seq<Edge>
    ghost const ref: nat  // position in creation order

    constructor (ev: Event, ghost ref: nat)
      ensures this.ref == ref && edges == []
      ensures Val() == Spec.NewNode(ev)
    {
      id := Spec.NodeID(ev);
      typ := ToUpper(ev.typ);
      ts := ev.timestamp;
      props := Props(ev.binaryPath, ev.commandLine, ev.username, ev.processID, ev.parentID);
      edges := [];
      this.ref := ref;
    }

    ghost function Val(): NodeVal
      reads this
    {
      NodeVal(id, typ, ts, props, seq(|edges|, i requires 0 <= i < |edges| reads this => LinkOf(edges[i])))
    }
  }

  ghost function LinkOf(e: Edge): Link {
    Link(e.kind, if e.target == null then None else Some(e.target.ref), e.ts)
  }

  ghost predicate Known(nodes: seq<Node>, n: Node) {
    n.ref < |nodes| && nodes[n.ref] == n
  }

  /** `nodes` lists nodes in creation order, no edge leads out of it, and `g` is its contents. */
  ghost predicate Mirrors(nodes: seq<Node>, g: Graph): (m: bool)
    reads nodes
    ensures m ==> WellFormed(g)
  {
    && |g| == |nodes|
    && (forall i :: 0 <= i < |nodes| ==> Mirrored(nodes, i, g[i]))
    && (LinksStayInside(nodes, g); true)
  }

  lemma LinksStayInside(nodes: seq<Node>, g: Graph)
    requires |g| == |nodes| && forall i :: 0 <= i < |nodes| ==> Mirrored(nodes, i, g[i])
    ensures WellFormed(g)
  {
    forall n, k | 0 <= n < |g| && 0 <= k < |g[n].links| && g[n].links[k].target.Some?
      ensures g[n].links[k].target.value < |g|
    {
      assert Mirrored(nodes, n, g[n]) && nodes[n].edges[k] in nodes[n].edges;
      assert g[n].links[k] == LinkOf(nodes[n].edges[k]);
    }
  }

  ghost predicate Mirrored(nodes: seq<Node>, i: nat, v: NodeVal)
    requires i < |nodes|
    reads nodes
  {
    && nodes[i].ref == i && nodes[i].Val() == v
    && forall e :: e in nodes[i].edges && e.target != null ==> Known(nodes, e.target)
  }

  // ---------- Slices ----------

  /** A Go slice of node pointers: the first `len` cells of a backing array that others may share. */
  datatype Slice = Slice(arr: array<Node?>, len: nat) {
    ghost predicate Fits() {
      len <= arr.Length
    }

    ghost function Items(): (r: seq<Node?>)
      requires Fits()
      reads arr
      ensures |r| == len
    {
      arr[..len]
    }
  }

  method EmptySlice() returns (r: Slice)
    ensures fresh(r.arr) && r.Fits() && r.Items() == []
  {
    var a := new Node?[0](_ => null);
    r := Slice(a, 0);
  }

  /** Go's `append`: writes into the spare capacity when there is some, else moves to a new array
      whose spare capacity is the runtime's choice. */
  method Append(s: Slice, n: Node) returns (r: Slice)
    requires s.Fits()
    modifies s.arr
    ensures r.Fits() && r.Items() == old(s.Items()) + [n]
    ensures s.Items() == old(s.Items())
    ensures if s.len < s.arr.Length then r.arr == s.arr else fresh(r.arr)
  {
    if s.len < s.arr.Length {
      s.arr[s.len] := n;
      r := Slice(s.arr, s.len + 1);
      assert s.Items() == old(s.Items());
    } else {
      var spare :| 0 <= spare;
      var a := new Node?[s.len + 1 + spare](_ => null);
      for i := 0 to s.len
        invariant s.len < a.Length && a[..i] == s.arr[..i]
        invariant s.Items() == old(s.Items())
      {
        a[i] := s.arr[i];
      }
      a[s.len] := n;
      r := Slice(a, s.len + 1);
    }
  }

  /** Backtracking match of `rule[idx..]` from `n`. The chain handed back is the one the pure search
      names, although failed branches wrote to the same array, and the caller's own part of that
      array is as it was. */
  method CheckSequence(ghost nodes: seq<Node>, ghost g: Graph, n: Node, rule: seq<string>, idx: nat,
                       chain: Slice, window: int)
    returns (matched: bool, out: Slice)
    requires Mirrors(nodes, g) && Known(nodes, n)
    requires idx <= |rule| && chain.Fits()
    modifies chain.arr
    ensures chain.Items() == old(chain.Items())
    ensures out.Fits() && (out.arr == chain.arr || fresh(out.arr))
    ensures idx == |rule| ==> matched && out == chain
    ensures idx < |rule| ==>
      var m := Search(g, n.ref, rule[idx..], window);
      matched == m.Match? && (matched ==> out.Items() == old(chain.Items()) + Select(nodes, m.walk))
    decreases |rule| - idx, 1
  {
    if idx >= |rule| {
      return true, chain;
    }
    assert Mirrored(nodes, n.ref, g[n.ref]);
    if n.typ != rule[idx] {
      out := EmptySlice();
      return false, out;
    }
    var newChain := Append(chain, n);
    if idx == |rule| - 1 {
      assert Select(nodes, [n.ref]) == [n];
      return true, newChain;
    }
    matched, out := TryEdges(nodes, g, n, rule, idx, newChain, window);
    if matched {
      ghost var m := SearchFrom(g, n.ref, rule[idx..], window, 0);
      assert out.Items() == old(chain.Items()) + Select(nodes, m.walk) by {
        assert out.Items() == old(chain.Items()) + ([n] + Select(nodes, m.walk)[1..]);
        assert [n] + Select(nodes, m.walk)[1..] == Select(nodes, m.walk);
      }
    }
  }

  /** The loop of `CheckSequence` over the edges of `n`, whose type has matched. */
  method TryEdges(ghost nodes: seq<Node>, ghost g: Graph, n: Node, rule: seq<string>, idx: nat,
                  newChain: Slice, window: int)
    returns (matched: bool, out: Slice)
    requires Mirrors(nodes, g) && Known(nodes, n)
    requires idx + 1 < |rule| && newChain.Fits()
    modifies newChain.arr
    ensures newChain.Items() == old(newChain.Items())
    ensures out.Fits() && (out.arr == newChain.arr || fresh(out.arr))
    ensures var m := SearchFrom(g, n.ref, rule[idx..], window, 0);
      && matched == m.Match?
      && (matched ==> |m.walk| > 0 && m.walk[0] == n.ref)
      && (matched ==> out.Items() == old(newChain.Items()) + Select(nodes, m.walk)[1..])
    decreases |rule| - idx, 0
  {
    ghost var rest := rule[idx..];
    assert Mirrored(nodes, n.ref, g[n.ref]);
    var edges := n.edges;
    var k := 0;
    while k < |edges|
      invariant 0 <= k <= |edges| == |g[n.ref].links|
      invariant Mirrors(nodes, g)
      invariant forall i :: 0 <= i < |edges| ==> g[n.ref].links[i] == LinkOf(edges[i])
      invariant forall e :: e in edges && e.target != null ==> Known(nodes, e.target)
      invariant newChain.Items() == old(newChain.Items())
      invariant SearchFrom(g, n.ref, rest, window, 0) == SearchFrom(g, n.ref, rest, window, k)
    {
      var edge := edges[k];
      k := k + 1;
      if edge.target == null {
        continue;
      }
      assert Mirrored(nodes, edge.target.ref, g[edge.target.ref]);
      if edge.target.ts - n.ts > window {
        continue;
      }
      assert rest[1..] == rule[idx + 1..];
      matched, out := CheckSequence(nodes, g, edge.target, rule, idx + 1, newChain, window);
      if matched {
        ghost var m := Search(g, edge.target.ref, rest[1..], window);
        assert Select(nodes, [n.ref] + m.walk)[1..] == Select(nodes, m.walk);
        return true, out;
      }
    }
    out := EmptySlice();
    return false, out;
  }

  // ---------- Timelines ----------

  /** How a timeline line is written from a node's time, type and ID. */
  type Format = (int, string, string) -> string

  ghost function LinesOf(g: Graph, order: seq<nat>, format: Format): (r: seq<string>)
    requires forall i :: 0 <= i < |order| ==> order[i] < |g|
    ensures |r| == |order|
  {
    seq(|order|, i requires 0 <= i < |order| => format(g[order[i]].ts, g[order[i]].typ, g[order[i]].id))
  }

  /** The visited map and the timeline slice that one traversal passes down. */
  class Trace {
    var visited: set<string>
    var timeline: seq<string>
    ghost var order: seq<nat>

    constructor ()
      ensures visited == {} && timeline == [] && order == []
    {
      visited, timeline, order := {}, [], [];
    }

    ghost function Made(): Progress
      reads this
    {
      Progress(visited, order)
    }

    /** The timeline is the written form of the nodes in `order`. */
    ghost predicate Written(g: Graph, format: Format)
      reads this
    {
      && (forall i :: 0 <= i < |order| ==> order[i] < |g|)
      && timeline == LinesOf(g, order, format)
    }
  }

  method DfsTimeline(ghost nodes: seq<Node>, ghost g: Graph, n: Node, t: Trace, format: Format)
    requires Mirrors(nodes, g) && Known(nodes, n) && t.Written(g, format)
    modifies t
    ensures t.Made() == Dfs(g, n.ref, old(t.Made())) && t.Written(g, format)
    decreases IDs(g) - t.visited, 0
  {
    assert Mirrored(nodes, n.ref, g[n.ref]);
    if n.id in t.visited {
      return;
    }
    MarkUsesUpAnID(g, n.ref, t.Made());
    t.visited := t.visited + {n.id};
    t.timeline := t.timeline + [format(n.ts, n.typ, n.id)];
    t.order := t.order + [n.ref];
    assert t.timeline == LinesOf(g, t.order, format);
    DfsEdgesTimeline(nodes, g, n, t, format);
  }

  /** The loop of `DfsTimeline` over the edges of `n`. */
  method DfsEdgesTimeline(ghost nodes: seq<Node>, ghost g: Graph, n: Node, t: Trace, format: Format)
    requires Mirrors(nodes, g) && Known(nodes, n) && t.Written(g, format)
    modifies t
    ensures t.Made() == DfsEdges(g, n.ref, 0, old(t.Made())) && t.Written(g, format)
    decreases IDs(g) - t.visited, 1
  {
    EdgesAgree(nodes, g, n);
    ghost var start, p := t.Made(), t.Made();
    var edges := n.edges;
    for k := 0 to |edges|
      invariant Mirrors(nodes, g) && t.Written(g, format)
      invariant t.Made() == p && start.seen <= p.seen
      invariant DfsEdges(g, n.ref, k, p) == DfsEdges(g, n.ref, 0, start)
    {
      if edges[k].target != null {
        SeenShrinks(g, start.seen, p.seen);
        DfsTimeline(nodes, g, edges[k].target, t, format);
        p := Dfs(g, edges[k].target.ref, p);
      }
    }
  }

  lemma EdgesAgree(nodes: seq<Node>, g: Graph, n: Node)
    requires Mirrors(nodes, g) && Known(nodes, n)
    ensures |n.edges| == |g[n.ref].links|
    ensures forall k :: 0 <= k < |n.edges| ==> g[n.ref].links[k] == LinkOf(n.edges[k])
    ensures forall k :: 0 <= k < |n.edges| && n.edges[k].target != null ==> Known(nodes, n.edges[k].target)
  {
    assert Mirrored(nodes, n.ref, g[n.ref]);
    assert forall k :: 0 <= k < |n.edges| ==> n.edges[k] in n.edges;
  }

  /** `lines` is the traversal from `n` written out and sorted. */
  ghost predicate IsTimeline(g: Graph, n: nat, format: Format, lines: seq<string>) {
    && WellFormed(g) && n < |g|
    && Sorted(lines, StringLeq)
    && multiset(lines) == multiset(LinesOf(g, Traversal(g, n), format))
  }

  /** The sorted lines of everything a traversal from `n` visits. */
  method TimelineFrom(ghost nodes: seq<Node>, ghost g: Graph, n: Node, format: Format) returns (lines: seq<string>)
    requires Mirrors(nodes, g) && Known(nodes, n)
    ensures IsTimeline(g, n.ref, format, lines)
  {
    var t := new Trace();
    DfsTimeline(nodes, g, n, t, format);
    StringLeqOrders();
    lines := SortSlice(t.timeline, StringLeq);
  }

  // ---------- The engine ----------

  ghost function Refs(m: map<string, Node>): map<string, nat> {
    map id | id in m :: m[id].ref
  }

  /** The slice holds nodes with these contents. */
  ghost predicate Holds(chain: Slice, vals: seq<NodeVal>)
    reads chain.arr, if chain.Fits() then set i | 0 <= i < chain.len :: chain.arr[i] else {}
  {
    && chain.Fits() && |vals| == chain.len
    && forall i :: 0 <= i < chain.len ==> chain.arr[i] != null && chain.arr[i].Val() == vals[i]
  }

  lemma WalkIsHeld(nodes: seq<Node>, g: Graph, chain: Slice, walk: seq<nat>)
    requires Mirrors(nodes, g) && chain.Fits()
    requires forall i :: 0 <= i < |walk| ==> walk[i] < |nodes|
    requires chain.Items() == Select(nodes, walk)
    ensures Holds(chain, Select(g, walk))
  {
    forall i | 0 <= i < |walk|
      ensures chain.arr[i] != null && chain.arr[i].Val() == g[walk[i]]
    {
      assert Mirrored(nodes, walk[i], g[walk[i]]) && chain.arr[i] == chain.Items()[i];
    }
  }

  method EarliestNode(chain: Slice, ghost vals: seq<NodeVal>) returns (root: Node)
    requires Holds(chain, vals) && chain.len > 0
    ensures root.Val() == vals[Spec.Earliest(vals)]
  {
    var r: Node? := null;
    for i := 0 to chain.len
      invariant if i == 0 then r == null else r != null && r.Val() == vals[Spec.Earliest(vals[..i])]
    {
      assert vals[..i + 1][..i] == vals[..i];
      if r == null || chain.arr[i].ts < r.ts {
        r := chain.arr[i];
      }
    }
    assert vals[..chain.len] == vals;
    root := r;
  }

  /** The timeline lines of a chain and its capped risk. */
  method Describe(chain: Slice, ghost vals: seq<NodeVal>) returns (timeline: seq<Spec.TimelineEntry>, riskScore: real)
    requires Holds(chain, vals)
    ensures timeline == Spec.Lines(vals) && riskScore == Spec.CappedRisk(|vals|)
  {
    timeline, riskScore := [], 0.0;
    for i := 0 to chain.len
      invariant timeline == Spec.Lines(vals)[..i] && riskScore == Spec.WeightedSum(i)
    {
      timeline := timeline + [Spec.TimelineEntry(chain.arr[i].ts, chain.arr[i].typ, chain.arr[i].id)];
      riskScore := riskScore + 1.5 * (i + 1) as real;
    }
    Spec.RiskOfChain(chain.len);
    if riskScore > 10.0 {
      riskScore := 10.0;
    }
  }

  class Engine {
    const hash: Spec.Hash
    const window: int
    const capacity: nat
    const shards: array<map<string, Node>>
    var rules: seq<Rule>
    var suppressed: set<string>
    var alertsChan: seq<Alert>
    ghost var nodes: seq<Node>
    ghost var sent: seq<Alert>  // all ever put on the channel
    ghost var received: nat     // how many were taken off

    ghost predicate Valid()
      reads this, shards, nodes
    {
      Sound() && Spec.Good(View(), hash)
    }

    /** The heap agrees with `View`. */
    ghost predicate Sound()
      reads this, shards, nodes
    {
      && shards.Length > 0
      && received <= |sent| && alertsChan == sent[received..]
      && (forall k, id :: 0 <= k < shards.Length && id in shards[k] ==> Known(nodes, shards[k][id]))
      && Mirrors(nodes, View().graph)
    }

    /** The engine's state as a value. */
    ghost function View(): Spec.State
      reads this, shards, nodes
    {
      Spec.State(seq(|nodes|, i requires 0 <= i < |nodes| reads this, nodes => nodes[i].Val()),
                 seq(shards.Length, k requires 0 <= k < shards.Length reads this, shards => Refs(shards[k])),
                 window, rules, suppressed, sent, received, capacity)
    }

    constructor (shardCount: nat, hash: Spec.Hash, window: int, capacity: nat)
      requires shardCount > 0
      ensures Valid() && View() == Spec.Init(shardCount, window, capacity) && this.hash == hash
      ensures fresh(shards) && nodes == []
    {
      this.hash := hash;
      this.window := window;
      this.capacity := capacity;
      shards := new map<string, Node>[shardCount](_ => map[]);
      rules, suppressed, alertsChan, nodes, sent, received := [], {}, [], [], [], 0;
      new;
      assert View() == Spec.Init(shardCount, window, capacity);
    }

    method AddRule(r: Rule)
      requires Valid()
      modifies this`rules
      ensures Valid() && View() == Spec.Apply(old(View()), hash, Spec.DoAddRule(r))
    {
      Spec.ApplyKeepsGood(View(), hash, Spec.DoAddRule(r));
      rules := rules + [r];
      assert View() == Spec.Apply(old(View()), hash, Spec.DoAddRule(r));
    }

    method SuppressAlert(ruleID: string, target: string)
      requires Valid()
      modifies this`suppressed
      ensures Valid() && View() == Spec.Apply(old(View()), hash, Spec.DoSuppress(ruleID, target))
    {
      Spec.ApplyKeepsGood(View(), hash, Spec.DoSuppress(ruleID, target));
      suppressed := suppressed + {ruleID + ":" + target};
      assert View() == Spec.Apply(old(View()), hash, Spec.DoSuppress(ruleID, target));
    }

    /** The reader at the far end of the alert channel takes one alert off, if there is one. */
    method Receive() returns (a: Option<Alert>)
      requires Valid()
      modifies this`alertsChan, this`received
      ensures Valid() && View() == Spec.Apply(old(View()), hash, Spec.DoReceive)
      ensures a == if old(alertsChan) == [] then None else Some(old(alertsChan)[0])
    {
      Spec.ApplyKeepsGood(View(), hash, Spec.DoReceive);
      a := None;
      if alertsChan != [] {
        a := Some(alertsChan[0]);
        alertsChan, received := alertsChan[1..], received + 1;
      }
      assert View() == Spec.Apply(old(View()), hash, Spec.DoReceive);
    }

    function ShardIndex(id: string): (k: nat)
      reads this, shards
      requires shards.Length > 0
      ensures k < shards.Length
    {
      hash(id) % shards.Length
    }

    /** Drop from shard `k` the nodes that have outlived the window. */
    method DeleteExpired(k: nat, now: int)
      requires k < shards.Length
      modifies shards
      ensures forall j :: 0 <= j < shards.Length && j != k ==> shards[j] == old(shards[j])
      ensures shards[k] == map id | id in old(shards[k]) && now - old(shards[k])[id].ts <= window :: old(shards[k])[id]
    {
      ghost var m := shards[k];
      var todo := shards[k].Keys;
      while todo != {}
        invariant todo <= m.Keys
        invariant forall j :: 0 <= j < shards.Length && j != k ==> shards[j] == old(shards[j])
        invariant shards[k].Keys <= m.Keys && forall id :: id in shards[k] ==> shards[k][id] == m[id]
        invariant forall id :: id in m ==> (id in shards[k] <==> id in todo || now - m[id].ts <= window)
        decreases todo
      {
        var id := Pick(todo);
        if now - shards[k][id].ts > window {
          shards[k] := shards[k] - {id};
        }
        todo := todo - {id};
      }
    }

    method Sweep(k: nat, now: int)
      requires Sound() && Spec.Indexed(View(), hash) && k < shards.Length
      modifies shards
      ensures Sound()
      ensures View() == Spec.SweepShard(old(View()), hash, k, now)
    {
      ghost var m := shards[k];
      ghost var v := View();
      assert v.shards[k] == Refs(m);
      forall id | id in m
        ensures m[id].ref < |v.graph| && v.graph[m[id].ref].ts == m[id].ts
      {
        assert Known(nodes, m[id]) && Mirrored(nodes, m[id].ref, v.graph[m[id].ref]);
      }
      DeleteExpired(k, now);
      assert Refs(shards[k]) == Spec.Swept(v.shards[k], v.graph, window, now);
      assert View().graph == v.graph;
      assert View().shards == v.shards[k := Refs(shards[k])];
    }

    method File(k: nat, node: Node)
      requires Sound() && k < shards.Length && node.ref == |nodes| && node.edges == []
      modifies this`nodes, shards
      ensures Sound() && nodes == old(nodes) + [node]
      ensures View() == Spec.FileNode(old(View()), k, node.Val())
    {
      ghost var v := View();
      ghost var m := shards[k];
      shards[k] := shards[k][node.id := node];
      assert Refs(shards[k]) == Refs(m)[node.id := node.ref];
      nodes := nodes + [node];
      assert View().graph == Spec.FileNode(v, k, node.Val()).graph;
      assert View().shards == Spec.FileNode(v, k, node.Val()).shards;
      assert forall i :: 0 <= i < |v.graph| ==> Mirrored(old(nodes), i, v.graph[i]);
    }

    /** File a new node for the event in its shard. */
    method Insert(ev: Event, now: int) returns (node: Node)
      requires Sound() && Spec.Indexed(View(), hash)
      modifies this`nodes, shards
      ensures Sound() && fresh(node) && nodes == old(nodes) + [node] && node.ref == |old(nodes)|
      ensures View() == Spec.Insert(old(View()), hash, ev, now)
    {
      var id := Spec.NodeID(ev);
      var k := ShardIndex(id);
      Sweep(k, now);
      node := new Node(ev, |nodes|);
      File(k, node);
    }

    method AddEdge(n: Node, e: Edge)
      requires Sound() && Known(nodes, n) && (e.target != null ==> Known(nodes, e.target))
      modifies n`edges
      ensures Sound() && View() == old(View()).(graph := Spec.AddLink(old(View()).graph, n.ref, LinkOf(e)))
    {
      ghost var v := View();
      assert Mirrored(nodes, n.ref, v.graph[n.ref]);
      n.edges := n.edges + [e];
      ghost var g := Spec.AddLink(v.graph, n.ref, LinkOf(e));
      assert n.Val().links == v.graph[n.ref].links + [LinkOf(e)];
      forall i: nat | i < |nodes|
        ensures Mirrored(nodes, i, g[i])
      {
        assert old(Mirrored(nodes, i, v.graph[i]));
        assert nodes[i] == n ==> i == n.ref;
      }
      assert View().graph == g;
      assert View().shards == v.shards;
    }

    /** Link a new process node below its parent, when the parent is still filed. */
    method Connect(ev: Event, node: Node)
      requires Sound() && Spec.Indexed(View(), hash) && Known(nodes, node)
      modifies nodes
      ensures Sound() && View() == Spec.Connect(old(View()), hash, ev, node.ref)
    {
      if ev.typ == "process" && ev.parentID > 0 {
        var parentID := Spec.ProcessKey(ev.parentID);
        var k := ShardIndex(parentID);
        assert View().shards[k] == Refs(shards[k]);
        if parentID in shards[k] {
          var parent := shards[k][parentID];
          AddEdge(parent, Edge(SPAWNED, node, ev.timestamp));
          AddEdge(node, Edge(PARENT_OF, parent, ev.timestamp));
        }
      }
    }

    /** The non-blocking send on the alert channel. */
    method Send(alert: Alert)
      requires Sound()
      modifies this`alertsChan, this`sent
      ensures Sound()
      ensures View() ==
        if |old(sent)| - received < capacity then old(View()).(sent := old(sent) + [alert]) else old(View())
    {
      ghost var v := View();
      if |alertsChan| < capacity {
        alertsChan := alertsChan + [alert];
        sent := sent + [alert];
        assert View().graph == v.graph && View().shards == v.shards;
      }
    }

    /** Raise the alert for a matched chain unless its pair is suppressed or the channel is full. */
    method TriggerAlert(rule: Rule, chain: Slice, now: int, ghost walk: seq<nat>)
      requires Sound() && chain.Fits()
      requires forall i :: 0 <= i < |walk| ==> walk[i] < |nodes|
      requires chain.Items() == Select(nodes, walk)
      modifies this`alertsChan, this`sent
      ensures Sound()
      ensures View() == if walk == [] then old(View())
        else Spec.Trigger(old(View()), rule, Select(old(View()).graph, walk), now)
    {
      if chain.len == 0 {
        return;
      }
      ghost var vals := Select(View().graph, walk);
      WalkIsHeld(nodes, View().graph, chain, walk);
      var root := EarliestNode(chain, vals);
      if rule.id + ":" + Decimal(root.props.pid) in suppressed {
        return;
      }
      var timeline, riskScore := Describe(chain, vals);
      var alert := Spec.Alert(rule.id, rule.name, root.props.pid, riskScore, 0.85, rule.mitreIDs, timeline, now);
      assert alert == Spec.MakeAlert(rule, vals, now);
      Send(alert);
    }

    method EvaluateRules(node: Node, now: int)
      requires Sound() && Known(nodes, node)
      modifies this`alertsChan, this`sent
      ensures Sound() && View() == Spec.EvaluateRules(old(View()), node.ref, 0, now)
    {
      ghost var v := View();
      for i := 0 to |rules|
        invariant Sound() && v == View()
        invariant Spec.EvaluateRules(v, node.ref, i, now) == Spec.EvaluateRules(old(View()), node.ref, 0, now)
      {
        EvaluateRule(node, rules[i], now);
        v := Spec.Evaluate(v, node.ref, rules[i], now);
      }
    }

    method EvaluateRule(node: Node, rule: Rule, now: int)
      requires Sound() && Known(nodes, node)
      modifies this`alertsChan, this`sent
      ensures Sound() && View() == Spec.Evaluate(old(View()), node.ref, rule, now)
    {
      ghost var g := View().graph;
      var chain := EmptySlice();
      var matched, found := CheckSequence(nodes, g, node, rule.sequence, 0, chain, rule.window);
      assert rule.sequence[0..] == rule.sequence;
      if matched {
        ghost var walk := if rule.sequence == [] then [] else Search(g, node.ref, rule.sequence, rule.window).walk;
        TriggerAlert(rule, found, now, walk);
      }
    }

    /** Take in one event, as one step: sweep and file, link to the parent, look at every rule. */
    method Ingest(ev: Event, now: int)
      requires Valid()
      modifies this, shards, nodes
      ensures Valid() && View() == Spec.Apply(old(View()), hash, Spec.DoIngest(ev, now))
      ensures |nodes| == |old(nodes)| + 1 && old(nodes) <= nodes && fresh(nodes[|old(nodes)|])
    {
      ghost var v := View();
      Spec.InsertIndexed(v, hash, ev, now);
      var node := Insert(ev, now);
      Connect(ev, node);
      Spec.AbsorbKeepsWellFormed(v, hash, ev, now);
      EvaluateRules(node, now);
      Spec.ApplyKeepsGood(v, hash, Spec.DoIngest(ev, now));
    }

    /** The sorted lines of the traversal from a process that is still filed. */
    method ReconstructTimeline(pid: int, format: Format) returns (r: Option<seq<string>>)
      requires Valid()
      ensures match Spec.Lookup(View(), hash, Spec.ProcessKey(pid))
        case None => r.None?
        case Some(start) => r.Some? && IsTimeline(View().graph, start, format, r.value)
    {
      var id := Spec.ProcessKey(pid);
      var k := ShardIndex(id);
      assert View().shards[k] == Refs(shards[k]);
      if id !in shards[k] {
        return None;
      }
      var lines := TimelineFrom(nodes, View().graph, shards[k][id], format);
      r := Some(lines);
    }
  }
}
