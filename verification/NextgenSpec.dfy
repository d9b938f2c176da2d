/** What each operation of the next-generation engine does to its state, and what every run keeps:
    paired edges between process nodes, suppression, and when one rule raises an alert. */
module NextgenSpec {
  import opened Text
  import opened TelemetryEvents
  import opened NextgenGraph

  datatype Rule = Rule(id: string, name: string, sequence: seq<string>, window: int, mitreIDs: seq<string>)

  datatype TimelineEntry = TimelineEntry(ts: int, typ: string, id: string)

  datatype Alert = Alert(
    ruleID: string, ruleName: string, rootPID: int, riskScore: real, confidence: real,
    mitreIDs: seq<string>, timeline: seq<TimelineEntry>, occurredAt: int)

  /** `sent` is everything ever put on the alert channel, of which `received` were taken off. */
  datatype State = State(
    graph: Graph, shards: seq<map<string, nat>>, window: int, rules: seq<Rule>,
    suppressed: set<string>, sent: seq<Alert>, received: nat, capacity: nat)

  type Hash = string -> nat

  // ---------- Node identities ----------

  function ProcessKey(pid: int): string {
    "process:" + Decimal(pid)
  }

  function NodeID(ev: Event): string {
    if ev.typ == "process" then ProcessKey(ev.processID)
    else if ev.typ == "network" then ev.typ + ":" + ev.remoteIP + ":" + Decimal(ev.remotePort)
    else ev.typ + ":" + ev.filePath
  }

  /** The only events whose node is found under a process key are process events of that pid. */
  lemma OnlyProcessEventsHaveProcessKeys(ev: Event, pid: int)
    ensures NodeID(ev) == ProcessKey(pid) <==> ev.typ == "process" && ev.processID == pid
  {
    var id, key := NodeID(ev), ProcessKey(pid);
    DecimalHasNoColon(pid);
    if ev.typ == "process" && id == key {
      assert Decimal(pid) == key[8..] && Decimal(ev.processID) == id[8..];
      DecimalInjective(pid, ev.processID);
    } else if ev.typ != "process" {
      assert id[|ev.typ|] == ':' && id[..|ev.typ|] == ev.typ;
      assert forall i :: 0 <= i < |key| && key[i] == ':' ==> key[..i] == "process";
    }
  }

  // ---------- Operations ----------

  predicate Expired(v: NodeVal, window: int, now: int) {
    now - v.ts > window
  }

  ghost predicate Indexed(s: State, hash: Hash) {
    && |s.shards| > 0
    && (forall k, id :: 0 <= k < |s.shards| && id in s.shards[k] ==> Filed(s.graph, id, s.shards[k][id]))
    && (forall k, id :: 0 <= k < |s.shards| && id in s.shards[k] ==> hash(id) % |s.shards| == k)
  }

  ghost predicate Filed(g: Graph, id: string, n: nat) {
    n < |g| && g[n].id == id
  }

  ghost function Swept(m: map<string, nat>, g: Graph, window: int, now: int): map<string, nat>
    requires forall id :: id in m ==> Filed(g, id, m[id])
  {
    map id | id in m && (assert Filed(g, id, m[id]); !Expired(g[m[id]], window, now)) :: m[id]
  }

  ghost function Lookup(s: State, hash: Hash, id: string): (r: Option<nat>)
    requires |s.shards| > 0
  {
    var m := s.shards[hash(id) % |s.shards|];
    if id in m then Some(m[id]) else None
  }

  function NewNode(ev: Event): NodeVal {
    NodeVal(NodeID(ev), ToUpper(ev.typ), ev.timestamp,
            Props(ev.binaryPath, ev.commandLine, ev.username, ev.processID, ev.parentID), [])
  }

  function AddLink(g: Graph, n: nat, l: Link): Graph
    requires n < |g|
  {
    g[n := g[n].(links := g[n].links + [l])]
  }

  function LinkParent(g: Graph, parent: nat, child: nat, ts: int): Graph
    requires parent < |g| && child < |g|
  {
    AddLink(AddLink(g, parent, Link(SPAWNED, Some(child), ts)), child, Link(PARENT_OF, Some(parent), ts))
  }

  ghost function SweepShard(s: State, hash: Hash, k: nat, now: int): State
    requires Indexed(s, hash) && k < |s.shards|
  {
    s.(shards := s.shards[k := Swept(s.shards[k], s.graph, s.window, now)])
  }

  function FileNode(s: State, k: nat, v: NodeVal): State
    requires k < |s.shards|
  {
    var m: map<string, nat> := s.shards[k][v.id := |s.graph|];
    s.(graph := s.graph + [v], shards := s.shards[k := m])
  }

  /** Sweep the shard of the new node's key, then file the node there. */
  ghost function Insert(s: State, hash: Hash, ev: Event, now: int): State
    requires Indexed(s, hash)
  {
    var k := hash(NodeID(ev)) % |s.shards|;
    FileNode(SweepShard(s, hash, k, now), k, NewNode(ev))
  }

  lemma InsertIndexed(s: State, hash: Hash, ev: Event, now: int)
    requires Indexed(s, hash)
    ensures Indexed(Insert(s, hash, ev, now), hash)
  {
    var t := Insert(s, hash, ev, now);
    forall k, id | 0 <= k < |t.shards| && id in t.shards[k]
      ensures Filed(t.graph, id, t.shards[k][id]) && hash(id) % |t.shards| == k
    {
      if id != NodeID(ev) || k != hash(id) % |s.shards| {
        assert id in s.shards[k] && Filed(s.graph, id, s.shards[k][id]);
      }
    }
  }

  ghost function Connect(s: State, hash: Hash, ev: Event, child: nat): (t: State)
    requires Indexed(s, hash) && child < |s.graph|
    ensures |t.graph| == |s.graph| && t.shards == s.shards
    ensures forall n :: 0 <= n < |s.graph| ==> t.graph[n] == s.graph[n].(links := t.graph[n].links)
    ensures Indexed(t, hash)
  {
    if ev.typ == "process" && ev.parentID > 0 then
      match Lookup(s, hash, ProcessKey(ev.parentID))
      case Some(parent) => s.(graph := LinkParent(s.graph, parent, child, ev.timestamp))
      case None => s
    else s
  }

  /** The graph after an event's node is in and linked, before the rules are looked at. */
  ghost function Absorb(s: State, hash: Hash, ev: Event, now: int): (t: State)
    requires Indexed(s, hash)
    ensures |t.graph| == |s.graph| + 1 && Indexed(t, hash)
  {
    InsertIndexed(s, hash, ev, now);
    Connect(Insert(s, hash, ev, now), hash, ev, |s.graph|)
  }

  ghost function Ingest(s: State, hash: Hash, ev: Event, now: int): (t: State)
    requires Indexed(s, hash) && WellFormed(s.graph)
    ensures Indexed(t, hash) && |t.graph| == |s.graph| + 1
  {
    AbsorbKeepsWellFormed(s, hash, ev, now);
    EvaluateRules(Absorb(s, hash, ev, now), |s.graph|, 0, now)
  }

  ghost function EvaluateRules(s: State, trigger: nat, from: nat, now: int): (t: State)
    requires WellFormed(s.graph) && trigger < |s.graph| && from <= |s.rules|
    ensures t == s.(sent := t.sent) && s.sent <= t.sent
    decreases |s.rules| - from
  {
    if from == |s.rules| then s
    else EvaluateRules(Evaluate(s, trigger, s.rules[from], now), trigger, from + 1, now)
  }

  /** A rule with no steps matches with an empty chain, for which no alert is raised. */
  ghost function Evaluate(s: State, trigger: nat, rule: Rule, now: int): (t: State)
    requires WellFormed(s.graph) && trigger < |s.graph|
    ensures t == s.(sent := t.sent) && s.sent <= t.sent
  {
    if rule.sequence == [] then s
    else
      var m := Search(s.graph, trigger, rule.sequence, rule.window);
      if m.Match? && |m.walk| > 0 then Trigger(s, rule, Select(s.graph, m.walk), now) else s
  }

  function SuppressionKey(ruleID: string, target: string): string {
    ruleID + ":" + target
  }

  function Trigger(s: State, rule: Rule, chain: seq<NodeVal>, now: int): (t: State)
    requires |chain| > 0
    ensures t == s.(sent := t.sent) && s.sent <= t.sent
  {
    var a := MakeAlert(rule, chain, now);
    if SuppressionKey(rule.id, Decimal(a.rootPID)) in s.suppressed then s
    else if |s.sent| - s.received < s.capacity then s.(sent := s.sent + [a])
    else s
  }

  function MakeAlert(rule: Rule, chain: seq<NodeVal>, now: int): Alert
    requires |chain| > 0
  {
    Alert(rule.id, rule.name, chain[Earliest(chain)].props.pid, CappedRisk(|chain|), 0.85,
          rule.mitreIDs, Lines(chain), now)
  }

  function Lines(chain: seq<NodeVal>): (r: seq<TimelineEntry>)
    ensures |r| == |chain|
  {
    seq(|chain|, i requires 0 <= i < |chain| => TimelineEntry(chain[i].ts, chain[i].typ, chain[i].id))
  }

  /** The position of the first node with the least timestamp. */
  function Earliest(chain: seq<NodeVal>): (r: nat)
    requires |chain| > 0
    ensures r < |chain|
    ensures forall i :: 0 <= i < |chain| ==> chain[r].ts <= chain[i].ts
    ensures forall i :: 0 <= i < r ==> chain[r].ts < chain[i].ts
  {
    if |chain| == 1 then 0
    else
      var r := Earliest(chain[..|chain| - 1]);
      if chain[|chain| - 1].ts < chain[r].ts then |chain| - 1 else r
  }

  /** min(10, 1.5 * (1 + 2 + ... + n)). */
  function CappedRisk(n: nat): (r: real) {
    var sum := 0.75 * n as real * (n + 1) as real;
    if sum > 10.0 then 10.0 else sum
  }

  // ---------- Runs ----------

  datatype Op = DoIngest(ev: Event, now: int) | DoSuppress(ruleID: string, target: string)
              | DoAddRule(rule: Rule) | DoReceive

  function Init(shardCount: nat, window: int, capacity: nat): State {
    State([], seq(shardCount, _ => map[]), window, [], {}, [], 0, capacity)
  }

  ghost predicate Good(s: State, hash: Hash) {
    && Indexed(s, hash)
    && EdgesPaired(s.graph)
    && s.received <= |s.sent| <= s.received + s.capacity
  }

  ghost function Apply(s: State, hash: Hash, op: Op): State
    requires Indexed(s, hash) && WellFormed(s.graph)
  {
    match op
    case DoIngest(ev, now) => Ingest(s, hash, ev, now)
    case DoSuppress(ruleID, target) => s.(suppressed := s.suppressed + {SuppressionKey(ruleID, target)})
    case DoAddRule(rule) => s.(rules := s.rules + [rule])
    case DoReceive => if s.received < |s.sent| then s.(received := s.received + 1) else s
  }

  ghost function Run(s: State, hash: Hash, ops: seq<Op>): (t: State)
    requires Good(s, hash)
    ensures Good(t, hash)
    decreases |ops|
  {
    if ops == [] then s
    else
      ApplyKeepsGood(s, hash, ops[0]);
      Run(Apply(s, hash, ops[0]), hash, ops[1..])
  }

  // ---------- The graph invariant ----------

  ghost predicate IsProcessNode(v: NodeVal) {
    v.typ == "PROCESS" && v.id == ProcessKey(v.props.pid)
  }

  ghost predicate HasLink(g: Graph, n: nat, kind: EdgeKind, target: nat, ts: int)
    requires n < |g|
  {
    Link(kind, Some(target), ts) in g[n].links
  }

  /** Every SPAWNED edge p -> c answers a PARENT_OF edge c -> p with the same timestamp, and back. */
  ghost predicate Paired(g: Graph) {
    forall p: nat, c: nat, ts :: p < |g| && c < |g| ==>
      (HasLink(g, p, SPAWNED, c, ts) <==> HasLink(g, c, PARENT_OF, p, ts))
  }

  /** A parent was filed no later than its child, and the edge carries the child's timestamp. */
  ghost predicate ParentsFirst(g: Graph) {
    forall p: nat, c: nat, ts :: c < |g| && HasLink(g, c, PARENT_OF, p, ts) ==> p <= c && ts == g[c].ts
  }

  ghost predicate OneParent(g: Graph) {
    forall c, i, j :: 0 <= c < |g| && 0 <= i < j < |g[c].links| && g[c].links[i].kind == PARENT_OF
      ==> g[c].links[j].kind != PARENT_OF
  }

  /** No node has two SPAWNED edges to one child. */
  ghost predicate SpawnedOnce(g: Graph) {
    forall p, i, j :: 0 <= p < |g| && 0 <= i < j < |g[p].links| && g[p].links[i].kind == SPAWNED
      ==> g[p].links[j] != Link(SPAWNED, g[p].links[i].target, g[p].links[j].ts)
  }

  ghost predicate OnlyProcessesLinked(g: Graph) {
    forall n, k :: 0 <= n < |g| && 0 <= k < |g[n].links| ==> JoinsProcess(g, n, k)
  }

  ghost predicate JoinsProcess(g: Graph, n: int, k: int)
    requires 0 <= n < |g| && 0 <= k < |g[n].links|
  {
    IsProcessNode(g[n]) && g[n].links[k].target.Some? && g[n].links[k].target.value < |g|
  }

  ghost predicate KeysNameProcesses(g: Graph) {
    forall n, pid :: 0 <= n < |g| && g[n].id == ProcessKey(pid) ==> IsProcessNode(g[n])
  }

  ghost predicate EdgesPaired(g: Graph) {
    && WellFormed(g) && Paired(g) && ParentsFirst(g) && OneParent(g) && SpawnedOnce(g)
    && OnlyProcessesLinked(g) && KeysNameProcesses(g)
  }

  lemma LinkedIsProcess(g: Graph, n: nat, l: Link)
    requires OnlyProcessesLinked(g) && n < |g| && l in g[n].links
    ensures IsProcessNode(g[n]) && l.target.Some? && l.target.value < |g|
  {
    var k :| 0 <= k < |g[n].links| && g[n].links[k] == l;
    assert JoinsProcess(g, n, k);
  }

  lemma InsertKeepsEdgesPaired(g: Graph, ev: Event)
    requires EdgesPaired(g)
    ensures EdgesPaired(g + [NewNode(ev)])
  {
    var h := g + [NewNode(ev)];
    assert KeysNameProcesses(h) by {
      NewNodeKeysNameProcesses(g, ev);
    }
    assert OnlyProcessesLinked(h) by {
      forall n, k | 0 <= n < |h| && 0 <= k < |h[n].links|
        ensures JoinsProcess(h, n, k)
      {
        assert n < |g| && JoinsProcess(g, n, k);
      }
    }
    assert Paired(h) && ParentsFirst(h) by {
      forall c: nat, kind, p: nat, ts | c < |h| && HasLink(h, c, kind, p, ts)
        ensures c < |g| && p < |g| && HasLink(g, c, kind, p, ts)
      {
        LinkedIsProcess(g, c, Link(kind, Some(p), ts));
      }
      assert forall c: nat, kind, p: nat, ts :: c < |g| && HasLink(g, c, kind, p, ts) ==> HasLink(h, c, kind, p, ts);
    }
  }

  lemma NewNodeKeysNameProcesses(g: Graph, ev: Event)
    requires KeysNameProcesses(g)
    ensures KeysNameProcesses(g + [NewNode(ev)])
  {
    var h := g + [NewNode(ev)];
    forall n, pid | 0 <= n < |h| && h[n].id == ProcessKey(pid)
      ensures IsProcessNode(h[n])
    {
      if n == |g| {
        OnlyProcessEventsHaveProcessKeys(ev, pid);
        assert ToUpper("process") == "PROCESS";
      }
    }
  }

  /** The links of a node once `child` hangs below `parent`. */
  lemma LinkedNodes(g: Graph, parent: nat, child: nat, ts: int, n: nat)
    requires parent < |g| && child < |g| && n < |g|
    ensures var h := LinkParent(g, parent, child, ts);
      h[n] == g[n].(links := g[n].links
        + (if n == parent then [Link(SPAWNED, Some(child), ts)] else [])
        + (if n == child then [Link(PARENT_OF, Some(parent), ts)] else []))
  {
  }

  lemma LinkKeepsEdgesPaired(g: Graph, parent: nat, child: nat)
    requires EdgesPaired(g) && parent <= child < |g|
    requires forall l :: l in g[child].links ==> l.kind != PARENT_OF
    requires IsProcessNode(g[parent]) && IsProcessNode(g[child])
    ensures EdgesPaired(LinkParent(g, parent, child, g[child].ts))
  {
    var ts := g[child].ts;
    var h := LinkParent(g, parent, child, ts);
    forall n: nat | n < |g|
      ensures h[n] == g[n].(links := h[n].links)
      ensures forall kind, t: nat, at :: HasLink(h, n, kind, t, at) <==>
                (|| HasLink(g, n, kind, t, at)
                 || (n == parent && kind == SPAWNED && t == child && at == ts)
                 || (n == child && kind == PARENT_OF && t == parent && at == ts))
    {
      LinkedNodes(g, parent, child, ts, n);
    }
    assert OneParent(h) by { LinkKeepsOneParent(g, parent, child, ts); }
    assert SpawnedOnce(h) by { LinkKeepsSpawnedOnce(g, parent, child, ts); }
    LinkKeepsProcessesLinked(g, parent, child, ts);
    assert WellFormed(h) by {
      forall n, k | 0 <= n < |h| && 0 <= k < |h[n].links|
        ensures h[n].links[k].target.Some? && h[n].links[k].target.value < |h|
      {
        assert JoinsProcess(h, n, k);
      }
    }
  }

  lemma LinkKeepsOneParent(g: Graph, parent: nat, child: nat, ts: int)
    requires OneParent(g) && parent < |g| && child < |g|
    requires forall l :: l in g[child].links ==> l.kind != PARENT_OF
    ensures OneParent(LinkParent(g, parent, child, ts))
  {
    var h := LinkParent(g, parent, child, ts);
    forall c, i, j | 0 <= c < |h| && 0 <= i < j < |h[c].links| && h[c].links[i].kind == PARENT_OF
      ensures h[c].links[j].kind != PARENT_OF
    {
      LinkedNodes(g, parent, child, ts, c);
      assert i < |g[c].links| ==> g[c].links[i] in g[c].links;
    }
  }

  /** A node without a parent is nobody's spawn yet. */
  lemma LinkKeepsSpawnedOnce(g: Graph, parent: nat, child: nat, ts: int)
    requires SpawnedOnce(g) && Paired(g) && parent < |g| && child < |g|
    requires forall l :: l in g[child].links ==> l.kind != PARENT_OF
    ensures SpawnedOnce(LinkParent(g, parent, child, ts))
  {
    var h := LinkParent(g, parent, child, ts);
    forall p, i, j | 0 <= p < |h| && 0 <= i < j < |h[p].links| && h[p].links[i].kind == SPAWNED
      ensures h[p].links[j] != Link(SPAWNED, h[p].links[i].target, h[p].links[j].ts)
    {
      LinkedNodes(g, parent, child, ts, p);
      if i < |g[p].links| && h[p].links[i].target == Some(child) {
        var at := g[p].links[i].ts;
        assert g[p].links[i] == Link(SPAWNED, Some(child), at) && g[p].links[i] in g[p].links;
        assert HasLink(g, p, SPAWNED, child, at);
      }
    }
  }

  lemma LinkKeepsProcessesLinked(g: Graph, parent: nat, child: nat, ts: int)
    requires OnlyProcessesLinked(g) && parent < |g| && child < |g|
    requires IsProcessNode(g[parent]) && IsProcessNode(g[child])
    ensures OnlyProcessesLinked(LinkParent(g, parent, child, ts))
  {
    var h := LinkParent(g, parent, child, ts);
    forall n, k | 0 <= n < |h| && 0 <= k < |h[n].links|
      ensures JoinsProcess(h, n, k)
    {
      LinkedNodes(g, parent, child, ts, n);
      assert k < |g[n].links| ==> JoinsProcess(g, n, k);
    }
  }

  lemma AbsorbKeepsWellFormed(s: State, hash: Hash, ev: Event, now: int)
    requires Indexed(s, hash) && WellFormed(s.graph)
    ensures WellFormed(Absorb(s, hash, ev, now).graph)
  {
    InsertIndexed(s, hash, ev, now);
  }

  lemma AbsorbKeepsEdgesPaired(s: State, hash: Hash, ev: Event, now: int)
    requires Indexed(s, hash) && EdgesPaired(s.graph)
    ensures EdgesPaired(Absorb(s, hash, ev, now).graph)
  {
    var t, c := Insert(s, hash, ev, now), |s.graph|;
    InsertIndexed(s, hash, ev, now);
    InsertKeepsEdgesPaired(s.graph, ev);
    if ev.typ == "process" && ev.parentID > 0 {
      var found := Lookup(t, hash, ProcessKey(ev.parentID));
      if found.Some? {
        assert IsProcessNode(t.graph[found.value]);
        assert t.graph[c].id == ProcessKey(ev.processID);
        LinkKeepsEdgesPaired(t.graph, found.value, c);
      }
    }
  }

  lemma ApplyKeepsGood(s: State, hash: Hash, op: Op)
    requires Good(s, hash)
    ensures Good(Apply(s, hash, op), hash)
  {
    if op.DoIngest? {
      AbsorbKeepsEdgesPaired(s, hash, op.ev, op.now);
      EvaluateRespectsCapacity(Absorb(s, hash, op.ev, op.now), |s.graph|, 0, op.now);
    }
  }

  lemma {:induction false} EvaluateRespectsCapacity(s: State, trigger: nat, from: nat, now: int)
    requires WellFormed(s.graph) && trigger < |s.graph| && from <= |s.rules|
    requires s.received <= |s.sent| <= s.received + s.capacity
    ensures |EvaluateRules(s, trigger, from, now).sent| <= s.received + s.capacity
    decreases |s.rules| - from
  {
    if from == |s.rules| {
    } else {
      EvaluateRespectsCapacity(Evaluate(s, trigger, s.rules[from], now), trigger, from + 1, now);
    }
  }

  /** Only process nodes have edges, so a walk of two or more steps visits process nodes alone. */
  lemma LongWalksAreProcessChains(s: State, hash: Hash, n: nat, rule: seq<string>, window: int,
                                  path: seq<nat>, walk: seq<nat>)
    requires Good(s, hash) && |rule| >= 2 && IsWalk(s.graph, n, rule, window, path, walk)
    ensures forall i :: 0 <= i < |rule| ==> rule[i] == "PROCESS" && IsProcessNode(s.graph[walk[i]])
  {
    var g := s.graph;
    forall i | 0 <= i < |rule|
      ensures IsProcessNode(g[walk[i]])
    {
      if i < |path| {
        assert StepTaken(g, walk, path, window, i);
        assert JoinsProcess(g, walk[i], path[i]);
      } else {
        assert StepTaken(g, walk, path, window, i - 1);
        var p, c, l := walk[i - 1], walk[i], g[walk[i - 1]].links[path[i - 1]];
        assert l in g[p].links && HasLink(g, p, l.kind, c, l.ts);
        if l.kind == SPAWNED {
          assert HasLink(g, c, PARENT_OF, p, l.ts);
          LinkedIsProcess(g, c, Link(PARENT_OF, Some(p), l.ts));
        } else {
          assert HasLink(g, c, SPAWNED, p, l.ts);
          LinkedIsProcess(g, c, Link(SPAWNED, Some(p), l.ts));
        }
      }
    }
  }

  // ---------- When an alert is raised, and what it says ----------

  /** A rule raises an alert exactly when a walk matches it, the pair of the rule and the earliest
      node's pid is not suppressed, and the channel has room. The alert is made from the first walk
      in edge order. */
  lemma AlertIffWalkAllowed(s: State, trigger: nat, rule: Rule, now: int)
    requires WellFormed(s.graph) && trigger < |s.graph|
    ensures (Evaluate(s, trigger, rule, now).sent != s.sent) <==>
      exists path, walk ::
        && IsFirstWalk(s.graph, trigger, rule.sequence, rule.window, path, walk)
        && Allowed(s, rule, Select(s.graph, walk))
        && |s.sent| - s.received < s.capacity
    ensures Evaluate(s, trigger, rule, now).sent != s.sent ==>
      exists path, walk ::
        && IsFirstWalk(s.graph, trigger, rule.sequence, rule.window, path, walk)
        && Evaluate(s, trigger, rule, now).sent == s.sent + [MakeAlert(rule, Select(s.graph, walk), now)]
  {
    if rule.sequence != [] {
      SearchFindsFirstWalk(s.graph, trigger, rule.sequence, rule.window);
      var m := Search(s.graph, trigger, rule.sequence, rule.window);
      forall path, walk | IsFirstWalk(s.graph, trigger, rule.sequence, rule.window, path, walk)
        ensures m.Match? && m.walk == walk
      {
        FirstWalkUnique(s.graph, trigger, rule.sequence, rule.window, path, walk, m.path, m.walk);
      }
    }
  }

  ghost predicate Allowed(s: State, rule: Rule, chain: seq<NodeVal>)
    requires |chain| > 0
  {
    SuppressionKey(rule.id, Decimal(chain[Earliest(chain)].props.pid)) !in s.suppressed
  }

  function WeightedSum(n: nat): real {
    if n == 0 then 0.0 else WeightedSum(n - 1) + 1.5 * n as real
  }

  lemma {:induction false} WeightedSumClosedForm(n: nat)
    ensures WeightedSum(n) == 0.75 * n as real * (n + 1) as real
  {
    if n == 0 {
    } else {
      WeightedSumClosedForm(n - 1);
    }
  }

  /** A chain scores 1.5 per node weighted by position, capped at ten, which four nodes reach. */
  lemma RiskOfChain(n: nat)
    ensures CappedRisk(n) == if WeightedSum(n) > 10.0 then 10.0 else WeightedSum(n)
    ensures CappedRisk(n) == 10.0 <==> n >= 4
  {
    WeightedSumClosedForm(n);
    if n >= 4 {
      RiskAtLeastTen(n);
    } else {
      assert n == 0 || n == 1 || n == 2 || n == 3;
    }
  }

  lemma {:induction false} RiskAtLeastTen(n: nat)
    requires n >= 4
    ensures WeightedSum(n) > 10.0
  {
    if n == 4 {
      assert WeightedSum(2) == 4.5 && WeightedSum(3) == 9.0;
    } else {
      RiskAtLeastTen(n - 1);
    }
  }

  // ---------- Suppression ----------

  /** A suppression entry silences exactly the pair it names, unless its target holds a ':'. */
  lemma SuppressionBlocksOnlyItsPair(ruleID: string, target: string, rule: Rule, pid: int)
    requires ':' !in target
    ensures SuppressionKey(ruleID, target) == SuppressionKey(rule.id, Decimal(pid))
      <==> ruleID == rule.id && target == Decimal(pid)
  {
    DecimalHasNoColon(pid);
    if SuppressionKey(ruleID, target) == SuppressionKey(rule.id, Decimal(pid)) {
      SplitAtLastColon(ruleID, target, rule.id, Decimal(pid));
    }
  }

  /** The text after the last ':' of a target. */
  function Tail(target: string): (t: string)
    ensures |t| <= |target| && ':' !in t && target[|target| - |t|..] == t
    ensures |t| < |target| ==> target[|target| - |t| - 1] == ':'
  {
    if target == [] || target[|target| - 1] == ':' then []
    else Tail(target[..|target| - 1]) + [target[|target| - 1]]
  }

  /** The rule that a target's last ':' makes the entry speak of. */
  function SpokenRule(ruleID: string, target: string): string {
    var n := |Tail(target)|;
    if n == |target| then ruleID else ruleID + ":" + target[..|target| - n - 1]
  }

  /** Exactly which pairs a suppression entry silences, whatever its target: those of the pid its target
      ends with, for the rule that all before that spells; none if it does not end with a decimal pid. */
  lemma SuppressionBlocksExactly(ruleID: string, target: string, rule: Rule, pid: int)
    ensures SuppressionKey(ruleID, target) == SuppressionKey(rule.id, Decimal(pid))
      <==> rule.id == SpokenRule(ruleID, target) && Decimal(pid) == Tail(target)
  {
    var t := Tail(target);
    DecimalHasNoColon(pid);
    var spoken := SpokenRule(ruleID, target);
    if |t| < |target| {
      assert target == target[..|target| - |t| - 1] + ":" + t;
    }
    assert SuppressionKey(ruleID, target) == spoken + ":" + t;
    if SuppressionKey(ruleID, target) == SuppressionKey(rule.id, Decimal(pid)) {
      SplitAtLastColon(spoken, t, rule.id, Decimal(pid));
    }
  }

  ghost predicate Silent(before: State, after: State, ruleID: string, pid: int) {
    && before.sent <= after.sent
    && forall i :: |before.sent| <= i < |after.sent| ==>
      !(after.sent[i].ruleID == ruleID && after.sent[i].rootPID == pid)
  }

  lemma {:induction false} EvaluateKeepsSilent(s: State, trigger: nat, from: nat, now: int, ruleID: string, pid: int)
    requires WellFormed(s.graph) && trigger < |s.graph| && from <= |s.rules|
    requires SuppressionKey(ruleID, Decimal(pid)) in s.suppressed
    ensures Silent(s, EvaluateRules(s, trigger, from, now), ruleID, pid)
    decreases |s.rules| - from
  {
    if from == |s.rules| {
    } else {
      EvaluateKeepsSilent(Evaluate(s, trigger, s.rules[from], now), trigger, from + 1, now, ruleID, pid);
    }
  }

  /** From the moment a pair is suppressed, no run emits an alert for it. */
  lemma {:induction false} SuppressedPairStaysSilent(s: State, hash: Hash, ops: seq<Op>, ruleID: string, pid: int)
    requires Good(s, hash)
    requires SuppressionKey(ruleID, Decimal(pid)) in s.suppressed
    ensures Silent(s, Run(s, hash, ops), ruleID, pid)
    decreases |ops|
  {
    if ops == [] {
    } else {
      ApplyKeepsGood(s, hash, ops[0]);
      var t := Apply(s, hash, ops[0]);
      if ops[0].DoIngest? {
        AbsorbKeepsWellFormed(s, hash, ops[0].ev, ops[0].now);
        EvaluateKeepsSilent(Absorb(s, hash, ops[0].ev, ops[0].now), |s.graph|, 0, ops[0].now, ruleID, pid);
      }
      SuppressedPairStaysSilent(t, hash, ops[1..], ruleID, pid);
    }
  }

  /** A pair is silenced after a run exactly when the run held a suppression with its key. */
  lemma {:induction false} SuppressedExactlyByRequests(s: State, hash: Hash, ops: seq<Op>, key: string)
    requires Good(s, hash)
    ensures key in Run(s, hash, ops).suppressed <==>
      || key in s.suppressed
      || exists i :: 0 <= i < |ops| && ops[i].DoSuppress? && SuppressionKey(ops[i].ruleID, ops[i].target) == key
    decreases |ops|
  {
    if ops == [] {
    } else {
      ApplyKeepsGood(s, hash, ops[0]);
      SuppressedExactlyByRequests(Apply(s, hash, ops[0]), hash, ops[1..], key);
      if i :| 0 <= i < |ops| && ops[i].DoSuppress? && SuppressionKey(ops[i].ruleID, ops[i].target) == key {
        assert i > 0 ==> ops[1..][i - 1] == ops[i];
      }
      forall i | 0 <= i < |ops[1..]|
        ensures ops[1..][i] == ops[i + 1]
      {
      }
    }
  }
}
