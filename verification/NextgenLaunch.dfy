/** What one event brings about in the next-generation engine: the node it files, the edges it adds, and the
    alert of a child launched below its parent. */
module NextgenLaunch {
  import opened NextgenAlerts
  import opened NextgenGraph
  import opened NextgenRelaunch
  import opened NextgenSharding
  import opened NextgenSpec
  import opened TelemetryEvents
  import opened Text

  // ---------- The node ----------

  /** Which events of one type share a node ID. */
  lemma NodeIDsAgree(e: Event, f: Event)
    requires e.typ == f.typ
    ensures NodeID(e) == NodeID(f) <==>
      if e.typ == "process" then e.processID == f.processID
      else if e.typ == "network" then e.remoteIP == f.remoteIP && e.remotePort == f.remotePort
      else e.filePath == f.filePath
  {
    if e.typ == "process" {
      OnlyProcessEventsHaveProcessKeys(e, f.processID);
    } else if e.typ == "network" {
      NetworkIDsAgree(e, f);
    } else if NodeID(e) == NodeID(f) {
      var n := |e.typ + ":"|;
      assert NodeID(e)[n..] == e.filePath && NodeID(f)[n..] == f.filePath;
    }
  }

  lemma NetworkIDsAgree(e: Event, f: Event)
    requires e.typ == f.typ == "network"
    ensures NodeID(e) == NodeID(f) <==> e.remoteIP == f.remoteIP && e.remotePort == f.remotePort
  {
    if NodeID(e) == NodeID(f) {
      DecimalHasNoColon(e.remotePort);
      DecimalHasNoColon(f.remotePort);
      var a, b := e.typ + ":" + e.remoteIP, f.typ + ":" + f.remoteIP;
      SplitAtLastColon(a, Decimal(e.remotePort), b, Decimal(f.remotePort));
      DecimalInjective(e.remotePort, f.remotePort);
      assert a[8..] == e.remoteIP && b[8..] == f.remoteIP;
    }
  }

  /** The event's node is found under its ID with the event's time and properties and its type in capitals. */
  lemma EventIsFiled(s: State, hash: Hash, ev: Event, now: int)
    requires Indexed(s, hash)
    ensures var t, n := Absorb(s, hash, ev, now), |s.graph|;
      && Lookup(t, hash, NodeID(ev)) == Some(n) && |t.graph| == n + 1
      && t.graph[n].id == NodeID(ev) && t.graph[n].ts == ev.timestamp
      && t.graph[n].props.pid == ev.processID && t.graph[n].props.parentID == ev.parentID
      && t.graph[n].props.binaryPath == ev.binaryPath && t.graph[n].props.commandLine == ev.commandLine
      && t.graph[n].props.username == ev.username
      && |t.graph[n].typ| == |ev.typ|
      && forall i :: 0 <= i < |ev.typ| ==> IsCapitalOf(t.graph[n].typ[i], ev.typ[i])
  {
    LookupAfterAbsorb(s, hash, ev, now, NodeID(ev));
    AbsorbKeepsNodes(s, hash, ev, now);
    var t, n := Absorb(s, hash, ev, now), |s.graph|;
    assert t.graph[n].(links := []) == (s.graph + [NewNode(ev)])[n].(links := []);
  }

  predicate IsCapitalOf(u: char, c: char) {
    if 'a' <= c <= 'z' then u as int == c as int - 32 else u == c
  }

  // ---------- The edges ----------

  /** Node `p` is where the event's parent is found: the new node itself when the event names its own pid,
      else what is filed under the parent's pid unless the event's sweep of its own shard has just removed
      it. */
  ghost predicate ParentFound(s: State, hash: Hash, ev: Event, now: int, p: nat)
    requires Indexed(s, hash)
  {
    && ev.typ == "process" && ev.parentID > 0
    && if ev.parentID == ev.processID then p == |s.graph|
       else
         && p < |s.graph| && Lookup(s, hash, ProcessKey(ev.parentID)) == Some(p)
         && !(now - s.graph[p].ts > s.window && SameShard(s, hash, ProcessKey(ev.parentID), NodeID(ev)))
  }

  ghost predicate SameShard(s: State, hash: Hash, a: string, b: string)
    requires |s.shards| > 0
  {
    hash(a) % |s.shards| == hash(b) % |s.shards|
  }

  function Spawned(hangs: bool, child: nat, ts: int): seq<Link> {
    if hangs then [Link(SPAWNED, Some(child), ts)] else []
  }

  lemma InsertFindsParent(s: State, hash: Hash, ev: Event, now: int, p: nat)
    requires Indexed(s, hash) && ev.typ == "process" && ev.parentID > 0
    ensures var t := Insert(s, hash, ev, now);
      Lookup(t, hash, ProcessKey(ev.parentID)) == Some(p) <==> ParentFound(s, hash, ev, now, p)
  {
    var key := ProcessKey(ev.parentID);
    LookupAfterAbsorb(s, hash, ev, now, key);
    FoundIsFiled(s, hash, key);
    OnlyProcessEventsHaveProcessKeys(ev, ev.parentID);
    InsertIndexed(s, hash, ev, now);
    assert Absorb(s, hash, ev, now).shards == Insert(s, hash, ev, now).shards;
  }

  /** The event adds one SPAWNED edge to its parent and one PARENT_OF edge back, both with its own time, when
      the parent is found, and no edge otherwise. */
  lemma EventLinks(s: State, hash: Hash, ev: Event, now: int)
    requires Indexed(s, hash)
    ensures var g, c := Absorb(s, hash, ev, now).graph, |s.graph|;
      && |g| == c + 1
      && (forall n: nat :: n < c ==>
            g[n].links == s.graph[n].links + Spawned(ParentFound(s, hash, ev, now, n), c, ev.timestamp))
      && (forall p: nat :: ParentFound(s, hash, ev, now, p) ==>
            g[c].links == Spawned(p == c, c, ev.timestamp) + [Link(PARENT_OF, Some(p), ev.timestamp)])
      && ((forall p: nat :: !ParentFound(s, hash, ev, now, p)) ==> g[c].links == [])
  {
    var t, c := Insert(s, hash, ev, now), |s.graph|;
    InsertIndexed(s, hash, ev, now);
    assert t.graph == s.graph + [NewNode(ev)];
    if ev.typ == "process" && ev.parentID > 0 {
      var found := Lookup(t, hash, ProcessKey(ev.parentID));
      forall p: nat
        ensures found == Some(p) <==> ParentFound(s, hash, ev, now, p)
      {
        InsertFindsParent(s, hash, ev, now, p);
      }
      if found.Some? {
        forall n: nat | n <= c
          ensures Absorb(s, hash, ev, now).graph[n].links == t.graph[n].links
            + (if n == found.value then [Link(SPAWNED, Some(c), ev.timestamp)] else [])
            + (if n == c then [Link(PARENT_OF, Some(found.value), ev.timestamp)] else [])
        {
          LinkedNodes(t.graph, found.value, c, ev.timestamp, n);
        }
      }
    }
  }

  // ---------- The alert of a child below its parent ----------

  /** The rule asks for two processes, the second no more than its window after the first. */
  predicate TwoProcesses(rule: Rule, first: int, second: int) {
    rule.sequence == ["PROCESS", "PROCESS"] && second - first <= rule.window
  }

  /** A node whose only edge leads to a process matches with it. */
  lemma OnlyEdgeMatches(g: Graph, c: nat, p: nat, rule: Rule)
    requires c < |g| && p < |g| && g[c].typ == g[p].typ == "PROCESS" && TwoProcesses(rule, g[c].ts, g[p].ts)
    requires |g[c].links| == 1 && g[c].links[0].target == Some(p)
    ensures IsFirstWalk(g, c, rule.sequence, rule.window, [0], [c, p])
  {
    assert StepTaken(g, [c, p], [0], rule.window, 0);
    forall path, walk | IsWalk(g, c, rule.sequence, rule.window, path, walk)
      ensures NoLater([0], path)
    {
      assert StepTaken(g, walk, path, rule.window, 0);
      assert path == [0];
    }
  }

  /** The pid a parent and a child launched below it are suppressed by: the parent's if it is older, else
      the child's. */
  function EarlierPid(parent: NodeVal, ev: Event): int {
    if parent.ts < ev.timestamp then parent.props.pid else ev.processID
  }

  lemma ChildIsAllowed(s: State, rule: Rule, child: NodeVal, parent: NodeVal)
    requires var pid := if parent.ts < child.ts then parent.props.pid else child.props.pid;
      (rule.id + ":" + Decimal(pid)) !in s.suppressed
    ensures Allowed(s, rule, [child, parent])
  {
    assert [child, parent][..1] == [child];
  }

  lemma ParentIsProcess(s: State, hash: Hash, ev: Event, now: int, parent: nat)
    requires Good(s, hash) && HasParent(s, hash, ev, now, parent)
    ensures s.graph[parent].typ == "PROCESS"
  {
    FoundIsFiled(s, hash, ProcessKey(ev.parentID));
    assert IsProcessNode(s.graph[parent]);
  }

  lemma AbsorbedNode(s: State, hash: Hash, ev: Event, now: int, n: nat)
    requires Indexed(s, hash) && n <= |s.graph|
    ensures var g := Absorb(s, hash, ev, now).graph;
      |g| == |s.graph| + 1 && g[n].(links := []) == (s.graph + [NewNode(ev)])[n].(links := [])
  {
    AbsorbKeepsNodes(s, hash, ev, now);
  }

  lemma ChildEdge(s: State, hash: Hash, ev: Event, now: int, parent: nat)
    requires Indexed(s, hash) && HasParent(s, hash, ev, now, parent)
    ensures Absorb(s, hash, ev, now).graph[|s.graph|].links == [Link(PARENT_OF, Some(parent), ev.timestamp)]
  {
    EventLinks(s, hash, ev, now);
    assert ParentFound(s, hash, ev, now, parent);
  }

  lemma LaunchedNode(ev: Event)
    requires ev.typ == "process"
    ensures NewNode(ev).typ == "PROCESS" && NewNode(ev).ts == ev.timestamp && NewNode(ev).props.pid == ev.processID
  {
    assert ToUpper("process") == "PROCESS";
  }

  /** Below its parent the child's node has one edge, back to the parent. */
  lemma ChildBesideParent(s: State, hash: Hash, ev: Event, now: int, parent: nat)
    requires Indexed(s, hash) && HasParent(s, hash, ev, now, parent)
    ensures var g, c := Absorb(s, hash, ev, now).graph, |s.graph|;
      && |g| == c + 1 && g[c].links == [Link(PARENT_OF, Some(parent), ev.timestamp)]
      && g[c].typ == "PROCESS" && g[c].ts == ev.timestamp && g[c].props.pid == ev.processID
      && g[parent].(links := []) == s.graph[parent].(links := [])
  {
    ChildEdge(s, hash, ev, now, parent);
    LaunchedNode(ev);
    AbsorbedNode(s, hash, ev, now, |s.graph|);
    AbsorbedNode(s, hash, ev, now, parent);
  }

  lemma AbsorbKeepsRest(s: State, hash: Hash, ev: Event, now: int)
    requires Indexed(s, hash)
    ensures var t := Absorb(s, hash, ev, now);
      && t.rules == s.rules && t.suppressed == s.suppressed && t.sent == s.sent
      && t.received == s.received && t.capacity == s.capacity
  {
  }

  /** The child raises the rule, also when it comes after its parent. */
  lemma ChildFires(s: State, hash: Hash, ev: Event, now: int, parent: nat, j: nat)
    requires Good(s, hash) && HasParent(s, hash, ev, now, parent)
    requires j < |s.rules| && TwoProcesses(s.rules[j], ev.timestamp, s.graph[parent].ts)
    requires (s.rules[j].id + ":" + Decimal(EarlierPid(s.graph[parent], ev))) !in s.suppressed
    ensures RuleFires(Absorb(s, hash, ev, now), |s.graph|, j)
  {
    var t, c, rule := Absorb(s, hash, ev, now), |s.graph|, s.rules[j];
    AbsorbKeepsRest(s, hash, ev, now);
    ParentIsProcess(s, hash, ev, now, parent);
    ChildBesideParent(s, hash, ev, now, parent);
    OnlyEdgeMatches(t.graph, c, parent, rule);
    ChildIsAllowed(t, rule, t.graph[c], t.graph[parent]);
    assert Select(t.graph, [c, parent]) == [t.graph[c], t.graph[parent]];
  }

  /** From process launch to alert: a child launched below a parent that is still filed raises every rule that
      asks for two processes in a window the parent does not lie beyond, unless the pair is suppressed or the
      channel has no room for it after the rules before it. */
  lemma ChildLaunchAlerts(s: State, hash: Hash, ev: Event, now: int, parent: nat, j: nat) returns (i: nat)
    requires Good(s, hash) && HasParent(s, hash, ev, now, parent)
    requires j < |s.rules| && TwoProcesses(s.rules[j], ev.timestamp, s.graph[parent].ts)
    requires (s.rules[j].id + ":" + Decimal(EarlierPid(s.graph[parent], ev))) !in s.suppressed
    requires |s.sent| - s.received + j < s.capacity
    ensures var t := Ingest(s, hash, ev, now);
      |s.sent| <= i < |t.sent| && t.sent[i].ruleID == s.rules[j].id
  {
    AbsorbKeepsWellFormed(s, hash, ev, now);
    AbsorbKeepsRest(s, hash, ev, now);
    ChildFires(s, hash, ev, now, parent, j);
    RuleFiresBasis(Absorb(s, hash, ev, now), |s.graph|, j);
    i := FiringRuleIsSent(Absorb(s, hash, ev, now), Basis(Absorb(s, hash, ev, now)), |s.graph|, 0, j, now);
  }
}
