/** A timeline that leaves something out: a parent that launches one pid twice has two children with one ID,
    and the traversal lists only one of them. */
module NextgenRelaunch {
  import opened NextgenGraph
  import opened NextgenSharding
  import opened NextgenSpec
  import opened NextgenTimeline
  import opened TelemetryEvents
  import opened Text

  /** A process event of another process, filed as `parent` and not yet too old, which is the parent of
      `ev`. */
  ghost predicate HasParent(s: State, hash: Hash, ev: Event, now: int, parent: nat)
    requires Indexed(s, hash)
  {
    && ev.typ == "process" && ev.parentID > 0 && ev.processID != ev.parentID
    && Lookup(s, hash, ProcessKey(ev.parentID)) == Some(parent)
    && parent < |s.graph| && now - s.graph[parent].ts <= s.window
  }

  lemma ParentStaysFound(s: State, hash: Hash, ev: Event, now: int, parent: nat)
    requires Indexed(s, hash) && HasParent(s, hash, ev, now, parent)
    ensures var t := Insert(s, hash, ev, now);
      Indexed(t, hash) && Lookup(t, hash, ProcessKey(ev.parentID)) == Some(parent)
  {
    InsertIndexed(s, hash, ev, now);
    OnlyProcessEventsHaveProcessKeys(ev, ev.parentID);
    var key := ProcessKey(ev.parentID);
    assert Filed(s.graph, key, parent);
  }

  /** Taking in the child hangs a new node below the parent, which stays where it is. */
  lemma ChildAbsorbed(s: State, hash: Hash, ev: Event, now: int, parent: nat)
    requires Indexed(s, hash) && HasParent(s, hash, ev, now, parent)
    ensures var t := Absorb(s, hash, ev, now);
      && t.graph == LinkParent(s.graph + [NewNode(ev)], parent, |s.graph|, ev.timestamp)
      && HasParent(t, hash, ev, now, parent)
  {
    ParentStaysFound(s, hash, ev, now, parent);
    LinkedNodes(s.graph + [NewNode(ev)], parent, |s.graph|, ev.timestamp, parent);
  }

  lemma ChildIsBelow(g: Graph, parent: nat, child: nat, ts: int)
    requires parent < |g| && child < |g|
    ensures EdgeTo(LinkParent(g, parent, child, ts), parent, child)
    ensures forall c: nat :: EdgeTo(g, parent, c) ==> EdgeTo(LinkParent(g, parent, child, ts), parent, c)
    ensures forall n :: 0 <= n < |g| ==> LinkParent(g, parent, child, ts)[n].id == g[n].id
  {
    var h := LinkParent(g, parent, child, ts);
    LinkedNodes(g, parent, child, ts, parent);
    assert h[parent].links[|g[parent].links|].target == Some(child);
    forall c: nat | EdgeTo(g, parent, c)
      ensures EdgeTo(h, parent, c)
    {
      var k :| 0 <= k < |g[parent].links| && g[parent].links[k].target == Some(c);
      assert h[parent].links[k].target == Some(c);
    }
  }

  lemma EdgeReaches(g: Graph, a: nat, b: nat)
    requires a < |g| && b < |g| && EdgeTo(g, a, b)
    ensures Reaches(g, a, b)
  {
    assert IsRoute(g, [a, b], a, b);
  }

  lemma ChildIngested(s: State, hash: Hash, ev: Event, now: int, parent: nat)
    requires Good(s, hash) && HasParent(s, hash, ev, now, parent)
    ensures var t := Ingest(s, hash, ev, now);
      && Good(t, hash) && HasParent(t, hash, ev, now, parent)
      && t.graph == LinkParent(s.graph + [NewNode(ev)], parent, |s.graph|, ev.timestamp)
  {
    ApplyKeepsGood(s, hash, DoIngest(ev, now));
    ChildAbsorbed(s, hash, ev, now, parent);
    AbsorbKeepsWellFormed(s, hash, ev, now);
    var u, t := Absorb(s, hash, ev, now), Ingest(s, hash, ev, now);
    assert t == u.(sent := t.sent);
    assert Lookup(t, hash, ProcessKey(ev.parentID)) == Lookup(u, hash, ProcessKey(ev.parentID));
  }

  /** Nodes `a` and `b` below `n` share an ID. */
  ghost predicate Twins(g: Graph, n: nat, a: nat, b: nat) {
    && n < |g| && a < |g| && b < |g|
    && a != b && g[a].id == g[b].id && EdgeTo(g, n, a) && EdgeTo(g, n, b)
  }

  lemma TwoLaunchesAreTwins(g: Graph, ev: Event, parent: nat)
    requires parent < |g|
    ensures var h := LinkParent(g + [NewNode(ev)], parent, |g|, ev.timestamp);
      Twins(LinkParent(h + [NewNode(ev)], parent, |h|, ev.timestamp), parent, |g|, |h|)
  {
    var h := LinkParent(g + [NewNode(ev)], parent, |g|, ev.timestamp);
    ChildIsBelow(g + [NewNode(ev)], parent, |g|, ev.timestamp);
    ChildIsBelow(h + [NewNode(ev)], parent, |h|, ev.timestamp);
    assert (h + [NewNode(ev)])[parent] == h[parent];
    assert EdgeTo(h + [NewNode(ev)], parent, |g|);
  }

  lemma OneTwinIsOmitted(g: Graph, n: nat, a: nat, b: nat)
    requires WellFormed(g) && Twins(g, n, a, b)
    ensures Reaches(g, n, a) && Reaches(g, n, b) && !DistinctBelow(g, n)
    ensures a !in Traversal(g, n) || b !in Traversal(g, n)
  {
    EdgeReaches(g, n, a);
    EdgeReaches(g, n, b);
    TimelineIsSound(g, n);
  }

  /** `pid` is filed as node `n`, from which both `a` and `b` are reached, and its timeline omits one. */
  ghost predicate OmitsOne(s: State, hash: Hash, pid: int, n: nat, a: nat, b: nat)
    requires Indexed(s, hash) && WellFormed(s.graph)
  {
    && Lookup(s, hash, ProcessKey(pid)) == Some(n) && Twins(s.graph, n, a, b)
    && Reaches(s.graph, n, a) && Reaches(s.graph, n, b)
    && (a !in Traversal(s.graph, n) || b !in Traversal(s.graph, n))
  }

  /** Whenever a parent that is still filed launches one pid twice, its timeline omits one of the launches,
      although both are reachable from it. */
  lemma RelaunchIsOmitted(s: State, hash: Hash, ev: Event, now: int, parent: nat)
    requires Good(s, hash) && HasParent(s, hash, ev, now, parent)
    ensures Good(Ingest(s, hash, ev, now), hash)
    ensures var t := Ingest(Ingest(s, hash, ev, now), hash, ev, now);
      Good(t, hash) && OmitsOne(t, hash, ev.parentID, parent, |s.graph|, |s.graph| + 1)
  {
    var u := Ingest(s, hash, ev, now);
    ChildIngested(s, hash, ev, now, parent);
    ChildIngested(u, hash, ev, now, parent);
    TwoLaunchesAreTwins(s.graph, ev, parent);
    OneTwinIsOmitted(Ingest(u, hash, ev, now).graph, parent, |s.graph|, |s.graph| + 1);
  }

  // ---------- Three events are enough ----------

  function Launch(pid: int32, parent: int32): Event {
    Event("process", 0, pid, parent, "", "", "", "", "", "", "", "", 0, "", 0)
  }

  /** The engine once process 1 has been launched. */
  ghost function Rooted(hash: Hash): (s: State)
    ensures Good(s, hash)
  {
    ApplyKeepsGood(Init(1, 60, 10), hash, DoIngest(Launch(1, 0), 0));
    Ingest(Init(1, 60, 10), hash, Launch(1, 0), 0)
  }

  lemma RootIsFound(hash: Hash)
    ensures |Rooted(hash).graph| == 1 && HasParent(Rooted(hash), hash, Launch(5, 1), 0, 0)
  {
    var s, ev := Init(1, 60, 10), Launch(1, 0);
    LookupAfterAbsorb(s, hash, ev, 0, ProcessKey(1));
    AbsorbKeepsWellFormed(s, hash, ev, 0);
    AbsorbKeepsNodes(s, hash, ev, 0);
    var u, t := Absorb(s, hash, ev, 0), Rooted(hash);
    assert t == u.(sent := t.sent);
    assert Lookup(t, hash, ProcessKey(1)) == Lookup(u, hash, ProcessKey(1));
  }

  /** Below process 1 process 5 is launched, twice: process 1 reaches both launches of 5 and its timeline
      lists at most one. */
  lemma ThreeEventsOmitOne(hash: Hash)
    ensures Good(Ingest(Rooted(hash), hash, Launch(5, 1), 0), hash)
    ensures var t := Ingest(Ingest(Rooted(hash), hash, Launch(5, 1), 0), hash, Launch(5, 1), 0);
      Good(t, hash) && OmitsOne(t, hash, 1, 0, 1, 2)
  {
    RootIsFound(hash);
    RelaunchIsOmitted(Rooted(hash), hash, Launch(5, 1), 0, 0);
  }
}
