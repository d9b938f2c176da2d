/** Timeline reconstruction: a depth-first traversal that marks node IDs, not nodes, as visited. */
module NextgenTimeline {
  import opened Text
  import opened NextgenGraph

  /** The IDs marked so far and the nodes written to the timeline, in order. */
  datatype Progress = Progress(seen: set<string>, order: seq<nat>)

  function IDs(g: Graph): set<string> {
    set i | 0 <= i < |g| :: g[i].id
  }

  ghost predicate Consistent(g: Graph, p: Progress) {
    && (forall i :: 0 <= i < |p.order| ==> p.order[i] < |g|)
    && (forall i :: 0 <= i < |p.order| ==> g[p.order[i]].id in p.seen)
    && (forall id :: id in p.seen ==> exists i :: 0 <= i < |p.order| && g[p.order[i]].id == id)
    && (forall i, j :: 0 <= i < j < |p.order| ==> g[p.order[i]].id != g[p.order[j]].id)
  }

  /** Terminates on cycles: each visit marks an ID of the graph that was not marked. */
  ghost function Dfs(g: Graph, n: nat, p: Progress): (r: Progress)
    requires WellFormed(g) && n < |g|
    ensures p.seen <= r.seen && p.order <= r.order && g[n].id in r.seen
    decreases IDs(g) - p.seen, 0
  {
    if g[n].id in p.seen then p
    else
      MarkUsesUpAnID(g, n, p);
      DfsEdges(g, n, 0, Mark(g, n, p))
  }

  function Mark(g: Graph, n: nat, p: Progress): (r: Progress)
    requires n < |g|
  {
    Progress(p.seen + {g[n].id}, p.order + [n])
  }

  lemma MarkUsesUpAnID(g: Graph, n: nat, p: Progress)
    requires n < |g| && g[n].id !in p.seen
    ensures IDs(g) - Mark(g, n, p).seen < IDs(g) - p.seen
  {
    assert g[n].id in IDs(g) - p.seen;
  }

  lemma SeenShrinks(g: Graph, p: set<string>, q: set<string>)
    requires p <= q
    ensures IDs(g) - q == IDs(g) - p || IDs(g) - q < IDs(g) - p
  {
  }

  ghost function DfsEdges(g: Graph, n: nat, k: nat, p: Progress): (r: Progress)
    requires WellFormed(g) && n < |g| && k <= |g[n].links|
    ensures p.seen <= r.seen && p.order <= r.order
    decreases IDs(g) - p.seen, 1 + |g[n].links| - k
  {
    if k == |g[n].links| then p
    else
      var q := if g[n].links[k].target.None? then p else Dfs(g, g[n].links[k].target.value, p);
      SeenShrinks(g, p.seen, q.seen);
      DfsEdges(g, n, k + 1, q)
  }

  lemma {:induction false} DfsKeepsConsistent(g: Graph, n: nat, p: Progress)
    requires WellFormed(g) && n < |g| && Consistent(g, p)
    ensures Consistent(g, Dfs(g, n, p))
    decreases IDs(g) - p.seen, 0
  {
    if g[n].id in p.seen {
    } else {
      MarkUsesUpAnID(g, n, p);
      var m := Mark(g, n, p);
      assert forall i :: 0 <= i < |p.order| ==> m.order[i] == p.order[i];
      assert m.order[|p.order|] == n;
      DfsEdgesKeepConsistent(g, n, 0, m);
    }
  }

  lemma {:induction false} DfsEdgesKeepConsistent(g: Graph, n: nat, k: nat, p: Progress)
    requires WellFormed(g) && n < |g| && k <= |g[n].links| && Consistent(g, p)
    ensures Consistent(g, DfsEdges(g, n, k, p))
    decreases IDs(g) - p.seen, 1 + |g[n].links| - k
  {
    if k == |g[n].links| {
    } else {
      var q := p;
      if g[n].links[k].target.Some? {
        q := Dfs(g, g[n].links[k].target.value, p);
        DfsKeepsConsistent(g, g[n].links[k].target.value, p);
      }
      SeenShrinks(g, p.seen, q.seen);
      DfsEdgesKeepConsistent(g, n, k + 1, q);
    }
  }

  // ---------- Reachability ----------

  ghost predicate EdgeTo(g: Graph, a: nat, b: nat)
    requires a < |g|
  {
    exists k :: 0 <= k < |g[a].links| && g[a].links[k].target == Some(b)
  }

  /** `t` is a route along edges from `n` to `m`. */
  ghost predicate IsRoute(g: Graph, t: seq<nat>, n: nat, m: nat) {
    && |t| > 0 && t[0] == n && t[|t| - 1] == m
    && (forall i :: 0 <= i < |t| ==> t[i] < |g|)
    && (forall i :: 0 <= i < |t| - 1 ==> EdgeTo(g, t[i], t[i + 1]))
  }

  ghost predicate Reaches(g: Graph, n: nat, m: nat) {
    exists t :: IsRoute(g, t, n, m)
  }

  lemma ReachesItself(g: Graph, n: nat)
    requires n < |g|
    ensures Reaches(g, n, n)
  {
    assert IsRoute(g, [n], n, n);
  }

  lemma ReachesThrough(g: Graph, n: nat, k: nat, m: nat)
    requires WellFormed(g) && n < |g| && k < |g[n].links| && g[n].links[k].target.Some?
    requires Reaches(g, g[n].links[k].target.value, m)
    ensures Reaches(g, n, m)
  {
    var t :| IsRoute(g, t, g[n].links[k].target.value, m);
    var t' := [n] + t;
    forall i | 0 <= i < |t'| - 1
      ensures EdgeTo(g, t'[i], t'[i + 1])
    {
      assert i > 0 ==> EdgeTo(g, t[i - 1], t[i]);
    }
    assert IsRoute(g, t', n, m);
  }

  /** Everything the traversal adds is reachable from where it started. */
  ghost predicate AddsReachable(g: Graph, n: nat, p: Progress, r: Progress) {
    p.order <= r.order && forall i :: |p.order| <= i < |r.order| ==> Reaches(g, n, r.order[i])
  }

  lemma {:induction false} DfsAddsReachable(g: Graph, n: nat, p: Progress)
    requires WellFormed(g) && n < |g|
    ensures AddsReachable(g, n, p, Dfs(g, n, p))
    decreases IDs(g) - p.seen, 0
  {
    if g[n].id in p.seen {
    } else {
      MarkUsesUpAnID(g, n, p);
      DfsEdgesAddReachable(g, n, 0, Mark(g, n, p));
      ReachesItself(g, n);
    }
  }

  lemma {:induction false} DfsEdgesAddReachable(g: Graph, n: nat, k: nat, p: Progress)
    requires WellFormed(g) && n < |g| && k <= |g[n].links|
    ensures AddsReachable(g, n, p, DfsEdges(g, n, k, p))
    decreases IDs(g) - p.seen, 1 + |g[n].links| - k
  {
    if k == |g[n].links| {
    } else {
      var q := p;
      if g[n].links[k].target.Some? {
        var m := g[n].links[k].target.value;
        q := Dfs(g, m, p);
        DfsAddsReachable(g, m, p);
        forall i | |p.order| <= i < |q.order|
          ensures Reaches(g, n, q.order[i])
        {
          ReachesThrough(g, n, k, q.order[i]);
        }
      }
      SeenShrinks(g, p.seen, q.seen);
      DfsEdgesAddReachable(g, n, k + 1, q);
    }
  }

  /** All edges of node `a` from the `k`-th on lead to marked IDs. */
  ghost predicate EdgesMarked(g: Graph, a: nat, from: nat, seen: set<string>)
    requires WellFormed(g) && a < |g|
  {
    forall k :: from <= k < |g[a].links| && g[a].links[k].target.Some? ==> g[g[a].links[k].target.value].id in seen
  }

  ghost predicate AddsExpanded(g: Graph, p: Progress, r: Progress)
    requires WellFormed(g)
  {
    && p.seen <= r.seen && p.order <= r.order
    && forall i :: |p.order| <= i < |r.order| ==> r.order[i] < |g| && EdgesMarked(g, r.order[i], 0, r.seen)
  }

  lemma ExpandedCompose(g: Graph, p: Progress, q: Progress, r: Progress)
    requires WellFormed(g)
    requires AddsExpanded(g, p, q) && AddsExpanded(g, q, r)
    ensures AddsExpanded(g, p, r)
  {
    forall i | |p.order| <= i < |r.order|
      ensures r.order[i] < |g| && EdgesMarked(g, r.order[i], 0, r.seen)
    {
      assert i < |q.order| ==> r.order[i] == q.order[i] && EdgesMarked(g, q.order[i], 0, q.seen);
    }
  }

  /** Every node the traversal adds has had all its edges looked at by the time it ends. */
  lemma {:induction false} DfsAddsExpanded(g: Graph, n: nat, p: Progress)
    requires WellFormed(g) && n < |g|
    ensures AddsExpanded(g, p, Dfs(g, n, p))
    decreases IDs(g) - p.seen, 0
  {
    if g[n].id in p.seen {
    } else {
      MarkUsesUpAnID(g, n, p);
      DfsEdgesAddExpanded(g, n, 0, Mark(g, n, p));
    }
  }

  lemma {:induction false} DfsEdgesAddExpanded(g: Graph, n: nat, k: nat, p: Progress)
    requires WellFormed(g) && n < |g| && k <= |g[n].links|
    ensures AddsExpanded(g, p, DfsEdges(g, n, k, p))
    ensures EdgesMarked(g, n, k, DfsEdges(g, n, k, p).seen)
    decreases IDs(g) - p.seen, 1 + |g[n].links| - k
  {
    if k == |g[n].links| {
    } else {
      var q := p;
      if g[n].links[k].target.Some? {
        q := Dfs(g, g[n].links[k].target.value, p);
        DfsAddsExpanded(g, g[n].links[k].target.value, p);
      }
      SeenShrinks(g, p.seen, q.seen);
      DfsEdgesAddExpanded(g, n, k + 1, q);
      ExpandedCompose(g, p, q, DfsEdges(g, n, k + 1, q));
    }
  }

  // ---------- What a timeline holds ----------

  ghost function Traversal(g: Graph, n: nat): (order: seq<nat>)
    requires WellFormed(g) && n < |g|
    ensures forall i :: 0 <= i < |order| ==> order[i] < |g|
  {
    DfsKeepsConsistent(g, n, Progress({}, []));
    Dfs(g, n, Progress({}, [])).order
  }

  /** No two nodes reachable from `n` share an ID. */
  ghost predicate DistinctBelow(g: Graph, n: nat) {
    forall a: nat, b: nat :: a < |g| && b < |g| && Reaches(g, n, a) && Reaches(g, n, b) && g[a].id == g[b].id ==> a == b
  }

  /** A timeline lists reachable nodes only, the start among them, and no ID twice. */
  lemma TimelineIsSound(g: Graph, n: nat)
    requires WellFormed(g) && n < |g|
    ensures var order := Traversal(g, n);
      && |order| > 0 && order[0] == n
      && (forall i :: 0 <= i < |order| ==> order[i] < |g| && Reaches(g, n, order[i]))
      && (forall i, j :: 0 <= i < j < |order| ==> g[order[i]].id != g[order[j]].id)
  {
    var p := Progress({}, []);
    DfsKeepsConsistent(g, n, p);
    DfsAddsReachable(g, n, p);
    DfsEdgesAddReachable(g, n, 0, Mark(g, n, p));
  }

  /** It lists every reachable node exactly when no two of them share an ID. */
  lemma TimelineCompleteIffDistinctIDs(g: Graph, n: nat)
    requires WellFormed(g) && n < |g|
    ensures (forall m :: Reaches(g, n, m) ==> m in Traversal(g, n)) <==> DistinctBelow(g, n)
  {
    TimelineIsSound(g, n);
    var order := Traversal(g, n);
    if DistinctBelow(g, n) {
      forall m | Reaches(g, n, m)
        ensures m in order
      {
        var t :| IsRoute(g, t, n, m);
        RouteIsListed(g, n, t, m, |t| - 1);
      }
    }
    if forall m :: Reaches(g, n, m) ==> m in order {
      forall a: nat, b: nat | a < |g| && b < |g| && Reaches(g, n, a) && Reaches(g, n, b) && g[a].id == g[b].id
        ensures a == b
      {
        var i :| 0 <= i < |order| && order[i] == a;
        var j :| 0 <= j < |order| && order[j] == b;
      }
    }
  }

  /** A listed node's edges lead to listed IDs. */
  lemma ListedIDsAreClosed(g: Graph, n: nat, a: nat, b: nat)
    requires WellFormed(g) && n < |g| && a in Traversal(g, n) && EdgeTo(g, a, b)
    ensures b < |g| && exists c: nat :: c in Traversal(g, n) && g[c].id == g[b].id
  {
    var p := Progress({}, []);
    var r := Dfs(g, n, p);
    DfsAddsExpanded(g, n, p);
    DfsKeepsConsistent(g, n, p);
    var x :| 0 <= x < |r.order| && r.order[x] == a;
    assert EdgesMarked(g, r.order[x], 0, r.seen);
    var k :| 0 <= k < |g[a].links| && g[a].links[k].target == Some(b);
    var y :| 0 <= y < |r.order| && g[r.order[y]].id == g[b].id;
    assert r.order[y] in r.order;
  }

  lemma {:induction false} RouteIsListed(g: Graph, n: nat, t: seq<nat>, m: nat, i: nat)
    requires WellFormed(g) && n < |g| && DistinctBelow(g, n) && IsRoute(g, t, n, m) && i < |t|
    ensures t[i] in Traversal(g, n)
  {
    TimelineIsSound(g, n);
    if i == 0 {
    } else {
      RouteIsListed(g, n, t, m, i - 1);
      assert EdgeTo(g, t[i - 1], t[i]);
      ListedIDsAreClosed(g, n, t[i - 1], t[i]);
      var c: nat :| c in Traversal(g, n) && g[c].id == g[t[i]].id;
      assert IsRoute(g, t[..i + 1], n, t[i]);
    }
  }
}
