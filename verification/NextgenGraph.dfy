/** The security graph of the next-generation engine as a value: nodes in creation order,
    pointers as indices into that order. */
module NextgenGraph {
  import opened Text

  datatype EdgeKind = SPAWNED | PARENT_OF
  datatype Link = Link(kind: EdgeKind, target: Option<nat>, ts: int)
  datatype Props = Props(binaryPath: string, commandLine: string, username: string, pid: int, parentID: int)
  datatype NodeVal = NodeVal(id: string, typ: string, ts: int, props: Props, links: seq<Link>)
  type Graph = seq<NodeVal>

  ghost predicate WellFormed(g: Graph) {
    forall n, k :: 0 <= n < |g| && 0 <= k < |g[n].links| && g[n].links[k].target.Some?
      ==> g[n].links[k].target.value < |g|
  }

  /** The elements at these indices, in this order. */
  function Select<T>(s: seq<T>, at: seq<nat>): (r: seq<T>)
    requires forall i :: 0 <= i < |at| ==> at[i] < |s|
    ensures |r| == |at| && forall i :: 0 <= i < |at| ==> r[i] == s[at[i]]
  {
    seq(|at|, i requires 0 <= i < |at| => s[at[i]])
  }

  /** Edge `k` of node `n` may be followed within `window`. */
  predicate Passes(g: Graph, n: nat, k: nat, window: int)
    requires n < |g| && k < |g[n].links|
  {
    g[n].links[k].target.Some? &&
    g[n].links[k].target.value < |g| &&
    g[g[n].links[k].target.value].ts - g[n].ts <= window
  }

  // ---------- What a match is ----------

  /** `walk` visits nodes of the types `rule` asks for, starting at `n`; step i takes edge `path[i]`. */
  ghost predicate IsWalk(g: Graph, n: nat, rule: seq<string>, window: int, path: seq<nat>, walk: seq<nat>) {
    && 0 < |rule| == |walk| == |path| + 1
    && walk[0] == n
    && (forall i :: 0 <= i < |walk| ==> walk[i] < |g| && g[walk[i]].typ == rule[i])
    && (forall i :: 0 <= i < |path| ==> StepTaken(g, walk, path, window, i))
  }

  /** Edge `path[i]` leads from node `walk[i]` to node `walk[i + 1]`, which is at most `window` later; it may
      be any time earlier. */
  ghost predicate StepTaken(g: Graph, walk: seq<nat>, path: seq<nat>, window: int, i: nat)
    requires i < |path| < |walk|
  {
    && walk[i] < |g| && walk[i + 1] < |g|
    && path[i] < |g[walk[i]].links|
    && g[walk[i]].links[path[i]].target == Some(walk[i + 1])
    && g[walk[i + 1]].ts - g[walk[i]].ts <= window
  }

  /** `i` is the first difference, and there `p` takes the earlier edge. */
  ghost predicate Earlier(p: seq<nat>, q: seq<nat>, i: nat) {
    i < |p| && i < |q| && p[..i] == q[..i] && p[i] < q[i]
  }

  /** `p` comes no later than `q` in edge order: at the first difference it takes the earlier edge. */
  ghost predicate NoLater(p: seq<nat>, q: seq<nat>) {
    p == q || exists k: nat :: Earlier(p, q, k)
  }

  ghost predicate IsFirstWalk(g: Graph, n: nat, rule: seq<string>, window: int, path: seq<nat>, walk: seq<nat>) {
    && IsWalk(g, n, rule, window, path, walk)
    && forall p, w :: IsWalk(g, n, rule, window, p, w) ==> NoLater(path, p)
  }

  // ---------- The search ----------

  datatype Match = NoMatch | Match(path: seq<nat>, walk: seq<nat>)

  /** The match of the nonempty `rule` at `n` that backtracking over edges in order finds. */
  ghost function Search(g: Graph, n: nat, rule: seq<string>, window: int): (m: Match)
    requires WellFormed(g) && n < |g| && |rule| > 0
    ensures m.Match? ==> forall i :: 0 <= i < |m.walk| ==> m.walk[i] < |g|
    decreases |rule|, 0, 0
  {
    if g[n].typ != rule[0] then NoMatch
    else if |rule| == 1 then Match([], [n])
    else SearchFrom(g, n, rule, window, 0)
  }

  ghost function SearchFrom(g: Graph, n: nat, rule: seq<string>, window: int, k: nat): (m: Match)
    requires WellFormed(g) && n < |g| && |rule| > 1 && k <= |g[n].links|
    ensures m.Match? ==> forall i :: 0 <= i < |m.walk| ==> m.walk[i] < |g|
    decreases |rule| - 1, 1, |g[n].links| - k
  {
    if k == |g[n].links| then NoMatch
    else if !Passes(g, n, k, window) then SearchFrom(g, n, rule, window, k + 1)
    else
      var m := Search(g, g[n].links[k].target.value, rule[1..], window);
      if m.Match? then Match([k] + m.path, [n] + m.walk)
      else SearchFrom(g, n, rule, window, k + 1)
  }

  /** A walk is its first step followed by a walk of the rest of the rule. */
  lemma WalkHasTail(g: Graph, n: nat, rule: seq<string>, window: int, p: seq<nat>, w: seq<nat>)
    requires IsWalk(g, n, rule, window, p, w) && |rule| > 1
    ensures n < |g| && g[n].typ == rule[0] && p[0] < |g[n].links| && Passes(g, n, p[0], window)
    ensures IsWalk(g, g[n].links[p[0]].target.value, rule[1..], window, p[1..], w[1..])
  {
    assert StepTaken(g, w, p, window, 0);
    forall i | 0 <= i < |p[1..]|
      ensures StepTaken(g, w[1..], p[1..], window, i)
    {
      assert StepTaken(g, w, p, window, i + 1);
    }
  }

  lemma WalkFromTail(g: Graph, n: nat, rule: seq<string>, window: int, k: nat, p: seq<nat>, w: seq<nat>)
    requires |rule| > 1 && n < |g| && g[n].typ == rule[0] && k < |g[n].links| && Passes(g, n, k, window)
    requires IsWalk(g, g[n].links[k].target.value, rule[1..], window, p, w)
    ensures IsWalk(g, n, rule, window, [k] + p, [n] + w)
  {
    var p', w' := [k] + p, [n] + w;
    forall i | 0 <= i < |w'|
      ensures w'[i] < |g| && g[w'[i]].typ == rule[i]
    {
      assert i > 0 ==> w'[i] == w[i - 1] && rule[i] == rule[1..][i - 1];
    }
    forall i | 0 <= i < |p'|
      ensures StepTaken(g, w', p', window, i)
    {
      assert i > 0 ==> StepTaken(g, w, p, window, i - 1);
    }
  }

  lemma NoLaterCons(k: nat, p: seq<nat>, q: seq<nat>)
    requires |q| > 0 && q[0] == k && NoLater(p, q[1..])
    ensures NoLater([k] + p, q)
  {
    if p == q[1..] {
      assert [k] + p == q;
    } else {
      var j: nat :| Earlier(p, q[1..], j);
      assert ([k] + p)[..j + 1] == [k] + p[..j] && q[..j + 1] == [k] + q[1..][..j];
      assert Earlier([k] + p, q, j + 1);
    }
  }

  /** Prefixing edge `k` to the first walk beyond it gives the first walk through edge `k` or later. */
  lemma FirstFromEdge(g: Graph, n: nat, rule: seq<string>, window: int, k: nat, path: seq<nat>, walk: seq<nat>)
    requires |rule| > 1 && n < |g| && k < |g[n].links| && Passes(g, n, k, window)
    requires IsFirstWalk(g, g[n].links[k].target.value, rule[1..], window, path, walk)
    ensures forall p, w :: IsWalk(g, n, rule, window, p, w) && p[0] >= k ==> NoLater([k] + path, p)
  {
    forall p, w | IsWalk(g, n, rule, window, p, w) && p[0] >= k
      ensures NoLater([k] + path, p)
    {
      WalkHasTail(g, n, rule, window, p, w);
      if p[0] == k {
        NoLaterCons(k, path, p);
      } else {
        assert ([k] + path)[..0] == p[..0];
        assert Earlier([k] + path, p, 0);
      }
    }
  }

  /** The first step of a walk takes an edge that may be followed. */
  lemma WalksPassEdges(g: Graph, n: nat, rule: seq<string>, window: int)
    requires |rule| > 1
    ensures forall p, w :: IsWalk(g, n, rule, window, p, w) ==>
      n < |g| && p[0] < |g[n].links| && Passes(g, n, p[0], window)
  {
    forall p, w | IsWalk(g, n, rule, window, p, w)
      ensures n < |g| && p[0] < |g[n].links| && Passes(g, n, p[0], window)
    {
      WalkHasTail(g, n, rule, window, p, w);
    }
  }

  lemma NoWalkThroughEdge(g: Graph, n: nat, rule: seq<string>, window: int, k: nat)
    requires |rule| > 1 && n < |g| && k < |g[n].links|
    requires Passes(g, n, k, window) ==>
      forall p, w :: !IsWalk(g, g[n].links[k].target.value, rule[1..], window, p, w)
    ensures forall p, w :: IsWalk(g, n, rule, window, p, w) ==> p[0] != k
  {
    forall p, w | IsWalk(g, n, rule, window, p, w)
      ensures p[0] != k
    {
      WalkHasTail(g, n, rule, window, p, w);
    }
  }

  /** The search finds a walk exactly when one exists, and then the first in edge order. */
  lemma {:induction false} SearchFindsFirstWalk(g: Graph, n: nat, rule: seq<string>, window: int)
    requires WellFormed(g) && n < |g| && |rule| > 0
    ensures var m := Search(g, n, rule, window);
      if m.Match? then IsFirstWalk(g, n, rule, window, m.path, m.walk)
      else forall p, w :: !IsWalk(g, n, rule, window, p, w)
    decreases |rule|, 0, 0
  {
    if g[n].typ == rule[0] && |rule| > 1 {
      SearchFromFindsFirstWalk(g, n, rule, window, 0);
    } else if g[n].typ == rule[0] {
      assert IsWalk(g, n, rule, window, [], [n]);
    }
  }

  lemma {:induction false} SearchFromFindsFirstWalk(g: Graph, n: nat, rule: seq<string>, window: int, k: nat)
    requires WellFormed(g) && n < |g| && |rule| > 1 && k <= |g[n].links| && g[n].typ == rule[0]
    ensures var m := SearchFrom(g, n, rule, window, k);
      if m.Match? then
        && IsWalk(g, n, rule, window, m.path, m.walk)
        && forall p, w :: IsWalk(g, n, rule, window, p, w) && p[0] >= k ==> NoLater(m.path, p)
      else forall p, w :: IsWalk(g, n, rule, window, p, w) ==> p[0] < k
    decreases |rule| - 1, 1, |g[n].links| - k
  {
    if k == |g[n].links| {
      WalksPassEdges(g, n, rule, window);
    } else {
      SearchFromFindsFirstWalk(g, n, rule, window, k + 1);
      if Passes(g, n, k, window) {
        var t := g[n].links[k].target.value;
        SearchFindsFirstWalk(g, t, rule[1..], window);
        var m := Search(g, t, rule[1..], window);
        if m.Match? {
          WalkFromTail(g, n, rule, window, k, m.path, m.walk);
          FirstFromEdge(g, n, rule, window, k, m.path, m.walk);
        } else {
          NoWalkThroughEdge(g, n, rule, window, k);
        }
      } else {
        NoWalkThroughEdge(g, n, rule, window, k);
      }
    }
  }

  lemma EarlierOneWay(p: seq<nat>, q: seq<nat>, i: nat, j: nat)
    requires Earlier(p, q, i)
    ensures !Earlier(q, p, j)
  {
    assert i < j <= |p| && j <= |q| ==> p[..j][i] == p[i] && q[..j][i] == q[i];
    assert j < i ==> p[..i][j] == p[j] && q[..i][j] == q[j];
  }

  lemma NoLaterAntisymmetric(p: seq<nat>, q: seq<nat>)
    requires NoLater(p, q) && NoLater(q, p)
    ensures p == q
  {
    forall i: nat, j: nat | Earlier(p, q, i)
      ensures !Earlier(q, p, j)
    {
      EarlierOneWay(p, q, i, j);
    }
  }

  /** No two walks are first. */
  lemma FirstWalkUnique(g: Graph, n: nat, rule: seq<string>, window: int,
                        p: seq<nat>, w: seq<nat>, q: seq<nat>, v: seq<nat>)
    requires IsFirstWalk(g, n, rule, window, p, w) && IsFirstWalk(g, n, rule, window, q, v)
    ensures p == q && w == v
  {
    NoLaterAntisymmetric(p, q);
    PathFixesWalk(g, n, rule, window, p, w, v, |w| - 1);
  }

  lemma {:induction false} PathFixesWalk(g: Graph, n: nat, rule: seq<string>, window: int,
                                         p: seq<nat>, w: seq<nat>, v: seq<nat>, upTo: nat)
    requires IsWalk(g, n, rule, window, p, w) && IsWalk(g, n, rule, window, p, v) && upTo < |w|
    ensures w[..upTo + 1] == v[..upTo + 1]
    ensures upTo == |w| - 1 ==> w == v
  {
    if upTo == 0 {
    } else {
      PathFixesWalk(g, n, rule, window, p, w, v, upTo - 1);
      assert StepTaken(g, w, p, window, upTo - 1) && StepTaken(g, v, p, window, upTo - 1);
      assert w[upTo - 1] == w[..upTo][upTo - 1] == v[..upTo][upTo - 1] == v[upTo - 1];
      assert w[..upTo + 1] == w[..upTo] + [w[upTo]] && v[..upTo + 1] == v[..upTo] + [v[upTo]];
    }
    assert upTo == |w| - 1 ==> w == w[..upTo + 1] && v == v[..upTo + 1];
  }
}
