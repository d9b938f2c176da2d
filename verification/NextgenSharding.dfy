/** Splitting the node map over shards, each swept only when it is written to, against one map swept
    on every event. */
module NextgenSharding {
  import opened Text
  import opened TelemetryEvents
  import opened NextgenGraph
  import opened NextgenSpec

  ghost predicate ClockRuns(ops: seq<Op>, from: int)
    decreases |ops|
  {
    ops == [] ||
    if ops[0].DoIngest? then from <= ops[0].now && ClockRuns(ops[1..], ops[0].now)
    else ClockRuns(ops[1..], from)
  }

  ghost function LastClock(ops: seq<Op>, from: int): int
    decreases |ops|
  {
    if ops == [] then from
    else LastClock(ops[1..], if ops[0].DoIngest? then ops[0].now else from)
  }

  /** Node for node alike, up to the edges, which depend on what had been swept when. */
  ghost predicate SameNodes(g: Graph, h: Graph) {
    |g| == |h| && forall n :: 0 <= n < |g| ==> g[n].(links := []) == h[n].(links := [])
  }

  /** `s` finds all that the single map `f` finds, and beyond it only expired entries. */
  ghost predicate Covers(s: State, hash: Hash, f: State, now: int)
    requires Indexed(s, hash) && Indexed(f, hash)
  {
    && SameNodes(s.graph, f.graph) && s.window == f.window
    && (forall id :: Lookup(f, hash, id).Some? ==> Lookup(s, hash, id) == Lookup(f, hash, id))
    && (forall id :: Lookup(s, hash, id).Some? && Lookup(f, hash, id).None?
          ==> FoundExpired(s, hash, id, now))
  }

  ghost predicate FoundExpired(s: State, hash: Hash, id: string, now: int)
    requires Indexed(s, hash)
  {
    var n := Lookup(s, hash, id);
    n.Some? && n.value < |s.graph| && now - s.graph[n.value].ts > s.window
  }

  /** One event changes the lookup of its own key and forgets expired keys of its shard. */
  lemma LookupAfterAbsorb(s: State, hash: Hash, ev: Event, now: int, id: string)
    requires Indexed(s, hash)
    ensures var t := Absorb(s, hash, ev, now);
      Lookup(t, hash, id) ==
        if id == NodeID(ev) then Some(|s.graph|)
        else if FoundExpired(s, hash, id, now) && hash(id) % |s.shards| == hash(NodeID(ev)) % |s.shards| then None
        else Lookup(s, hash, id)
  {
    var k := hash(NodeID(ev)) % |s.shards|;
    if id in s.shards[k] {
      assert Filed(s.graph, id, s.shards[k][id]);
    }
  }

  lemma AbsorbKeepsNodes(s: State, hash: Hash, ev: Event, now: int)
    requires Indexed(s, hash)
    ensures var t := Absorb(s, hash, ev, now);
      && t.window == s.window
      && SameNodes(t.graph, s.graph + [NewNode(ev)])
  {
  }

  lemma IngestCovers(s: State, hash: Hash, f: State, ev: Event, from: int, now: int)
    requires Indexed(s, hash) && Indexed(f, hash) && |f.shards| == 1
    requires WellFormed(s.graph) && WellFormed(f.graph)
    requires Covers(s, hash, f, from) && from <= now
    ensures Covers(Ingest(s, hash, ev, now), hash, Ingest(f, hash, ev, now), now)
  {
    var t, u := Absorb(s, hash, ev, now), Absorb(f, hash, ev, now);
    AbsorbKeepsNodes(s, hash, ev, now);
    AbsorbKeepsNodes(f, hash, ev, now);
    forall id
      ensures Lookup(u, hash, id).Some? ==> Lookup(t, hash, id) == Lookup(u, hash, id)
      ensures Lookup(t, hash, id).Some? && Lookup(u, hash, id).None? ==> FoundExpired(t, hash, id, now)
    {
      LookupAfterAbsorb(s, hash, ev, now, id);
      LookupAfterAbsorb(f, hash, ev, now, id);
      FoundIsFiled(s, hash, id);
      FoundIsFiled(f, hash, id);
    }
    assert Covers(t, hash, u, now);
    AbsorbKeepsWellFormed(s, hash, ev, now);
    AbsorbKeepsWellFormed(f, hash, ev, now);
    var t', u' := Ingest(s, hash, ev, now), Ingest(f, hash, ev, now);
    assert t' == t.(sent := t'.sent) && u' == u.(sent := u'.sent);
    forall id
      ensures Lookup(t', hash, id) == Lookup(t, hash, id) && Lookup(u', hash, id) == Lookup(u, hash, id)
      ensures FoundExpired(t', hash, id, now) <==> FoundExpired(t, hash, id, now)
    {
    }
  }

  lemma FoundIsFiled(s: State, hash: Hash, id: string)
    requires Indexed(s, hash)
    ensures var r := Lookup(s, hash, id); r.Some? ==> r.value < |s.graph| && s.graph[r.value].id == id
  {
    var m := s.shards[hash(id) % |s.shards|];
    assert id in m ==> Filed(s.graph, id, m[id]);
  }

  lemma OtherOpsCover(s: State, hash: Hash, f: State, op: Op, now: int)
    requires Good(s, hash) && Good(f, hash) && !op.DoIngest? && Covers(s, hash, f, now)
    ensures Indexed(Apply(s, hash, op), hash) && Indexed(Apply(f, hash, op), hash)
    ensures Covers(Apply(s, hash, op), hash, Apply(f, hash, op), now)
  {
    var s', f' := Apply(s, hash, op), Apply(f, hash, op);
    ApplyKeepsGood(s, hash, op);
    ApplyKeepsGood(f, hash, op);
    forall id
      ensures Lookup(s', hash, id) == Lookup(s, hash, id) && Lookup(f', hash, id) == Lookup(f, hash, id)
      ensures FoundExpired(s', hash, id, now) <==> FoundExpired(s, hash, id, now)
    {
    }
  }

  /** After any run, whatever the shard count: everything the single map would hold is found, as the
      same node with the same key, type, time and properties, and everything found beyond it has
      outlived the window. */
  lemma {:induction false} ShardedRunCoversFlatRun(s: State, hash: Hash, f: State, ops: seq<Op>, from: int)
    requires Good(s, hash) && Good(f, hash) && |f.shards| == 1
    requires Covers(s, hash, f, from) && ClockRuns(ops, from)
    ensures Covers(Run(s, hash, ops), hash, Run(f, hash, ops), LastClock(ops, from))
    decreases |ops|
  {
    if ops == [] {
    } else {
      ApplyKeepsGood(s, hash, ops[0]);
      ApplyKeepsGood(f, hash, ops[0]);
      var s', f' := Apply(s, hash, ops[0]), Apply(f, hash, ops[0]);
      if ops[0].DoIngest? {
        IngestCovers(s, hash, f, ops[0].ev, from, ops[0].now);
        ShardedRunCoversFlatRun(s', hash, f', ops[1..], ops[0].now);
      } else {
        OtherOpsCover(s, hash, f, ops[0], from);
        ShardedRunCoversFlatRun(s', hash, f', ops[1..], from);
      }
    }
  }

  // ---------- When nothing expires ----------

  /** Alike in everything but the layout of the shards. */
  ghost predicate SameView(s: State, h: Hash, t: State, k: Hash)
    requires Indexed(s, h) && Indexed(t, k)
  {
    && s.(shards := []) == t.(shards := [])
    && forall id :: Lookup(s, h, id) == Lookup(t, k, id)
  }

  /** No event comes later than a window after the timestamp of an earlier one. */
  ghost predicate NothingExpires(ops: seq<Op>, window: int) {
    forall i, j :: 0 <= i < j < |ops| && ops[i].DoIngest? && ops[j].DoIngest?
      ==> ops[j].now - ops[i].ev.timestamp <= window
  }

  ghost predicate NodesOutlast(g: Graph, ops: seq<Op>, window: int) {
    forall n, j :: 0 <= n < |g| && 0 <= j < |ops| && ops[j].DoIngest? ==> ops[j].now - g[n].ts <= window
  }

  lemma AbsorbSameView(s: State, h: Hash, t: State, k: Hash, ev: Event, now: int)
    requires Indexed(s, h) && Indexed(t, k) && SameView(s, h, t, k)
    requires forall n :: 0 <= n < |s.graph| ==> !Expired(s.graph[n], s.window, now)
    ensures SameView(Absorb(s, h, ev, now), h, Absorb(t, k, ev, now), k)
  {
    var a, b := Insert(s, h, ev, now), Insert(t, k, ev, now);
    InsertIndexed(s, h, ev, now);
    InsertIndexed(t, k, ev, now);
    forall id
      ensures Lookup(Absorb(s, h, ev, now), h, id) == Lookup(Absorb(t, k, ev, now), k, id)
      ensures Lookup(a, h, id) == Lookup(b, k, id)
    {
      LookupAfterAbsorb(s, h, ev, now, id);
      LookupAfterAbsorb(t, k, ev, now, id);
    }
  }

  lemma {:induction false} EvaluateSameView(s: State, t: State, trigger: nat, from: nat, now: int)
    requires s.(shards := []) == t.(shards := [])
    requires WellFormed(s.graph) && trigger < |s.graph| && from <= |s.rules|
    ensures EvaluateRules(s, trigger, from, now).sent == EvaluateRules(t, trigger, from, now).sent
    decreases |s.rules| - from
  {
    if from == |s.rules| {
    } else {
      var s', t' := Evaluate(s, trigger, s.rules[from], now), Evaluate(t, trigger, t.rules[from], now);
      assert s'.(shards := []) == t'.(shards := []);
      EvaluateSameView(s', t', trigger, from + 1, now);
    }
  }

  lemma ApplySameView(s: State, h: Hash, t: State, k: Hash, op: Op)
    requires Good(s, h) && Good(t, k) && SameView(s, h, t, k)
    requires op.DoIngest? ==> forall n :: 0 <= n < |s.graph| ==> !Expired(s.graph[n], s.window, op.now)
    ensures Good(Apply(s, h, op), h) && Good(Apply(t, k, op), k)
    ensures SameView(Apply(s, h, op), h, Apply(t, k, op), k)
  {
    ApplyKeepsGood(s, h, op);
    ApplyKeepsGood(t, k, op);
    var s', t' := Apply(s, h, op), Apply(t, k, op);
    if op.DoIngest? {
      var a, b := Absorb(s, h, op.ev, op.now), Absorb(t, k, op.ev, op.now);
      AbsorbSameView(s, h, t, k, op.ev, op.now);
      AbsorbKeepsWellFormed(s, h, op.ev, op.now);
      AbsorbKeepsWellFormed(t, k, op.ev, op.now);
      EvaluateSameView(a, b, |s.graph|, 0, op.now);
      forall id
        ensures Lookup(s', h, id) == Lookup(t', k, id)
      {
        assert Lookup(s', h, id) == Lookup(a, h, id) && Lookup(t', k, id) == Lookup(b, k, id);
      }
    } else {
      forall id
        ensures Lookup(s', h, id) == Lookup(t', k, id)
      {
        assert Lookup(s', h, id) == Lookup(s, h, id) && Lookup(t', k, id) == Lookup(t, k, id);
      }
    }
  }

  lemma LaterOpsOutlast(s: State, h: Hash, ops: seq<Op>)
    requires Good(s, h) && ops != []
    requires NothingExpires(ops, s.window) && NodesOutlast(s.graph, ops, s.window)
    ensures NothingExpires(ops[1..], s.window) && NodesOutlast(Apply(s, h, ops[0]).graph, ops[1..], s.window)
  {
    var rest, t := ops[1..], Apply(s, h, ops[0]);
    forall j | 0 <= j < |rest|
      ensures rest[j] == ops[j + 1]
    {
    }
    forall n, j | 0 <= n < |t.graph| && 0 <= j < |rest| && rest[j].DoIngest?
      ensures rest[j].now - t.graph[n].ts <= s.window
    {
      assert rest[j] == ops[j + 1];
      if ops[0].DoIngest? {
        AbsorbKeepsNodes(s, h, ops[0].ev, ops[0].now);
        assert t.graph[n].ts == (s.graph + [NewNode(ops[0].ev)])[n].ts;
      }
    }
  }

  /** While nothing expires, neither the shard count nor the hash can be seen: the graph, every
      lookup and the whole alert stream are the same. */
  lemma {:induction false} ShardCountIsInvisible(s: State, h: Hash, t: State, k: Hash, ops: seq<Op>)
    requires Good(s, h) && Good(t, k) && SameView(s, h, t, k)
    requires NothingExpires(ops, s.window) && NodesOutlast(s.graph, ops, s.window)
    ensures SameView(Run(s, h, ops), h, Run(t, k, ops), k)
    decreases |ops|
  {
    if ops == [] {
    } else {
      assert ops[0].DoIngest? ==> forall n :: 0 <= n < |s.graph| ==> ops[0].now - s.graph[n].ts <= s.window;
      ApplySameView(s, h, t, k, ops[0]);
      LaterOpsOutlast(s, h, ops);
      ShardCountIsInvisible(Apply(s, h, ops[0]), h, Apply(t, k, ops[0]), k, ops[1..]);
    }
  }

  /** The two results for engines that start empty. */
  lemma ShardingFromStart(shardCount: nat, hash: Hash, window: int, capacity: nat, ops: seq<Op>, from: int)
    requires shardCount > 0 && ClockRuns(ops, from)
    ensures Good(Init(shardCount, window, capacity), hash) && Good(Init(1, window, capacity), hash)
    ensures var s, f := Run(Init(shardCount, window, capacity), hash, ops), Run(Init(1, window, capacity), hash, ops);
      Covers(s, hash, f, LastClock(ops, from))
  {
    ShardedRunCoversFlatRun(Init(shardCount, window, capacity), hash, Init(1, window, capacity), ops, from);
  }

  lemma ShardCountInvisibleFromStart(shardCount: nat, h: Hash, count: nat, k: Hash, window: int, capacity: nat,
                                     ops: seq<Op>)
    requires shardCount > 0 && count > 0 && NothingExpires(ops, window)
    ensures Good(Init(shardCount, window, capacity), h) && Good(Init(count, window, capacity), k)
    ensures SameView(Run(Init(shardCount, window, capacity), h, ops), h, Run(Init(count, window, capacity), k, ops), k)
  {
    ShardCountIsInvisible(Init(shardCount, window, capacity), h, Init(count, window, capacity), k, ops);
  }
}
