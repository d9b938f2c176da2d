/** The alerts of a whole run: which event raised each, for which walk of the graph as it then was, and what
    it says. */
module NextgenAlerts {
  import opened NextgenGraph
  import opened NextgenSpec
  import opened TelemetryEvents

  // ---------- What an alert says ----------

  /** `a` says of `chain` what an alert of `rule` has to say: the chain has the rule's types with each step
      inside the window, the root pid is that of the first of its earliest nodes, the risk is
      min(10, 1.5 (1 + ... + n)) for its n nodes, and the timeline lists it in order. */
  ghost predicate Explains(chain: seq<NodeVal>, rule: Rule, now: int, a: Alert) {
    && |chain| == |rule.sequence| == |a.timeline| > 0
    && (forall i :: 0 <= i < |chain| ==> chain[i].typ == rule.sequence[i])
    && (forall i :: 0 <= i < |chain| - 1 ==> chain[i + 1].ts - chain[i].ts <= rule.window)
    && a.ruleID == rule.id && a.ruleName == rule.name && a.mitreIDs == rule.mitreIDs
    && (exists r :: 0 <= r < |chain| && IsRoot(chain, r) && a.rootPID == chain[r].props.pid)
    && a.riskScore == (if WeightedSum(|chain|) > 10.0 then 10.0 else WeightedSum(|chain|))
    && a.confidence == 0.85 && a.occurredAt == now
    && forall i :: 0 <= i < |chain| ==> a.timeline[i] == TimelineEntry(chain[i].ts, chain[i].typ, chain[i].id)
  }

  /** Node `r` of the chain is the first of the earliest. */
  ghost predicate IsRoot(chain: seq<NodeVal>, r: nat)
    requires r < |chain|
  {
    && (forall i :: 0 <= i < |chain| ==> chain[r].ts <= chain[i].ts)
    && forall i :: 0 <= i < r ==> chain[r].ts < chain[i].ts
  }

  /** The alert made of a walk is explained by its nodes. */
  lemma AlertMeaning(g: Graph, n: nat, rule: Rule, path: seq<nat>, walk: seq<nat>, now: int)
    requires IsWalk(g, n, rule.sequence, rule.window, path, walk)
    ensures Explains(Select(g, walk), rule, now, MakeAlert(rule, Select(g, walk), now))
  {
    var chain := Select(g, walk);
    forall i | 0 <= i < |chain| - 1
      ensures chain[i + 1].ts - chain[i].ts <= rule.window
    {
      assert StepTaken(g, walk, path, rule.window, i);
    }
    assert IsRoot(chain, Earliest(chain));
    RiskOfChain(|chain|);
  }

  // ---------- One event ----------

  /** A rule and its first match. */
  datatype Firing = Firing(rule: Rule, path: seq<nat>, walk: seq<nat>)

  /** In `s` the first match of one of the rules starts at `trigger`, is not suppressed, and makes `a`. */
  ghost predicate Fires(s: State, trigger: nat, now: int, f: Firing, a: Alert) {
    && f.rule in s.rules
    && IsFirstWalk(s.graph, trigger, f.rule.sequence, f.rule.window, f.path, f.walk)
    && Allowed(s, f.rule, Select(s.graph, f.walk))
    && a == MakeAlert(f.rule, Select(s.graph, f.walk), now)
  }

  ghost predicate Fired(s: State, trigger: nat, now: int, a: Alert) {
    exists f :: Fires(s, trigger, now, f, a)
  }

  /** All alerts from position `from` on fired in `s`. */
  ghost predicate AllFired(s: State, trigger: nat, now: int, sent: seq<Alert>, from: nat) {
    forall i :: from <= i < |sent| ==> Fired(s, trigger, now, sent[i])
  }

  lemma EvaluateFires(s: State, trigger: nat, rule: Rule, now: int)
    requires WellFormed(s.graph) && trigger < |s.graph| && rule in s.rules
    ensures AllFired(s, trigger, now, Evaluate(s, trigger, rule, now).sent, |s.sent|)
  {
    if rule.sequence == [] {
    } else {
      SearchFindsFirstWalk(s.graph, trigger, rule.sequence, rule.window);
      var m := Search(s.graph, trigger, rule.sequence, rule.window);
      var t := Evaluate(s, trigger, rule, now);
      if t.sent != s.sent {
        assert t.sent == s.sent + [MakeAlert(rule, Select(s.graph, m.walk), now)];
        assert Fires(s, trigger, now, Firing(rule, m.path, m.walk), t.sent[|s.sent|]);
      }
    }
  }

  /** What fires depends on the graph, the rules and the suppressions, not on the alerts sent. */
  lemma FiresAlike(s: State, t: State, trigger: nat, now: int, a: Alert)
    requires t == s.(sent := t.sent) && Fired(t, trigger, now, a)
    ensures Fired(s, trigger, now, a)
  {
    var f :| Fires(t, trigger, now, f, a);
    assert Fires(s, trigger, now, f, a);
  }

  lemma {:induction false} EvaluateRulesFires(s: State, trigger: nat, from: nat, now: int)
    requires WellFormed(s.graph) && trigger < |s.graph| && from <= |s.rules|
    ensures AllFired(s, trigger, now, EvaluateRules(s, trigger, from, now).sent, |s.sent|)
    decreases |s.rules| - from
  {
    if from == |s.rules| {
    } else {
      var t := Evaluate(s, trigger, s.rules[from], now);
      var u := EvaluateRules(t, trigger, from + 1, now);
      EvaluateFires(s, trigger, s.rules[from], now);
      EvaluateRulesFires(t, trigger, from + 1, now);
      forall i | |s.sent| <= i < |u.sent|
        ensures Fired(s, trigger, now, u.sent[i])
      {
        if i < |t.sent| {
          assert u.sent[i] == t.sent[i];
        } else {
          FiresAlike(s, t, trigger, now, u.sent[i]);
        }
      }
    }
  }

  // ---------- No match is missed ----------

  /** Rule `j` has a first match from `trigger` that is not suppressed. */
  ghost predicate RuleFires(s: State, trigger: nat, j: nat) {
    j < |s.rules| && exists path, walk ::
      && IsFirstWalk(s.graph, trigger, s.rules[j].sequence, s.rules[j].window, path, walk)
      && Allowed(s, s.rules[j], Select(s.graph, walk))
  }

  /** `a` is the alert of the first match of rule `j`. */
  ghost predicate SentFor(s: State, trigger: nat, now: int, j: nat, a: Alert) {
    j < |s.rules| && exists path, walk :: Fires(s, trigger, now, Firing(s.rules[j], path, walk), a)
  }

  ghost function Sender(s: State, trigger: nat, now: int): (nat, Alert) -> bool {
    (j: nat, a: Alert) => SentFor(s, trigger, now, j, a)
  }

  /** What matching depends on: the state but for the alerts sent. */
  function Basis(s: State): State {
    s.(sent := [])
  }

  /** `after` adds to `before` one element for each of the increasing positions `at`, in that order, each
      fitting its position. */
  ghost predicate Picks<T>(before: seq<T>, after: seq<T>, from: nat, at: seq<nat>, fits: (nat, T) -> bool) {
    && |after| == |before| + |at| && before <= after
    && (forall j, k :: 0 <= j < k < |at| ==> at[j] < at[k])
    && (forall k :: 0 <= k < |at| ==> from <= at[k] && fits(at[k], after[|before| + k]))
  }

  lemma PicksOneMore<T>(before: seq<T>, x: T, after: seq<T>, from: nat, later: seq<nat>, fits: (nat, T) -> bool)
    requires Picks(before + [x], after, from + 1, later, fits) && fits(from, x)
    ensures Picks(before, after, from, [from] + later, fits)
  {
    var at := [from] + later;
    assert after[|before|] == x;
    forall k | 0 < k < |at|
      ensures from <= at[k] && fits(at[k], after[|before| + k])
    {
      assert at[k] == later[k - 1] && after[|before + [x]| + (k - 1)] == after[|before| + k];
    }
  }

  /** Every rule from position `from` on that fires is among these, or else the channel is full. */
  ghost predicate MissesNone(s: State, trigger: nat, from: nat, at: seq<nat>, full: bool) {
    forall j :: from <= j < |s.rules| && RuleFires(s, trigger, j) ==> j in at || full
  }

  lemma MissesNoneFrom(s: State, trigger: nat, from: nat, later: seq<nat>, at: seq<nat>, full: bool)
    requires MissesNone(s, trigger, from + 1, later, full) && (forall j :: j in later ==> j in at)
    requires RuleFires(s, trigger, from) ==> from in at || full
    ensures MissesNone(s, trigger, from, at, full)
  {
  }

  /** Looking at rule `j` sends its alert if it fires, unless the channel is full. */
  lemma EvaluatePicks(s: State, trigger: nat, j: nat, now: int)
    requires WellFormed(s.graph) && trigger < |s.graph| && j < |s.rules|
    ensures var t := Evaluate(s, trigger, s.rules[j], now);
      if t.sent == s.sent then RuleFires(Basis(s), trigger, j) ==> |s.sent| - s.received >= s.capacity
      else |t.sent| == |s.sent| + 1 && SentFor(Basis(s), trigger, now, j, t.sent[|s.sent|])
  {
    var rule := s.rules[j];
    var t := Evaluate(s, trigger, rule, now);
    if t.sent == s.sent {
      if RuleFires(Basis(s), trigger, j) {
        AlertIffWalkAllowed(s, trigger, rule, now);
        var path, walk :|
          && IsFirstWalk(s.graph, trigger, rule.sequence, rule.window, path, walk)
          && Allowed(Basis(s), rule, Select(s.graph, walk));
        assert Allowed(s, rule, Select(s.graph, walk));
      }
    } else {
      SearchFindsFirstWalk(s.graph, trigger, rule.sequence, rule.window);
      var m := Search(s.graph, trigger, rule.sequence, rule.window);
      assert t.sent == s.sent + [MakeAlert(rule, Select(s.graph, m.walk), now)];
      assert Fires(Basis(s), trigger, now, Firing(rule, m.path, m.walk), t.sent[|s.sent|]);
    }
  }

  /** An event raises the alerts of its matching rules, one each, in the order of the rules, and misses one
      only when the channel is full. */
  lemma {:induction false} AlertsPickRules(s: State, trigger: nat, from: nat, now: int) returns (at: seq<nat>)
    requires WellFormed(s.graph) && trigger < |s.graph| && from <= |s.rules|
    ensures var t := EvaluateRules(s, trigger, from, now);
      && Picks(s.sent, t.sent, from, at, Sender(Basis(s), trigger, now))
      && MissesNone(Basis(s), trigger, from, at, |t.sent| - s.received >= s.capacity)
    decreases |s.rules| - from
  {
    if from == |s.rules| {
      at := [];
    } else {
      var t := Evaluate(s, trigger, s.rules[from], now);
      var sent := EvaluateRules(t, trigger, from + 1, now).sent;
      EvaluatePicks(s, trigger, from, now);
      var later := AlertsPickRules(t, trigger, from + 1, now);
      assert Basis(t) == Basis(s);
      if t.sent == s.sent {
        at := later;
      } else {
        at := [from] + later;
        assert t.sent == s.sent + [t.sent[|s.sent|]];
        assert at[0] == from;
        PicksOneMore(s.sent, t.sent[|s.sent|], sent, from, later, Sender(Basis(s), trigger, now));
      }
      MissesNoneFrom(Basis(s), trigger, from, later, at, |sent| - s.received >= s.capacity);
    }
  }

  lemma RuleFiresBasis(s: State, trigger: nat, j: nat)
    requires RuleFires(s, trigger, j)
    ensures RuleFires(Basis(s), trigger, j)
  {
    var path, walk :|
      && IsFirstWalk(s.graph, trigger, s.rules[j].sequence, s.rules[j].window, path, walk)
      && Allowed(s, s.rules[j], Select(s.graph, walk));
    assert Allowed(Basis(s), s.rules[j], Select(s.graph, walk));
  }

  lemma SentForNamesRule(s: State, trigger: nat, now: int, j: nat, a: Alert)
    requires SentFor(s, trigger, now, j, a)
    ensures j < |s.rules| && a.ruleID == s.rules[j].id
  {
  }

  lemma FiringRuleSends(s: State, trigger: nat, j: nat, now: int)
    requires WellFormed(s.graph) && trigger < |s.graph| && j < |s.rules|
    ensures var t := Evaluate(s, trigger, s.rules[j], now);
      && Basis(t) == Basis(s) && s.sent <= t.sent && |t.sent| <= |s.sent| + 1
      && (RuleFires(Basis(s), trigger, j) && |s.sent| - s.received < s.capacity ==>
            |t.sent| == |s.sent| + 1 && t.sent[|s.sent|].ruleID == s.rules[j].id)
  {
    var t := Evaluate(s, trigger, s.rules[j], now);
    EvaluatePicks(s, trigger, j, now);
    if t.sent != s.sent {
      SentForNamesRule(Basis(s), trigger, now, j, t.sent[|s.sent|]);
    }
  }

  /** A rule that fires has its alert sent when the channel has room for it and for the rules before it. */
  lemma {:induction false} FiringRuleIsSent(s: State, b: State, trigger: nat, from: nat, j: nat, now: int)
    returns (i: nat)
    requires WellFormed(s.graph) && trigger < |s.graph| && from <= j < |s.rules|
    requires b == Basis(s) && RuleFires(b, trigger, j)
    requires |s.sent| - s.received + (j - from) < s.capacity
    ensures var t := EvaluateRules(s, trigger, from, now);
      |s.sent| <= i < |t.sent| && t.sent[i].ruleID == s.rules[j].id
    decreases |s.rules| - from
  {
    FiringRuleSends(s, trigger, from, now);
    if from == j {
      i := |s.sent|;
    } else {
      i := FiringRuleIsSent(Evaluate(s, trigger, s.rules[from], now), b, trigger, from + 1, j, now);
    }
  }

  // ---------- A whole run ----------

  /** `a` is raised when `s` takes in this event: by the first match of a rule of `s` from the node of the
      event, in the graph with that node filed and linked. */
  ghost predicate RaisedIn(s: State, hash: Hash, ev: Event, now: int, a: Alert) {
    Indexed(s, hash) && Fired(Absorb(s, hash, ev, now), |s.graph|, now, a)
  }

  lemma AbsorbSendsNothing(s: State, hash: Hash, ev: Event, now: int)
    requires Indexed(s, hash)
    ensures Absorb(s, hash, ev, now).sent == s.sent
  {
  }

  lemma IngestRaises(s: State, hash: Hash, ev: Event, now: int)
    requires Good(s, hash)
    ensures s.sent <= Ingest(s, hash, ev, now).sent
    ensures AllFired(Absorb(s, hash, ev, now), |s.graph|, now, Ingest(s, hash, ev, now).sent, |s.sent|)
  {
    AbsorbKeepsWellFormed(s, hash, ev, now);
    AbsorbSendsNothing(s, hash, ev, now);
    EvaluateRulesFires(Absorb(s, hash, ev, now), |s.graph|, 0, now);
  }

  /** What an operation sends, it raised. */
  lemma ApplyRaises(s: State, hash: Hash, op: Op)
    requires Good(s, hash)
    ensures var t := Apply(s, hash, op);
      && s.sent <= t.sent
      && forall i :: |s.sent| <= i < |t.sent| ==> op.DoIngest? && RaisedIn(s, hash, op.ev, op.now, t.sent[i])
  {
    if op.DoIngest? {
      IngestRaises(s, hash, op.ev, op.now);
    }
  }

  /** Event `k` of the run raised `a`, in the state the run had then reached. */
  ghost predicate RaisedBy(s: State, hash: Hash, ops: seq<Op>, k: nat, a: Alert)
    requires Good(s, hash)
  {
    k < |ops| && ops[k].DoIngest? && RaisedIn(Run(s, hash, ops[..k]), hash, ops[k].ev, ops[k].now, a)
  }

  lemma RaisedNow(s: State, hash: Hash, ops: seq<Op>, a: Alert)
    requires Good(s, hash) && ops != [] && ops[0].DoIngest? && RaisedIn(s, hash, ops[0].ev, ops[0].now, a)
    ensures RaisedBy(s, hash, ops, 0, a)
  {
    assert ops[..0] == [];
  }

  lemma RunPrefix(s: State, hash: Hash, ops: seq<Op>, k: nat)
    requires k < |ops| && Good(s, hash) && Good(Apply(s, hash, ops[0]), hash)
    ensures Run(s, hash, ops[..k + 1]) == Run(Apply(s, hash, ops[0]), hash, ops[1..][..k])
  {
    assert ops[..k + 1][1..] == ops[1..][..k];
  }

  lemma RaisedLater(s: State, t: State, hash: Hash, ops: seq<Op>, k: nat, a: Alert)
    requires Good(s, hash) && Good(t, hash) && ops != [] && t == Apply(s, hash, ops[0])
    requires RaisedBy(t, hash, ops[1..], k, a)
    ensures RaisedBy(s, hash, ops, k + 1, a)
  {
    RunPrefix(s, hash, ops, k);
  }

  lemma {:induction false} SentGrows(s: State, hash: Hash, ops: seq<Op>)
    requires Good(s, hash)
    ensures s.sent <= Run(s, hash, ops).sent
    decreases |ops|
  {
    if ops == [] {
    } else {
      ApplyKeepsGood(s, hash, ops[0]);
      ApplyRaises(s, hash, ops[0]);
      SentGrows(Apply(s, hash, ops[0]), hash, ops[1..]);
    }
  }

  /** Every alert a run emits was raised by one of its events. */
  lemma {:induction false} EveryAlertIsRaised(s: State, hash: Hash, ops: seq<Op>, i: nat) returns (k: nat)
    requires Good(s, hash) && |s.sent| <= i < |Run(s, hash, ops).sent|
    ensures RaisedBy(s, hash, ops, k, Run(s, hash, ops).sent[i])
    decreases |ops|
  {
    var t, a := Apply(s, hash, ops[0]), Run(s, hash, ops).sent[i];
    ApplyKeepsGood(s, hash, ops[0]);
    ApplyRaises(s, hash, ops[0]);
    SentGrows(t, hash, ops[1..]);
    if i < |t.sent| {
      k := 0;
      RaisedNow(s, hash, ops, a);
    } else {
      var j := EveryAlertIsRaised(t, hash, ops[1..], i);
      k := j + 1;
      RaisedLater(s, t, hash, ops, j, a);
    }
  }

  /** And it says of its chain, nodes of the graph at that event, what it has to. */
  lemma EveryAlertIsExplained(s: State, hash: Hash, ops: seq<Op>, i: nat) returns (k: nat, f: Firing)
    requires Good(s, hash) && |s.sent| <= i < |Run(s, hash, ops).sent|
    ensures k < |ops| && ops[k].DoIngest?
    ensures var t, a := Run(s, hash, ops[..k]), Run(s, hash, ops).sent[i];
      var u := Absorb(t, hash, ops[k].ev, ops[k].now);
      && Fires(u, |t.graph|, ops[k].now, f, a)
      && Explains(Select(u.graph, f.walk), f.rule, ops[k].now, a)
  {
    k := EveryAlertIsRaised(s, hash, ops, i);
    var t := Run(s, hash, ops[..k]);
    f := RaisedMeaning(t, hash, ops[k].ev, ops[k].now, Run(s, hash, ops).sent[i]);
  }

  lemma RaisedMeaning(s: State, hash: Hash, ev: Event, now: int, a: Alert) returns (f: Firing)
    requires RaisedIn(s, hash, ev, now, a)
    ensures Fires(Absorb(s, hash, ev, now), |s.graph|, now, f, a)
    ensures Explains(Select(Absorb(s, hash, ev, now).graph, f.walk), f.rule, now, a)
  {
    var u := Absorb(s, hash, ev, now);
    f :| Fires(u, |s.graph|, now, f, a);
    AlertMeaning(u.graph, |s.graph|, f.rule, f.path, f.walk, now);
  }
}
