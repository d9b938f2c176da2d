/** Policy evaluation along a chain of parents: what it decides, when it returns, and what cannot change
    its decision. */
module PolicySpec {
  import opened Text

  const ALLOW: string := "Allow"
  const DENY: string := "Deny"
  const MONITOR: string := "Monitor"
  const AUDIT: string := "Audit"
  const IGNORE: string := "Ignore"

  predicate ValidAction(a: string) {
    a == ALLOW || a == DENY || a == MONITOR || a == AUDIT || a == IGNORE
  }

  datatype Rule = Rule(id: string, name: string, action: string, processPath: string, riskScore: real)

  datatype Policy = Policy(id: string, parentID: string, rules: seq<Rule>, version: int)

  type Policies = map<string, Policy>

  predicate ValidRule(r: Rule) {
    r.id != "" && ValidAction(r.action) && r.processPath != ""
  }

  predicate ValidPolicy(p: Policy) {
    p.id != "" && forall i :: 0 <= i < |p.rules| ==> ValidRule(p.rules[i])
  }

  // ---------- Evaluation ----------

  predicate Matches(r: Rule, path: string) {
    Contains(path, r.processPath)
  }

  /** The action of the first rule that matches. */
  function FirstMatch(rules: seq<Rule>, path: string): Option<string> {
    if rules == [] then None
    else if Matches(rules[0], path) then Some(rules[0].action)
    else FirstMatch(rules[1..], path)
  }

  /** `sub` stands somewhere in `s`. */
  predicate Occurs(sub: string, s: string) {
    exists i {:trigger s[i..]} :: 0 <= i <= |s| - |sub| && s[i..][..|sub|] == sub
  }

  lemma MatchesIsOccurs(r: Rule, path: string)
    ensures Matches(r, path) <==> Occurs(r.processPath, path)
  {
    var sub := r.processPath;
    forall i | 0 <= i <= |path|
      ensures sub <= path[i..] <==> i <= |path| - |sub| && path[i..][..|sub|] == sub
    {
    }
  }

  /** Rule `i` is the first whose process path stands in `path`. */
  predicate DecidesAt(rules: seq<Rule>, path: string, i: nat) {
    i < |rules| && Occurs(rules[i].processPath, path) && forall j :: 0 <= j < i ==> !Occurs(rules[j].processPath, path)
  }

  /** The first match is the action of the first rule whose process path stands in the path, if there is
      one. */
  lemma {:induction false} FirstMatchMeaning(rules: seq<Rule>, path: string)
    ensures forall i: nat :: DecidesAt(rules, path, i) ==> FirstMatch(rules, path) == Some(rules[i].action)
    ensures (forall i :: 0 <= i < |rules| ==> !Occurs(rules[i].processPath, path)) <==> FirstMatch(rules, path) == None
  {
    if rules == [] {
    } else {
      MatchesIsOccurs(rules[0], path);
      FirstMatchMeaning(rules[1..], path);
      forall i: nat | DecidesAt(rules, path, i)
        ensures FirstMatch(rules, path) == Some(rules[i].action)
      {
        assert i > 0 ==> !Occurs(rules[0].processPath, path);
        assert i > 0 ==> DecidesAt(rules[1..], path, i - 1);
      }
      assert forall i :: 1 <= i < |rules| ==> rules[i] == rules[1..][i - 1];
    }
  }

  /** Evaluation ends at `id`: it is not loaded, one of its rules matches, or it has no parent. */
  predicate Stops(ps: Policies, id: string, path: string) {
    id in ps ==> FirstMatch(ps[id].rules, path).Some? || ps[id].parentID == ""
  }

  function Verdict(ps: Policies, id: string, path: string): string
    requires Stops(ps, id, path)
  {
    if id in ps && FirstMatch(ps[id].rules, path).Some? then FirstMatch(ps[id].rules, path).value else MONITOR
  }

  /** The source's recursion, given `depth` nested calls: None when that is not enough. */
  function Evaluate(ps: Policies, id: string, path: string, depth: nat): Option<string>
    decreases depth
  {
    if depth == 0 then None
    else if Stops(ps, id, path) then Some(Verdict(ps, id, path))
    else Evaluate(ps, ps[id].parentID, path, depth - 1)
  }

  /** Evaluation that gives up on meeting a policy again; each turn uses up a loaded policy. */
  function Resolve(ps: Policies, id: string, path: string, seen: set<string>): Option<string>
    decreases ps.Keys - seen
  {
    if Stops(ps, id, path) then Some(Verdict(ps, id, path))
    else if id in seen then None
    else
      assert id in ps.Keys - seen;
      Resolve(ps, ps[id].parentID, path, seen + {id})
  }

  /** `k` evaluation steps, none of which stops, lead from `a` to `b`. */
  predicate Leads(ps: Policies, path: string, a: string, b: string, k: nat)
    decreases k
  {
    if k == 0 then a == b
    else !Stops(ps, a, path) && Leads(ps, path, ps[a].parentID, b, k - 1)
  }

  lemma {:induction false} LeadsOn(ps: Policies, path: string, a: string, b: string, k: nat)
    requires Leads(ps, path, a, b, k) && !Stops(ps, b, path)
    ensures Leads(ps, path, a, ps[b].parentID, k + 1)
    decreases k
  {
    if k == 0 {
    } else {
      LeadsOn(ps, path, ps[a].parentID, b, k - 1);
    }
  }

  lemma {:induction false} LeadsThenEvaluates(ps: Policies, path: string, a: string, b: string, k: nat, depth: nat)
    requires Leads(ps, path, a, b, k)
    ensures Evaluate(ps, a, path, depth) == if depth < k then None else Evaluate(ps, b, path, depth - k)
    decreases k
  {
    if k == 0 || depth == 0 {
    } else {
      LeadsThenEvaluates(ps, path, ps[a].parentID, b, k - 1, depth - 1);
    }
  }

  lemma {:induction false} CycleNeverReturns(ps: Policies, path: string, a: string, k: nat, depth: nat)
    requires k > 0 && Leads(ps, path, a, a, k)
    ensures Evaluate(ps, a, path, depth) == None
    decreases depth
  {
    LeadsThenEvaluates(ps, path, a, a, k, depth);
    if depth >= k {
      CycleNeverReturns(ps, path, a, k, depth - k);
    }
  }

  /** `a` leads into a cycle of parents in which nothing matches. */
  ghost predicate LeadsIntoCycle(ps: Policies, path: string, a: string) {
    exists b, j: nat, k: nat :: Leads(ps, path, a, b, j) && 0 < k && Leads(ps, path, b, b, k)
  }

  /** Every policy in `seen` leads to `id` in one step or more. */
  ghost predicate Trailing(ps: Policies, path: string, seen: set<string>, id: string) {
    forall x :: x in seen ==> exists k: nat :: 0 < k && Leads(ps, path, x, id, k)
  }

  lemma {:induction false} ResolveDecides(ps: Policies, id: string, path: string, seen: set<string>)
    requires Trailing(ps, path, seen, id)
    ensures var r := Resolve(ps, id, path, seen);
      if r.Some? then exists depth: nat :: Evaluate(ps, id, path, depth) == r
      else LeadsIntoCycle(ps, path, id)
    decreases ps.Keys - seen
  {
    if Stops(ps, id, path) {
      assert Evaluate(ps, id, path, 1) == Resolve(ps, id, path, seen);
    } else if id in seen {
      assert Leads(ps, path, id, id, 0);
    } else {
      var next := ps[id].parentID;
      assert id in ps.Keys - seen;
      forall x | x in seen + {id}
        ensures exists k: nat :: 0 < k && Leads(ps, path, x, next, k)
      {
        var k: nat := 0;
        if x in seen {
          k :| 0 < k && Leads(ps, path, x, id, k);
        } else {
          assert Leads(ps, path, id, id, 0);
        }
        LeadsOn(ps, path, x, id, k);
      }
      ResolveDecides(ps, next, path, seen + {id});
      ResolveStep(ps, id, path, seen);
    }
  }

  lemma ResolveStep(ps: Policies, id: string, path: string, seen: set<string>)
    requires !Stops(ps, id, path) && id !in seen
    requires var r := Resolve(ps, ps[id].parentID, path, seen + {id});
      if r.Some? then exists depth: nat :: Evaluate(ps, ps[id].parentID, path, depth) == r
      else LeadsIntoCycle(ps, path, ps[id].parentID)
    ensures var r := Resolve(ps, id, path, seen);
      if r.Some? then exists depth: nat :: Evaluate(ps, id, path, depth) == r
      else LeadsIntoCycle(ps, path, id)
  {
    var next, r := ps[id].parentID, Resolve(ps, id, path, seen);
    if r.Some? {
      var depth: nat :| Evaluate(ps, next, path, depth) == r;
      assert Evaluate(ps, id, path, depth + 1) == r;
    } else {
      var b, j: nat, k: nat :| Leads(ps, path, next, b, j) && 0 < k && Leads(ps, path, b, b, k);
      assert Leads(ps, path, id, b, j + 1);
    }
  }

  /** The source's recursion returns exactly when the chain does not lead into a parent cycle in which no
      rule matches, and it returns what the cycle-proof evaluation does. */
  lemma EvaluationReturnsIffNoSilentCycle(ps: Policies, id: string, path: string)
    ensures (exists depth: nat :: Evaluate(ps, id, path, depth).Some?) <==> !LeadsIntoCycle(ps, path, id)
    ensures forall depth: nat :: Evaluate(ps, id, path, depth).Some? ==>
      Evaluate(ps, id, path, depth) == Resolve(ps, id, path, {})
    ensures Resolve(ps, id, path, {}).None? <==> LeadsIntoCycle(ps, path, id)
  {
    ResolveDecides(ps, id, path, {});
    var r := Resolve(ps, id, path, {});
    if LeadsIntoCycle(ps, path, id) {
      var b, j: nat, k: nat :| Leads(ps, path, id, b, j) && 0 < k && Leads(ps, path, b, b, k);
      forall depth: nat
        ensures Evaluate(ps, id, path, depth).None?
      {
        LeadsThenEvaluates(ps, path, id, b, j, depth);
        if depth >= j {
          CycleNeverReturns(ps, path, b, k, depth - j);
        }
      }
    }
    if r.Some? {
      var d: nat :| Evaluate(ps, id, path, d) == r;
      forall depth: nat | Evaluate(ps, id, path, depth).Some?
        ensures Evaluate(ps, id, path, depth) == r
      {
        DepthsAgree(ps, id, path, d, depth);
      }
    }
  }

  lemma {:induction false} DepthsAgree(ps: Policies, id: string, path: string, c: nat, d: nat)
    requires Evaluate(ps, id, path, c).Some? && Evaluate(ps, id, path, d).Some?
    ensures Evaluate(ps, id, path, c) == Evaluate(ps, id, path, d)
    decreases c
  {
    if Stops(ps, id, path) {
    } else {
      DepthsAgree(ps, ps[id].parentID, path, c - 1, d - 1);
    }
  }

  // ---------- Inheritance ----------

  /** `ids` is the whole chain of parents from `id`: loaded policies, each the parent of the one before,
      up to one whose parent is missing or not loaded. */
  ghost predicate IsLineage(ps: Policies, id: string, ids: seq<string>)
    decreases |ids|
  {
    if ids == [] then id !in ps
    else
      && ids[0] == id && id in ps
      && if ps[id].parentID == "" then |ids| == 1 else IsLineage(ps, ps[id].parentID, ids[1..])
  }

  /** The rules of a lineage, the child's before its parent's. */
  ghost function InheritedRules(ps: Policies, ids: seq<string>): seq<Rule>
    requires forall i :: 0 <= i < |ids| ==> ids[i] in ps
  {
    if ids == [] then [] else ps[ids[0]].rules + InheritedRules(ps, ids[1..])
  }

  lemma {:induction false} LineageIsLoaded(ps: Policies, id: string, ids: seq<string>)
    requires IsLineage(ps, id, ids)
    ensures forall i :: 0 <= i < |ids| ==> ids[i] in ps
    decreases |ids|
  {
    if ids == [] || ps[id].parentID == "" {
    } else {
      LineageIsLoaded(ps, ps[id].parentID, ids[1..]);
      assert forall i :: 1 <= i < |ids| ==> ids[i] == ids[1..][i - 1];
    }
  }

  lemma {:induction false} FirstMatchOfConcat(a: seq<Rule>, b: seq<Rule>, path: string)
    ensures FirstMatch(a + b, path) == if FirstMatch(a, path).Some? then FirstMatch(a, path) else FirstMatch(b, path)
  {
    if a == [] {
      assert a + b == b;
    } else {
      assert (a + b)[1..] == a[1..] + b;
      FirstMatchOfConcat(a[1..], b, path);
    }
  }

  /** On a finite chain, evaluation is the first match over the whole chain's rules, or Monitor; and it
      returns within one call more than the chain is long. */
  lemma {:induction false} InheritanceIsFirstMatch(ps: Policies, id: string, path: string, ids: seq<string>)
    requires IsLineage(ps, id, ids) && forall i :: 0 <= i < |ids| ==> ids[i] in ps
    ensures var m := FirstMatch(InheritedRules(ps, ids), path);
      Evaluate(ps, id, path, |ids| + 1) == Some(if m.Some? then m.value else MONITOR)
    decreases |ids|
  {
    if ids == [] {
    } else {
      FirstMatchOfConcat(ps[id].rules, InheritedRules(ps, ids[1..]), path);
      if ps[id].parentID != "" {
        InheritanceIsFirstMatch(ps, ps[id].parentID, path, ids[1..]);
      }
    }
  }

  /** `ids` climbs from `id`: loaded policies, each the parent of the one before. */
  ghost predicate Climbs(ps: Policies, id: string, ids: seq<string>)
    decreases |ids|
  {
    ids == [] || (ids[0] == id && id in ps
                  && (|ids| > 1 ==> ps[id].parentID != "" && Climbs(ps, ps[id].parentID, ids[1..])))
  }

  lemma {:induction false} ClimbIsLoaded(ps: Policies, id: string, ids: seq<string>)
    requires Climbs(ps, id, ids)
    ensures forall i :: 0 <= i < |ids| ==> ids[i] in ps
    decreases |ids|
  {
    if |ids| <= 1 {
    } else {
      ClimbIsLoaded(ps, ps[id].parentID, ids[1..]);
      assert forall i :: 1 <= i < |ids| ==> ids[i] == ids[1..][i - 1];
    }
  }

  /** `verdict` is the first match over the rules met while climbing `ids`; with no match it is Monitor, and
      then the climb is the whole lineage. */
  ghost predicate DecidedBy(ps: Policies, id: string, path: string, ids: seq<string>, verdict: string) {
    && Climbs(ps, id, ids)
    && (forall i :: 0 <= i < |ids| ==> ids[i] in ps)
    && var m := FirstMatch(InheritedRules(ps, ids), path);
       if m.Some? then verdict == m.value else verdict == MONITOR && IsLineage(ps, id, ids)
  }

  /** Whenever evaluation returns, on a cyclic chain or not, it is the first match over the inherited rules. */
  lemma {:induction false} VerdictIsFirstMatch(ps: Policies, id: string, path: string, depth: nat)
    requires Evaluate(ps, id, path, depth).Some?
    ensures exists ids :: DecidedBy(ps, id, path, ids, Evaluate(ps, id, path, depth).value)
    decreases depth
  {
    if id !in ps {
      assert DecidedBy(ps, id, path, [], MONITOR);
    } else if Stops(ps, id, path) {
      assert [id][1..] == [] && ps[id].rules + [] == ps[id].rules;
      assert DecidedBy(ps, id, path, [id], Verdict(ps, id, path));
    } else {
      var next, v := ps[id].parentID, Evaluate(ps, id, path, depth).value;
      VerdictIsFirstMatch(ps, next, path, depth - 1);
      var ids :| DecidedBy(ps, next, path, ids, v);
      var all := [id] + ids;
      assert all[1..] == ids;
      ClimbIsLoaded(ps, id, all);
      FirstMatchOfConcat(ps[id].rules, InheritedRules(ps, ids), path);
      assert DecidedBy(ps, id, path, all, v);
    }
  }

  // ---------- Which chains are finite ----------

  /** `x` is met `n` parents up from `id`, loaded or not. */
  predicate Ancestor(ps: Policies, id: string, x: string, n: nat)
    decreases n
  {
    if n == 0 then id == x
    else id in ps && ps[id].parentID != "" && Ancestor(ps, ps[id].parentID, x, n - 1)
  }

  /** The parents of `id` run into a cycle. */
  ghost predicate ParentsCycle(ps: Policies, id: string) {
    exists x, j: nat, k: nat :: Ancestor(ps, id, x, j) && 0 < k && Ancestor(ps, x, x, k)
  }

  /** The same policies without their rules, along which evaluation climbs as far as it can. */
  function Bare(ps: Policies): Policies {
    map id | id in ps :: ps[id].(rules := [])
  }

  lemma {:induction false} BareLeadsToAncestors(ps: Policies, path: string, a: string, b: string, k: nat)
    ensures Leads(Bare(ps), path, a, b, k) <==> Ancestor(ps, a, b, k)
    decreases k
  {
    if k == 0 {
    } else if a in ps {
      BareLeadsToAncestors(ps, path, ps[a].parentID, b, k - 1);
    }
  }

  lemma {:induction false} BareLineage(ps: Policies, id: string, ids: seq<string>)
    ensures IsLineage(Bare(ps), id, ids) <==> IsLineage(ps, id, ids)
    decreases |ids|
  {
    if ids == [] {
    } else if id in ps {
      BareLineage(ps, ps[id].parentID, ids[1..]);
    }
  }

  lemma {:induction false} BareHasNoRules(ps: Policies, ids: seq<string>)
    requires forall i :: 0 <= i < |ids| ==> ids[i] in Bare(ps)
    ensures InheritedRules(Bare(ps), ids) == []
  {
    if ids == [] {
    } else {
      BareHasNoRules(ps, ids[1..]);
    }
  }

  /** A chain of parents ends exactly when it does not run into a cycle. */
  lemma LineageIffNoParentCycle(ps: Policies, id: string)
    ensures (exists ids :: IsLineage(ps, id, ids)) <==> !ParentsCycle(ps, id)
  {
    var bare := Bare(ps);
    EvaluationReturnsIffNoSilentCycle(bare, id, "");
    forall x, y, n: nat
      ensures Leads(bare, "", x, y, n) <==> Ancestor(ps, x, y, n)
    {
      BareLeadsToAncestors(ps, "", x, y, n);
    }
    assert LeadsIntoCycle(bare, "", id) <==> ParentsCycle(ps, id);
    if ids :| IsLineage(ps, id, ids) {
      BareLineage(ps, id, ids);
      LineageIsLoaded(bare, id, ids);
      InheritanceIsFirstMatch(bare, id, "", ids);
    }
    if depth: nat :| Evaluate(bare, id, "", depth).Some? {
      VerdictIsFirstMatch(bare, id, "", depth);
      var ids :| DecidedBy(bare, id, "", ids, Evaluate(bare, id, "", depth).value);
      BareHasNoRules(ps, ids);
      BareLineage(ps, id, ids);
    }
  }

  // ---------- The engine's state ----------

  datatype State = State(policies: Policies, active: string)

  /** Loaded policies are valid and filed under their own id; the active one, once set, is loaded. */
  ghost predicate Good(s: State) {
    && (forall id :: id in s.policies ==> ValidPolicy(s.policies[id]) && s.policies[id].id == id)
    && (s.active != "" ==> s.active in s.policies)
  }

  function Load(s: State, p: Policy): State {
    if ValidPolicy(p) then s.(policies := s.policies[p.id := p]) else s
  }

  function Activate(s: State, id: string): State {
    if id in s.policies then s.(active := id) else s
  }

  datatype Op = DoLoad(p: Policy) | DoActivate(id: string)

  function Apply(s: State, op: Op): State {
    match op
    case DoLoad(p) => Load(s, p)
    case DoActivate(id) => Activate(s, id)
  }

  function Run(s: State, ops: seq<Op>): State
    decreases |ops|
  {
    if ops == [] then s else Run(Apply(s, ops[0]), ops[1..])
  }

  /** Over any run the invariant holds, and once a policy is active one always is. */
  lemma {:induction false} RunKeepsGood(s: State, ops: seq<Op>)
    requires Good(s)
    ensures Good(Run(s, ops))
    ensures s.active != "" ==> Run(s, ops).active != ""
    decreases |ops|
  {
    if ops == [] {
    } else {
      RunKeepsGood(Apply(s, ops[0]), ops[1..]);
    }
  }

  function Decide(s: State, path: string): Option<string> {
    if s.active == "" then Some(MONITOR) else Resolve(s.policies, s.active, path, {})
  }

  /** Every decision is one of the five actions. */
  lemma {:induction false} VerdictsAreValid(s: State, id: string, path: string, seen: set<string>)
    requires Good(s)
    ensures var r := Resolve(s.policies, id, path, seen); r.Some? ==> ValidAction(r.value)
    decreases s.policies.Keys - seen
  {
    if Stops(s.policies, id, path) {
      if id in s.policies {
        MatchIsValid(s.policies[id].rules, path);
      }
    } else if id !in seen {
      assert id in s.policies.Keys - seen;
      VerdictsAreValid(s, s.policies[id].parentID, path, seen + {id});
    }
  }

  lemma {:induction false} MatchIsValid(rules: seq<Rule>, path: string)
    requires forall i :: 0 <= i < |rules| ==> ValidRule(rules[i])
    ensures var m := FirstMatch(rules, path); m.Some? ==> ValidAction(m.value)
  {
    if rules == [] {
    } else {
      MatchIsValid(rules[1..], path);
    }
  }

  ghost predicate OnChain(ps: Policies, id: string, x: string) {
    exists n: nat :: Ancestor(ps, id, x, n)
  }

  lemma {:induction false} OffChainEvaluation(ps: Policies, p: Policy, id: string, path: string, depth: nat)
    requires !OnChain(ps, id, p.id)
    ensures Evaluate(ps[p.id := p], id, path, depth) == Evaluate(ps, id, path, depth)
    decreases depth
  {
    assert Ancestor(ps, id, id, 0);
    if depth > 0 && !Stops(ps, id, path) {
      var next := ps[id].parentID;
      forall n: nat
        ensures Ancestor(ps, next, p.id, n) ==> Ancestor(ps, id, p.id, n + 1)
      {
      }
      OffChainEvaluation(ps, p, next, path, depth - 1);
    }
  }

  /** Loading a policy that is not on the active chain changes no decision, returning or not. */
  lemma OffChainLoadChangesNothing(s: State, p: Policy, path: string)
    requires Good(s) && s.active != "" && !OnChain(s.policies, s.active, p.id)
    ensures Decide(Load(s, p), path) == Decide(s, path)
  {
    var ps, qs := s.policies, s.policies[p.id := p];
    EvaluationReturnsIffNoSilentCycle(ps, s.active, path);
    EvaluationReturnsIffNoSilentCycle(qs, s.active, path);
    forall depth: nat
      ensures Evaluate(qs, s.active, path, depth) == Evaluate(ps, s.active, path, depth)
    {
      OffChainEvaluation(ps, p, s.active, path, depth);
    }
    if depth: nat :| Evaluate(ps, s.active, path, depth).Some? {
      assert Evaluate(qs, s.active, path, depth).Some?;
    }
  }

  /** A policy that is its own parent and matches nothing keeps evaluation from ever returning. */
  lemma OwnParentHangs(path: string, depth: nat)
    ensures var s := Run(State(map[], ""), [DoLoad(Policy("a", "a", [], 0)), DoActivate("a")]);
      && Good(s) && s.active == "a" && Decide(s, path) == None
      && Evaluate(s.policies, s.active, path, depth) == None
  {
    var p := Policy("a", "a", [], 0);
    var ops := [DoLoad(p), DoActivate("a")];
    var ps: Policies := map["a" := p];
    var loaded := Apply(State(map[], ""), ops[0]);
    assert ops[1..] == [DoActivate("a")] && ops[1..][1..] == [];
    assert loaded == State(ps, "") && Run(loaded, ops[1..]) == State(ps, "a");
    assert Leads(ps, path, "a", "a", 0);
    LeadsOn(ps, path, "a", "a", 0);
    EvaluationReturnsIffNoSilentCycle(ps, "a", path);
  }
}
