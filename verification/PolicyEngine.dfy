/** The policy engine: loading checks every rule, activation needs a loaded policy, evaluation follows
    parents by recursion. */
module PolicyEngine {
  import opened Text
  import opened PolicySpec

  /** Why a policy is refused. */
  datatype PolicyError = EmptyPolicyID | EmptyRuleID | InvalidAction(action: string) | EmptyProcessPath

  /** The first complaint about a rule, in the order the checks are made. */
  function Complaint(r: Rule): Option<PolicyError> {
    if r.id == "" then Some(EmptyRuleID)
    else if !ValidAction(r.action) then Some(InvalidAction(r.action))
    else if r.processPath == "" then Some(EmptyProcessPath)
    else None
  }

  /** Rule `i` is the first bad one, and `err` is what is wrong with it. */
  predicate FirstBad(rules: seq<Rule>, i: nat, err: Option<PolicyError>) {
    i < |rules| && Complaint(rules[i]) == err && forall j :: 0 <= j < i ==> ValidRule(rules[j])
  }

  class Engine {
    var policies: Policies
    var activePolicyID: string

    ghost function View(): State
      reads this
    {
      State(policies, activePolicyID)
    }

    constructor ()
      ensures View() == State(map[], "") && Good(View())
    {
      policies, activePolicyID := map[], "";
    }

    /** The error is that of the first bad rule, and there is none exactly when the policy is valid. */
    method ValidatePolicy(p: Policy) returns (err: Option<PolicyError>)
      ensures err.None? <==> ValidPolicy(p)
      ensures err.None? <==> p.id != "" && forall i :: 0 <= i < |p.rules| ==>
        && p.rules[i].id != "" && p.rules[i].processPath != ""
        && p.rules[i].action in {"Allow", "Deny", "Monitor", "Audit", "Ignore"}
      ensures p.id == "" ==> err == Some(EmptyPolicyID)
      ensures p.id != "" && err.Some? ==> exists i: nat :: FirstBad(p.rules, i, err)
    {
      if p.id == "" {
        return Some(EmptyPolicyID);
      }
      for i := 0 to |p.rules|
        invariant forall j :: 0 <= j < i ==> ValidRule(p.rules[j])
      {
        var rule := p.rules[i];
        if rule.id == "" {
          assert FirstBad(p.rules, i, Some(EmptyRuleID));
          return Some(EmptyRuleID);
        }
        var act := rule.action;
        if act != ALLOW && act != DENY && act != MONITOR && act != AUDIT && act != IGNORE {
          assert FirstBad(p.rules, i, Some(InvalidAction(act)));
          return Some(InvalidAction(act));
        }
        if rule.processPath == "" {
          assert FirstBad(p.rules, i, Some(EmptyProcessPath));
          return Some(EmptyProcessPath);
        }
      }
      err := None;
    }

    method LoadPolicy(p: Policy) returns (err: Option<PolicyError>)
      requires Good(View())
      modifies this`policies
      ensures Good(View()) && View() == Load(old(View()), p)
      ensures err.None? <==> ValidPolicy(p)
      ensures policies == if err.None? then old(policies)[p.id := p] else old(policies)
    {
      err := ValidatePolicy(p);
      if err.None? {
        policies := policies[p.id := p];
      }
    }

    method SetActivePolicy(id: string) returns (ok: bool)
      requires Good(View())
      modifies this`activePolicyID
      ensures Good(View()) && View() == Activate(old(View()), id)
      ensures ok <==> id in policies
      ensures activePolicyID == if ok then id else old(activePolicyID)
    {
      ok := id in policies;
      if ok {
        activePolicyID := id;
      }
    }

    /** The source recurses without looking for cycles, and a parent cycle in which no rule matches keeps it
        from ever returning. */
    method EvaluateRule(path: string) returns (action: string)
      requires Good(View()) && (activePolicyID != "" ==> !LeadsIntoCycle(policies, path, activePolicyID))
      ensures Some(action) == Decide(View(), path) && ValidAction(action)
      ensures activePolicyID == "" ==> action == "Monitor"
      ensures action in {"Allow", "Deny", "Monitor", "Audit", "Ignore"}
    {
      if activePolicyID == "" {
        return MONITOR;
      }
      EvaluationReturnsIffNoSilentCycle(policies, activePolicyID, path);
      VerdictsAreValid(View(), activePolicyID, path, {});
      action := EvaluateChain(activePolicyID, path, {});
    }

    method EvaluateChain(id: string, path: string, ghost seen: set<string>) returns (action: string)
      requires Resolve(policies, id, path, seen).Some?
      ensures Some(action) == Resolve(policies, id, path, seen)
      decreases policies.Keys - seen
    {
      if id !in policies {
        return MONITOR;
      }
      var p := policies[id];
      var found := FirstAction(p.rules, path);
      if found.Some? {
        return found.value;
      }
      if p.parentID != "" {
        assert id in policies.Keys - seen;
        action := EvaluateChain(p.parentID, path, seen + {id});
        return;
      }
      action := MONITOR;
    }

    method FirstAction(rules: seq<Rule>, path: string) returns (found: Option<string>)
      ensures found == FirstMatch(rules, path)
    {
      for i := 0 to |rules|
        invariant FirstMatch(rules[i..], path) == FirstMatch(rules, path)
      {
        if Contains(path, rules[i].processPath) {
          return Some(rules[i].action);
        }
        assert rules[i..][1..] == rules[i + 1..];
      }
      found := None;
    }
  }
}
