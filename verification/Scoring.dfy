/** Noisy-or risk scoring over exact reals. */
module Scoring {
  import opened Collections
  import opened UnitProducts

  datatype EngineResult = EngineResult(engineName: string, severity: real, weight: real, mitreIDs: seq<string>)

  datatype Alert = Alert(compoundScore: real, triggeredBy: seq<string>, mitreTags: seq<string>)

  /** math.Max(0, math.Min(1, x)). */
  function Clamp(x: real): Unit {
    if x > 1.0 then 1.0 else if x < 0.0 then 0.0 else x
  }

  /** How much one engine's verdict counts. */
  function Share(r: EngineResult): Unit {
    Times(Clamp(r.severity), Clamp(r.weight))
  }

  function Doubt(r: EngineResult): Unit {
    1.0 - Share(r)
  }

  function Score(rs: seq<EngineResult>): Unit {
    NoisyOr(rs, Doubt)
  }

  /** No verdict scores nothing, and one scores its severity times its weight, each held to between zero and
      one. With the law for batches below this fixes every score. */
  lemma ScoreOfOne(r: EngineResult)
    ensures Score([]) == 0.0
    ensures var severity := if r.severity < 0.0 then 0.0 else if r.severity > 1.0 then 1.0 else r.severity;
      var weight := if r.weight < 0.0 then 0.0 else if r.weight > 1.0 then 1.0 else r.weight;
      Score([r]) == severity * weight
  {
    assert [r][1..] == [];
    assert Product([], Doubt) == 1.0;
    assert Product([r], Doubt) == Times(Doubt(r), 1.0);
  }

  /** Two batches of verdicts combine as independent doubts. */
  lemma ScoreOfConcat(a: seq<EngineResult>, b: seq<EngineResult>)
    ensures Score(a + b) == 1.0 - Times(1.0 - Score(a), 1.0 - Score(b))
    ensures Score(a + b) >= Score(a) && Score(a + b) >= Score(b)
  {
    NoisyOrOfConcat(a, b, Doubt);
  }

  /** The order of the verdicts does not matter. */
  lemma ScoreIgnoresOrder(a: seq<EngineResult>, b: seq<EngineResult>)
    requires multiset(a) == multiset(b)
    ensures Score(a) == Score(b)
  {
    ProductIgnoresOrder(a, b, Doubt);
  }

  /** More verdicts never lower the score. */
  lemma ScoreGrows(a: seq<EngineResult>, b: seq<EngineResult>)
    requires multiset(a) <= multiset(b)
    ensures Score(a) <= Score(b)
  {
    ProductShrinks(a, b, Doubt);
  }

  function SumOfShares(rs: seq<EngineResult>): real {
    if rs == [] then 0.0 else Share(rs[0]) + SumOfShares(rs[1..])
  }

  /** The score is at least every single share, at most their sum, and at most one. */
  lemma ScoreBetweenMaxAndSum(rs: seq<EngineResult>)
    ensures forall i :: 0 <= i < |rs| ==> Share(rs[i]) <= Score(rs)
    ensures Score(rs) <= SumOfShares(rs) && Score(rs) <= 1.0
  {
    ProductAtMostEach(rs, Doubt);
    NoisyOrAtMostSum(rs, Doubt);
    SumIsSumOfShares(rs);
  }

  lemma {:induction false} SumIsSumOfShares(rs: seq<EngineResult>)
    ensures Sum(rs, Doubt) == SumOfShares(rs)
  {
    if rs == [] {
    } else {
      SumIsSumOfShares(rs[1..]);
    }
  }

  /** Past 1.0 a severity counts no more: the clamp makes the engines' one-to-ten scale flat. */
  lemma SeveritySaturates(r: EngineResult, severity: real)
    requires r.severity >= 1.0 && severity >= 1.0
    ensures Share(r.(severity := severity)) == Share(r) == Clamp(r.weight)
  {
  }

  method CalculateCompoundScore(results: seq<EngineResult>) returns (score: real)
    ensures score == Score(results)
  {
    if |results| == 0 {
      return 0.0;
    }
    var product: Unit := 1.0;
    for i := 0 to |results|
      invariant product == Product(results[..i], Doubt)
    {
      ProductAppend(results[..i], results[i], Doubt);
      assert results[..i + 1] == results[..i] + [results[i]];
      var sev := Clamp(results[i].severity);
      var weight := Clamp(results[i].weight);
      var doubt: Unit := 1.0 - Times(sev, weight);
      product := Times(product, doubt);
    }
    assert results[..|results|] == results;
    score := 1.0 - product;
  }

  function Names(rs: seq<EngineResult>): (n: seq<string>)
    ensures |n| == |rs| && forall i :: 0 <= i < |rs| ==> n[i] == rs[i].engineName
  {
    seq(|rs|, i requires 0 <= i < |rs| => rs[i].engineName)
  }

  ghost predicate Tagged(rs: seq<EngineResult>, id: string) {
    exists i :: 0 <= i < |rs| && id in rs[i].mitreIDs
  }

  ghost predicate IsAlertFor(a: Alert, rs: seq<EngineResult>) {
    && a.compoundScore == Score(rs)
    && a.triggeredBy == Names(rs)
    && (forall id :: id in a.mitreTags <==> Tagged(rs, id))
    && (forall i, j :: 0 <= i < j < |a.mitreTags| ==> a.mitreTags[i] != a.mitreTags[j])
  }

  /** The alert names every engine in order and every technique once, in an order of the runtime's choice. */
  method GenerateAlert(results: seq<EngineResult>) returns (a: Alert)
    ensures IsAlertFor(a, results)
  {
    var score := CalculateCompoundScore(results);
    var triggers: seq<string> := [];
    var mitre: set<string> := {};
    for i := 0 to |results|
      invariant triggers == Names(results)[..i]
      invariant forall id :: id in mitre <==> Tagged(results[..i], id)
    {
      triggers := triggers + [results[i].engineName];
      mitre := AddTags(mitre, results[i].mitreIDs);
      TaggedStep(results, i);
    }
    assert results[..|results|] == results;
    var tags := ListOf(mitre);
    a := Alert(score, triggers, tags);
  }

  lemma TaggedStep(rs: seq<EngineResult>, i: nat)
    requires i < |rs|
    ensures forall id :: Tagged(rs[..i + 1], id) <==> Tagged(rs[..i], id) || id in rs[i].mitreIDs
  {
    assert rs[..i + 1] == rs[..i] + [rs[i]];
    forall id | Tagged(rs[..i], id) || id in rs[i].mitreIDs
      ensures Tagged(rs[..i + 1], id)
    {
      if id in rs[i].mitreIDs {
        assert rs[..i + 1][i] == rs[i];
      } else {
        var j :| 0 <= j < i && id in rs[..i][j].mitreIDs;
        assert rs[..i + 1][j] == rs[..i][j];
      }
    }
    forall id | Tagged(rs[..i + 1], id) && id !in rs[i].mitreIDs
      ensures Tagged(rs[..i], id)
    {
      var j :| 0 <= j < i + 1 && id in rs[..i + 1][j].mitreIDs;
      assert rs[..i][j] == rs[..i + 1][j];
    }
  }

  method AddTags(s: set<string>, ids: seq<string>) returns (t: set<string>)
    ensures forall id :: id in t <==> id in s || id in ids
  {
    t := s;
    for k := 0 to |ids|
      invariant forall id :: id in t <==> id in s || id in ids[..k]
    {
      assert ids[..k + 1] == ids[..k] + [ids[k]];
      t := t + {ids[k]};
    }
    assert ids[..|ids|] == ids;
  }

  method ListOf(s: set<string>) returns (l: seq<string>)
    ensures forall x :: x in l <==> x in s
    ensures forall i, j :: 0 <= i < j < |l| ==> l[i] != l[j]
  {
    l := [];
    var todo := s;
    while todo != {}
      invariant todo <= s
      invariant forall x :: x in l <==> x in s && x !in todo
      invariant forall i, j :: 0 <= i < j < |l| ==> l[i] != l[j]
      decreases todo
    {
      var x := Pick(todo);
      l := l + [x];
      todo := todo - {x};
    }
  }
}
