/** The detection pipeline as a fold of stages over one event, and what does not depend on the order or
    the size of its detectors. */
module DetectionSpec {
  import opened Text
  import opened TelemetryEvents
  import opened Scoring
  import UnitProducts

  datatype Stage =
    | Normalizer
    | BehaviorAnalysis
    | Heuristic
    | IOCMatching(iocs: map<string, string>)
    | YARA(rules: map<string, bool>)
    | Sigma(patterns: seq<string>)
    | ThreatIntelligence(indicators: map<string, bool>)
    | Correlation
    | RiskScoring(threshold: real)
    | AlertSender

  /** What a stage notes beside its verdict; the wording is left to the reader. */
  datatype Match =
    | SpawnedByInit | SuspiciousArgument | KnownHash(threat: string) | SignatureHit
    | SigmaHit(pattern: string) | KnownAddress | SeveralEngines

  /** What the stages share: the verdicts so far, the notes, whether an alert is due, and the verdicts the
      last alert was made from. */
  datatype Findings = Findings(
    results: seq<EngineResult>, matches: seq<Match>, triggered: bool, scored: seq<EngineResult>)

  const NOTHING := Findings([], [], false, [])

  predicate IsDetector(s: Stage) {
    !s.Normalizer? && !s.Correlation? && !s.RiskScoring? && !s.AlertSender?
  }

  predicate Listed(m: map<string, bool>, key: string) {
    key in m && m[key]
  }

  predicate AnyPattern(patterns: seq<string>, line: string) {
    exists i :: 0 <= i < |patterns| && Contains(line, patterns[i])
  }

  /** Pattern `i` is the first found in the line. */
  predicate FirstAt(patterns: seq<string>, line: string, i: nat) {
    i < |patterns| && Contains(line, patterns[i]) && forall j :: 0 <= j < i ==> !Contains(line, patterns[j])
  }

  function FirstPattern(patterns: seq<string>, line: string): (p: string)
    requires AnyPattern(patterns, line)
    ensures exists i: nat :: FirstAt(patterns, line, i) && patterns[i] == p
  {
    if Contains(line, patterns[0]) then
      assert FirstAt(patterns, line, 0);
      patterns[0]
    else
      var rest := patterns[1..];
      assert AnyPattern(rest, line) by {
        var i :| 0 <= i < |patterns| && Contains(line, patterns[i]);
        assert rest[i - 1] == patterns[i];
      }
      var p := FirstPattern(rest, line);
      assert exists i: nat :: FirstAt(patterns, line, i) && patterns[i] == p by {
        var i: nat :| FirstAt(rest, line, i) && rest[i] == p;
        assert forall j :: 1 <= j < i + 1 ==> patterns[j] == rest[j - 1];
        assert FirstAt(patterns, line, i + 1);
      }
      p
  }

  /** Whether a detector fires on an event. */
  predicate Fires(s: Stage, e: Event)
    requires IsDetector(s)
  {
    match s
    case BehaviorAnalysis => e.typ == "process" && e.parentID == 1
    case Heuristic => Contains(e.commandLine, "-nop") || Contains(e.commandLine, "-enc")
    case IOCMatching(iocs) => e.sha256 in iocs
    case YARA(rules) => e.typ == "process" && Listed(rules, e.binaryPath)
    case Sigma(patterns) => AnyPattern(patterns, e.commandLine)
    case ThreatIntelligence(indicators) => Listed(indicators, e.remoteIP)
  }

  function Verdict(s: Stage): EngineResult
    requires IsDetector(s) || s.Correlation?
  {
    match s
    case BehaviorAnalysis => EngineResult("BehaviorAnalysis", 3.0, 0.5, ["T1059"])
    case Heuristic => EngineResult("Heuristic", 6.5, 0.7, ["T1059.001"])
    case IOCMatching(_) => EngineResult("IOCMatching", 9.5, 0.9, ["T1204.002"])
    case YARA(_) => EngineResult("YARA", 8.0, 0.8, ["T1059"])
    case Sigma(_) => EngineResult("Sigma", 7.0, 0.8, ["T1059"])
    case ThreatIntelligence(_) => EngineResult("ThreatIntelligence", 9.0, 0.9, ["T1071.001"])
    case Correlation => EngineResult("Correlation", 5.0, 0.5, ["T1059"])
  }

  function NoteOf(s: Stage, e: Event): Match
    requires (IsDetector(s) && Fires(s, e)) || s.Correlation?
  {
    match s
    case BehaviorAnalysis => SpawnedByInit
    case Heuristic => SuspiciousArgument
    case IOCMatching(iocs) => KnownHash(iocs[e.sha256])
    case YARA(_) => SignatureHit
    case Sigma(patterns) => SigmaHit(FirstPattern(patterns, e.commandLine))
    case ThreatIntelligence(_) => KnownAddress
    case Correlation => SeveralEngines
  }

  function Report(f: Findings, s: Stage, e: Event): Findings
    requires (IsDetector(s) && Fires(s, e)) || s.Correlation?
  {
    f.(results := f.results + [Verdict(s)], matches := f.matches + [NoteOf(s, e)])
  }

  function NormalizeEvent(e: Event): Event {
    e.(binaryPath := TrimSpace(e.binaryPath), sha256 := ToLower(TrimSpace(e.sha256)))
  }

  function EventAfter(s: Stage, e: Event): Event {
    if s.Normalizer? then NormalizeEvent(e) else e
  }

  /** What one stage does to the findings. `scored` is the verdicts the last alert was made from. */
  function Step(s: Stage, e: Event, f: Findings): Findings {
    if IsDetector(s) then (if Fires(s, e) then Report(f, s, e) else f)
    else match s
      case Correlation => if |f.results| >= 2 then Report(f, s, e) else f
      case RiskScoring(threshold) =>
        if f.results == [] then f
        else f.(scored := f.results, triggered := f.triggered || Score(f.results) >= threshold)
      case _ => f
  }

  function EventAfterAll(ss: seq<Stage>, e: Event): Event {
    if ss == [] then e else EventAfterAll(ss[1..], EventAfter(ss[0], e))
  }

  function Run(ss: seq<Stage>, e: Event, f: Findings): Findings
    decreases |ss|
  {
    if ss == [] then f else Run(ss[1..], EventAfter(ss[0], e), Step(ss[0], e, f))
  }

  lemma {:induction false} RunConcat(a: seq<Stage>, b: seq<Stage>, e: Event, f: Findings)
    ensures Run(a + b, e, f) == Run(b, EventAfterAll(a, e), Run(a, e, f))
    ensures EventAfterAll(a + b, e) == EventAfterAll(b, EventAfterAll(a, e))
    decreases |a|
  {
    if a == [] {
      assert a + b == b;
    } else {
      assert (a + b)[1..] == a[1..] + b;
      RunConcat(a[1..], b, EventAfter(a[0], e), Step(a[0], e, f));
    }
  }

  // ---------- Enlarging detectors ----------

  /** `t` is `s` with more indicators. */
  ghost predicate Extends(s: Stage, t: Stage) {
    match (s, t)
    case (IOCMatching(m), IOCMatching(n)) => m.Keys <= n.Keys
    case (YARA(m), YARA(n)) => forall k :: k in m && m[k] ==> k in n && n[k]
    case (ThreatIntelligence(m), ThreatIntelligence(n)) => forall k :: k in m && m[k] ==> k in n && n[k]
    case (Sigma(p), Sigma(q)) => forall i :: 0 <= i < |p| ==> p[i] in q
    case _ => s == t
  }

  lemma ExtendedFiresToo(s: Stage, t: Stage, e: Event)
    requires Extends(s, t) && IsDetector(s)
    ensures IsDetector(t) && Verdict(s) == Verdict(t)
    ensures Fires(s, e) ==> Fires(t, e)
  {
    if s.Sigma? && Fires(s, e) {
      var i :| 0 <= i < |s.patterns| && Contains(e.commandLine, s.patterns[i]);
      var j :| 0 <= j < |t.patterns| && t.patterns[j] == s.patterns[i];
      assert Contains(e.commandLine, t.patterns[j]);
    }
  }

  /** At least as much was found. */
  ghost predicate AtLeast(f: Findings, g: Findings) {
    multiset(f.results) <= multiset(g.results) && (f.triggered ==> g.triggered)
  }

  /** What a detector adds to the verdicts. */
  function Found(s: Stage, e: Event): seq<EngineResult>
    requires IsDetector(s)
  {
    if Fires(s, e) then [Verdict(s)] else []
  }

  function Noted(s: Stage, e: Event): seq<Match>
    requires IsDetector(s)
  {
    if Fires(s, e) then [NoteOf(s, e)] else []
  }

  function Add(f: Findings, rs: seq<EngineResult>, ms: seq<Match>): Findings {
    f.(results := f.results + rs, matches := f.matches + ms)
  }

  lemma DetectorAdds(s: Stage, e: Event, f: Findings)
    requires IsDetector(s)
    ensures Step(s, e, f) == Add(f, Found(s, e), Noted(s, e))
  {
  }

  lemma AddKeepsAtLeast(f: Findings, g: Findings, x: seq<EngineResult>, y: seq<EngineResult>,
                        m: seq<Match>, n: seq<Match>)
    requires AtLeast(f, g) && (x == y || x == [])
    ensures AtLeast(Add(f, x, m), Add(g, y, n))
  {
    assert multiset(f.results + x) == multiset(f.results) + multiset(x);
    assert multiset(g.results + y) == multiset(g.results) + multiset(y);
  }

  lemma DetectorKeepsAtLeast(s: Stage, t: Stage, e: Event, f: Findings, g: Findings)
    requires Extends(s, t) && IsDetector(s) && AtLeast(f, g)
    ensures AtLeast(Step(s, e, f), Step(t, e, g))
  {
    ExtendedFiresToo(s, t, e);
    DetectorAdds(s, e, f);
    DetectorAdds(t, e, g);
    AddKeepsAtLeast(f, g, Found(s, e), Found(t, e), Noted(s, e), Noted(t, e));
  }

  lemma NoFewer<T>(a: seq<T>, b: seq<T>)
    requires multiset(a) <= multiset(b)
    ensures |a| <= |b|
  {
    var d := multiset(b) - multiset(a);
    assert multiset(b) == multiset(a) + d;
    assert |multiset(a)| == |a| && |multiset(b)| == |b|;
  }

  function CorrelationFound(f: Findings): seq<EngineResult> {
    if |f.results| >= 2 then [Verdict(Correlation)] else []
  }

  function CorrelationNoted(f: Findings): seq<Match> {
    if |f.results| >= 2 then [SeveralEngines] else []
  }

  lemma CorrelationAdds(e: Event, f: Findings)
    ensures Step(Correlation, e, f) == Add(f, CorrelationFound(f), CorrelationNoted(f))
  {
  }

  lemma CorrelationKeepsAtLeast(e: Event, f: Findings, g: Findings)
    requires AtLeast(f, g)
    ensures AtLeast(Step(Correlation, e, f), Step(Correlation, e, g))
  {
    NoFewer(f.results, g.results);
    CorrelationAdds(e, f);
    CorrelationAdds(e, g);
    AddKeepsAtLeast(f, g, CorrelationFound(f), CorrelationFound(g), CorrelationNoted(f), CorrelationNoted(g));
  }

  lemma ScoringKeepsAtLeast(threshold: real, e: Event, f: Findings, g: Findings)
    requires AtLeast(f, g)
    ensures AtLeast(Step(RiskScoring(threshold), e, f), Step(RiskScoring(threshold), e, g))
  {
    if f.results != [] {
      assert f.results[0] in multiset(g.results);
      ScoreGrows(f.results, g.results);
    }
  }

  lemma StepKeepsAtLeast(s: Stage, t: Stage, e: Event, f: Findings, g: Findings)
    requires Extends(s, t) && AtLeast(f, g)
    ensures AtLeast(Step(s, e, f), Step(t, e, g)) && EventAfter(s, e) == EventAfter(t, e)
  {
    if IsDetector(s) {
      DetectorKeepsAtLeast(s, t, e, f, g);
    } else if s.Correlation? {
      CorrelationKeepsAtLeast(e, f, g);
    } else if s.RiskScoring? {
      ScoringKeepsAtLeast(s.threshold, e, f, g);
    }
  }

  /** Enlarging any detectors, wherever they stand, never lowers the score and never clears the alert. */
  lemma {:induction false} MoreIndicatorsNeverHide(ss: seq<Stage>, tt: seq<Stage>, e: Event, f: Findings, g: Findings)
    requires |ss| == |tt| && (forall i :: 0 <= i < |ss| ==> Extends(ss[i], tt[i])) && AtLeast(f, g)
    ensures AtLeast(Run(ss, e, f), Run(tt, e, g))
    ensures Score(Run(ss, e, f).results) <= Score(Run(tt, e, g).results)
    decreases |ss|
  {
    if ss == [] {
      ScoreGrows(f.results, g.results);
    } else {
      StepKeepsAtLeast(ss[0], tt[0], e, f, g);
      MoreIndicatorsNeverHide(ss[1..], tt[1..], EventAfter(ss[0], e), Step(ss[0], e, f), Step(tt[0], e, g));
    }
  }

  // ---------- Reordering detectors ----------

  /** The same findings, in whatever order. */
  ghost predicate Alike(f: Findings, g: Findings) {
    && multiset(f.results) == multiset(g.results)
    && f.triggered == g.triggered
    && multiset(f.matches) == multiset(g.matches)
  }

  lemma AddKeepsAlike(f: Findings, g: Findings, x: seq<EngineResult>, m: seq<Match>)
    requires Alike(f, g)
    ensures Alike(Add(f, x, m), Add(g, x, m))
  {
    assert multiset(f.results + x) == multiset(f.results) + multiset(x);
    assert multiset(g.results + x) == multiset(g.results) + multiset(x);
    assert multiset(f.matches + m) == multiset(f.matches) + multiset(m);
    assert multiset(g.matches + m) == multiset(g.matches) + multiset(m);
  }

  lemma ScoringKeepsAlike(threshold: real, e: Event, f: Findings, g: Findings)
    requires Alike(f, g)
    ensures Alike(Step(RiskScoring(threshold), e, f), Step(RiskScoring(threshold), e, g))
  {
    NoFewer(f.results, g.results);
    NoFewer(g.results, f.results);
    ScoreIgnoresOrder(f.results, g.results);
  }

  lemma StepKeepsAlike(s: Stage, e: Event, f: Findings, g: Findings)
    requires Alike(f, g)
    ensures Alike(Step(s, e, f), Step(s, e, g))
  {
    if IsDetector(s) {
      DetectorAdds(s, e, f);
      DetectorAdds(s, e, g);
      AddKeepsAlike(f, g, Found(s, e), Noted(s, e));
    } else if s.Correlation? {
      NoFewer(f.results, g.results);
      NoFewer(g.results, f.results);
      CorrelationAdds(e, f);
      CorrelationAdds(e, g);
      AddKeepsAlike(f, g, CorrelationFound(f), CorrelationNoted(f));
    } else if s.RiskScoring? {
      ScoringKeepsAlike(s.threshold, e, f, g);
    }
  }

  lemma {:induction false} RunKeepsAlike(ss: seq<Stage>, e: Event, f: Findings, g: Findings)
    requires Alike(f, g)
    ensures Alike(Run(ss, e, f), Run(ss, e, g))
    ensures Score(Run(ss, e, f).results) == Score(Run(ss, e, g).results)
    decreases |ss|
  {
    if ss == [] {
      ScoreIgnoresOrder(f.results, g.results);
    } else {
      StepKeepsAlike(ss[0], e, f, g);
      RunKeepsAlike(ss[1..], EventAfter(ss[0], e), Step(ss[0], e, f), Step(ss[0], e, g));
    }
  }

  lemma DetectorsSwap(s: Stage, t: Stage, e: Event, f: Findings)
    requires IsDetector(s) && IsDetector(t)
    ensures Alike(Step(t, e, Step(s, e, f)), Step(s, e, Step(t, e, f)))
  {
    DetectorAdds(s, e, f);
    DetectorAdds(t, e, f);
    DetectorAdds(t, e, Step(s, e, f));
    DetectorAdds(s, e, Step(t, e, f));
    AddsSwap(f, Found(s, e), Found(t, e), Noted(s, e), Noted(t, e));
  }

  lemma AddsSwap(f: Findings, x: seq<EngineResult>, y: seq<EngineResult>, m: seq<Match>, n: seq<Match>)
    ensures Alike(Add(Add(f, x, m), y, n), Add(Add(f, y, n), x, m))
  {
    assert multiset(f.matches + m + n) == multiset(f.matches) + multiset(m) + multiset(n);
    assert multiset(f.matches + n + m) == multiset(f.matches) + multiset(n) + multiset(m);
    assert multiset(f.results + x + y) == multiset(f.results) + multiset(x) + multiset(y);
    assert multiset(f.results + y + x) == multiset(f.results) + multiset(y) + multiset(x);
  }

  ghost predicate AllDetectors(ss: seq<Stage>) {
    forall i :: 0 <= i < |ss| ==> IsDetector(ss[i])
  }

  /** A detector taken from the middle of others to their front. */
  lemma {:induction false} DetectorMovesFront(a: seq<Stage>, s: Stage, b: seq<Stage>, e: Event, f: Findings)
    requires AllDetectors(a) && IsDetector(s)
    ensures Alike(Run(a + [s] + b, e, f), Run([s] + (a + b), e, f))
    decreases |a|
  {
    if a == [] {
      assert a + [s] + b == [s] + (a + b);
    } else {
      var u := a[0];
      assert (a + [s] + b)[1..] == a[1..] + [s] + b;
      DetectorMovesFront(a[1..], s, b, e, Step(u, e, f));
      assert ([s] + (a[1..] + b))[1..] == a[1..] + b;
      assert ([s] + (a + b))[1..] == a + b && (a + b)[1..] == a[1..] + b;
      DetectorsSwap(u, s, e, f);
      RunKeepsAlike(a[1..] + b, e, Step(s, e, Step(u, e, f)), Step(u, e, Step(s, e, f)));
    }
  }

  lemma {:induction false} ReorderedDetectorsAlike(a: seq<Stage>, b: seq<Stage>, e: Event, f: Findings)
    requires AllDetectors(a) && multiset(a) == multiset(b)
    ensures Alike(Run(a, e, f), Run(b, e, f))
    decreases |a|
  {
    if a == [] {
      assert |multiset(b)| == 0;
    } else {
      var k := UnitProducts.CutHead(a, b);
      var rest := b[..k] + b[k + 1..];
      SameElements(a, b);
      assert AllDetectors(b[..k]);
      DetectorMovesFront(b[..k], a[0], b[k + 1..], e, f);
      ReorderedDetectorsAlike(a[1..], rest, e, Step(a[0], e, f));
      assert ([a[0]] + rest)[1..] == rest;
    }
  }

  lemma SameElements(a: seq<Stage>, b: seq<Stage>)
    requires AllDetectors(a) && multiset(a) == multiset(b)
    ensures AllDetectors(b)
  {
    forall i | 0 <= i < |b|
      ensures IsDetector(b[i])
    {
      assert b[i] in multiset(b);
      assert b[i] in a;
    }
  }

  lemma {:induction false} DetectorsKeepEvent(a: seq<Stage>, e: Event)
    requires AllDetectors(a)
    ensures EventAfterAll(a, e) == e
  {
    if a == [] {
    } else {
      DetectorsKeepEvent(a[1..], e);
    }
  }

  /** Reordering detectors, whatever runs before and after them, changes neither score nor alert. */
  lemma DetectorOrderIsInvisible(before: seq<Stage>, a: seq<Stage>, b: seq<Stage>, after: seq<Stage>, e: Event)
    requires AllDetectors(a) && multiset(a) == multiset(b)
    ensures var f, g := Run(before + a + after, e, NOTHING), Run(before + b + after, e, NOTHING);
      Score(f.results) == Score(g.results) && f.triggered == g.triggered
  {
    var e', f := EventAfterAll(before, e), Run(before, e, NOTHING);
    SameElements(a, b);
    RunConcat(before + a, after, e, NOTHING);
    RunConcat(before + b, after, e, NOTHING);
    RunConcat(before, a, e, NOTHING);
    RunConcat(before, b, e, NOTHING);
    DetectorsKeepEvent(a, e');
    DetectorsKeepEvent(b, e');
    ReorderedDetectorsAlike(a, b, e', f);
    RunKeepsAlike(after, e', Run(a, e', f), Run(b, e', f));
  }

  // ---------- What is sent ----------

  /** The verdicts of the alert a stage has to send, if it has one to send. */
  function DueNow(s: Stage, f: Findings): seq<seq<EngineResult>> {
    if s.AlertSender? && f.triggered then [f.scored] else []
  }

  /** For each alert the run has to send, the verdicts it is made from. */
  function Due(ss: seq<Stage>, e: Event, f: Findings): seq<seq<EngineResult>>
    decreases |ss|
  {
    if ss == [] then []
    else
      DueNow(ss[0], f) + Due(ss[1..], EventAfter(ss[0], e), Step(ss[0], e, f))
  }

  /** The channel took the first of the alerts due, for as long as it had room. */
  ghost predicate Delivered(before: seq<Alert>, after: seq<Alert>, due: seq<seq<EngineResult>>, capacity: nat) {
    && before <= after
    && |after| - |before| <= |due|
    && (|after| - |before| < |due| ==> |after| >= capacity)
    && (|after| > |before| ==> |after| <= capacity)
    && forall i :: 0 <= i < |after| - |before| ==> IsAlertFor(after[|before| + i], due[i])
  }

  lemma DeliveredOne(before: seq<Alert>, after: seq<Alert>, due: seq<seq<EngineResult>>, capacity: nat,
                     a: Alert, rs: seq<EngineResult>)
    requires Delivered(before, after, due, capacity) && IsAlertFor(a, rs)
    ensures Delivered(before, if |after| < capacity then after + [a] else after, due + [rs], capacity)
  {
  }

  /** These verdicts reach the threshold of some risk scoring among the first `k` stages. */
  ghost predicate ReachesThreshold(rs: seq<EngineResult>, all: seq<Stage>, k: nat) {
    k <= |all| && exists i :: 0 <= i < k && all[i].RiskScoring? && Score(rs) >= all[i].threshold
  }

  /** After the first `k` stages: the verdicts last scored are among those found, and if they triggered the
      alert they reach one of the thresholds passed so far. */
  ghost predicate Justified(f: Findings, all: seq<Stage>, k: nat) {
    && multiset(f.scored) <= multiset(f.results)
    && (f.triggered ==> ReachesThreshold(f.scored, all, k))
  }

  lemma StepKeepsJustified(all: seq<Stage>, k: nat, e: Event, f: Findings)
    requires k < |all| && Justified(f, all, k)
    ensures Justified(Step(all[k], e, f), all, k + 1)
  {
    var s := all[k];
    if IsDetector(s) {
      DetectorAdds(s, e, f);
      assert multiset(f.results + Found(s, e)) == multiset(f.results) + multiset(Found(s, e));
    } else if s.Correlation? {
      CorrelationAdds(e, f);
      assert multiset(f.results + CorrelationFound(f)) == multiset(f.results) + multiset(CorrelationFound(f));
    } else if s.RiskScoring? {
      ScoreGrows(f.scored, f.results);
    }
  }

  /** Stage `k` sends an alert made from these verdicts, and they reach a threshold before it. */
  ghost predicate SentBy(all: seq<Stage>, k: nat, rs: seq<EngineResult>) {
    k < |all| && all[k].AlertSender? && ReachesThreshold(rs, all, k)
  }

  ghost predicate IsSent(all: seq<Stage>, rs: seq<EngineResult>) {
    exists k: nat :: SentBy(all, k, rs)
  }

  lemma {:induction false} DueFromStage(all: seq<Stage>, k: nat, e: Event, f: Findings)
    requires k <= |all| && Justified(f, all, k)
    ensures forall rs :: rs in Due(all[k..], e, f) ==> IsSent(all, rs)
    decreases |all| - k
  {
    if k == |all| {
    } else {
      StepKeepsJustified(all, k, e, f);
      assert all[k..][1..] == all[k + 1..];
      DueFromStage(all, k + 1, EventAfter(all[k], e), Step(all[k], e, f));
      var rest := Due(all[k + 1..], EventAfter(all[k], e), Step(all[k], e, f));
      assert Due(all[k..], e, f) == DueNow(all[k], f) + rest;
      assert DueNow(all[k], f) != [] ==> SentBy(all, k, f.scored);
    }
  }

  /** Whatever the stages and their order, an alert is only ever sent for verdicts whose compound score
      reaches the threshold of a risk-scoring stage that stands before the sender. */
  lemma AlertsReachThreshold(ss: seq<Stage>, e: Event)
    ensures forall rs :: rs in Due(ss, e, NOTHING) ==> IsSent(ss, rs)
  {
    assert ss[0..] == ss;
    DueFromStage(ss, 0, e, NOTHING);
  }

  /** Enlarging detectors never loses an alert. */
  lemma {:induction false} MoreIndicatorsSendNoFewer(ss: seq<Stage>, tt: seq<Stage>, e: Event, f: Findings, g: Findings)
    requires |ss| == |tt| && (forall i :: 0 <= i < |ss| ==> Extends(ss[i], tt[i])) && AtLeast(f, g)
    ensures |Due(ss, e, f)| <= |Due(tt, e, g)|
    decreases |ss|
  {
    if ss == [] {
    } else {
      StepKeepsAtLeast(ss[0], tt[0], e, f, g);
      assert Extends(ss[0], tt[0]) && (ss[0].AlertSender? ==> tt[0].AlertSender?);
      MoreIndicatorsSendNoFewer(ss[1..], tt[1..], EventAfter(ss[0], e), Step(ss[0], e, f), Step(tt[0], e, g));
    }
  }
}
