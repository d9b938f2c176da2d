/** What the detection pipeline comes to, stage by stage: which verdicts each detector adds, when the alert is
    triggered, and when it is sent. */
module DetectionOutcome {
  import opened DetectionSpec
  import opened Scoring
  import opened TelemetryEvents
  import opened Text

  // ---------- One stage ----------

  predicate Occurs(sub: string, s: string) {
    exists i {:trigger s[i..]} :: 0 <= i <= |s| - |sub| && s[i..][..|sub|] == sub
  }

  lemma ContainsIsOccurs(s: string, sub: string)
    ensures Contains(s, sub) <==> Occurs(sub, s)
  {
    forall i | 0 <= i <= |s|
      ensures sub <= s[i..] <==> i <= |s| - |sub| && s[i..][..|sub|] == sub
    {
    }
  }

  /** What a pipeline of one detector finds. */
  function Alone(s: Stage, e: Event): seq<EngineResult> {
    Run([s], e, NOTHING).results
  }

  function When(fires: bool, name: string, severity: real, weight: real, mitreID: string): seq<EngineResult> {
    if fires then [EngineResult(name, severity, weight, [mitreID])] else []
  }

  lemma OneStage(s: Stage, e: Event, f: Findings)
    ensures Run([s], e, f) == Step(s, e, f)
  {
    assert [s][1..] == [];
  }

  /** What each detector looks for and what it reports. */
  lemma DetectorsAlone(e: Event, iocs: map<string, string>, rules: map<string, bool>, patterns: seq<string>)
    ensures Alone(BehaviorAnalysis, e) ==
      When(e.typ == "process" && e.parentID == 1, "BehaviorAnalysis", 3.0, 0.5, "T1059")
    ensures Alone(Heuristic, e) ==
      When(Occurs("-nop", e.commandLine) || Occurs("-enc", e.commandLine), "Heuristic", 6.5, 0.7, "T1059.001")
    ensures Alone(IOCMatching(iocs), e) == When(e.sha256 in iocs, "IOCMatching", 9.5, 0.9, "T1204.002")
    ensures Alone(YARA(rules), e) ==
      When(e.typ == "process" && e.binaryPath in rules && rules[e.binaryPath], "YARA", 8.0, 0.8, "T1059")
    ensures Alone(ThreatIntelligence(rules), e) ==
      When(e.remoteIP in rules && rules[e.remoteIP], "ThreatIntelligence", 9.0, 0.9, "T1071.001")
  {
    ContainsIsOccurs(e.commandLine, "-nop");
    ContainsIsOccurs(e.commandLine, "-enc");
    OneStage(BehaviorAnalysis, e, NOTHING);
    OneStage(Heuristic, e, NOTHING);
    OneStage(IOCMatching(iocs), e, NOTHING);
    OneStage(YARA(rules), e, NOTHING);
    OneStage(ThreatIntelligence(rules), e, NOTHING);
  }

  lemma SigmaAlone(e: Event, patterns: seq<string>)
    ensures Alone(Sigma(patterns), e) ==
      When(exists i :: 0 <= i < |patterns| && Occurs(patterns[i], e.commandLine), "Sigma", 7.0, 0.8, "T1059")
  {
    forall i | 0 <= i < |patterns|
      ensures Contains(e.commandLine, patterns[i]) <==> Occurs(patterns[i], e.commandLine)
    {
      ContainsIsOccurs(e.commandLine, patterns[i]);
    }
    OneStage(Sigma(patterns), e, NOTHING);
  }

  function NoteWhen(fires: bool, note: Match): seq<Match> {
    if fires then [note] else []
  }

  /** Each detector that fires leaves one note, behind the notes and verdicts it finds. */
  lemma DetectorsAppend(s: Stage, e: Event, f: Findings)
    requires IsDetector(s)
    ensures var g := Run([s], e, f);
      && g.results == f.results + Alone(s, e)
      && g.matches == f.matches + Run([s], e, NOTHING).matches
      && |Run([s], e, NOTHING).matches| == |Alone(s, e)| <= 1
      && g.triggered == f.triggered && g.scored == f.scored
  {
    OneStage(s, e, f);
    OneStage(s, e, NOTHING);
    assert f.results + [] == f.results && f.matches + [] == f.matches;
  }

  lemma NotesAlone(e: Event, iocs: map<string, string>, rules: map<string, bool>)
    ensures Run([BehaviorAnalysis], e, NOTHING).matches ==
      NoteWhen(e.typ == "process" && e.parentID == 1, SpawnedByInit)
    ensures e.sha256 in iocs ==> Run([IOCMatching(iocs)], e, NOTHING).matches == [KnownHash(iocs[e.sha256])]
    ensures Run([YARA(rules)], e, NOTHING).matches ==
      NoteWhen(e.typ == "process" && e.binaryPath in rules && rules[e.binaryPath], SignatureHit)
    ensures Run([ThreatIntelligence(rules)], e, NOTHING).matches ==
      NoteWhen(e.remoteIP in rules && rules[e.remoteIP], KnownAddress)
    ensures Run([Heuristic], e, NOTHING).matches ==
      NoteWhen(Occurs("-nop", e.commandLine) || Occurs("-enc", e.commandLine), SuspiciousArgument)
  {
    ContainsIsOccurs(e.commandLine, "-nop");
    ContainsIsOccurs(e.commandLine, "-enc");
    OneStage(BehaviorAnalysis, e, NOTHING);
    OneStage(Heuristic, e, NOTHING);
    OneStage(IOCMatching(iocs), e, NOTHING);
    OneStage(YARA(rules), e, NOTHING);
    OneStage(ThreatIntelligence(rules), e, NOTHING);
  }

  /** The Sigma detector notes a pattern that occurs, none of those before it occurring. */
  lemma SigmaNotesFirst(e: Event, patterns: seq<string>, i: nat)
    requires i < |patterns| && Occurs(patterns[i], e.commandLine)
    requires forall j :: 0 <= j < i ==> !Occurs(patterns[j], e.commandLine)
    ensures Run([Sigma(patterns)], e, NOTHING).matches == [SigmaHit(patterns[i])]
  {
    forall j | 0 <= j < |patterns|
      ensures Contains(e.commandLine, patterns[j]) <==> Occurs(patterns[j], e.commandLine)
    {
      ContainsIsOccurs(e.commandLine, patterns[j]);
    }
    OneStage(Sigma(patterns), e, NOTHING);
    var k: nat :| FirstAt(patterns, e.commandLine, k) && patterns[k] == FirstPattern(patterns, e.commandLine);
    assert k <= i && i <= k;
  }

  /** Correlation adds its verdict from two verdicts on. */
  lemma CorrelationNeedsTwo(e: Event, f: Findings)
    ensures Run([Correlation], e, f).results == f.results + When(|f.results| >= 2, "Correlation", 5.0, 0.5, "T1059")
  {
    OneStage(Correlation, e, f);
    assert f.results + [] == f.results;
  }

  // ---------- When the alert is triggered ----------

  /** Stage `i` is a risk scoring that meets verdicts whose score reaches its threshold. */
  ghost predicate Trips(ss: seq<Stage>, e: Event, i: nat) {
    && i < |ss| && ss[i].RiskScoring?
    && Run(ss[..i], e, NOTHING).results != []
    && Score(Run(ss[..i], e, NOTHING).results) >= ss[i].threshold
  }

  ghost predicate TrippedBefore(ss: seq<Stage>, e: Event, k: nat) {
    exists i: nat :: i < k && Trips(ss, e, i)
  }

  lemma RunLast(ss: seq<Stage>, e: Event)
    requires ss != []
    ensures var n := |ss| - 1;
      Run(ss, e, NOTHING) == Step(ss[n], EventAfterAll(ss[..n], e), Run(ss[..n], e, NOTHING))
  {
    var n := |ss| - 1;
    assert ss == ss[..n] + [ss[n]];
    RunConcat(ss[..n], [ss[n]], e, NOTHING);
    OneStage(ss[n], EventAfterAll(ss[..n], e), Run(ss[..n], e, NOTHING));
  }

  lemma TrippedInPrefix(ss: seq<Stage>, e: Event, n: nat, k: nat)
    requires k <= n <= |ss|
    ensures TrippedBefore(ss[..n], e, k) <==> TrippedBefore(ss, e, k)
  {
    forall i: nat | i < k
      ensures Trips(ss[..n], e, i) <==> Trips(ss, e, i)
    {
      assert ss[..n][..i] == ss[..i];
    }
  }

  /** The alert is triggered exactly when some risk scoring met verdicts that reach its threshold. */
  lemma {:induction false} TriggeredIffTripped(ss: seq<Stage>, e: Event)
    ensures Run(ss, e, NOTHING).triggered <==> TrippedBefore(ss, e, |ss|)
    decreases |ss|
  {
    if ss == [] {
    } else {
      var n := |ss| - 1;
      RunLast(ss, e);
      TriggeredIffTripped(ss[..n], e);
      TrippedInPrefix(ss, e, n, n);
      assert TrippedBefore(ss, e, |ss|) <==> TrippedBefore(ss, e, n) || Trips(ss, e, n);
      TriggerStep(ss[n], EventAfterAll(ss[..n], e), Run(ss[..n], e, NOTHING));
    }
  }

  lemma TriggerStep(s: Stage, e: Event, f: Findings)
    ensures Step(s, e, f).triggered <==>
      f.triggered || (s.RiskScoring? && f.results != [] && Score(f.results) >= s.threshold)
  {
  }

  // ---------- When it is sent ----------

  lemma {:induction false} DueConcat(a: seq<Stage>, b: seq<Stage>, e: Event, f: Findings)
    ensures Due(a + b, e, f) == Due(a, e, f) + Due(b, EventAfterAll(a, e), Run(a, e, f))
    decreases |a|
  {
    if a == [] {
      assert a + b == b;
    } else {
      assert (a + b)[1..] == a[1..] + b;
      DueConcat(a[1..], b, EventAfter(a[0], e), Step(a[0], e, f));
    }
  }

  /** The senders among the first `k` stages that stand behind a risk scoring that trips. */
  ghost function Sending(ss: seq<Stage>, e: Event, k: nat): (at: seq<nat>)
    requires k <= |ss|
    ensures forall i :: 0 <= i < |at| ==> at[i] < k && ss[at[i]].AlertSender? && TrippedBefore(ss, e, at[i])
    ensures forall i, j :: 0 <= i < j < |at| ==> at[i] < at[j]
  {
    if k == 0 then []
    else
      var before, last: nat := Sending(ss, e, k - 1), k - 1;
      if ss[last].AlertSender? && TrippedBefore(ss, e, last) then before + [last] else before
  }

  /** None of them is left out. */
  lemma {:induction false} SendingHolds(ss: seq<Stage>, e: Event, k: nat, j: nat) returns (i: nat)
    requires j < k <= |ss| && ss[j].AlertSender? && TrippedBefore(ss, e, j)
    ensures i < |Sending(ss, e, k)| && Sending(ss, e, k)[i] == j
    decreases k
  {
    if j == k - 1 {
      i := |Sending(ss, e, k)| - 1;
    } else {
      i := SendingHolds(ss, e, k - 1, j);
    }
  }

  lemma DueStep(ss: seq<Stage>, e: Event, n: nat)
    requires n < |ss|
    ensures Due(ss[..n + 1], e, NOTHING) == Due(ss[..n], e, NOTHING)
      + (if ss[n].AlertSender? && TrippedBefore(ss, e, n) then [Run(ss[..n], e, NOTHING).scored] else [])
  {
    assert ss[..n + 1] == ss[..n] + [ss[n]];
    DueConcat(ss[..n], [ss[n]], e, NOTHING);
    TriggeredIffTripped(ss[..n], e);
    TrippedInPrefix(ss, e, n, n);
    assert [ss[n]][1..] == [];
    var f := Run(ss[..n], e, NOTHING);
    assert Due([ss[n]], EventAfterAll(ss[..n], e), f) == DueNow(ss[n], f) + [];
  }

  /** Each sender behind a risk scoring that trips has one alert to send, made from what was scored last, and
      no other stage has any. */
  lemma {:induction false} DueIffTripped(ss: seq<Stage>, e: Event, k: nat)
    requires k <= |ss|
    ensures var due, at := Due(ss[..k], e, NOTHING), Sending(ss, e, k);
      && |due| == |at|
      && forall i :: 0 <= i < |at| ==> at[i] < |ss| && due[i] == Run(ss[..at[i]], e, NOTHING).scored
    decreases k
  {
    if k == 0 {
    } else {
      DueIffTripped(ss, e, k - 1);
      DueStep(ss, e, k - 1);
    }
  }

  /** What was scored last: the verdicts the last risk scoring met, if it met any. */
  lemma ScoredLast(ss: seq<Stage>, e: Event)
    requires ss != []
    ensures var before, n := Run(ss[..|ss| - 1], e, NOTHING), |ss| - 1;
      Run(ss, e, NOTHING).scored == if ss[n].RiskScoring? && before.results != [] then before.results else before.scored
  {
    RunLast(ss, e);
  }

  // ---------- From a detector to the alert ----------

  lemma ResultsStay(s: Stage, e: Event, f: Findings)
    ensures f.results <= Step(s, e, f).results
  {
  }

  lemma {:induction false} VerdictStays(ss: seq<Stage>, e: Event, i: nat, j: nat)
    requires i < j <= |ss| && IsDetector(ss[i]) && Fires(ss[i], EventAfterAll(ss[..i], e))
    ensures Verdict(ss[i]) in Run(ss[..j], e, NOTHING).results
    decreases j
  {
    var before := ss[..j - 1];
    assert ss[..j][..j - 1] == before;
    RunLast(ss[..j], e);
    ResultsStay(ss[j - 1], EventAfterAll(before, e), Run(before, e, NOTHING));
    if i == j - 1 {
      var results := Run(ss[..j], e, NOTHING).results;
      assert results[|results| - 1] == Verdict(ss[i]);
    } else {
      VerdictStays(ss, e, i, j - 1);
    }
  }

  /** A detector that fires triggers the alert by itself at any later risk scoring whose threshold is no more
      than its share, whatever else the pipeline holds. */
  lemma FiringDetectorTriggers(ss: seq<Stage>, e: Event, i: nat, j: nat)
    requires i < j < |ss| && IsDetector(ss[i]) && Fires(ss[i], EventAfterAll(ss[..i], e))
    requires ss[j].RiskScoring? && ss[j].threshold <= Share(Verdict(ss[i]))
    ensures Run(ss, e, NOTHING).triggered
  {
    VerdictStays(ss, e, i, j);
    ScoreBetweenMaxAndSum(Run(ss[..j], e, NOTHING).results);
    assert Trips(ss, e, j);
    TriggeredIffTripped(ss, e);
  }

  /** A detector's share is its weight, its severity being clamped to one. */
  lemma SharesOfDetectors(iocs: map<string, string>, rules: map<string, bool>, patterns: seq<string>)
    ensures Share(Verdict(BehaviorAnalysis)) == Share(Verdict(Correlation)) == 0.5
    ensures Share(Verdict(Heuristic)) == 0.7
    ensures Share(Verdict(YARA(rules))) == Share(Verdict(Sigma(patterns))) == 0.8
    ensures Share(Verdict(IOCMatching(iocs))) == Share(Verdict(ThreatIntelligence(rules))) == 0.9
  {
  }

  // ---------- The normaliser ----------

  /** `t` is what is left of `s` without the white space `a` before and `b` after it. */
  predicate IsTrimOf(t: string, s: string, a: string, b: string) {
    s == a + t + b && Blank(a) && Blank(b) && Trimmed(t)
  }

  predicate IsLowerOf(t: string, s: string) {
    |t| == |s| && forall i :: 0 <= i < |s| ==>
      t[i] == if 'A' <= s[i] <= 'Z' then s[i] - 'A' + 'a' else s[i]
  }

  /** The normaliser trims white space from path and hash, lowers the hash, and changes nothing else. */
  lemma NormalizerTrims(e: Event) returns (a: string, b: string, hash: string, c: string, d: string)
    ensures var n := EventAfter(Normalizer, e);
      && n == e.(binaryPath := n.binaryPath, sha256 := n.sha256)
      && IsTrimOf(n.binaryPath, e.binaryPath, a, b)
      && IsTrimOf(hash, e.sha256, c, d) && IsLowerOf(n.sha256, hash)
  {
    a, b := TrimParts(e.binaryPath);
    c, d := TrimParts(e.sha256);
    hash := TrimSpace(e.sha256);
  }

  predicate Blank(s: string) {
    forall i :: 0 <= i < |s| ==> IsSpace(s[i])
  }

  predicate Trimmed(s: string) {
    s == [] || (!IsSpace(s[0]) && !IsSpace(s[|s| - 1]))
  }

  lemma {:induction false} TrimParts(s: string) returns (a: string, b: string)
    ensures IsTrimOf(TrimSpace(s), s, a, b)
    decreases |s|
  {
    if s != [] && IsSpace(s[0]) {
      a, b := TrimParts(s[1..]);
      a := [s[0]] + a;
    } else if s != [] && IsSpace(s[|s| - 1]) {
      a, b := TrimParts(s[..|s| - 1]);
      b := b + [s[|s| - 1]];
      assert s == s[..|s| - 1] + [s[|s| - 1]];
    } else {
      a, b := [], [];
    }
  }
}
