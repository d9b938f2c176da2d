/** The detection pipeline with the context its stages append to, the event its normaliser rewrites and
    the channel its last stage sends on. */
module Detection {
  import opened Text
  import opened TelemetryEvents
  import opened Scoring
  import opened DetectionSpec

  class EventRecord {
    var e: Event

    constructor (e: Event)
      ensures this.e == e
    {
      this.e := e;
    }
  }

  class AlertChannel {
    const capacity: nat
    var queue: seq<Alert>

    constructor (capacity: nat)
      ensures this.capacity == capacity && queue == []
    {
      this.capacity := capacity;
      queue := [];
    }
  }

  class DetectionContext {
    var engineResults: seq<EngineResult>
    var matches: seq<Match>
    var alertTriggered: bool
    var alertDetail: Alert
    ghost var scored: seq<EngineResult>

    constructor ()
      ensures View() == NOTHING && Valid()
    {
      engineResults, matches, alertTriggered, scored := [], [], false, [];
      alertDetail := Alert(0.0, [], []);
      assert Names([]) == [];
    }

    ghost function View(): Findings
      reads this
    {
      Findings(engineResults, matches, alertTriggered, scored)
    }

    /** The alert describes the verdicts it was made from. */
    ghost predicate Valid()
      reads this
    {
      IsAlertFor(alertDetail, scored)
    }

    method Add(s: Stage, e: Event)
      requires (IsDetector(s) && Fires(s, e)) || s.Correlation?
      modifies this
      ensures View() == Report(old(View()), s, e) && alertDetail == old(alertDetail)
    {
      engineResults := engineResults + [Verdict(s)];
      matches := matches + [NoteOf(s, e)];
    }
  }

  method MatchSigma(patterns: seq<string>, line: string) returns (hit: bool)
    ensures hit <==> AnyPattern(patterns, line)
  {
    for i := 0 to |patterns|
      invariant forall j :: 0 <= j < i ==> !Contains(line, patterns[j])
    {
      if Contains(line, patterns[i]) {
        return true;
      }
    }
    hit := false;
  }

  method Detect(s: Stage, e: Event, ctx: DetectionContext)
    requires IsDetector(s) && ctx.Valid()
    modifies ctx
    ensures ctx.Valid() && ctx.View() == Step(s, e, old(ctx.View()))
  {
    var fires: bool;
    if s.Sigma? {
      fires := MatchSigma(s.patterns, e.commandLine);
    } else {
      fires := Fires(s, e);
    }
    if fires {
      ctx.Add(s, e);
    }
  }

  method ScoreRisk(threshold: real, e: Event, ctx: DetectionContext)
    requires ctx.Valid()
    modifies ctx
    ensures ctx.Valid() && ctx.View() == Step(RiskScoring(threshold), e, old(ctx.View()))
    ensures ctx.engineResults == old(ctx.engineResults)
    ensures ctx.alertTriggered <==>
      || old(ctx.alertTriggered)
      || (old(ctx.engineResults) != [] && Score(old(ctx.engineResults)) >= threshold)
    ensures if old(ctx.engineResults) != [] then IsAlertFor(ctx.alertDetail, old(ctx.engineResults))
      else ctx.alertDetail == old(ctx.alertDetail)
  {
    if |ctx.engineResults| == 0 {
      return;
    }
    var score := CalculateCompoundScore(ctx.engineResults);
    var alert := GenerateAlert(ctx.engineResults);
    ctx.alertDetail := alert;
    ctx.scored := ctx.engineResults;
    if score >= threshold {
      ctx.alertTriggered := true;
    }
  }

  method ProcessStage(s: Stage, ev: EventRecord, ctx: DetectionContext, alerts: AlertChannel)
    requires ctx.Valid()
    modifies ev, ctx, alerts
    ensures ctx.Valid() && ctx.View() == Step(s, old(ev.e), old(ctx.View()))
    ensures ev.e == EventAfter(s, old(ev.e))
    ensures alerts.queue == if s.AlertSender? && old(ctx.alertTriggered) && |old(alerts.queue)| < alerts.capacity
      then old(alerts.queue) + [old(ctx.alertDetail)] else old(alerts.queue)
  {
    if IsDetector(s) {
      Detect(s, ev.e, ctx);
      return;
    }
    match s
    case Normalizer =>
      ev.e := ev.e.(binaryPath := TrimSpace(ev.e.binaryPath));
      ev.e := ev.e.(sha256 := ToLower(TrimSpace(ev.e.sha256)));
    case Correlation =>
      if |ctx.engineResults| >= 2 {
        ctx.Add(s, ev.e);
      }
    case RiskScoring(threshold) =>
      ScoreRisk(threshold, ev.e, ctx);
    case AlertSender =>
      if ctx.alertTriggered && |alerts.queue| < alerts.capacity {
        alerts.queue := alerts.queue + [ctx.alertDetail];
      }
  }

  /** The first of the stages that are left, after others that have sent what was due. */
  method ProcessNext(s: Stage, ev: EventRecord, ctx: DetectionContext, alerts: AlertChannel,
                     ghost left: seq<Stage>, ghost before: seq<Alert>, ghost sent: seq<seq<EngineResult>>)
    returns (ghost sent': seq<seq<EngineResult>>)
    requires left != [] && left[0] == s
    requires ctx.Valid() && Delivered(before, alerts.queue, sent, alerts.capacity)
    modifies ev, ctx, alerts
    ensures ctx.Valid() && Run(left[1..], ev.e, ctx.View()) == Run(left, old(ev.e), old(ctx.View()))
    ensures EventAfterAll(left[1..], ev.e) == EventAfterAll(left, old(ev.e))
    ensures Delivered(before, alerts.queue, sent', alerts.capacity)
    ensures sent' + Due(left[1..], ev.e, ctx.View()) == sent + Due(left, old(ev.e), old(ctx.View()))
  {
    sent' := sent + DueNow(s, ctx.View());
    if s.AlertSender? && ctx.alertTriggered {
      DeliveredOne(before, alerts.queue, sent, alerts.capacity, ctx.alertDetail, ctx.scored);
    }
    ProcessStage(s, ev, ctx, alerts);
  }

  /** `DetectionPipeline.Process`: every stage in turn, on one event and one context. The alerts due go out
      in order for as long as the channel has room. */
  method Process(stages: seq<Stage>, ev: EventRecord, alerts: AlertChannel) returns (ctx: DetectionContext)
    modifies ev, alerts
    ensures fresh(ctx) && ctx.Valid() && ctx.View() == Run(stages, old(ev.e), NOTHING)
    ensures ev.e == EventAfterAll(stages, old(ev.e))
    ensures Delivered(old(alerts.queue), alerts.queue, Due(stages, old(ev.e), NOTHING), alerts.capacity)
  {
    ctx := new DetectionContext();
    ghost var sent: seq<seq<EngineResult>> := [];
    for i := 0 to |stages|
      invariant ctx.Valid() && fresh(ctx)
      invariant Run(stages[i..], ev.e, ctx.View()) == Run(stages, old(ev.e), NOTHING)
      invariant EventAfterAll(stages[i..], ev.e) == EventAfterAll(stages, old(ev.e))
      invariant sent + Due(stages[i..], ev.e, ctx.View()) == Due(stages, old(ev.e), NOTHING)
      invariant Delivered(old(alerts.queue), alerts.queue, sent, alerts.capacity)
    {
      assert stages[i..][1..] == stages[i + 1..];
      sent := ProcessNext(stages[i], ev, ctx, alerts, stages[i..], old(alerts.queue), sent);
    }
  }
}
