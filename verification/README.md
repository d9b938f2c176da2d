# Aegis-EDR core: model and proofs

This project models the stateful middle of Aegis-EDR in Dafny and proves what its parts promise over every
input, every interleaving and every run. `dafny verify dfyconfig.toml` checks all of it.

## What is modelled

Each component has a specification module, which gives its state as a value and each operation as a function,
and, where the source updates objects in place, a module of classes whose methods are proved to do exactly what
the specification says. The properties are then proved of the specification for all runs.

| component | specification | objects |
|---|---|---|
| next-generation correlation engine | `NextgenGraph`, `NextgenSpec`, `NextgenAlerts`, `NextgenLaunch`, `NextgenSharding`, `NextgenTimeline`, `NextgenRelaunch` | `NextgenEngine` |
| process-tree correlation engine | `ProcessTreeSpec`, `ProcessTreeRuns` | `ProcessTree` |
| batching consumer shared by router and pipeline | `BatchLoop` | (in the next two) |
| event router and its object pool | `EventRouterSpec`, `EventRouterPressure` | `EventRouter` |
| deduplicator and telemetry pipeline | `Deduplication`, `TelemetrySpec` | `Deduplication`, `TelemetryPipeline` |
| retention pruning in the store | `RetentionSpec` | `Retention` |
| detection stages and noisy-or scoring | `UnitProducts`, `Scoring`, `DetectionSpec`, `DetectionOutcome` | `Detection` |
| policy inheritance | `PolicySpec` | `PolicyEngine` |
| `/proc/<pid>/maps` parsing | `MemoryMaps` | |

`Text`, `Sorting`, `Collections` and `TelemetryEvents` hold what they share. Clocks are integers passed in;
floating-point numbers are exact reals; the shard hash, the fallback hash and the timeline line format are
arbitrary functions; whether a transaction or an insert fails is a parameter or left open. A Go map's iteration order
and `sort.Slice`'s order of equal elements are left open: `sort.Slice` is only a sorted permutation.

## Main results

- **Sequence matching.** `checkSequence` lets sibling branches write into one backing array. It is proved on heap
  arrays with Go's `append`, and finds a match exactly when a walk exists, namely the first in edge order,
  undisturbed by the branches that failed.
- **Graph invariant.** In every reachable state each SPAWNED edge answers a PARENT_OF edge, nodes have at most
  one parent and spawn a child once, and only process nodes are linked; so a rule of two steps or more only ever
  matches process chains.
- **Alerts.** Every alert a run emits was raised by one of its events: by the first match, in the graph as it was
  when that event had been linked, of a rule the engine then had, from that event's node, for a pair not then
  suppressed. It names the pid of an earliest node of that chain and carries the capped risk of its length. And none
  is missing: an event sends one alert for each rule that fires, in rule order, up to the room on the channel. A child
  launched below its filed parent raises every rule for two processes, however much later it comes.
  Suppressed pairs stay silent, and exactly which pairs a suppression silences is known for every target.
- **Timelines.** The visited-set traversal ends on cyclic graphs and lists reachable nodes only, no ID twice. It lists
  all of them exactly when no two share an ID, and they can: a parent that launches one pid twice has a timeline
  that omits one of the launches (`RelaunchIsOmitted`, and `ThreeEventsOmitOne` from an empty engine).
- **Sharding.** After any run, any number of shards finds everything one globally swept map would find, and
  anything more it finds has expired; when nothing expires the graph, all lookups and all alerts are the same.
- **Process tree.** Children form a forest in creation order under pid reuse and eviction, except for one thing
  the code does: a process event whose pid equals its parent pid files the node first and then makes it its own
  child (`internal/correlation/engine.go:96-100`), and the collectors have no visited set. A reconstruction returns
  if and only if the record filed under the pid names another pid as its parent; after a run all of them do if and
  only if no launch that is still filed named itself (`OneEventHangs` gives one event that hangs it). And whose child
  each node is follows from the events alone: the node of launch `j` hangs below that of launch `k` exactly when `k`
  was what the parent's pid stood for as `j` came, and within the window then (or `j` is `k` and names itself).
- **Router.** For any interleaving of submitters, consumer and pool, with the length test and the send of `Submit` as
  separate steps: one owner per object, each recycled once for the event dropped or handled, pooled objects are
  zero, FIFO, conservation, and at most `watermark + k - 1` queued file reads for `k` submitters, or the capacity if
  that is less, or none if the watermark, four fifths of the capacity, is zero. This bound is
  reached, for every capacity. However the consumer goes on after a close, it delivers all.
- **Deduplicator.** The swept cache decides as an unbounded history would. Two keys are equal exactly when the
  identities are, up to two neighbouring fields joined by a ':'.
- **Pruning.** It fails exactly when an old process (one without alerts, launched before the cutoff) is still active
  (has a row at or after it). Pruning to `c1` and then to `c2 >= c1` always ends as pruning to `c2` does, and leaves
  the same child tables, but NOT always the same processes: when some process is old at `c1`, none old at `c1` is
  still active, and one old at `c2` is, processes are gone that one prune keeps. `PruneTwice` gives this as an exact
  condition, `TwoPrunesCanDeleteMore` a database where it bites. What one prune removes is known row by row, and an
  alert, once inserted, keeps its process through every later insert and prune.
- **Detection.** More indicators never lower the score, clear an alert or send fewer, wherever the stages stand;
  detector order is invisible. The alert is triggered exactly when some risk scoring met verdicts that reach its
  threshold, and due exactly once at each sender behind one that did; a detector that fires triggers it by itself
  where the threshold is no more than its share.
- **Policies.** Evaluation returns exactly when the chain does not lead into a parent cycle in which no rule
  matches (`OwnParentHangs` gives such a policy), and whenever it returns it is the first match over the rules met
  while climbing the parents, else Monitor at the end of the chain. A chain ends exactly when it has no cycle.
- **Maps.** Rendered regions come back through `ParseMaps`, malformed lines in between change nothing, exactly when
  no line exceeds the scanner's 64 KiB limit.

## Where code and documentation differ

The model follows the code.

- `docs/architecture/DETECTION_ENGINE.md:161` gives the compound score as a capped weighted sum of severities from 1 to 10;
  `internal/scoring/scoring.go:25-32` computes a noisy-or and clamps severities to 1, so all severities from 1 up
  count alike (`Scoring.SeveritySaturates`).
- `docs/architecture/SYSTEM_DESIGN.md:90` has triage drop registry reads too; `internal/eventrouter/eventrouter.go:147` drops
  file reads only. It also spares execution events at a full queue, where the code drops every event.
- `PersistedCount` of the telemetry pipeline also counts events of types that have no table
  (`internal/telemetry/pipeline.go:266-279`).
- A telemetry event that finds the queue full is dropped without any counter
  (`internal/telemetry/pipeline.go:200-205`); the model counts it in a history variable of its own.

## Model

| member | source | states |
|---|---|---|
| NextgenGraph.SearchFindsFirstWalk | internal/correlation/nextgen/engine.go:183-211 | backtracking matches exactly when a walk of the rule's types exists whose steps lead to nodes no more than the window later, earlier ones included, and yields the first one in edge order |
| NextgenGraph.FirstWalkUnique | internal/correlation/nextgen/engine.go:197-208 | "first in edge order" names one walk only |
| NextgenEngine.Append | internal/correlation/nextgen/engine.go:192 | Go's append: shares the backing array while there is room, moves otherwise, and keeps the caller's own items |
| NextgenEngine.CheckSequence | internal/correlation/nextgen/engine.go:183-211 | the chain built in shared arrays is the pure search's, and the caller's slice is undisturbed by failed branches |
| NextgenEngine.TryEdges | internal/correlation/nextgen/engine.go:197-210 | the loop over edges skips nil targets and steps more than the window ahead, follows steps back in time, and stops at the first edge that leads to a match |
| NextgenEngine.EarliestNode | internal/correlation/nextgen/engine.go:218-223 | the root of an alert is the first of the chain's earliest nodes |
| NextgenEngine.Describe | internal/correlation/nextgen/engine.go:244-255 | the timeline lists the chain in order and the loop's risk is the capped weighted sum |
| NextgenSpec.OnlyProcessEventsHaveProcessKeys | internal/correlation/nextgen/engine.go:117-123 | a node is found under a pid's key exactly when it came from a process event of that pid, whatever paths and addresses other events carry |
| NextgenSpec.InsertKeepsEdgesPaired | internal/correlation/nextgen/engine.go:135-149 | filing a new node keeps the graph invariant |
| NextgenSpec.LinkKeepsEdgesPaired | internal/correlation/nextgen/engine.go:152-169 | linking a child to its parent keeps edges paired with equal timestamps, one parent a node, no child spawned twice, and processes the only linked nodes |
| NextgenSpec.ApplyKeepsGood | internal/correlation/nextgen/engine.go:99-172 | every operation keeps the graph invariant, the placement of ids in their shards, and the alert channel within its capacity |
| NextgenSpec.Run | internal/correlation/nextgen/engine.go:99-213 | the invariant holds after every run of ingests, suppressions, rule additions and alert receipts |
| NextgenSpec.LongWalksAreProcessChains | internal/correlation/nextgen/engine.go:152-208 | a match of a rule of two steps or more visits process nodes alone |
| NextgenSpec.AlertIffWalkAllowed | internal/correlation/nextgen/engine.go:174-272 | a rule alerts exactly when a walk matches, its (rule, root pid) pair is not suppressed and the channel has room; the alert is of the first walk |
| NextgenAlerts.AlertMeaning | internal/correlation/nextgen/engine.go:213-266 | the alert made of a matching walk names the first of the earliest nodes of a chain with the rule's types and steps inside the window, its capped risk, and the chain in order |
| NextgenAlerts.EveryAlertIsRaised | internal/correlation/nextgen/engine.go:116-272 | every alert a run emits was raised by one of its events, in the state the run had then reached |
| NextgenAlerts.EveryAlertIsExplained | internal/correlation/nextgen/engine.go:116-272 | that is: made at the time of that event, of the first match of a rule the engine then had, from the event's node in the graph as it then was, for a pair not then suppressed; and it says of that chain what it has to |
| NextgenAlerts.AlertsPickRules | internal/correlation/nextgen/engine.go:174-181 | an event sends one alert for each rule that fires from its node, in rule order, and misses one only when the channel is full in the end |
| NextgenAlerts.FiringRuleIsSent | internal/correlation/nextgen/engine.go:174-272 | a rule that fires has its alert sent when the channel has room for it and for the rules before it |
| NextgenLaunch.NodeIDsAgree | internal/correlation/nextgen/engine.go:117-123 | two events of one type share a node exactly when they name the same pid, the same remote address and port, or the same path |
| NextgenLaunch.EventIsFiled | internal/correlation/nextgen/engine.go:125-149 | after an event its node is found under its ID, with the event's time and properties and its type in capitals |
| NextgenLaunch.EventLinks | internal/correlation/nextgen/engine.go:152-169 | an event adds exactly one SPAWNED edge at the parent it finds and one PARENT_OF edge back, timed by the event, and none if it finds no parent |
| NextgenLaunch.ChildLaunchAlerts | internal/correlation/nextgen/engine.go:116-272 | a child launched below its filed parent, before or after it in time, raises every rule for two processes whose window the parent does not lie beyond, unless the pair is suppressed or the channel lacks room |
| NextgenSpec.RiskOfChain | internal/correlation/nextgen/engine.go:245-255 | the risk is min(10, the sum of 1.5 per position), and reaches ten exactly from four nodes on |
| NextgenSpec.WeightedSumClosedForm | internal/correlation/nextgen/engine.go:248-251 | the loop's sum for n nodes is 0.75 n (n + 1) |
| NextgenSpec.SuppressionBlocksOnlyItsPair | internal/correlation/nextgen/engine.go:103-107 | a suppression with a target free of ':' silences exactly the pair it names |
| NextgenSpec.SuppressionBlocksExactly | internal/correlation/nextgen/engine.go:103-107 | for an arbitrary target, silences exactly the pid it ends with after its last ':', for the rule all before that spells, and nothing if it does not end with a decimal pid |
| NextgenSpec.SuppressedPairStaysSilent | internal/correlation/nextgen/engine.go:235-242 | over any run, no alert is emitted for a pair after it is suppressed |
| NextgenSpec.SuppressedExactlyByRequests | internal/correlation/nextgen/engine.go:103-107 | a key is suppressed after a run exactly when it was before or the run asked for it |
| NextgenEngine.Engine.constructor | internal/correlation/nextgen/engine.go:82-97 | a new engine has empty shards, no rules and no suppressions |
| NextgenEngine.Engine.AddRule | internal/correlation/nextgen/engine.go:99-101 | appends a rule, nothing else |
| NextgenEngine.Engine.SuppressAlert | internal/correlation/nextgen/engine.go:103-107 | adds the suppression of the pair, nothing else |
| NextgenEngine.Engine.ShardIndex | internal/correlation/nextgen/engine.go:109-114 | the shard of an id is one of the engine's |
| NextgenEngine.Engine.DeleteExpired | internal/correlation/nextgen/engine.go:128-133 | deletes from one shard exactly the nodes older than the window |
| NextgenEngine.Engine.Insert | internal/correlation/nextgen/engine.go:125-150 | sweeps the shard of the event's id and files a new node there |
| NextgenEngine.Engine.Connect | internal/correlation/nextgen/engine.go:152-169 | links a process node both ways to the node filed under its parent's pid, if there is one |
| NextgenEngine.Engine.EvaluateRules | internal/correlation/nextgen/engine.go:174-181 | tries every rule in order from the new node |
| NextgenEngine.Engine.TriggerAlert | internal/correlation/nextgen/engine.go:213-272 | nothing for an empty chain or a suppressed pair, otherwise the chain's alert, dropped if the channel is full |
| NextgenEngine.Engine.Ingest | internal/correlation/nextgen/engine.go:116-172 | the heap after an event is the specification's next state, and the invariant holds |
| NextgenEngine.Engine.ReconstructTimeline | internal/correlation/nextgen/engine.go:274-294 | fails exactly when the pid is not filed, otherwise the sorted lines of the traversal from it |
| NextgenEngine.DfsTimeline | internal/correlation/nextgen/engine.go:296-309 | terminates on cyclic graphs and appends the traversal's lines |
| NextgenTimeline.DfsKeepsConsistent | internal/correlation/nextgen/engine.go:297-300 | the visited map holds exactly the IDs of the listed nodes, none of them listed twice |
| NextgenTimeline.TimelineIsSound | internal/correlation/nextgen/engine.go:296-309 | only nodes reachable from the start are listed, the start first, no ID twice |
| NextgenTimeline.TimelineCompleteIffDistinctIDs | internal/correlation/nextgen/engine.go:296-309 | all reachable nodes are listed exactly when no two of them share an ID |
| NextgenRelaunch.RelaunchIsOmitted | internal/correlation/nextgen/engine.go:296-309 | whenever a parent still filed launches one pid twice, its timeline omits one of two reachable launches |
| NextgenRelaunch.ThreeEventsOmitOne | internal/correlation/nextgen/engine.go:296-309 | three events on an empty engine bring this about |
| NextgenSharding.LookupAfterAbsorb | internal/correlation/nextgen/engine.go:125-150 | an event changes the lookup of its own id and forgets only expired ids of its own shard |
| NextgenSharding.ShardedRunCoversFlatRun | internal/correlation/nextgen/engine.go:109-150 | after any run, shards find what one globally swept map finds, with the same id, type, time and properties, and beyond it only expired nodes |
| NextgenSharding.ShardCountIsInvisible | internal/correlation/nextgen/engine.go:109-172 | while nothing expires, shard count and hash change neither graph, lookups nor alerts |
| NextgenSharding.ShardingFromStart | internal/correlation/nextgen/engine.go:82-172 | an engine that starts empty finds what one with a single shard finds, and beyond it only expired nodes |
| NextgenSharding.ShardCountInvisibleFromStart | internal/correlation/nextgen/engine.go:82-172 | while nothing expires, two engines that start empty agree for any shard counts and hashes |
| ProcessTreeSpec.LaunchKeepsForest | internal/correlation/engine.go:82-100 | a process event keeps the children a forest in creation order, each child below a node whose pid it names |
| ProcessTreeSpec.ApplyKeepsGood | internal/correlation/engine.go:70-143 | every event and alert keeps the forest and the filing of nodes under their own pids |
| ProcessTreeSpec.RunKeepsGood | internal/correlation/engine.go:70-143 | so does every run, under pid reuse and eviction |
| ProcessTreeSpec.VisitsAreDescendants | internal/correlation/engine.go:203-205 | the collectors visit exactly the nodes below the root |
| ProcessTreeSpec.VisitsOnce | internal/correlation/engine.go:164-206 | and none of them twice |
| ProcessTreeSpec.ReturnsIffNotSelfParented | internal/correlation/engine.go:203-205 | the recursion from a node returns exactly when the node is not its own parent |
| ProcessTreeSpec.FiledReturnsIffOtherParent | internal/correlation/engine.go:145-155 | reconstruction for a filed pid returns exactly when its record names another pid as its parent |
| ProcessTreeSpec.FiledByLaunch | internal/correlation/engine.go:74-100 | after a run a pid is filed exactly when no event since its last launch found that older than the window, and as that launch made it |
| ProcessTreeSpec.AllReconstructIffNoSelfParentFiled | internal/correlation/engine.go:70-162 | after a run the reconstructions of all filed pids return exactly when no launch still filed named its own pid as its parent |
| ProcessTreeSpec.SelfParentHangs | internal/correlation/engine.go:96-100 | straight after such a launch, in any state, its reconstruction never returns |
| ProcessTreeSpec.OneEventHangs | internal/correlation/engine.go:96-100 | one event, pid 4 with parent 4, is enough |
| ProcessTreeRuns.LaunchAddsChild | internal/correlation/engine.go:82-100 | a launch adds one node with the event's fields, last among the children of what its parent pid stands for if that is filed within the window, and changes nothing else |
| ProcessTreeRuns.EventAddsActivity | internal/correlation/engine.go:102-128 | a file, network or registry event adds one activity, with its own details, to its process if that is filed within the window, and changes nothing else |
| ProcessTreeRuns.AlertIsRecorded | internal/correlation/engine.go:132-143 | an alert goes to the record filed under its pid, and nowhere else |
| ProcessTreeRuns.ChildrenOfRun | internal/correlation/engine.go:70-100 | after any run the node of launch j is a child of that of launch k exactly when, as j came, k was what the parent pid stood for and within the window, or j is k and names its own pid |
| ProcessTreeRuns.ItemsMeaning | internal/correlation/engine.go:164-201 | the items of one record: its launch, then each file, network, registry and alert activity at its own time |
| ProcessTreeRuns.NamesMeaning | internal/correlation/engine.go:222-225 | the names of one record are those of its alerts, in order |
| ProcessTree.CollectTimeline | internal/correlation/engine.go:164-206 | appends everything recorded of the root and of each descendant, in visiting order |
| ProcessTree.CollectAlertNames | internal/correlation/engine.go:222-229 | appends the alert names of the root and of each descendant, in visiting order |
| ProcessTree.TimelineFrom | internal/correlation/engine.go:154-161 | the timeline is a time-ordered permutation of what was collected |
| ProcessTree.Engine.DeleteOld | internal/correlation/engine.go:74-79 | forgets exactly the pids whose node outlived the window |
| ProcessTree.Engine.LaunchNode | internal/correlation/engine.go:82-100 | files the node under its pid first and then makes it the last child of whatever is filed under the parent pid |
| ProcessTree.Engine.NoteEvent | internal/correlation/engine.go:102-128 | appends a file, network or registry activity to its process and changes nothing else |
| ProcessTree.Engine.Correlate | internal/correlation/engine.go:70-130 | the heap after an event is the specification's next state, and the invariant holds |
| ProcessTree.Engine.RecordAlert | internal/correlation/engine.go:132-143 | appends the alert to the node filed under the pid, if there is one |
| ProcessTree.Engine.ReconstructTimeline | internal/correlation/engine.go:145-162 | fails exactly for an unknown pid, otherwise all activity below it, each once, in time order |
| ProcessTree.Engine.GroupAlerts | internal/correlation/engine.go:208-220 | fails exactly for an unknown pid, otherwise the alert names below it in visiting order |
| BatchLoop.ApplyKeepsInv | internal/eventrouter/eventrouter.go:94-135 | every channel action keeps delivered, pending batch and queue equal to what was accepted, in order, with batches of 1 to 100 |
| BatchLoop.RunIsFifo | internal/eventrouter/eventrouter.go:94-164 | over any interleaving the loop is a FIFO of exactly what was sent |
| BatchLoop.EndedLoopDelivered | internal/telemetry/pipeline.go:233-249 | after the loop ends the queue is exactly what was never delivered; a drain misses only what was sent after it ended, a cancellation leaves the queue |
| BatchLoop.CloseCanFinish | internal/eventrouter/eventrouter.go:116-140 | a closed loop to which nobody sends can finish, and then has delivered everything |
| BatchLoop.CloseDeliversAll | internal/eventrouter/eventrouter.go:106-140 | whatever the consumer of a closed loop does, it is busy only so long, always has something to do until it has ended, and then has delivered everything |
| BatchLoop.WhenFlushed | internal/eventrouter/eventrouter.go:100-133 | batches are handed over exactly at one hundred events, at a tick with anything in hand, and at the end |
| EventRouterSpec.WatermarkIsFourFifths | internal/eventrouter/eventrouter.go:143-147 | the watermark is the largest whole number within four fifths of the capacity, so a queue meets it exactly when one more would exceed that |
| EventRouterSpec.ApplyKeepsGood | internal/eventrouter/eventrouter.go:42-194 | no step shares an object between owners, leaves data in a pooled object, loses, reorders or changes an event, or lets file reads past the bound |
| EventRouterSpec.RouterRun | internal/eventrouter/eventrouter.go:94-194 | over any interleaving: handled then pending is what was sent, submitted is accepted plus dropped but for sends in progress, and queued file reads stay within watermark + k - 1 and the capacity, at none for a zero watermark |
| EventRouterSpec.RefusedOnlyUnderPressure | internal/eventrouter/eventrouter.go:142-164 | an event is refused exactly when it is a file read and the queue with it would exceed four fifths of the capacity, or it met a full queue, and its object is then cleared and pooled |
| EventRouterSpec.StepRecyclesOnce | internal/eventrouter/eventrouter.go:142-183 | a step brings into the pool exactly the object whose event it drops or handles, cleared, which was not there before |
| EventRouterSpec.RunRecyclesEachOnce | internal/eventrouter/eventrouter.go:142-183 | a run recycles one object for each event dropped or handled, no more and no less |
| EventRouterSpec.StopDeliversAllUnlessSentLate | internal/eventrouter/eventrouter.go:116-140 | after Stop everything accepted was handled once, in order, exactly when nothing was sent after the loop ended |
| EventRouterPressure.ReadBoundIsReached | internal/eventrouter/eventrouter.go:142-158 | for every capacity, some interleaving of k submitters queues as many file reads as that bound allows |
| EventRouter.Event.Clear | internal/eventrouter/eventrouter.go:52-69 | the sixteen assignments leave no field of the object set |
| EventRouter.Router.constructor | internal/eventrouter/eventrouter.go:81-88 | a new router is empty |
| EventRouter.Router.GetEvent | internal/eventrouter/eventrouter.go:48-50 | hands out an all-zero object that nobody else owns |
| EventRouter.Router.PutEvent | internal/eventrouter/eventrouter.go:52-70 | clears the object and pools it |
| EventRouter.Router.QueueTest | internal/eventrouter/eventrouter.go:143-153 | triage drops exactly file reads with which the queue would exceed four fifths of its capacity |
| EventRouter.Router.TrySend | internal/eventrouter/eventrouter.go:155-163 | the send succeeds exactly when there is room, otherwise the event is counted as dropped and recycled |
| EventRouter.Router.Submit | internal/eventrouter/eventrouter.go:142-164 | undisturbed, refuses exactly at a full queue, or a file read with which the queue would exceed four fifths of its capacity |
| EventRouter.Router.FlushBatch | internal/eventrouter/eventrouter.go:166-183 | every event of the batch is handled in order and its object recycled, whether or not the transaction began |
| EventRouter.Router.Receive | internal/eventrouter/eventrouter.go:109-113 | takes the oldest queued event into the batch and flushes at one hundred |
| EventRouter.Router.Tick | internal/eventrouter/eventrouter.go:114-115 | flushes whatever the batch holds |
| EventRouter.Router.Drain | internal/eventrouter/eventrouter.go:116-131 | empties the queue, flushes the rest and ends with everything handled |
| EventRouter.Router.Stop | internal/eventrouter/eventrouter.go:137-140 | with no overlapping Submit, whatever the consumer does before it takes the close, everything accepted has been handled, once, in order, as it was sent |
| Deduplication.KeysEqualIffBlursEqual | internal/telemetry/pipeline.go:71-81 | two keys are equal exactly when class and fields are, up to path and action, or address and protocol, run together |
| Deduplication.PlainKeysAreInjective | internal/telemetry/pipeline.go:71-81 | without ':' in action or protocol, keys are equal exactly when class and identifying fields are, whatever colons paths and addresses hold |
| Deduplication.SameKeyMeaning | internal/telemetry/pipeline.go:71-81 | that is, which fields two events must share to count as the same, type by type |
| Deduplication.ColonActionsCollide | internal/telemetry/pipeline.go:76 | with a ':' in the action two different events share a key |
| Deduplication.CacheAnswersAsHistory | internal/telemetry/pipeline.go:83-86 | a cache that tracks the history hits exactly when an accepted event of that key is less than the TTL old |
| Deduplication.UpdateKeepsTrack | internal/telemetry/pipeline.go:87-95 | storing and sweeping, at whatever size, keep it tracking |
| Deduplication.UpdatedMeaning | internal/telemetry/pipeline.go:83-96 | a duplicate leaves the cache alone, any other event is stored, and beyond ten thousand entries those older than the TTL go |
| Deduplication.CacheRunIsHistoryRun | internal/telemetry/pipeline.go:67-97 | under a clock that does not go back, every answer is the unbounded history's |
| Deduplication.SweepIsInvisible | internal/telemetry/pipeline.go:89-95 | the size at which the cache is swept changes no answer |
| Deduplication.RunStaysSpaced | internal/telemetry/pipeline.go:84-87 | accepted events of one key are at least the TTL apart |
| Deduplication.Deduplicator.IsDuplicate | internal/telemetry/pipeline.go:67-97 | a duplicate exactly when an event of that key was accepted less than the TTL ago; otherwise it is accepted |
| Deduplication.Deduplicator.Sweep | internal/telemetry/pipeline.go:90-94 | deletes exactly the entries older than the TTL |
| TelemetrySpec.NormalizeMeaning | internal/telemetry/pipeline.go:161-186 | the type in lower case, the current time for a missing one, a hash of the path for a missing hash, and every other field as it came |
| TelemetrySpec.ApplyKeepsGood | internal/telemetry/pipeline.go:158-289 | every single step of any goroutine keeps the accounting, the FIFO, the filter and the deduplicator's spacing |
| TelemetrySpec.PipelineRun | internal/telemetry/pipeline.go:158-289 | with nobody inside Ingest, ingested = deduplicated + filtered + buffered + silently dropped; delivered then pending is the buffered sequence |
| TelemetryPipeline.Pipeline.FilterEvent | internal/telemetry/pipeline.go:107-116 | excludes exactly file events below an excluded prefix |
| TelemetryPipeline.Pipeline.Ingest | internal/telemetry/pipeline.go:158-206 | each event has exactly one outcome, told by history, filter and room, and exactly its counters move |
| TelemetryPipeline.TallyMeaning | internal/telemetry/pipeline.go:159-205 | each outcome moves its own counter by one and no other |
| TelemetryPipeline.PersistedMeaning | internal/telemetry/pipeline.go:263-279 | without a store nothing counts as persisted; with one, everything does but events with a table whose insert fails |
| TelemetryPipeline.Pipeline.Decide | internal/telemetry/pipeline.go:159-193 | counts the event as ingested and normalised, and as duplicate exactly when the history says so |
| TelemetryPipeline.Pipeline.Admit | internal/telemetry/pipeline.go:195-205 | an event that is no duplicate is filtered, or sent, or silently dropped at a full queue, and counted accordingly |
| TelemetryPipeline.Pipeline.FlushBatch | internal/telemetry/pipeline.go:259-289 | every event of the batch is delivered in order, and the persisted counter grows by those whose insert worked or was not needed |
| TelemetryPipeline.Pipeline.Receive | internal/telemetry/pipeline.go:226-230 | takes the oldest queued event into the batch and flushes at one hundred, keeping the accounting |
| TelemetryPipeline.Pipeline.Tick | internal/telemetry/pipeline.go:231-232 | flushes whatever the batch holds and counts what was persisted |
| TelemetryPipeline.Pipeline.EndLoop | internal/telemetry/pipeline.go:242-248 | the last flush of a drain or a cancellation, after which the loop has ended |
| TelemetryPipeline.Pipeline.Drain | internal/telemetry/pipeline.go:233-245 | empties the queue, flushes the rest and ends with everything accepted delivered |
| TelemetryPipeline.Pipeline.Stop | internal/telemetry/pipeline.go:254-257 | without overlapping Ingest, whatever the consumer does before it takes the close, everything buffered is delivered in order |
| TelemetryPipeline.Pipeline.CancelRun | internal/telemetry/pipeline.go:246-248 | cancellation delivers the batch in hand, a prefix, and leaves exactly the queue |
| RetentionSpec.PruneFailsIffStillActive | internal/storage/storage.go:286-308 | the prune is rejected, processes untouched, exactly when an old process without alerts has a file or network row at or after the cutoff |
| RetentionSpec.PruneRemovesRows | internal/storage/storage.go:286-301 | a prune removes exactly the file and network rows from before the cutoff whose process no alert names, and changes no other row |
| RetentionSpec.PruneRemovesProcesses | internal/storage/storage.go:286-308 | and all processes that are old, or none when one of them has a row at or after the cutoff |
| RetentionSpec.PruneKeepsConsistent | internal/storage/storage.go:286-308 | foreign keys hold after a prune that succeeds, is rejected, or fails at any of its statements |
| RetentionSpec.AlertedRowsSurvive | internal/storage/storage.go:286-308 | no alert and no row tied to an alerted process is removed |
| RetentionSpec.OrphanRowsGoOnlyWithoutAlerts | internal/storage/storage.go:287-290 | an old row without a process is kept exactly while some alert names a process (NULL NOT IN) |
| RetentionSpec.OutcomesAgree | internal/storage/storage.go:286-308 | an earlier prune does not change whether a later one is rejected |
| RetentionSpec.PruneTwice | internal/storage/storage.go:286-308 | pruning twice ends as pruning once and leaves the same child tables; the process tables differ exactly when a process without alerts is old at the first cutoff, none of those is still active, and one old at the second cutoff is |
| RetentionSpec.TwoPrunesCanDeleteMore | internal/storage/storage.go:303-307 | on a database of two processes and one file row, pruning to 3 and then 10 loses a process that pruning to 10 keeps |
| RetentionSpec.TwoProcessesAreStored | internal/storage/storage.go:130-147 | three inserts into an empty store make that database |
| RetentionSpec.PruneIsIdempotent | internal/storage/storage.go:286-308 | pruning again to the same cutoff changes neither state nor outcome |
| RetentionSpec.RunKeepsConsistent | internal/storage/storage.go:69-163 | every run of inserts and prunes keeps the foreign keys |
| RetentionSpec.AlertedProcessSurvivesRun | internal/storage/storage.go:130-308 | a process an alert names is never lost, whatever follows |
| RetentionSpec.InsertedAlertProtects | internal/storage/storage.go:157-163 | inserting an alert for a stored process keeps that process, unchanged, through whatever follows |
| Retention.Storage.InsertProcess | internal/storage/storage.go:130-139 | stores the row under an id never used before |
| Retention.Storage.InsertFileModification | internal/storage/storage.go:141-147 | refused, storing nothing, exactly when the process id names no process; otherwise stores the row as given under the next id, other tables unchanged |
| Retention.Storage.InsertNetworkConnection | internal/storage/storage.go:149-155 | refused, storing nothing, exactly when the process id names no process; otherwise stores the row as given under the next id, other tables unchanged |
| Retention.Storage.InsertAlertLog | internal/storage/storage.go:157-163 | refused, storing nothing, exactly when the process id names no process; otherwise stores the alert, naming that process, under the next id, other tables unchanged |
| Retention.Storage.RemoveProcesses | internal/storage/storage.go:303-307 | the third delete removes all picked processes, or none when a row would be left dangling |
| Retention.Storage.PruneOldTelemetry | internal/storage/storage.go:286-308 | three statements, each standing once done; succeeds exactly when no old process without alerts is still active |
| Scoring.ScoreOfOne | internal/scoring/scoring.go:20-33 | one verdict scores severity times weight, each held between 0 and 1, and none scores 0 |
| Scoring.ScoreOfConcat | internal/scoring/scoring.go:25-32 | two batches of verdicts combine as independent doubts, score(a ++ b) = 1 - (1 - score(a))(1 - score(b)) |
| Scoring.ScoreIgnoresOrder | internal/scoring/scoring.go:25-32 | permuting the verdicts does not change the score |
| Scoring.ScoreGrows | internal/scoring/scoring.go:25-32 | more verdicts never lower it |
| Scoring.ScoreBetweenMaxAndSum | internal/scoring/scoring.go:25-32 | it is at least every single share, at most their sum, and at most one |
| Scoring.SeveritySaturates | internal/scoring/scoring.go:27 | severities from 1.0 up all count alike |
| Scoring.CalculateCompoundScore | internal/scoring/scoring.go:20-33 | the loop computes the noisy-or of the clamped shares, 0 for none |
| Scoring.GenerateAlert | internal/scoring/scoring.go:35-58 | the alert carries the score, every engine's name in order, and every technique exactly once |
| DetectionSpec.FirstPattern | internal/detect/pipeline/pipeline.go:144-158 | the Sigma match reported is the first pattern found in the command line |
| DetectionSpec.StepKeepsAtLeast | internal/detect/pipeline/pipeline.go:44-237 | a stage with more indicators, on more findings, yields more findings |
| DetectionSpec.MoreIndicatorsNeverHide | internal/detect/pipeline/pipeline.go:31-218 | enlarging any detectors never lowers the score nor clears the alert, in any stage order |
| DetectionSpec.MoreIndicatorsSendNoFewer | internal/detect/pipeline/pipeline.go:31-237 | enlarging any detectors never loses an alert to be sent |
| DetectionSpec.ReorderedDetectorsAlike | internal/detect/pipeline/pipeline.go:53-180 | a permutation of detectors yields the same verdicts and notes up to order |
| DetectionSpec.DetectorOrderIsInvisible | internal/detect/pipeline/pipeline.go:31-218 | reordering detectors between any stages changes neither score nor alert |
| DetectionSpec.AlertsReachThreshold | internal/detect/pipeline/pipeline.go:206-237 | an alert is only ever due for verdicts whose score reaches the threshold of a risk-scoring stage that stands before its sender |
| DetectionOutcome.DetectorsAlone | internal/detect/pipeline/pipeline.go:53-180 | what each detector looks for and the verdict it reports |
| DetectionOutcome.SigmaAlone | internal/detect/pipeline/pipeline.go:144-158 | the Sigma detector reports exactly when some pattern occurs in the command line |
| DetectionOutcome.SigmaNotesFirst | internal/detect/pipeline/pipeline.go:144-158 | and notes the first pattern that occurs |
| DetectionOutcome.NotesAlone | internal/detect/pipeline/pipeline.go:53-180 | what each other detector notes |
| DetectionOutcome.DetectorsAppend | internal/detect/pipeline/pipeline.go:53-180 | a detector appends to what earlier stages found exactly what it finds alone, a note for each verdict, and touches nothing else |
| DetectionOutcome.CorrelationNeedsTwo | internal/detect/pipeline/pipeline.go:185-196 | correlation adds its verdict exactly from two verdicts on |
| DetectionOutcome.TriggeredIffTripped | internal/detect/pipeline/pipeline.go:206-218 | an event triggers the alert exactly when some risk-scoring stage met verdicts, and their score reaches its threshold |
| DetectionOutcome.DueIffTripped | internal/detect/pipeline/pipeline.go:206-237 | an alert is due exactly once at each sender behind such a stage, made from what was scored last before it |
| DetectionOutcome.FiringDetectorTriggers | internal/detect/pipeline/pipeline.go:31-218 | a detector that fires triggers the alert at any later scoring whose threshold is no more than its share, whatever the other stages are |
| DetectionOutcome.SharesOfDetectors | internal/detect/pipeline/pipeline.go:53-196 | the share of each detector is its weight |
| DetectionOutcome.NormalizerTrims | internal/detect/pipeline/pipeline.go:46-51 | the normaliser strips surrounding white space from path and hash, lowers the hash, and changes nothing else |
| Detection.DetectionContext.Add | internal/detect/pipeline/pipeline.go:57-65 | appends the stage's verdict and note |
| Detection.MatchSigma | internal/detect/pipeline/pipeline.go:145-156 | fires exactly when some pattern is in the command line |
| Detection.ScoreRisk | internal/detect/pipeline/pipeline.go:207-218 | triggers exactly when there are verdicts and their score reaches the threshold, or it was triggered before; the alert then describes those verdicts |
| Detection.ProcessStage | internal/detect/pipeline/pipeline.go:47-237 | each stage changes event, findings and alert channel as specified |
| Detection.Process | internal/detect/pipeline/pipeline.go:31-42 | the run of all stages on one event; the alerts due go out in order, describe the verdicts they were made from, and are dropped only when the channel is full |
| PolicySpec.ResolveDecides | internal/policy/policy.go:110-127 | cycle-proof evaluation either agrees with the source's recursion or exhibits a cycle |
| PolicySpec.EvaluationReturnsIffNoSilentCycle | internal/policy/policy.go:110-127 | the recursion returns exactly when the chain does not lead into a parent cycle without a match, and its result is unique |
| PolicySpec.FirstMatchMeaning | internal/policy/policy.go:116-120 | among one policy's rules the first whose process path occurs in the path decides, and none decides exactly when none occurs |
| PolicySpec.InheritanceIsFirstMatch | internal/policy/policy.go:110-127 | on a finite chain the decision is the first match over the concatenated rules, else Monitor, within one call more than the chain is long |
| PolicySpec.VerdictIsFirstMatch | internal/policy/policy.go:110-127 | whenever evaluation returns, on a cyclic chain or not, it is the first match over the rules of the loaded policies climbed, or Monitor at the end of the whole chain |
| PolicySpec.LineageIffNoParentCycle | internal/policy/policy.go:122-124 | a chain of parents ends exactly when it does not run into a cycle |
| PolicySpec.OwnParentHangs | internal/policy/policy.go:122-124 | after loading and activating one policy that is its own parent and has no rules, no evaluation returns |
| PolicySpec.RunKeepsGood | internal/policy/policy.go:75-97 | over any run loaded policies are valid and under their own id, and the active one, once set, stays set and loaded |
| PolicySpec.VerdictsAreValid | internal/policy/policy.go:99-127 | every decision is one of the five actions |
| PolicySpec.OffChainLoadChangesNothing | internal/policy/policy.go:75-127 | loading a policy off the active chain changes no decision |
| PolicyEngine.Engine.ValidatePolicy | internal/policy/policy.go:55-73 | no error exactly for a valid policy, otherwise the complaint about the empty id or the first bad rule |
| PolicyEngine.Engine.LoadPolicy | internal/policy/policy.go:75-85 | files a valid policy under its id, and nothing otherwise |
| PolicyEngine.Engine.SetActivePolicy | internal/policy/policy.go:87-97 | succeeds exactly for a loaded policy, and changes nothing otherwise |
| PolicyEngine.Engine.EvaluateRule | internal/policy/policy.go:99-108 | Monitor without an active policy, otherwise the chain's decision, always a valid action |
| PolicyEngine.Engine.EvaluateChain | internal/policy/policy.go:110-127 | the recursion along parents computes the chain's decision |
| MemoryMaps.ReadLine | internal/heuristics/heuristics.go:33-59 | one line yields its region, or nothing when malformed |
| MemoryMaps.ParseMaps | internal/heuristics/heuristics.go:28-63 | the scanning loop gathers the lines' regions in order and stops with an error at a line too long |
| MemoryMaps.FieldsOfLayout | internal/heuristics/heuristics.go:34 | splitting undoes any layout of words and gaps |
| MemoryMaps.ScanHexOfHex | internal/heuristics/heuristics.go:44-46 | scanning undoes hexadecimal rendering with any zero padding, over all 64-bit addresses |
| MemoryMaps.ScanHexReadsPrefix | internal/heuristics/heuristics.go:44-46 | scanning stops at the first other character, and yields zero without a digit or beyond 64 bits |
| MemoryMaps.ParseRenderedLine | internal/heuristics/heuristics.go:33-59 | a rendered region parses back to itself |
| MemoryMaps.ParsedLines | internal/heuristics/heuristics.go:28-63 | well-formed and malformed lines in any order give the regions of the well-formed ones up to the first line too long |
| MemoryMaps.MapsRoundTrip | internal/heuristics/heuristics.go:28-63 | all rendered regions come back, in order and without error, exactly when no line is too long |
| MemoryMaps.DetectSuspiciousRegions | internal/heuristics/heuristics.go:65-73 | the result is the order-preserving choice of exactly the regions whose permissions hold both w and x |
| MemoryMaps.PickedOutOnce | internal/heuristics/heuristics.go:65-73 | only one list is such a choice |

## Left out

- NextgenEngine.Engine.Ingest: taken as one step, because edges of a child are appended under the lock of the parent's shard and read under none; interleavings inside it, and data races, are not modelled.
- ProcessTree.Engine.ReconstructTimeline: requires that the record filed under the pid names another pid as its parent, because the source recurses for ever otherwise, and only then: `ProcessTreeSpec.FiledReturnsIffOtherParent`.
- ProcessTree.Engine.GroupAlerts: requires the same, for the same reason.
- PolicyEngine.Engine.EvaluateRule: requires that the active chain does not lead into a parent cycle without a match, because the source recurses for ever otherwise, and only then: `PolicySpec.EvaluationReturnsIffNoSilentCycle`.
- TelemetryPipeline.Pipeline.FlushBatch: the correlation and analytics hooks called on each event, which are the caller's own code.
- EventRouter.Router.GetEvent: takes a pooled object whenever there is one, where `sync.Pool` may make a new one; `EventRouterSpec` allows both, and lets the runtime free pooled objects.
- EventRouter.Router.FlushBatch: the inserts and the self-defense alert of `processBatchEvent` and the outcome of Begin and Commit are left open, because events are handled and recycled the same way in all of them.
- EventRouter.Router.Submit: the class method is for a call nothing comes between; `EventRouterSpec` has its two halves as separate steps.
- TelemetryPipeline.Pipeline.Ingest: the class method is for a call nothing comes between; `TelemetrySpec` has every counter, decision and send as a separate step.
- Deduplication.Deduplicator.IsDuplicate: needs a clock that does not go back, which Go's monotonic clock gives.
- Starting a router or pipeline twice, and stopping it twice (which panics).
- Saturation of time differences, wrap-around of counters, floating-point rounding.
- FNV and SHA-256: any function stands for them. Letter case is ASCII only, and the line limit of the scanner counts characters.
- The wording of alert timelines and process timelines: lines and items are structured values; reconstruction in the next-generation engine takes its line format as a parameter.
- Policies shared by pointer: a caller that edits a policy after loading it.
- Detection.Process: one channel serves all alert stages, where each stage of the source holds its own.
- Stage errors in the detection pipeline: no stage returns one.
- Hooks, Replay, the indicators table, queries, indexes, corruption handling and timestamp text formats of the store.
- Mitigation, scanning, YARA, Sigma files, threat feeds, plugins, quarantine, forensics, gRPC, CLI, TUI and reports: effects outside the process or small code next to the above.
