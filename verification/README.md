# Active Skill System: verified model

A Dafny model of the reactive event runtime of the Active Skill System, of its fork and replay machinery, and of three
neighbouring cores: the provenance graph of a loop, the cost-aware LLM router, and the hill-climb over compiler
transformations. Every method is proved against a specification function; what the system promises is then proved about
that function, for all inputs and whole runs.

`dafny verify dfyconfig.toml` checks the project.

## Layout

| modules | what they model |
|---|---|
| `Prelude`, `StableSort`, `Json` | filtering, Python's stable `sorted` and `min`, payload values |
| `EventLog`, `EventStore` | the append-only log and the store of graph events on top of it |
| `Behaviors`, `Dispatch`, `DispatchBounds`, `VisitLedger`, `VisitMeaning`, `BehaviorRuntime` | re-entrant dispatch: the pure interpreter, its bounds, its ledger of turns and what they mean, and the mutable runtime that refines it |
| `ForkEngine`, `RunDiffs`, `ReplayEngine`, `ReplayGraph`, `ForkAnalysis` | branching, comparing, replaying and analysing runs |
| `Patterns`, `PatternRuntime`, `RelationRuntime` | edge-triggered graph patterns and once-per-edge relations |
| `PatchApplier`, `PolicyGate` | the patch lifecycle and the policies that gate it |
| `Loops`, `LoopGraphs`, `LoopGraphMeaning`, `LoopGraphGrowth` | the loop lifecycle and its projection to a provenance graph |
| `ModelSelection`, `LLMRouter` | the simple selector and the router that must agree with it |
| `CompilerStub`, `TransformEvolution` | the compiler cost formulas and the mutate/evaluate climb |

A class method carries the loop and the updates of its source; its `ensures` equates the new state with a function of
the old one. Two kinds of history are kept in ghost fields only: the turns of the dispatch loop, and the firings and
status changes of triggers and proposals.

## Where the code and its documentation part

The model follows the code. Each point is a theorem with the exact condition.

- A payload filter reads absent keys as null, so "present and equal" fails for filters that expect null
  (`Behaviors.FilterMeansPresentIff`).
- An event whose payload holds a value JSON has no form for, such as a date, reads back changed
  (`EventStore.RowRoundTripIff`, `EventStore.DateReadsBackAsText`); what was read once is JSON, so forks and replays are
  exact for every payload.
- A fork at an unknown event copies the whole parent run (`ForkEngine.ForkPoint`). Copies keep naming the parent's events
  in `caused_by`, so a fork's causes lie in its own run only when there are none (`ForkEngine.ForkClosesCausesIff`).
- The diff of a run and its fork compares event ids, which are unique in the log, so it always splits at the first event
  and never reports a changed object (`RunDiffs.DistinctRunsAlwaysSplitAtOnce`).
- A manual-review policy does not stop the scan: a later policy still decides (`PolicyGate.FirstMatchDecidesIff`).
- Relation edge keys collide when a part contains a bar, or is empty where another edge lacks it
  (`RelationRuntime.KeyIdentifiesEdgeIff`).
- The projected graph is append-only while the lifecycle grows without a trajectory; beside a trajectory a contributing
  event is inserted in front of the steps (`LoopGraphGrowth.AdvanceBesideTrajectoryExtendsIff`).
- Re-using a step id closes a NEXT cycle (`LoopGraphGrowth.AcyclicIffDistinctSteps`).
- The router does not mark a provider unhealthy when it fails: an exhausted provider has one more failure on record and
  is degraded only when that reaches the threshold (`LLMRouter.ExhaustedProvider`). The list of models is
  fixed before the first attempt, so a model of a provider that has degraded on the way is tried all the same
  (`LLMRouter.NextModelIsHealthyIff`). A negative retry count tries nobody (`LLMRouter.NegativeRetriesTryNothing`).
- "Bumping" a parameter above its cap cuts it down and can lower the quality
  (`TransformEvolution.SingleNeverWorsensIff`); a negative unroll factor is doubled for ever
  (`TransformEvolution.SettlesIff`).

## Modelling decisions

- A handler is a total function from its frozen context to the events it emits, in order, and the error it then raises,
  if any. Registrations are fixed during a publish.
- Ids drawn from uuid4 are parameters: the fork's run id must name no stored run, a proposal id must be new. Timestamps
  and creation times are parameters.
- Payload values JSON has no form for carry what JSON writes for them. The JSON library is a pair of functions: writing
  replaces such values, at any depth, and reading returns what was written.
- Exceptions the source lets through are `Result` failures: an unknown replay mode, an unhashable vertex id or audit
  name, a patch payload that is not a dictionary, an unknown provider, a bad health threshold, an unknown proposal, a
  wrong status, an out-of-range transformation.
- Provider calls are numbered, and the n-th call's outcome is a parameter of the router.
- Costs are whole numbers of a small unit; backoff, energy and quality are exact reals; `round(c * 0.7**k)` is exact
  rational rounding, half to even.
- Runtime subclasses hold the inherited part as `base`.
- Lower-casing is that of ASCII letters: no other character becomes a letter of the one word looked for.

## Model

| member | source | states |
|---|---|---|
| BehaviorRuntime.InMemoryBehaviorRuntime.Register | src/active_skill_system/adapters/inmemory_behavior_runtime.py:63-69 | A registration is appended with zero counters; nothing else moves |
| BehaviorRuntime.InMemoryBehaviorRuntime.Publish | src/active_skill_system/adapters/inmemory_behavior_runtime.py:71-91 | A publish terminates, leaves the depth counter as it found it whether or not handlers raise, and moves every counter exactly as the pure depth-first interpreter does |
| BehaviorRuntime.InMemoryBehaviorRuntime.DispatchAll | src/active_skill_system/adapters/inmemory_behavior_runtime.py:93-97 | The loop over registrations, with counters moving under it, refines the interpreter's loop |
| BehaviorRuntime.InMemoryBehaviorRuntime.Consider | src/active_skill_system/adapters/inmemory_behavior_runtime.py:95-134 | One turn: gate on the current count, match, run the handler, then count a firing or an error, never both |
| BehaviorRuntime.InMemoryBehaviorRuntime.EmitAll | src/active_skill_system/adapters/inmemory_behavior_runtime.py:111-118 | The events a handler emits are published in order, one nesting level down |
| DispatchBounds.PublishGrowth | src/active_skill_system/adapters/inmemory_behavior_runtime.py:71-134 | With R registrations and at most E emitted events per handler, one publish counts at most the sum of (R*E)^k for k = 0..depth left; a saturated runtime counts exactly that |
| DispatchBounds.PublishRuns | src/active_skill_system/adapters/inmemory_behavior_runtime.py:93-134 | One publish runs at most R times the sum of (R*E)^k for k below the depth left handlers, firings never exceed runs, and a saturated runtime attains the bound |
| DispatchBounds.BoundsAreAttained | src/active_skill_system/adapters/inmemory_behavior_runtime.py:71-134 | For every R, E and depth some runtime counts exactly the bound and runs exactly the bounding number of handlers, so neither bound can be lowered |
| VisitLedger.CountersFollowVisits | src/active_skill_system/adapters/inmemory_behavior_runtime.py:93-127 | Over one publish a registration's fire count and error count grow by exactly the visits at which it was enabled and returned, or raised |
| VisitLedger.PublishTakesTurns | src/active_skill_system/adapters/inmemory_behavior_runtime.py:80-96 | Every publish below the depth limit gives every registration exactly one turn, in registration order and for its own event, whatever is published in between; at the limit nobody gets a turn |
| VisitLedger.GateNeverCloses | src/active_skill_system/domain/behavior.py:110-119 | The gate reads the growing global count: a registration active at one visit is active at every later one |
| VisitMeaning.CountersCountWantedVisits | src/active_skill_system/domain/behavior.py:52-119 | Over one publish a registration's counters grow by exactly the visits at which the count had reached its activation, its types include the event's and every filter key read as expected, and its handler returned, or raised |
| VisitMeaning.TurnSettles | src/active_skill_system/adapters/inmemory_behavior_runtime.py:97-127 | An unwanted turn changes nothing but the ledger; a wanted one publishes what the handler emits, then adds one firing, or one error with its text, to its own registration only |
| VisitMeaning.TurnPublishesInOrder | src/active_skill_system/adapters/inmemory_behavior_runtime.py:93-121 | A wanted turn whose handler emits k events adds k * R visits one level down, the m-th being registration m mod R considering emitted event m div R |
| VisitMeaning.EmitsAtTheLimit | src/active_skill_system/adapters/inmemory_behavior_runtime.py:78-85 | At the depth limit every emitted event is counted and nobody is visited |
| Behaviors.FilterMeansPresentIff | src/active_skill_system/domain/behavior.py:52-69 | The documented "present and equal" meaning of a payload filter holds on every payload exactly when the filter never expects null |
| EventLog.InMemoryEventLog.AppendRow | src/active_skill_system/adapters/inmemory_event_log.py:22-26 | Appending is idempotent on the id; otherwise the row goes to the end |
| EventLog.InMemoryEventLog.IterRows | src/active_skill_system/adapters/inmemory_event_log.py:28-32 | A read is the stable timestamp order filtered by run |
| EventLog.InMemoryEventLog.RowsSince | src/active_skill_system/adapters/inmemory_event_log.py:34-39 | The rows strictly after the event; none for an unknown event |
| EventLog.InMemoryEventLog.RowsUntil | src/active_skill_system/adapters/inmemory_event_log.py:41-46 | The rows through the event; none for an unknown event |
| EventLog.InMemoryEventLog.CountRows | src/active_skill_system/adapters/inmemory_event_log.py:48-49 | The count is the number of distinct ids and of rows read |
| EventLog.AppendIsIdempotent | src/active_skill_system/adapters/inmemory_event_log.py:22-26 | Re-appending a known id changes nothing |
| EventLog.ReadIsPermutation | src/active_skill_system/application/ports/event_log_backend.py:29-34 | A whole-log read is a permutation of the stored rows in (timestamp, insertion) order |
| EventLog.ReadIsLocal | src/active_skill_system/adapters/inmemory_event_log.py:28-32 | Reading a run is ordering that run's own rows: other runs never influence it |
| EventLog.ReadKeepsIdsUnique | src/active_skill_system/adapters/inmemory_event_log.py:22-32 | Reads never repeat an id |
| EventLog.SplitAtEvent | src/active_skill_system/adapters/inmemory_event_log.py:34-46 | rows_until followed by rows_since is the whole log for every stored event, and both are empty for an unknown one |
| EventLog.ReadIgnoresAppendOrder | src/active_skill_system/application/ports/event_log_backend.py:32-34 | Logs holding the same rows with distinct timestamps read identically whatever the append order |
| StableSort.StableSortUnique | src/active_skill_system/adapters/inmemory_event_log.py:29 | Key order plus per-key input order leaves only one possible result, so the modelled sort is the one the source calls |
| EventStore.EventStoreImpl.Append | src/active_skill_system/adapters/event_store_impl.py:38-39 | An event is appended as its row |
| EventStore.EventStoreImpl.IterEvents | src/active_skill_system/adapters/event_store_impl.py:41-43 | The run's rows come back as events in read order |
| EventStore.RowReadsBack | src/active_skill_system/adapters/event_store_impl.py:52-80 | A stored event reads back with its payload as JSON writes it; every other field survives |
| EventStore.RowHolds | src/active_skill_system/adapters/event_store_impl.py:52-61 | A stored row carries the event's own id, type, payload text, actor, run, cause and timestamp |
| EventStore.RowRoundTripIff | src/active_skill_system/adapters/event_store_impl.py:52-80 | It reads back unchanged exactly when no value JSON has no form for occurs in its payload |
| EventStore.DateReadsBackAsText | src/active_skill_system/adapters/event_store_impl.py:57-64 | A date in a payload reads back as its text |
| Json.WrittenAsItselfIff | src/active_skill_system/adapters/event_store_impl.py:57 | Writing as JSON changes exactly the values a foreign one occurs in, at any depth |
| Json.FalseValues | src/active_skill_system/adapters/native_replay_engine.py:129-152 | Which values `or` passes over and which cannot be dictionary keys, one by one |
| EventStore.ReadEventsAreJson | src/active_skill_system/adapters/event_store_impl.py:41-80 | What the store hands out is JSON, whatever was put in, so storing it again changes nothing |
| ForkEngine.NativeForkEngine.Fork | src/active_skill_system/adapters/native_fork_engine.py:29-66 | The log afterwards is the old log with the renamed prefix appended; the record names both runs |
| ForkEngine.NativeForkEngine.CollectPrefix | src/active_skill_system/adapters/native_fork_engine.py:41-46 | The parent's events through the first with the given id |
| ForkEngine.NativeForkEngine.AppendCopies | src/active_skill_system/adapters/native_fork_engine.py:48-59 | Copies are appended in order with new id and run id, old timestamp and old caused_by |
| ForkEngine.ForkReadsBack | src/active_skill_system/adapters/native_fork_engine.py:41-59 | The new run reads back as the renamed prefix in order, minus copies whose id was already taken, for any log: ties and interleaved runs included |
| ForkEngine.ForkCopiesTheFirst | src/active_skill_system/adapters/native_fork_engine.py:41-59 | With free ids, a fork at the k-th event, or at an unknown one, reads as k events, the j-th with id `fork/id` and the new run id and otherwise the type, payload, actor, cause and timestamp of the parent's j-th |
| ForkEngine.ForkIsPrefixIff | src/active_skill_system/adapters/native_fork_engine.py:48-59 | The fork is a faithful copy exactly when none of the ids it needs is taken |
| ForkEngine.TakenIdBreaksTheFork | src/active_skill_system/adapters/native_fork_engine.py:39-59 | A fresh run id is not enough: whichever is drawn, there are two-row logs on which the one copy needed has a taken id and is dropped |
| ForkEngine.ForkClosesCausesIff | src/active_skill_system/adapters/native_fork_engine.py:51-58 | In a faithful fork of events whose causes are stored, every cause names an event of the fork's own run exactly when no copied event has a cause |
| ForkEngine.ForkPoint | src/active_skill_system/adapters/native_fork_engine.py:41-46 | The prefix ends at the fork event; an unknown id copies the whole parent run |
| ForkEngine.ForkLeavesOtherRunsAlone | src/active_skill_system/adapters/native_fork_engine.py:48-59 | Every other run reads exactly as before |
| ForkEngine.EventsAreOrdered | src/active_skill_system/adapters/event_store_impl.py:41-43 | A run's events come back in timestamp order without repeated ids |
| ForkEngine.NativeForkEngine.Diff | src/active_skill_system/adapters/native_fork_engine.py:68-119 | The diff is the divergent objects of the payload maps together with the split event |
| ForkEngine.NativeForkEngine.FindSplit | src/active_skill_system/adapters/native_fork_engine.py:73-88 | The loop with break finds the split id |
| ForkEngine.NativeForkEngine.CollectObjects | src/active_skill_system/adapters/native_fork_engine.py:90-111 | Added, removed, then changed, each in id order |
| RunDiffs.SplitMarksFirstDifference | src/active_skill_system/adapters/native_fork_engine.py:73-88 | The split id names the first position where the traces part and is empty exactly when they agree throughout |
| RunDiffs.ObjectsAreDisagreements | src/active_skill_system/adapters/native_fork_engine.py:90-111 | An entry appears exactly when the payload maps disagree on its id, with the right label and data |
| RunDiffs.ObjectsListIdsOnce | src/active_skill_system/adapters/native_fork_engine.py:90-111 | No id is reported twice |
| RunDiffs.ObjectsInOrder | src/active_skill_system/adapters/native_fork_engine.py:94-111 | Added objects are listed before removed and these before changed ones, by ascending id within each |
| RunDiffs.StrLeqIff | src/active_skill_system/adapters/native_fork_engine.py:98-106 | An id comes first exactly when it is a beginning of the other or smaller at the first character they differ in |
| RunDiffs.SortIds | src/active_skill_system/adapters/native_fork_engine.py:90-111 | The ids of a set in lexicographic order; the least-first order is the only one |
| RunDiffs.SortedIdsLists | src/active_skill_system/adapters/native_fork_engine.py:90-111 | The sorted listing has exactly the set's ids, each once, increasing |
| RunDiffs.PayloadMapHolds | src/active_skill_system/adapters/native_fork_engine.py:90-92 | With unique ids the payload map holds each event's own payload |
| RunDiffs.DiffIsAntisymmetric | src/active_skill_system/adapters/native_fork_engine.py:90-111 | Swapping the runs exchanges added with removed and parent data with fork data |
| RunDiffs.IdenticalIffSamePayloads | src/active_skill_system/domain/fork.py:117-120 | A diff is identical exactly when the payload maps of the two runs are equal |
| RunDiffs.DistinctRunsAlwaysSplitAtOnce | src/active_skill_system/adapters/native_fork_engine.py:73-119 | Two different runs of one log always split at the very first event and never report a change, because ids are compared and are unique in the log |
| ReplayEngine.NativeReplayEngine.Replay | src/active_skill_system/adapters/native_replay_engine.py:47-110 | Unknown modes are refused without touching the runtime; otherwise the report counts the events, the rebuilt graph and the growth of the fire counts |
| ReplayEngine.NativeReplayEngine.ReplayAll | src/active_skill_system/adapters/native_replay_engine.py:72-86 | The loop with running counters refines the fold |
| ReplayEngine.NativeReplayEngine.ReplayOne | src/active_skill_system/adapters/native_replay_engine.py:77-86 | Publish first when behaviours fire, add the growth of the fire counts, then apply to the graph |
| ReplayEngine.SumFireCounts | src/active_skill_system/adapters/native_replay_engine.py:80-82 | The sum of all fire counts |
| ReplayEngine.ModesRebuildTheSameGraph | src/active_skill_system/adapters/native_replay_engine.py:71-86 | Strict and permissive replay reconstruct the same graph, the one the events describe |
| ReplayEngine.StrictFiresNothing | src/active_skill_system/adapters/native_replay_engine.py:77-83 | Strict replay fires nothing and leaves the runtime alone |
| ReplayEngine.ReportDescribes | src/active_skill_system/adapters/native_replay_engine.py:101-110 | The report counts the events, the vertices and edges of the rebuilt graph and the growth of the fire counts, and carries that graph |
| ReplayGraph.RelationEventAddsItsEdge | src/active_skill_system/adapters/native_replay_engine.py:137-142 | A relation event adds one edge with the payload's kind (or edge kind), source and target, and touches no vertex |
| ReplayGraph.VertexEventSetsItsVertex | src/active_skill_system/adapters/native_replay_engine.py:128-135 | A vertex event sets exactly the vertex its first true id names, to its type and remaining fields; without one it changes nothing, and an unhashable one ends the replay |
| ReplayGraph.NodePatchSetsItsVertex | src/active_skill_system/adapters/native_replay_engine.py:144-156 | An add_node patch sets exactly the node it names, to its kind and text |
| ReplayGraph.EdgePatchAddsItsEdge | src/active_skill_system/adapters/native_replay_engine.py:157-162 | An add_edge patch adds one edge with its kind, source and target |
| ReplayGraph.OtherEventsChangeNothing | src/active_skill_system/adapters/native_replay_engine.py:112-162 | No other event changes the graph |
| ReplayGraph.EdgesAreTheEdgeEvents | src/active_skill_system/adapters/native_replay_engine.py:84-86 | The edges of a whole run are those of its edge events, in order |
| ReplayGraph.VerticesHoldTheirLastData | src/active_skill_system/adapters/native_replay_engine.py:84-86 | The vertices of a whole run are those some event gives data, each with the data of the last that does |
| ReplayEngine.PermissiveFirings | src/active_skill_system/adapters/native_replay_engine.py:71-110 | behaviors_fired is the total growth of the fire counts and is at most events * R * the sum of (R*E)^k for k below the depth |
| ReplayEngine.RebuildComposes | src/active_skill_system/adapters/native_replay_engine.py:112-162 | Replaying a first part and continuing from its graph is replaying the whole, failures included |
| ReplayEngine.RenamingKeepsTheGraph | src/active_skill_system/adapters/native_replay_engine.py:112-162 | Ids and run ids have no influence on the rebuilt graph |
| ReplayEngine.ForkThenContinue | src/active_skill_system/adapters/native_replay_engine.py:77-86 | The fork replays to the parent's prefix graph, and continuing it with the parent's remaining events gives the parent's full replay |
| ForkAnalysis.ForkAnalysisUseCase.Analyze | src/active_skill_system/application/use_cases/fork_analysis.py:116-164 | For every name the comparison of its events in parent and fork, by event type and payload key; an error exactly when a name cannot be a dictionary key |
| ForkAnalysis.ForkAnalysisUseCase.CountBy | src/active_skill_system/application/use_cases/fork_analysis.py:166-212 | The names whose counts differ, with both counts |
| ForkAnalysis.ForkAnalysisUseCase.CountNames | src/active_skill_system/application/use_cases/fork_analysis.py:172-181 | The counting loop counts every name |
| ForkAnalysis.ForkAnalysisUseCase.PolicyDecisions | src/active_skill_system/application/use_cases/fork_analysis.py:214-236 | The proposals whose last decisions differ, absent ones shown as none |
| ForkAnalysis.ForkAnalysisUseCase.LastDecisions | src/active_skill_system/application/use_cases/fork_analysis.py:220-229 | The loop keeps the last decision of every proposal |
| ForkAnalysis.CountDiffMeans | src/active_skill_system/application/use_cases/fork_analysis.py:166-260 | A name is reported exactly when its counts, or its decisions, differ |
| ForkAnalysis.ReactiveCompares | src/active_skill_system/application/use_cases/fork_analysis.py:166-260 | For every name the four differences compare, parent first, the numbers of behavior.triggered, patch.proposed and pattern.matched events naming it, and the types of the last policy event on it, none when there is none |
| ForkAnalysis.AnalysisAfterFork | src/active_skill_system/application/use_cases/fork_analysis.py:116-260 | Right after a fork every reported difference is exactly the name's count in the parent's events after the fork point, and a policy difference a later decision that changed the outcome |
| ForkAnalysis.AnalysisAfterForkMeans | src/active_skill_system/application/use_cases/fork_analysis.py:116-260 | Right after a fork those numbers and last decisions are the parent's, against the parent's own events through the fork point |
| ForkAnalysis.WholeForkDoesNotDiverge | src/active_skill_system/application/use_cases/fork_analysis.py:42-50 | A fork at the parent's last event, or at an unknown one, shows no reactive divergence |
| Patterns.PatternMatcher.Matches | src/active_skill_system/domain/pattern.py:132-134 | True exactly when every clause is answered by a vertex, or by none, as its condition says |
| Patterns.PatternMatcher.FindMatchingVertices | src/active_skill_system/domain/pattern.py:136-150 | The fitting vertices, in the view's order |
| Patterns.PatternMatcher.ClauseMatches | src/active_skill_system/domain/pattern.py:152-159 | EXISTS means some vertex fits, NOT_EXISTS that none does |
| Patterns.PatternMatcher.FindEdge | src/active_skill_system/domain/pattern.py:165-184 | True exactly when some edge satisfies kind, direction and the other end's type |
| Patterns.HoldsMeans | src/active_skill_system/domain/pattern.py:132-184 | Each clause is answered by a vertex of its type carrying its filter, with an edge of the required kind leading from it when outgoing, to it when incoming, and a vertex of the target type at the other end, or, for NOT_EXISTS, by none |
| Patterns.ExistsIsMonotone | src/active_skill_system/domain/pattern.py:132-184 | A pattern of EXISTS clauses that holds keeps holding while vertices and edges are only gained |
| PatternRuntime.PatternBehaviorRuntime.RegisterPattern | src/active_skill_system/adapters/pattern_behavior_runtime.py:58-71 | A fresh trigger is appended, not matched and never fired |
| PatternRuntime.PatternBehaviorRuntime.CheckPatterns | src/active_skill_system/adapters/pattern_behavior_runtime.py:73-111 | Every trigger steps once, the result is the number that rose, and the event runtime moved only by the handlers of those |
| PatternRuntime.PatternBehaviorRuntime.CheckAt | src/active_skill_system/adapters/pattern_behavior_runtime.py:83-109 | Checking one trigger changes no other trigger |
| PatternRuntime.PatternBehaviorRuntime.CheckOne | src/active_skill_system/adapters/pattern_behavior_runtime.py:83-109 | A trigger fires exactly on a not-matching to matching edge |
| PatternRuntime.PatternBehaviorRuntime.DispatchHandler | src/active_skill_system/adapters/pattern_behavior_runtime.py:113-147 | What the handler emits is published; what it raises changes no counter |
| PatternRuntime.TriggersFireOncePerTransition | src/active_skill_system/adapters/pattern_behavior_runtime.py:58-111 | Over any run of registrations and checks, each trigger's fire count grows by the number of checked views in which its own pattern went from not matching to matching |
| PatternRuntime.EachTriggerObserves | src/active_skill_system/adapters/pattern_behavior_runtime.py:82-109 | Whatever else is checked or registered, a trigger's state is that of a lone trigger shown the same views |
| PatternRuntime.FiresOncePerTransition | src/active_skill_system/adapters/pattern_behavior_runtime.py:83-109 | Over any sequence of findings the fire count is the number of not-matching to matching transitions |
| PatternRuntime.CheckTurnMeans | src/active_skill_system/adapters/pattern_behavior_runtime.py:83-109 | The handler of a newly matching pattern is shown a pattern.matched event with its name, description, number and count, and what it emits is published |
| PatternRuntime.ExistsFiresAtMostOnce | src/active_skill_system/adapters/pattern_behavior_runtime.py:73-111 | Over any run whose checked views only grow, a fresh trigger of EXISTS clauses fires once if the last view matches and otherwise never |
| RelationRuntime.RelationBehaviorRuntime.RegisterRelationBehavior | src/active_skill_system/adapters/relation_behavior_runtime.py:62-77 | A fresh trigger is appended with an empty fired set |
| RelationRuntime.RelationBehaviorRuntime.CheckRelations | src/active_skill_system/adapters/relation_behavior_runtime.py:79-132 | The nested loops refine the trigger-by-trigger, edge-by-edge machine; the result is the number of firings |
| RelationRuntime.RelationBehaviorRuntime.ScanEdges | src/active_skill_system/adapters/relation_behavior_runtime.py:99-130 | One trigger over all edges of the view |
| RelationRuntime.RelationBehaviorRuntime.LookAtEdge | src/active_skill_system/adapters/relation_behavior_runtime.py:99-130 | A known key or a non-matching edge does nothing; a new matching edge is recorded and its handler runs |
| RelationRuntime.OncePerEdgeKey | src/active_skill_system/adapters/relation_behavior_runtime.py:62-132 | Over any run of checks, registrations and publishes on a new runtime no trigger fires twice for a key, its fired set is what it fired for, and its fire count is the size of that set |
| RelationRuntime.CheckedFired | src/active_skill_system/adapters/relation_behavior_runtime.py:94-132 | A check adds exactly the keys of the matching edges of the triggers that were active at their own turn |
| RelationRuntime.MatchingKeysMean | src/active_skill_system/domain/relation.py:70-86 | The matching keys are `kind|source|target` of the edges of the relation's kind that lead from a vertex of its source type to one of its target type |
| RelationRuntime.LookAtMeans | src/active_skill_system/adapters/relation_behavior_runtime.py:105-130 | For a new key the handler is shown a relation.created event with the name, number, kind, source and target, and what it emits is published |
| RelationRuntime.KeyIdentifiesPartsIff | src/active_skill_system/adapters/relation_behavior_runtime.py:101-103 | Up to absent meaning empty, an edge key identifies its edge exactly when none of the parts contains a bar |
| RelationRuntime.KeyIdentifiesEdgeIff | src/active_skill_system/adapters/relation_behavior_runtime.py:101-103 | An edge key identifies its edge exactly when none of the parts contains a bar or is empty; otherwise a colliding edge exists |
| PatchApplier.InMemoryPatchApplier.Propose | src/active_skill_system/adapters/inmemory_patch_applier.py:37-46 | A fresh pending proposal joins the store |
| PatchApplier.InMemoryPatchApplier.Approve | src/active_skill_system/adapters/inmemory_patch_applier.py:48-57 | A pending proposal becomes approved; unknown or reviewed ones fail and change nothing |
| PatchApplier.InMemoryPatchApplier.Reject | src/active_skill_system/adapters/inmemory_patch_applier.py:59-68 | A pending proposal becomes rejected; unknown or reviewed ones fail and change nothing |
| PatchApplier.InMemoryPatchApplier.Apply | src/active_skill_system/adapters/inmemory_patch_applier.py:70-82 | An approved proposal's patch is executed and it becomes applied; anything else fails and executes nothing |
| PatchApplier.InMemoryPatchApplier.ListPending | src/active_skill_system/adapters/inmemory_patch_applier.py:84-86 | The pending proposals, in the order they were proposed |
| PatchApplier.InMemoryPatchApplier.Require | src/active_skill_system/adapters/inmemory_patch_applier.py:96-100 | The stored proposal, or an error exactly when the id is unknown |
| PatchApplier.PerformKeepsLegal | src/active_skill_system/adapters/inmemory_patch_applier.py:37-100 | Every call keeps the lifecycle legal, a failing call changes nothing, and patch, proposer, reason and creation time never change |
| PatchApplier.RunKeepsLegal | src/active_skill_system/application/ports/patch_applier.py:58-69 | Over any run of calls the lifecycle stays legal and what was proposed stays as proposed |
| PatchApplier.ExecutedAreApplied | src/active_skill_system/adapters/inmemory_patch_applier.py:70-82 | From an empty store, the executed patches are exactly those of applied proposals, each once and after its approval, and statuses move only along the legal paths |
| PatchApplier.ProposeMeans | src/active_skill_system/adapters/inmemory_patch_applier.py:37-46 | The new proposal is pending, unreviewed and last, and nothing is executed |
| PatchApplier.ApproveMeans | src/active_skill_system/adapters/inmemory_patch_applier.py:48-57 | Only the status, reviewer and review reason of the one pending proposal change: approved, by this reviewer, for this reason |
| PatchApplier.RejectMeans | src/active_skill_system/adapters/inmemory_patch_applier.py:59-68 | Only the status, reviewer and review reason of the one pending proposal change: rejected, by this reviewer, for this reason |
| PatchApplier.ApplyMeans | src/active_skill_system/adapters/inmemory_patch_applier.py:70-82 | Only the status of the one approved proposal changes, and its patch is executed once if there is a patch function |
| PatchApplier.PendingInOrder | src/active_skill_system/adapters/inmemory_patch_applier.py:84-86 | The listed proposals are the stored ones of the pending ids, in the order they were proposed |
| PolicyGate.PolicyGateUseCase.Register | src/active_skill_system/application/use_cases/policy_gate.py:42-48 | Re-sorting after every append keeps the list the stable descending-priority order of all registrations |
| PolicyGate.PolicyGateUseCase.Evaluate | src/active_skill_system/application/use_cases/policy_gate.py:50-96 | The first decisive matching policy decides and drives the applier; with none the proposal is left for manual review |
| PolicyGate.PolicyGateUseCase.EvaluateAllPending | src/active_skill_system/application/use_cases/policy_gate.py:98-103 | Never fails; every proposal that was pending is decided by the policy whose word counts, nothing else moves, and each evaluation reports what became of its proposal |
| PolicyGate.PolicyGateUseCase.EvaluateEach | src/active_skill_system/application/use_cases/policy_gate.py:98-103 | Evaluating distinct pending proposals in turn always succeeds |
| PolicyGate.DeciderHasTopPriority | src/active_skill_system/application/use_cases/policy_gate.py:42-60 | The decider has the highest priority among all registered decisive policies, first registered among equals; none exactly when none is decisive |
| PolicyGate.FirstMatchDecidesIff | src/active_skill_system/application/use_cases/policy_gate.py:50-96 | The documented "first matching policy decides" holds exactly when a manual-review first match is followed by matching manual-review policies only |
| PolicyGate.AnyOrderDecidesTheSame | src/active_skill_system/application/use_cases/policy_gate.py:98-103 | Any order of evaluation gives the same proposals and touches no other |
| PolicyGate.EvaluatingSome | src/active_skill_system/application/use_cases/policy_gate.py:50-103 | Evaluating some of the pending proposals decides exactly those |
| PolicyGate.GatingIsIdempotent | src/active_skill_system/application/use_cases/policy_gate.py:98-103 | What stays pending is exactly what no policy decides, and gating again changes nothing |
| PolicyGate.GateMeans | src/active_skill_system/application/use_cases/policy_gate.py:42-147 | The highest-priority, first-registered policy that matches and is not manual review decides: auto-approval approves, auto-rejection rejects, and the third rule approves exactly when the word improvement stands in the reason in any case; it is the reviewer; without one the proposal stays as it was |
| PolicyGate.AnswersReport | src/active_skill_system/application/use_cases/policy_gate.py:62-103 | Each evaluation reports the status, reviewer and reason its proposal ended with, or that no policy matched |
| Loops.LifecycleIsAppendOnly | src/active_skill_system/domain/loop.py:225-269 | Over any run of validated and unvalidated advances a started loop keeps its identity, its lifecycle gains exactly the accepted events, no terminal state is left, every validated transition is legal, and the state is that of the last event |
| Loops.LegalTransitions | src/active_skill_system/domain/loop.py:42-62 | The eleven legal transitions, and that the terminal states are those with none |
| Loops.StartMeans | src/active_skill_system/domain/loop.py:259-270 | A started loop runs, with one start event that carries its intent |
| LoopGraphs.Project | src/active_skill_system/domain/loop_graph.py:167-254 | The loops over local lists and seen-sets build the deduplicated additions of all parts in order |
| LoopGraphs.Builder.AddOneVertex | src/active_skill_system/domain/loop_graph.py:196-199 | Only the first vertex of an id is kept |
| LoopGraphs.Builder.AddOneEdge | src/active_skill_system/domain/loop_graph.py:201-205 | Only the first edge of a (kind, src, dst) key is kept |
| LoopGraphs.Builder.AddSkills | src/active_skill_system/domain/loop_graph.py:214-217 | Every skill contributes its vertex and USES edge |
| LoopGraphs.Builder.AddLifecycle | src/active_skill_system/domain/loop_graph.py:219-236 | Verifications and failures contribute, other events do not |
| LoopGraphs.Builder.AddTrajectory | src/active_skill_system/domain/loop_graph.py:238-252 | Every step contributes its vertex, USES edge and NEXT edge from its predecessor |
| LoopGraphs.ProjectionIsClosed | src/active_skill_system/domain/loop_graph.py:131-142 | Every projection has unique vertex ids, unique edges and known endpoints, so the constructor never rejects it |
| LoopGraphs.VidIsInjective | src/active_skill_system/domain/loop_graph.py:162-164 | Ids of different kinds or different keys never collide |
| LoopGraphMeaning.ProjectionMeans | src/active_skill_system/domain/loop_graph.py:207-254 | The vertices are the loop, its intent, skills, verifiers, failures and steps, and the edges are CREATED from intent to loop, USES from loop to skills and steps, VERIFIED_BY with its confidence, FIXES or LEARNS_FROM, and NEXT between consecutive steps, each with its payload, that of the first occurrence, and all of them |
| LoopGraphGrowth.AdvanceAddsEvent | src/active_skill_system/domain/loop_graph.py:219-236 | Advancing a loop adds exactly the new event's part |
| LoopGraphGrowth.AdvanceExtends | src/active_skill_system/domain/loop.py:225-257 | Advancing a loop extends the vertex and edge lists as a prefix |
| LoopGraphGrowth.RecordingExtends | src/active_skill_system/domain/loop_graph.py:238-252 | Recording one more step extends both lists as a prefix |
| LoopGraphGrowth.AdvanceBesideTrajectoryExtendsIff | src/active_skill_system/domain/loop_graph.py:219-254 | With a trajectory recorded, advancing extends the lists exactly when the event contributes nothing, or an edge an earlier lifecycle event contributed already |
| LoopGraphGrowth.DistinctStepsFormAPath | src/active_skill_system/domain/loop_graph.py:238-252 | With distinct step ids the NEXT edges are one path in trajectory order |
| LoopGraphGrowth.NextEdgeMeans | src/active_skill_system/domain/loop_graph.py:250-252 | A NEXT edge joins exactly the ids of two consecutive steps |
| LoopGraphGrowth.AcyclicIffDistinctSteps | src/active_skill_system/domain/loop_graph.py:238-252 | The NEXT edges are acyclic exactly when no step id is repeated |
| ModelSelection.SelectModelIsBest | src/active_skill_system/application/model_selector.py:51-78 | None exactly when no model is capable; otherwise a capable model that has the stage's preference if any capable one has, at least cost |
| ModelSelection.SelectModelMeans | src/active_skill_system/application/model_selector.py:33-78 | The selected model does the stage best (parsing fast, pictures by vision, synthesis by thinking, repair with tools) if any capable one does, and no other as good costs less for input and output together |
| LLMRouter.Router.Select | src/active_skill_system/application/llm_router.py:99-111 | Whenever the health lookups succeed, the model the simple selector picks from the registry restricted to healthy providers; otherwise the lookup's error |
| LLMRouter.Router.OrderedHealthyModels | src/active_skill_system/application/llm_router.py:113-134 | Exactly the healthy capable models, narrowed to the preferred ones if any, cheapest first and ties in registry order |
| LLMRouter.Router.RouteWithFallback | src/active_skill_system/application/llm_router.py:136-163 | The fallback loop refines the model-by-model account of health, calls, delays and attempts |
| LLMRouter.Router.AttemptWithRetries | src/active_skill_system/application/llm_router.py:180-224 | The retry loop refines the attempt-by-attempt account |
| LLMRouter.RouterAgreesWithSelector | src/active_skill_system/application/llm_router.py:99-134 | For every health state the router selects what the simple selector selects on the registry restricted to healthy providers; it raises exactly when a lookup does |
| LLMRouter.OrderedModels | src/active_skill_system/application/llm_router.py:113-134 | The tried models are the healthy capable ones, narrowed to the preferred ones if any, cheapest first |
| LLMRouter.TriesEligible | src/active_skill_system/application/llm_router.py:113-134 | Tried are the registered models with all required capabilities and fewer failures than the threshold that do the stage best, or all of them when none does, by ascending input plus output cost |
| LLMRouter.RetriesOf | src/active_skill_system/application/llm_router.py:180-224 | One provider gets at most max_retries + 1 calls of which only the last can serve, one recorded attempt, one health update and the backoff sum in between |
| LLMRouter.ExhaustedProvider | src/active_skill_system/domain/provider_health.py:57-82 | A provider whose retries are exhausted has one more failure, and is degraded from then on exactly when that reaches the threshold |
| LLMRouter.AttemptRecords | src/active_skill_system/domain/provider_health.py:57-76 | A provider that served has no failures and no error; one that did not has one more failure and the error of its last call; no other record moves |
| LLMRouter.PausesDouble | src/active_skill_system/application/llm_router.py:198-217 | One pause between two calls: the base first, each further one twice the one before |
| LLMRouter.RouteOutcome | src/active_skill_system/application/llm_router.py:136-163 | Routing is served by some model after all in front of it were exhausted, or exhausts all; calls, delays and attempts add up model by model |
| LLMRouter.CallsAreBounded | src/active_skill_system/application/llm_router.py:136-224 | At most n * (max_retries + 1) calls; exactly that many, and the full delay of each model, when nobody serves |
| LLMRouter.ExhaustedDelayIs | src/active_skill_system/application/llm_router.py:198-214 | Each exhausted model costs base * (2^max_retries - 1) of sleep |
| LLMRouter.OneAttemptPerModel | src/active_skill_system/application/llm_router.py:152-163 | One attempt is recorded per model tried, in order, only the last one successful; a fallback is reported exactly when a second model was needed |
| LLMRouter.CheaperModelsWereExhausted | src/active_skill_system/application/llm_router.py:136-163 | Every eligible model strictly cheaper than the one that served was tried in vain before it |
| LLMRouter.FailuresAtTurn | src/active_skill_system/application/llm_router.py:136-163 | By a model's turn every provider has one more failure on record for each of its models tried before |
| LLMRouter.NextModelIsHealthyIff | src/active_skill_system/application/llm_router.py:143-163 | The documented "the next healthy model is tried": the model whose turn it is is tried anyway, and is healthy exactly when its provider's failures, counting its earlier models, are below the threshold |
| LLMRouter.DegradedProviderIsTried | src/active_skill_system/application/llm_router.py:146-163 | A second model of a provider that has just degraded is tried and recorded |
| LLMRouter.NegativeRetriesTryNothing | src/active_skill_system/application/llm_router.py:180-224 | A negative retry count calls nobody, records nothing and serves nothing |
| CompilerStub.FusionIsMonotone | src/active_skill_system/adapters/compiler_tool_stub.py:66-112 | Fusing one more loop never costs cycles, rounding included |
| CompilerStub.DivisionIsAntitone | src/active_skill_system/adapters/compiler_tool_stub.py:66-112 | Larger tiles and factors never cost cycles |
| CompilerStub.InvokeSucceedsIff | src/active_skill_system/adapters/compiler_tool_stub.py:66-112 | The tool fails exactly on illegal candidates and on tiles or fusions below one and factors below two |
| CompilerStub.InvokeTiles | src/active_skill_system/adapters/compiler_tool_stub.py:79-85 | Cycles are divided by the tile size, rounded down but at least one; two registers per unit and a spill per sixteen, rounded up, are added |
| CompilerStub.InvokeUnrolls | src/active_skill_system/adapters/compiler_tool_stub.py:97-103 | Cycles are divided by the factor, rounded down but at least one; its registers are added and a spill is saved |
| CompilerStub.InvokeFuses | src/active_skill_system/adapters/compiler_tool_stub.py:89-96 | Cycles are 7^k/10^k of the baseline's to the nearest whole number, halves to even, at least one; four registers per loop are added and a spill is saved |
| CompilerStub.InvokeInterchanges | src/active_skill_system/adapters/compiler_tool_stub.py:86-88 | Only the register pressure falls, by one but not below zero |
| CompilerStub.TransformedEnergy | src/active_skill_system/adapters/compiler_tool_stub.py:106-112 | Energy changes in proportion to the cycles |
| CompilerStub.BetterMeans | src/active_skill_system/domain/compiler_types.py:163-199 | Valid before invalid, then fewer cycles, then fewer spills, then less energy |
| TransformEvolution.Mutate | src/active_skill_system/application/evolvable_adapters.py:250-281 | The loop bumps the first candidate that can be bumped and keeps the rest |
| TransformEvolution.MutatedAt | src/active_skill_system/application/evolvable_adapters.py:250-281 | A mutation replaces at most one candidate, at one position, and keeps the length |
| TransformEvolution.MutatedParameter | src/active_skill_system/application/evolvable_adapters.py:349-378 | A bump sets its own parameter and changes neither kind nor legality |
| TransformEvolution.BumpMeans | src/active_skill_system/application/evolvable_adapters.py:349-378 | A bump adds eight to a tile up to 256, doubles a factor up to 16 or adds one to the fused loops up to four, and leaves every other parameter alone |
| TransformEvolution.MutationTakesOneStep | src/active_skill_system/application/evolvable_adapters.py:250-281 | Every mutation takes exactly one of the genome's remaining steps, until none is left |
| TransformEvolution.SettlesExactlyAt | src/active_skill_system/application/evolvable_adapters.py:250-281 | Repeated mutation reaches its fixpoint after exactly the genome's total number of steps |
| TransformEvolution.SettlesIff | src/active_skill_system/application/evolvable_adapters.py:349-378 | It reaches a fixpoint exactly when no unroll factor is negative |
| TransformEvolution.StepsWithinDistance | src/active_skill_system/application/evolvable_adapters.py:162-165 | Within the caps the number of steps is at most the total distance to the caps |
| TransformEvolution.Evaluate | src/active_skill_system/application/evolvable_adapters.py:283-346 | The loop finds the best reduction, the number tried and whether anything improved |
| TransformEvolution.FitnessMeans | src/active_skill_system/application/evolvable_adapters.py:283-346 | Quality is the largest share of the baseline's cycles that a tried candidate beating it saves, or zero; cost is the number tried, latency one, and it is a regression exactly when none beats the baseline |
| TransformEvolution.BestInUnit | src/active_skill_system/application/evolvable_adapters.py:283-346 | The best reduction lies in [0, 1], so the clamp never acts |
| TransformEvolution.HighestInOrder | src/active_skill_system/application/evolvable_adapters.py:300-335 | The best reduction bounds every candidate's and is one of them, or zero |
| TransformEvolution.BumpKeepsImproving | src/active_skill_system/domain/compiler_types.py:163-199 | A bumped candidate that was better than the baseline stays better |
| TransformEvolution.MutationNeverWorsens | src/active_skill_system/application/evolvable_adapters.py:250-378 | Unless the candidate it bumps is legal and above its cap, a mutation never lowers the quality, adds no regression and changes neither cost nor latency |
| TransformEvolution.ClimbNeverWorsens | src/active_skill_system/application/evolvable_adapters.py:250-378 | With no legal candidate above its cap, quality only rises along the whole climb |
| TransformEvolution.SingleNeverWorsensIff | src/active_skill_system/application/evolvable_adapters.py:349-378 | For a single candidate a mutation never lowers the quality on any dataset exactly when it is illegal or its parameter does not exceed its cap |

## Left out

- LLM providers, SQLite, LadybugDB, activegraph, subprocess executors and CLI composition: I/O and foreign libraries.
- `RepairLoopUseCase`, `TaskGraphState`, `OutputVerifierUseCase`: they rest on domain/runtime and the validator, which are not part of this model.
- `EventEmittingBehaviorRuntime`: its audit ids collide when two behaviours fire on one event, so one row per firing does not hold.
- `AsyncForkEngine`, `ForkReplayCacheEngine`: thin wrappers; the cache key is a hash.
- The SQL, IaC, security, ML, network, storage and log copies of metrics, stubs, policies and evolvables: the compiler profile's shape again.
- `__post_init__` type checks, summaries, logging, trace spans and durations: types and parameters stand in for them.
- `list_registrations`, `list_all`, `get`, `edges_from`, `edges_to`, `route_with_fallback_or_raise`, `events_since`, `events_until`: accessors and pass-throughs that would only add easy members.
- Handlers that register behaviours or read the runtime while it dispatches: the handler sees its frozen context only.
- Floating-point rounding of costs, delays, energies and quality.
- Payload dictionaries with keys that are not strings.
- Python's cross-type equality (`True == 1`, `1 == 1.0`) among payload values: equality is structural.
- Patch functions that raise during apply: the patch function is total.
- Edge records of a graph view whose kind, source or target is not a string, and a graph view of another type.
- Budgets of a loop, and the time of a provider's last success.
- Cache misses and vectorisation of compiler metrics: they keep their defaults and break no tie.
- The parsing of a dataset dictionary into baseline metrics and a candidate limit: `Evaluate` takes both as given.
- Non-integer transformation parameters, and invokers other than the compiler stub.
- Divergent relations of a diff: the engine never reports any.
- An injected selector of the router: the built-in one is modelled.
