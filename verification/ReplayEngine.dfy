/** Rebuilding a graph from a run's events, with (permissive) or without (strict) firing behaviours. */
module ReplayEngine {
  import opened Prelude
  import opened Json
  import opened EventLog
  import opened EventStore
  import opened Dispatch
  import opened DispatchBounds
  import opened BehaviorRuntime
  import opened ForkEngine

  datatype EdgeRecord = EdgeRecord(kind: Value, source: Value, target: Value)

  datatype GraphState = GraphState(vertices: map<Value, Payload>, edges: seq<EdgeRecord>)

  /** The exceptions a replay lets through: an unknown mode, a list or dictionary used as a vertex id,
      and a patch whose payload is not a dictionary. */
  datatype ReplayError = UnknownMode | UnhashableVertexId | PatchPayloadNotADict

  const EMPTY_GRAPH := GraphState(map[], [])

  function UpsertVertex(g: GraphState, id: Value, data: Payload): Result<GraphState, ReplayError> {
    if !Truthy(id) then Success(g)
    else if !Hashable(id) then Failure(UnhashableVertexId)
    else Success(g.(vertices := g.vertices[id := data]))
  }

  function ApplyPatch(fields: Payload, g: GraphState): Result<GraphState, ReplayError> {
    var opType := GetOr(fields, "op_type", Str(""));
    var opPayload := GetOr(fields, "payload", Obj(map[]));
    if opType == Str("add_node") then
      if !opPayload.Obj? then Failure(PatchPayloadNotADict)
      else
        var op := opPayload.fields;
        UpsertVertex(g, GetOr(op, "node_id", Str("")),
          map["type" := GetOr(op, "kind", Str("node")), "text" := GetOr(op, "text", Str(""))])
    else if opType == Str("add_edge") then
      if !opPayload.Obj? then Failure(PatchPayloadNotADict)
      else
        var op := opPayload.fields;
        Success(g.(edges := g.edges +
          [EdgeRecord(GetOr(op, "kind", Str("")), GetOr(op, "source", Str("")), GetOr(op, "target", Str("")))]))
    else Success(g)
  }

  /** The effect of one event on the graph; event types without a rule leave it alone. */
  function ApplyEvent(e: GraphEvent, g: GraphState): Result<GraphState, ReplayError> {
    var p := e.payload;
    if e.eventType in ["object.created", "vertex.upserted", "claim.created"] then
      var id := Or(Get(p, "vertex_id"), Or(Get(p, "claim_id"), GetOr(p, "id", Str(""))));
      var rest := map k | k in p && k !in ["vertex_id", "claim_id", "id", "vertex_type", "type"] :: p[k];
      UpsertVertex(g, id, rest["type" := Or(Get(p, "vertex_type"), GetOr(p, "type", Str("object")))])
    else if e.eventType in ["relation.created", "edge.added"] then
      Success(g.(edges := g.edges +
        [EdgeRecord(
           GetOr(p, "kind", GetOr(p, "edge_kind", Str(""))),
           GetOr(p, "source", Str("")),
           GetOr(p, "target", Str("")))]))
    else if e.eventType == "patch.applied" then
      match GetOr(p, "patch", Obj(map[]))
      case Obj(fields) => ApplyPatch(fields, g)
      case _ => Success(g)
    else Success(g)
  }

  /** The graph the events describe. */
  function Rebuild(es: seq<GraphEvent>, g: GraphState): Result<GraphState, ReplayError> {
    if es == [] then Success(g)
    else match ApplyEvent(es[0], g)
      case Success(next) => Rebuild(es[1..], next)
      case Failure(error) => Failure(error)
  }

  datatype Progress = Progress(outcome: Result<GraphState, ReplayError>, fired: int, state: RtState)

  /** One replayed event: published first when behaviours fire, then applied to the graph. */
  ghost function ReplayStep(fires: bool, regs: seq<Reg>, left: nat, e: GraphEvent, p: Progress): (r: Progress)
    requires |p.state.counters| == |regs| && p.outcome.Success?
    ensures |r.state.counters| == |regs|
  {
    var st := if fires then Publish(regs, left, e, p.state) else p.state;
    Progress(
      ApplyEvent(e, p.outcome.value),
      p.fired + Fires(st.counters) - Fires(p.state.counters),
      st)
  }

  /** The replay loop over the remaining events; an exception ends it. */
  ghost function ReplayFrom(fires: bool, regs: seq<Reg>, left: nat, es: seq<GraphEvent>, p: Progress): (r: Progress)
    requires |p.state.counters| == |regs|
    ensures |r.state.counters| == |regs|
    decreases |es|
  {
    if es == [] || p.outcome.Failure? then p
    else ReplayFrom(fires, regs, left, es[1..], ReplayStep(fires, regs, left, es[0], p))
  }

  datatype ReplayResult = ReplayResult(
    runId: string, mode: string, eventsReplayed: nat, verticesReconstructed: nat,
    edgesReconstructed: nat, behaviorsFired: int, graphSnapshot: GraphState)

  function Report(runId: string, mode: string, es: seq<GraphEvent>, g: GraphState, fired: int): ReplayResult {
    ReplayResult(runId, mode, |es|, |g.vertices|, |g.edges|, fired, g)
  }

  ghost function ReportOf(runId: string, mode: string, es: seq<GraphEvent>, p: Progress)
    : Result<ReplayResult, ReplayError>
  {
    match p.outcome
    case Success(g) => Success(Report(runId, mode, es, g, p.fired))
    case Failure(error) => Failure(error)
  }

  /** The report of a run names it, counts its events and the vertices and edges of the graph they describe, shows that
      graph, and reports the growth of the fire counts; it is an error exactly when the events describe no graph. */
  ghost predicate Describes(
    result: Result<ReplayResult, ReplayError>, runId: string, mode: string, es: seq<GraphEvent>, growth: int)
  {
    match result
    case Success(r) =>
      r.runId == runId && r.mode == mode && r.eventsReplayed == |es|
      && Rebuild(es, EMPTY_GRAPH) == Success(r.graphSnapshot)
      && r.verticesReconstructed == |r.graphSnapshot.vertices|
      && r.edgesReconstructed == |r.graphSnapshot.edges|
      && r.behaviorsFired == growth
    case Failure(error) => Rebuild(es, EMPTY_GRAPH) == Failure(error)
  }

  lemma {:induction false} FiredIsGrowth(fires: bool, regs: seq<Reg>, left: nat, es: seq<GraphEvent>, p: Progress)
    requires |p.state.counters| == |regs|
    ensures var r := ReplayFrom(fires, regs, left, es, p);
            r.fired - p.fired == Fires(r.state.counters) - Fires(p.state.counters)
    decreases |es|
  {
    if es != [] && p.outcome.Success? {
      FiredIsGrowth(fires, regs, left, es[1..], ReplayStep(fires, regs, left, es[0], p));
    }
  }

  lemma ReportDescribes(
    runId: string, mode: string, fires: bool, regs: seq<Reg>, left: nat, es: seq<GraphEvent>, st: RtState)
    requires |st.counters| == |regs|
    ensures var p := ReplayFrom(fires, regs, left, es, Progress(Success(EMPTY_GRAPH), 0, st));
            Describes(ReportOf(runId, mode, es, p), runId, mode, es, Fires(p.state.counters) - Fires(st.counters))
  {
    var start := Progress(Success(EMPTY_GRAPH), 0, st);
    FiredIsGrowth(fires, regs, left, es, start);
    ModesRebuildTheSameGraph(fires, regs, left, es, start);
  }

  method SumFireCounts(runtime: InMemoryBehaviorRuntime) returns (n: nat)
    ensures n == Fires(runtime.State().counters)
  {
    n := 0;
    ghost var cs := runtime.State().counters;
    for i := 0 to |runtime.registrations|
      invariant n == FiresBelow(cs, i)
    {
      n := n + runtime.registrations[i].fireCount;
    }
  }

  class NativeReplayEngine {
    const store: EventStoreImpl
    const runtime: InMemoryBehaviorRuntime?

    constructor (store: EventStoreImpl, runtime: InMemoryBehaviorRuntime?)
      ensures this.store == store && this.runtime == runtime
    {
      this.store, this.runtime := store, runtime;
    }

    ghost function Registrations(): seq<BehaviorRegistration>
      reads runtime
    {
      if runtime == null then [] else runtime.registrations
    }

    ghost predicate Valid()
      reads store.backend, runtime
    {
      store.backend.Valid() && (runtime != null ==> runtime.Valid())
    }

    ghost function RuntimeState(): RtState
      reads runtime, Registrations()
    {
      if runtime == null then RtState(0, [], []) else runtime.State()
    }

    ghost function RuntimeRegs(): (regs: seq<Reg>)
      reads runtime, Registrations()
      ensures |regs| == |RuntimeState().counters|
    {
      if runtime == null then [] else runtime.Regs()
    }

    ghost function RuntimeLeft(): nat
      reads runtime
    {
      if runtime == null then 0 else runtime.Left()
    }

    ghost predicate FiresIn(mode: string) {
      mode == "permissive" && runtime != null
    }

    /** The runtime's fixed parts are as they were. */
    twostate predicate Unmoved()
      reads store.backend, runtime
    {
      Valid() && store.backend.rows == old(store.backend.rows)
      && (runtime != null ==>
            runtime.registrations == old(runtime.registrations) && runtime.currentDepth == old(runtime.currentDepth))
    }

    method ReplayOne(event: GraphEvent, mode: string, graph: GraphState, fired: int)
      returns (outcome: Result<GraphState, ReplayError>, firedAfter: int)
      requires Valid()
      modifies runtime, Registrations()
      ensures Unmoved()
      ensures Progress(outcome, firedAfter, RuntimeState())
           == ReplayStep(FiresIn(mode), old(RuntimeRegs()), old(RuntimeLeft()), event,
                         Progress(Success(graph), fired, old(RuntimeState())))
    {
      firedAfter := fired;
      if mode == "permissive" && runtime != null {
        var before := SumFireCounts(runtime);
        runtime.Publish(event);
        var after := SumFireCounts(runtime);
        firedAfter := fired + after - before;
      }
      outcome := ApplyEvent(event, graph);
    }

    method ReplayAll(events: seq<GraphEvent>, mode: string)
      returns (outcome: Result<GraphState, ReplayError>, fired: int)
      requires Valid()
      modifies runtime, Registrations()
      ensures Unmoved()
      ensures Progress(outcome, fired, RuntimeState())
           == ReplayFrom(FiresIn(mode), old(RuntimeRegs()), old(RuntimeLeft()), events,
                         Progress(Success(EMPTY_GRAPH), 0, old(RuntimeState())))
    {
      outcome, fired := Success(EMPTY_GRAPH), 0;
      ghost var regs, left := RuntimeRegs(), RuntimeLeft();
      ghost var whole := ReplayFrom(FiresIn(mode), regs, left, events, Progress(outcome, fired, RuntimeState()));
      for i := 0 to |events|
        invariant Unmoved() && RuntimeRegs() == regs && RuntimeLeft() == left
        invariant outcome.Success?
        invariant ReplayFrom(FiresIn(mode), regs, left, events[i..], Progress(outcome, fired, RuntimeState())) == whole
      {
        assert events[i..][1..] == events[i + 1..];
        outcome, fired := ReplayOne(events[i], mode, outcome.value, fired);
        if outcome.Failure? {
          return;
        }
      }
    }

    method Replay(runId: string, mode: string) returns (result: Result<ReplayResult, ReplayError>)
      requires Valid()
      modifies runtime, Registrations()
      ensures Unmoved()
      ensures mode != "strict" && mode != "permissive" ==>
                result == Failure(UnknownMode) && RuntimeState() == old(RuntimeState())
      ensures mode == "strict" || mode == "permissive" ==>
                var es := Events(store.codec, store.backend.rows, Some(runId));
                var p := ReplayFrom(FiresIn(mode), old(RuntimeRegs()), old(RuntimeLeft()), es,
                                    Progress(Success(EMPTY_GRAPH), 0, old(RuntimeState())));
                RuntimeState() == p.state && result == ReportOf(runId, mode, es, p)
      ensures mode == "strict" || mode == "permissive" ==>
                Describes(result, runId, mode, Events(store.codec, store.backend.rows, Some(runId)),
                          Fires(RuntimeState().counters) - Fires(old(RuntimeState()).counters))
    {
      if mode != "strict" && mode != "permissive" {
        return Failure(UnknownMode);
      }
      var events := store.IterEvents(Some(runId));
      ghost var p := ReplayFrom(FiresIn(mode), RuntimeRegs(), RuntimeLeft(), events,
                                Progress(Success(EMPTY_GRAPH), 0, RuntimeState()));
      var outcome, behaviorsFired := ReplayAll(events, mode);
      assert Progress(outcome, behaviorsFired, RuntimeState()) == p;
      ReportDescribes(runId, mode, FiresIn(mode), old(RuntimeRegs()), old(RuntimeLeft()), events, old(RuntimeState()));
      match outcome {
        case Success(graph) =>
          result := Success(Report(runId, mode, events, graph, behaviorsFired));
        case Failure(error) =>
          result := Failure(error);
      }
    }
  }

  // ---- Properties ----

  /** Strict and permissive replay rebuild the same graph, namely the one the events describe. */
  lemma {:induction false} ModesRebuildTheSameGraph(
    fires: bool, regs: seq<Reg>, left: nat, es: seq<GraphEvent>, p: Progress)
    requires |p.state.counters| == |regs| && p.outcome.Success?
    ensures ReplayFrom(fires, regs, left, es, p).outcome == Rebuild(es, p.outcome.value)
  {
    if es != [] && ReplayStep(fires, regs, left, es[0], p).outcome.Success? {
      ModesRebuildTheSameGraph(fires, regs, left, es[1..], ReplayStep(fires, regs, left, es[0], p));
    }
  }

  /** Strict replay fires nothing and leaves the runtime alone. */
  lemma {:induction false} StrictFiresNothing(regs: seq<Reg>, left: nat, es: seq<GraphEvent>, p: Progress)
    requires |p.state.counters| == |regs|
    ensures var r := ReplayFrom(false, regs, left, es, p); r.fired == p.fired && r.state == p.state
    decreases |es|
  {
    if es != [] && p.outcome.Success? {
      StrictFiresNothing(regs, left, es[1..], ReplayStep(false, regs, left, es[0], p));
    }
  }

  lemma OneMore(k: nat, n: nat)
    ensures (k + 1) * n == k * n + n
  {
  }

  /** Permissive replay reports exactly the growth of the fire counts, and that growth is bounded. */
  lemma {:induction false} PermissiveFirings(
    regs: seq<Reg>, limit: nat, left: nat, es: seq<GraphEvent>, p: Progress)
    requires |p.state.counters| == |regs| && EmitsAtMost(regs, limit)
    ensures var r := ReplayFrom(true, regs, left, es, p);
            r.fired - p.fired == Fires(r.state.counters) - Fires(p.state.counters)
            && 0 <= r.fired - p.fired <= |es| * (|regs| * SumPow(|regs| * limit, left))
    decreases |es|
  {
    var n := |regs| * SumPow(|regs| * limit, left);
    if es != [] && p.outcome.Success? {
      PublishRuns(regs, limit, left, es[0], p.state);
      PermissiveFirings(regs, limit, left, es[1..], ReplayStep(true, regs, left, es[0], p));
      OneMore(|es[1..]|, n);
    }
  }

  /** Replaying a first part and continuing from its graph is replaying the whole. */
  lemma {:induction false} RebuildComposes(a: seq<GraphEvent>, b: seq<GraphEvent>, g: GraphState)
    ensures Rebuild(a + b, g)
         == match Rebuild(a, g) case Success(h) => Rebuild(b, h) case Failure(error) => Failure(error)
  {
    if a == [] {
      assert a + b == b;
    } else {
      assert (a + b)[1..] == a[1..] + b;
      match ApplyEvent(a[0], g) {
        case Success(h) => RebuildComposes(a[1..], b, h);
        case Failure(_) =>
      }
    }
  }

  lemma {:induction false} RenamingKeepsTheGraph(es: seq<GraphEvent>, f: string, g: GraphState)
    ensures Rebuild(RenamedAll(es, f), g) == Rebuild(es, g)
  {
    if es != [] {
      assert RenamedAll(es, f)[1..] == RenamedAll(es[1..], f);
      match ApplyEvent(es[0], g) {
        case Success(h) => RenamingKeepsTheGraph(es[1..], f, h);
        case Failure(_) =>
      }
    }
  }

  /** Replay is compositional over forks: the fork replays to the parent's prefix graph, and continuing that graph
      with the parent's remaining events gives the parent's full replay. */
  lemma ForkThenContinue(c: Codec, rows: seq<Row>, parent: string, at: string, f: string)
    requires UniqueIds(rows) && SpeaksJson(c) && UnusedRun(rows, f)
    requires UnusedIds(rows, ParentPrefix(c, rows, parent, at), f)
    ensures var all := Events(c, rows, Some(parent));
            var prefix := ParentPrefix(c, rows, parent, at);
            var forkGraph := Rebuild(Events(c, Forked(c, rows, parent, at, f), Some(f)), EMPTY_GRAPH);
            prefix <= all
            && forkGraph == Rebuild(prefix, EMPTY_GRAPH)
            && Rebuild(all, EMPTY_GRAPH)
               == match forkGraph
                  case Success(g) => Rebuild(all[|prefix|..], g)
                  case Failure(error) => Failure(error)
  {
    var all := Events(c, rows, Some(parent));
    var prefix := ParentPrefix(c, rows, parent, at);
    PrefixIsPrefix(all, at);
    ForkIsPrefixIff(c, rows, parent, at, f);
    RenamingKeepsTheGraph(prefix, f, EMPTY_GRAPH);
    RebuildContinues(prefix, all, EMPTY_GRAPH);
  }

  lemma RebuildContinues(prefix: seq<GraphEvent>, all: seq<GraphEvent>, g: GraphState)
    requires prefix <= all
    ensures Rebuild(all, g)
         == match Rebuild(prefix, g)
            case Success(h) => Rebuild(all[|prefix|..], h)
            case Failure(error) => Failure(error)
  {
    RebuildComposes(prefix, all[|prefix|..], g);
    assert prefix + all[|prefix|..] == all;
  }
}
