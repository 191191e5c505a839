/** Relation triggers: a handler fires once for every edge key that matches its relation type. */
module RelationRuntime {
  import opened Prelude
  import opened Json
  import opened EventStore
  import opened Dispatch
  import opened BehaviorRuntime
  import opened Patterns

  datatype Relation = Relation(kind: string, sourceType: string, targetType: string)

  datatype RelationBehavior = RelationBehavior(name: string, relation: Relation, activateAfter: nat)

  function EdgeKey(kind: string, source: string, target: string): string {
    kind + "|" + source + "|" + target
  }

  function KeyOf(e: ViewEdge): string {
    EdgeKey(OrEmpty(e.kind), OrEmpty(e.source), OrEmpty(e.target))
  }

  /** `vertices.get(id, {}).get("type", "")` */
  function VertexType(g: GraphView, id: string): Value {
    if id in g.vertices then GetOr(g.vertices[id], "type", Str("")) else Str("")
  }

  predicate MatchesEdge(r: Relation, g: GraphView, e: ViewEdge) {
    r.kind == OrEmpty(e.kind)
    && Str(r.sourceType) == VertexType(g, OrEmpty(e.source))
    && Str(r.targetType) == VertexType(g, OrEmpty(e.target))
  }

  function CreatedEvent(b: RelationBehavior, fireCount: nat, e: ViewEdge, runId: string, eventsProcessed: int)
    : GraphEvent
  {
    GraphEvent(
      "relation." + b.name + "." + Decimal(fireCount), "relation.created",
      map["relation_behavior_name" := Str(b.name), "edge_kind" := Str(OrEmpty(e.kind)),
          "source" := Str(OrEmpty(e.source)), "target" := Str(OrEmpty(e.target))],
      "relation_runtime", runId, "", eventsProcessed + 1)
  }

  datatype Trigger = Trigger(rb: RelationBehavior, handler: Handler)

  datatype RelState = RelState(firedEdges: set<string>, fireCount: nat)

  /** One firing: which trigger, for which edge key. */
  datatype Firing = Firing(trigger: nat, key: string)

  /** All triggers, the event runtime they publish to, and the history of firings. */
  datatype RelSystem = RelSystem(rels: seq<RelState>, st: RtState, log: seq<Firing>)

  /** What stays fixed during a check. */
  datatype Setup = Setup(regs: seq<Reg>, left: nat, triggers: seq<Trigger>, view: GraphView, runId: string)

  ghost predicate Sized(c: Setup, y: RelSystem) {
    |y.rels| == |c.triggers| && |y.st.counters| == |c.regs|
  }

  /** Trigger i looks at one edge: known keys are skipped, a matching new one is recorded and its handler runs. */
  ghost function LookAt(c: Setup, i: nat, e: ViewEdge, y: RelSystem): (r: RelSystem)
    requires Sized(c, y) && i < |c.triggers|
    ensures Sized(c, r)
  {
    var t, s := c.triggers[i], y.rels[i];
    if KeyOf(e) in s.firedEdges || !MatchesEdge(t.rb.relation, c.view, e) then y
    else
      var event := CreatedEvent(t.rb, s.fireCount + 1, e, c.runId, y.st.processed);
      var o := t.handler(Context(event, c.runId, y.st.processed));
      RelSystem(
        y.rels[i := RelState(s.firedEdges + {KeyOf(e)}, s.fireCount + 1)],
        EmitFrom(c.regs, c.left, o.emits, 0, y.st),
        y.log + [Firing(i, KeyOf(e))])
  }

  /** After trigger i has looked at the first n edges. */
  ghost function Scanned(c: Setup, i: nat, n: nat, y: RelSystem): (r: RelSystem)
    requires Sized(c, y) && i < |c.triggers| && n <= |c.view.edges|
    ensures Sized(c, r)
  {
    if n == 0 then y else LookAt(c, i, c.view.edges[n - 1], Scanned(c, i, n - 1, y))
  }

  lemma ScannedStep(c: Setup, i: nat, n: nat, y: RelSystem)
    requires Sized(c, y) && i < |c.triggers| && n < |c.view.edges|
    ensures Scanned(c, i, n + 1, y) == LookAt(c, i, c.view.edges[n], Scanned(c, i, n, y))
  {
  }

  /** Trigger i's turn; the gate reads the count as it is now. */
  ghost function TurnOf(c: Setup, i: nat, y: RelSystem): (r: RelSystem)
    requires Sized(c, y) && i < |c.triggers|
    ensures Sized(c, r)
  {
    if c.triggers[i].rb.activateAfter <= y.st.processed then Scanned(c, i, |c.view.edges|, y) else y
  }

  /** After the first n triggers had their turn. */
  ghost function Checked(c: Setup, n: nat, y: RelSystem): (r: RelSystem)
    requires Sized(c, y) && n <= |c.triggers|
    ensures Sized(c, r)
  {
    if n == 0 then y else TurnOf(c, n - 1, Checked(c, n - 1, y))
  }

  lemma CheckedStep(c: Setup, n: nat, y: RelSystem)
    requires Sized(c, y) && n < |c.triggers|
    ensures Checked(c, n + 1, y) == TurnOf(c, n, Checked(c, n, y))
  {
  }

  class RelationTriggerRegistration {
    const relationBehavior: RelationBehavior
    const handler: Handler
    var firedEdges: set<string>
    var fireCount: nat

    constructor (relationBehavior: RelationBehavior, handler: Handler)
      ensures this.relationBehavior == relationBehavior && this.handler == handler
      ensures firedEdges == {} && fireCount == 0
    {
      this.relationBehavior, this.handler := relationBehavior, handler;
      firedEdges, fireCount := {}, 0;
    }
  }

  ghost function TriggersOf(rs: seq<RelationTriggerRegistration>): (ts: seq<Trigger>)
    ensures |ts| == |rs|
  {
    seq(|rs|, i requires 0 <= i < |rs| => Trigger(rs[i].relationBehavior, rs[i].handler))
  }

  ghost function StatesOf(rs: seq<RelationTriggerRegistration>): (ss: seq<RelState>)
    reads rs
    ensures |ss| == |rs|
  {
    seq(|rs|, i requires 0 <= i < |rs| reads rs => RelState(rs[i].firedEdges, rs[i].fireCount))
  }

  /** The event runtime extended with relation triggers; `base` is the part it inherits and publishes to. */
  class RelationBehaviorRuntime {
    const base: InMemoryBehaviorRuntime
    var triggers: seq<RelationTriggerRegistration>
    ghost var log: seq<Firing>

    ghost predicate Valid()
      reads this, base
    {
      base.Valid() && Distinct(triggers)
    }

    ghost function System(): RelSystem
      reads this, base, base.registrations, triggers
    {
      RelSystem(StatesOf(triggers), base.State(), log)
    }

    ghost function SetupFor(view: GraphView, runId: string): Setup
      reads this, base
    {
      Setup(base.Regs(), base.Left(), TriggersOf(triggers), view, runId)
    }

    constructor (eventsProcessed: int, maxDepth: int)
      ensures Valid() && fresh(base) && triggers == [] && base.registrations == []
      ensures System() == RelSystem([], RtState(eventsProcessed, [], []), [])
    {
      base := new InMemoryBehaviorRuntime(eventsProcessed, maxDepth);
      triggers, log := [], [];
    }

    method RegisterRelationBehavior(relationBehavior: RelationBehavior, handler: Handler)
      requires Valid()
      modifies this
      ensures Valid()
      ensures TriggersOf(triggers) == old(TriggersOf(triggers)) + [Trigger(relationBehavior, handler)]
      ensures System() == old(System()).(rels := old(System()).rels + [RelState({}, 0)])
    {
      var registration := new RelationTriggerRegistration(relationBehavior, handler);
      triggers := triggers + [registration];
    }

    /** The fixed parts are as they were. */
    twostate predicate Unmoved()
      reads this, base
    {
      Valid() && triggers == old(triggers)
      && base.registrations == old(base.registrations) && base.currentDepth == old(base.currentDepth)
    }

    /** Gives every active trigger its turn over the view's edges; returns how many handlers fired. */
    method CheckRelations(view: GraphView, runId: string) returns (firedCount: nat)
      requires Valid()
      modifies this, base, base.registrations, triggers
      ensures Unmoved()
      ensures System() == Checked(SetupFor(view, runId), |triggers|, old(System()))
      ensures firedCount == |log| - |old(log)|
    {
      firedCount := 0;
      ghost var c, start := SetupFor(view, runId), System();
      for i := 0 to |triggers|
        invariant Unmoved() && SetupFor(view, runId) == c
        invariant System() == Checked(c, i, start)
        invariant firedCount == |log| - |old(log)|
      {
        ghost var before := System();
        if triggers[i].relationBehavior.activateAfter <= base.eventsProcessed {
          var fired := ScanEdges(i, view, runId);
          firedCount := firedCount + fired;
        }
        assert System() == TurnOf(c, i, before);
        CheckedStep(c, i, start);
      }
    }

    method ScanEdges(i: nat, view: GraphView, runId: string) returns (fired: nat)
      requires Valid() && i < |triggers|
      modifies this, base, base.registrations, triggers
      ensures Unmoved() && SetupFor(view, runId) == old(SetupFor(view, runId))
      ensures System() == Scanned(SetupFor(view, runId), i, |view.edges|, old(System()))
      ensures fired == |log| - |old(log)|
    {
      fired := 0;
      ghost var c, start := SetupFor(view, runId), System();
      for j := 0 to |view.edges|
        invariant Unmoved() && SetupFor(view, runId) == c
        invariant System() == Scanned(c, i, j, start)
        invariant fired == |log| - |old(log)|
      {
        ghost var before := System();
        var hit := LookAtEdge(i, view.edges[j], view, runId);
        assert System() == LookAt(c, i, view.edges[j], before);
        ScannedStep(c, i, j, start);
        fired := if hit then fired + 1 else fired;
      }
    }

    method LookAtEdge(i: nat, edge: ViewEdge, view: GraphView, runId: string) returns (hit: bool)
      requires Valid() && i < |triggers|
      modifies this, base, base.registrations, triggers
      ensures Unmoved() && SetupFor(view, runId) == old(SetupFor(view, runId))
      ensures System() == LookAt(SetupFor(view, runId), i, edge, old(System()))
      ensures |log| == |old(log)| + (if hit then 1 else 0)
    {
      var reg := triggers[i];
      ghost var before := System();
      var key := KeyOf(edge);
      if key in reg.firedEdges {
        return false;
      }
      if !MatchesEdge(reg.relationBehavior.relation, view, edge) {
        return false;
      }
      hit := true;
      reg.fireCount := reg.fireCount + 1;
      reg.firedEdges := reg.firedEdges + {key};
      log := log + [Firing(i, key)];
      assert StatesOf(triggers) == before.rels[i := RelState(reg.firedEdges, reg.fireCount)];
      assert base.State() == before.st;
      ghost var states := StatesOf(triggers);
      var event := CreatedEvent(reg.relationBehavior, reg.fireCount, edge, runId, base.eventsProcessed);
      var outcome := reg.handler(Context(event, event.runId, base.eventsProcessed));
      base.EmitAll(outcome.emits);
      assert StatesOf(triggers) == states;
    }
  }

  // ---- What a trigger looks for, and what its handler is shown ----

  /** The type of a vertex; an unknown or untyped one has the empty type. */
  predicate TypeReads(g: GraphView, v: string, vertexType: string) {
    if v in g.vertices && "type" in g.vertices[v] then g.vertices[v]["type"] == Str(vertexType) else vertexType == ""
  }

  /** The edge has these parts, and leads from a vertex of the source type to one of the target type. */
  predicate IsRelated(r: Relation, g: GraphView, e: ViewEdge, source: string, target: string) {
    Reads(e.kind, r.kind) && Reads(e.source, source) && Reads(e.target, target)
    && TypeReads(g, source, r.sourceType) && TypeReads(g, target, r.targetType)
  }

  lemma PartsAre(e: ViewEdge)
    ensures forall s :: Reads(e.source, s) <==> s == OrEmpty(e.source)
    ensures forall t :: Reads(e.target, t) <==> t == OrEmpty(e.target)
    ensures forall k :: Reads(e.kind, k) <==> k == OrEmpty(e.kind)
  {
  }

  lemma MatchesEdgeMeans(r: Relation, g: GraphView, e: ViewEdge)
    ensures MatchesEdge(r, g, e) <==> exists source, target :: IsRelated(r, g, e, source, target)
    ensures forall source, target :: IsRelated(r, g, e, source, target) ==>
              KeyOf(e) == r.kind + "|" + source + "|" + target
  {
    PartsAre(e);
    if MatchesEdge(r, g, e) {
      assert IsRelated(r, g, e, OrEmpty(e.source), OrEmpty(e.target));
    }
  }

  /** A trigger's matching keys name the related edges of the view, as `kind|source|target`. */
  lemma MatchingKeysMean(c: Setup, i: nat, key: string)
    requires i < |c.triggers|
    ensures var r := c.triggers[i].rb.relation;
            key in MatchingKeys(c, i, |c.view.edges|) <==>
            exists j, source, target :: 0 <= j < |c.view.edges| && IsRelated(r, c.view, c.view.edges[j], source, target)
                                        && key == r.kind + "|" + source + "|" + target
  {
    var r := c.triggers[i].rb.relation;
    forall j | 0 <= j < |c.view.edges|
      ensures MatchesEdge(r, c.view, c.view.edges[j])
              <==> exists source, target :: IsRelated(r, c.view, c.view.edges[j], source, target)
      ensures forall source, target :: IsRelated(r, c.view, c.view.edges[j], source, target) ==>
                KeyOf(c.view.edges[j]) == r.kind + "|" + source + "|" + target
    {
      MatchesEdgeMeans(r, c.view, c.view.edges[j]);
    }
  }

  /** Looking at a related edge whose key has not fired runs the handler on this event and publishes what it emits. */
  lemma LookAtMeans(c: Setup, i: nat, e: ViewEdge, y: RelSystem, source: string, target: string)
    requires Sized(c, y) && i < |c.triggers|
    requires IsRelated(c.triggers[i].rb.relation, c.view, e, source, target)
    requires c.triggers[i].rb.relation.kind + "|" + source + "|" + target !in y.rels[i].firedEdges
    ensures var (rb, n) := (c.triggers[i].rb, y.rels[i].fireCount + 1);
            var shown := GraphEvent(
              "relation." + rb.name + "." + Decimal(n), "relation.created",
              map["relation_behavior_name" := Str(rb.name), "edge_kind" := Str(rb.relation.kind),
                  "source" := Str(source), "target" := Str(target)],
              "relation_runtime", c.runId, "", y.st.processed + 1);
            LookAt(c, i, e, y).st
            == EmitFrom(c.regs, c.left, c.triggers[i].handler(Context(shown, c.runId, y.st.processed)).emits, 0, y.st)
            && LookAt(c, i, e, y).rels[i].fireCount == n
  {
    PartsAre(e);
    MatchesEdgeMeans(c.triggers[i].rb.relation, c.view, e);
  }

  // ---- Properties ----

  /** The keys of the view's edges that match trigger i. */
  ghost function MatchingKeys(c: Setup, i: nat, n: nat): set<string>
    requires i < |c.triggers| && n <= |c.view.edges|
  {
    set j | 0 <= j < n && MatchesEdge(c.triggers[i].rb.relation, c.view, c.view.edges[j]) :: KeyOf(c.view.edges[j])
  }

  lemma MatchingKeysStep(c: Setup, i: nat, n: nat)
    requires i < |c.triggers| && 0 < n <= |c.view.edges|
    ensures var e := c.view.edges[n - 1];
            MatchingKeys(c, i, n)
            == MatchingKeys(c, i, n - 1)
               + (if MatchesEdge(c.triggers[i].rb.relation, c.view, e) then {KeyOf(e)} else {})
  {
  }

  lemma LookAtFired(c: Setup, i: nat, e: ViewEdge, y: RelSystem, k: nat)
    requires Sized(c, y) && i < |c.triggers| && k < |c.triggers|
    ensures LookAt(c, i, e, y).rels[k].firedEdges
         == y.rels[k].firedEdges
            + (if k == i && MatchesEdge(c.triggers[i].rb.relation, c.view, e) then {KeyOf(e)} else {})
  {
  }

  lemma {:induction false} ScanLeavesOthers(c: Setup, i: nat, n: nat, y: RelSystem, k: nat)
    requires Sized(c, y) && i < |c.triggers| && k < |c.triggers| && n <= |c.view.edges| && k != i
    ensures Scanned(c, i, n, y).rels[k] == y.rels[k]
  {
    if n > 0 {
      ScanLeavesOthers(c, i, n - 1, y, k);
    }
  }

  lemma {:induction false} ScannedFired(c: Setup, i: nat, n: nat, y: RelSystem)
    requires Sized(c, y) && i < |c.triggers| && n <= |c.view.edges|
    ensures Scanned(c, i, n, y).rels[i].firedEdges == y.rels[i].firedEdges + MatchingKeys(c, i, n)
  {
    if n == 0 {
      NoKeysYet(c, i, y.rels[i].firedEdges);
    } else {
      ScannedFired(c, i, n - 1, y);
      OneMoreLook(c, i, n, y);
      MatchingKeysMore(c, i, n, y.rels[i].firedEdges);
    }
  }

  lemma OneMoreLook(c: Setup, i: nat, n: nat, y: RelSystem)
    requires Sized(c, y) && i < |c.triggers| && 0 < n <= |c.view.edges|
    ensures var e := c.view.edges[n - 1];
            Scanned(c, i, n, y).rels[i].firedEdges
            == Scanned(c, i, n - 1, y).rels[i].firedEdges
               + (if MatchesEdge(c.triggers[i].rb.relation, c.view, e) then {KeyOf(e)} else {})
  {
    ScannedStep(c, i, n - 1, y);
    LookAtFired(c, i, c.view.edges[n - 1], Scanned(c, i, n - 1, y), i);
  }

  lemma NoKeysYet(c: Setup, i: nat, fired: set<string>)
    requires i < |c.triggers|
    ensures fired + MatchingKeys(c, i, 0) == fired
  {
    assert MatchingKeys(c, i, 0) == {};
  }

  lemma MatchingKeysMore(c: Setup, i: nat, n: nat, fired: set<string>)
    requires i < |c.triggers| && 0 < n <= |c.view.edges|
    ensures var e := c.view.edges[n - 1];
            fired + MatchingKeys(c, i, n)
            == fired + MatchingKeys(c, i, n - 1)
               + (if MatchesEdge(c.triggers[i].rb.relation, c.view, e) then {KeyOf(e)} else {})
  {
    MatchingKeysStep(c, i, n);
  }

  lemma TurnFired(c: Setup, i: nat, y: RelSystem, k: nat)
    requires Sized(c, y) && i < |c.triggers| && k < |c.triggers|
    ensures TurnOf(c, i, y).rels[k].firedEdges
         == y.rels[k].firedEdges
            + (if k == i && c.triggers[i].rb.activateAfter <= y.st.processed
               then MatchingKeys(c, i, |c.view.edges|) else {})
  {
    if k == i {
      ScannedFired(c, i, |c.view.edges|, y);
    } else {
      ScanLeavesOthers(c, i, |c.view.edges|, y, k);
    }
  }

  /** After a check, a trigger's fired set has gained the keys of exactly its matching edges when it was active at
      its own turn, and nothing otherwise. */
  lemma {:induction false} CheckedFired(c: Setup, n: nat, y: RelSystem, k: nat)
    requires Sized(c, y) && n <= |c.triggers| && k < |c.triggers|
    ensures Checked(c, n, y).rels[k].firedEdges
         == y.rels[k].firedEdges
            + (if k < n && c.triggers[k].rb.activateAfter <= Checked(c, k, y).st.processed
               then MatchingKeys(c, k, |c.view.edges|) else {})
  {
    if n > 0 {
      CheckedFired(c, n - 1, y, k);
      CheckedStep(c, n - 1, y);
      TurnFired(c, n - 1, Checked(c, n - 1, y), k);
    }
  }

  /** The history and the fired sets tell the same story, without repetition. */
  ghost predicate Consistent(y: RelSystem) {
    Distinct(y.log)
    && (forall f :: f in y.log ==> f.trigger < |y.rels|)
    && forall i :: 0 <= i < |y.rels| ==>
         |y.rels[i].firedEdges| == y.rels[i].fireCount
         && forall key :: key in y.rels[i].firedEdges <==> Firing(i, key) in y.log
  }

  lemma LookAtKeepsConsistent(c: Setup, i: nat, e: ViewEdge, y: RelSystem)
    requires Sized(c, y) && i < |c.triggers| && Consistent(y)
    ensures Consistent(LookAt(c, i, e, y))
  {
    var r := LookAt(c, i, e, y);
    if r != y {
      var f := Firing(i, KeyOf(e));
      assert f !in y.log;
      assert r.log == y.log + [f];
      assert forall g :: g in r.log <==> g in y.log || g == f;
      assert |r.rels[i].firedEdges| == |y.rels[i].firedEdges| + 1;
    }
  }

  lemma {:induction false} ScannedKeepsConsistent(c: Setup, i: nat, n: nat, y: RelSystem)
    requires Sized(c, y) && i < |c.triggers| && n <= |c.view.edges| && Consistent(y)
    ensures Consistent(Scanned(c, i, n, y))
  {
    if n > 0 {
      ScannedKeepsConsistent(c, i, n - 1, y);
      LookAtKeepsConsistent(c, i, c.view.edges[n - 1], Scanned(c, i, n - 1, y));
    }
  }

  lemma TurnKeepsConsistent(c: Setup, i: nat, y: RelSystem)
    requires Sized(c, y) && i < |c.triggers| && Consistent(y)
    ensures Consistent(TurnOf(c, i, y))
  {
    ScannedKeepsConsistent(c, i, |c.view.edges|, y);
  }

  lemma {:induction false} CheckedKeepsConsistent(c: Setup, n: nat, y: RelSystem)
    requires Sized(c, y) && n <= |c.triggers| && Consistent(y)
    ensures Consistent(Checked(c, n, y))
  {
    if n > 0 {
      CheckedKeepsConsistent(c, n - 1, y);
      TurnKeepsConsistent(c, n - 1, Checked(c, n - 1, y));
    }
  }

  // ---- Whole runs ----

  /** A call on the runtime. Publishing stands for clients and for the handlers of other triggers alike. */
  datatype RelCall =
    | CheckView(view: GraphView, runId: string)
    | RegisterTrigger(trigger: Trigger)
    | RegisterReg(reg: Reg)
    | PublishEvents(events: seq<GraphEvent>)

  /** The runtime between calls: its registrations, its triggers and the system they make up. */
  datatype RelHost = RelHost(regs: seq<Reg>, triggers: seq<Trigger>, system: RelSystem)

  /** A new runtime; the event count it starts from is configurable. */
  function NewHost(processed: int): RelHost {
    RelHost([], [], RelSystem([], RtState(processed, [], []), []))
  }

  ghost predicate Fits(h: RelHost) {
    |h.system.rels| == |h.triggers| && |h.system.st.counters| == |h.regs|
  }

  ghost function AfterCall(left: nat, h: RelHost, call: RelCall): (r: RelHost)
    requires Fits(h)
    ensures Fits(r)
  {
    var y := h.system;
    match call
    case CheckView(view, runId) =>
      h.(system := Checked(Setup(h.regs, left, h.triggers, view, runId), |h.triggers|, y))
    case RegisterTrigger(t) =>
      RelHost(h.regs, h.triggers + [t], y.(rels := y.rels + [RelState({}, 0)]))
    case RegisterReg(r) =>
      RelHost(h.regs + [r], h.triggers, y.(st := y.st.(counters := y.st.counters + [Counters(0, 0, "")])))
    case PublishEvents(events) =>
      h.(system := y.(st := EmitFrom(h.regs, left, events, 0, y.st)))
  }

  /** The runtime after a run of calls. */
  ghost function AfterCalls(left: nat, h: RelHost, calls: seq<RelCall>): (r: RelHost)
    requires Fits(h)
    ensures Fits(r)
  {
    if calls == [] then h else AfterCall(left, AfterCalls(left, h, calls[..|calls| - 1]), calls[|calls| - 1])
  }

  lemma FreshTriggerKeepsConsistent(y: RelSystem)
    requires Consistent(y)
    ensures Consistent(y.(rels := y.rels + [RelState({}, 0)]))
  {
  }

  lemma CallKeepsConsistent(left: nat, h: RelHost, call: RelCall)
    requires Fits(h) && Consistent(h.system)
    ensures Consistent(AfterCall(left, h, call).system)
  {
    match call {
      case CheckView(view, runId) =>
        CheckedKeepsConsistent(Setup(h.regs, left, h.triggers, view, runId), |h.triggers|, h.system);
      case RegisterTrigger(_) =>
        FreshTriggerKeepsConsistent(h.system);
      case RegisterReg(_) =>
      case PublishEvents(_) =>
    }
  }

  /** Over any run of checks, registrations and publishes on a new runtime: no trigger ever fires twice for one edge
      key, its fired set is exactly the set of keys it fired for, and its fire count is the size of that set. */
  lemma {:induction false} OncePerEdgeKey(left: nat, processed: int, calls: seq<RelCall>)
    ensures Consistent(AfterCalls(left, NewHost(processed), calls).system)
  {
    if calls != [] {
      OncePerEdgeKey(left, processed, calls[..|calls| - 1]);
      CallKeepsConsistent(left, AfterCalls(left, NewHost(processed), calls[..|calls| - 1]), calls[|calls| - 1]);
    }
  }

  // ---- Edge keys ----

  function Bars(s: string): nat {
    if s == "" then 0 else (if s[0] == '|' then 1 else 0) + Bars(s[1..])
  }

  lemma {:induction false} BarsAdd(a: string, b: string)
    ensures Bars(a + b) == Bars(a) + Bars(b)
  {
    if a == "" {
      assert a + b == b;
    } else {
      BarsAdd(a[1..], b);
      assert (a + b)[1..] == a[1..] + b;
    }
  }

  lemma {:induction false} NoBarsMeansNone(s: string)
    ensures Bars(s) == 0 <==> '|' !in s
  {
    if s != "" {
      NoBarsMeansNone(s[1..]);
      assert s == [s[0]] + s[1..];
    }
  }

  lemma KeyBars(k: string, s: string, t: string)
    ensures Bars(EdgeKey(k, s, t)) == Bars(k) + Bars(s) + Bars(t) + 2
  {
    BarsAdd(k, "|");
    BarsAdd(k + "|", s);
    BarsAdd(k + "|" + s, "|");
    BarsAdd(k + "|" + s + "|", t);
    assert Bars("|") == 1 + Bars("");
  }

  /** Every key has two bars of its own, so a key of bar-free parts has bar-free parts only. */
  lemma SameBars(k: string, s: string, t: string, k': string, s': string, t': string)
    requires '|' !in k && '|' !in s && '|' !in t && EdgeKey(k, s, t) == EdgeKey(k', s', t')
    ensures '|' !in k' && '|' !in s' && '|' !in t'
  {
    KeyBars(k, s, t);
    KeyBars(k', s', t');
    NoBarsMeansNone(k);
    NoBarsMeansNone(s);
    NoBarsMeansNone(t);
    NoBarsMeansNone(k');
    NoBarsMeansNone(s');
    NoBarsMeansNone(t');
  }

  lemma BarFreeKeysAreInjective(k: string, s: string, t: string, k': string, s': string, t': string)
    requires '|' !in k && '|' !in s && '|' !in t && EdgeKey(k, s, t) == EdgeKey(k', s', t')
    ensures k == k' && s == s' && t == t'
  {
    SameBars(k, s, t, k', s', t');
    KeyInHalves(k, s, t);
    KeyInHalves(k', s', t');
    SplitAtFirst('|', k, s + "|" + t, k', s' + "|" + t');
    SplitAtFirst('|', s, t, s', t');
  }

  lemma KeyInHalves(k: string, s: string, t: string)
    ensures EdgeKey(k, s, t) == k + ['|'] + (s + ['|'] + t) && "|" == ['|']
  {
  }

  lemma CutAtBar(s: string) returns (a: string, b: string)
    requires '|' in s
    ensures s == a + "|" + b && a != s && b != s
  {
    var i :| 0 <= i < |s| && s[i] == '|';
    a, b := s[..i], s[i + 1..];
  }

  lemma CollidingTriple(k: string, s: string, t: string) returns (k': string, s': string, t': string)
    requires '|' in k || '|' in s || '|' in t
    ensures EdgeKey(k', s', t') == EdgeKey(k, s, t) && (k', s', t') != (k, s, t)
  {
    if '|' in k {
      var a, b := CutAtBar(k);
      k', s', t' := a, b, s + "|" + t;
    } else if '|' in s {
      var a, b := CutAtBar(s);
      k', s', t' := k, a, b + "|" + t;
    } else {
      var a, b := CutAtBar(t);
      k', s', t' := k, s + "|" + a, b;
    }
  }

  predicate BarFree(e: ViewEdge) {
    '|' !in OrEmpty(e.kind) && '|' !in OrEmpty(e.source) && '|' !in OrEmpty(e.target)
  }

  predicate SameParts(d: ViewEdge, e: ViewEdge) {
    OrEmpty(d.kind) == OrEmpty(e.kind)
    && OrEmpty(d.source) == OrEmpty(e.source)
    && OrEmpty(d.target) == OrEmpty(e.target)
  }

  /** Up to absent meaning empty, a key identifies its edge exactly when none of its parts contains the separator. */
  lemma KeyIdentifiesPartsIff(e: ViewEdge)
    ensures (forall d :: KeyOf(d) == KeyOf(e) ==> SameParts(d, e)) <==> BarFree(e)
  {
    if BarFree(e) {
      forall d | KeyOf(d) == KeyOf(e) ensures SameParts(d, e) {
        BarFreeKeysAreInjective(OrEmpty(e.kind), OrEmpty(e.source), OrEmpty(e.target),
                                OrEmpty(d.kind), OrEmpty(d.source), OrEmpty(d.target));
      }
    } else {
      var k, s, t := CollidingTriple(OrEmpty(e.kind), OrEmpty(e.source), OrEmpty(e.target));
      var d := ViewEdge(Some(k), Some(s), Some(t));
      assert KeyOf(d) == KeyOf(e) && !SameParts(d, e);
    }
  }

  predicate NoEmptyPart(e: ViewEdge) {
    OrEmpty(e.kind) != "" && OrEmpty(e.source) != "" && OrEmpty(e.target) != ""
  }

  /** The other way to write an empty part: absent for empty, empty for absent. */
  function Swapped(part: Option<string>): Option<string> {
    if part == None then Some("") else if part == Some("") then None else part
  }

  lemma EmptyPartsCollide(e: ViewEdge)
    requires !NoEmptyPart(e)
    ensures exists d :: KeyOf(d) == KeyOf(e) && d != e
  {
    var d := ViewEdge(Swapped(e.kind), Swapped(e.source), Swapped(e.target));
    assert KeyOf(d) == KeyOf(e) && d != e;
  }

  lemma SamePart(a: Option<string>, b: Option<string>)
    requires OrEmpty(a) == OrEmpty(b) != ""
    ensures a == b
  {
  }

  /** An edge's key identifies it among all edges exactly when none of its parts contains the separator or is empty: an
      absent part and an empty one share a key. */
  lemma KeyIdentifiesEdgeIff(e: ViewEdge)
    ensures (forall d :: KeyOf(d) == KeyOf(e) ==> d == e) <==> BarFree(e) && NoEmptyPart(e)
  {
    KeyIdentifiesPartsIff(e);
    if !NoEmptyPart(e) {
      EmptyPartsCollide(e);
    } else if BarFree(e) {
      forall d | KeyOf(d) == KeyOf(e) ensures d == e {
        SamePart(d.kind, e.kind);
        SamePart(d.source, e.source);
        SamePart(d.target, e.target);
      }
    } else {
      var d :| KeyOf(d) == KeyOf(e) && !SameParts(d, e);
      assert d != e;
    }
  }
}
