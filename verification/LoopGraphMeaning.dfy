/** What a projected graph says, id by id and edge by edge. */
module LoopGraphMeaning {
  import opened Prelude
  import opened Json
  import opened Loops
  import opened LoopGraphs

  // ---- What is recorded ----

  predicate IsVerification(e: LoopEvent) {
    e.kind.Verified? && e.state.Verifying?
  }

  function VerifierOf(e: LoopEvent, str: Value -> string): string {
    str(if "verifier" in e.payload then e.payload["verifier"] else Str("default-verifier"))
  }

  predicate IsFailure(e: LoopEvent) {
    e.kind.Failure? && "failure" in e.payload
  }

  /** Event i is a verification by the verifier of this id. */
  predicate VerifiedAt(es: seq<LoopEvent>, i: int, str: Value -> string, id: string) {
    0 <= i < |es| && IsVerification(es[i]) && id == "verifier:" + VerifierOf(es[i], str)
  }

  /** Event i is a failure of this id, fixed or only learned from. */
  predicate FailedAt(es: seq<LoopEvent>, i: int, str: Value -> string, fixes: bool, id: string) {
    0 <= i < |es| && IsFailure(es[i]) && id == "failure:" + str(es[i].payload["failure"])
    && ("fixes" in es[i].payload <==> fixes)
  }

  predicate StepIs(steps: seq<TrajectoryStep>, i: int, id: string) {
    0 <= i < |steps| && id == "trajectory_step:" + steps[i].id
  }

  ghost predicate FirstVerified(es: seq<LoopEvent>, i: int, str: Value -> string, id: string) {
    VerifiedAt(es, i, str, id) && forall j :: 0 <= j < i ==> !VerifiedAt(es, j, str, id)
  }

  ghost predicate FirstStep(steps: seq<TrajectoryStep>, i: int, id: string) {
    StepIs(steps, i, id) && forall j :: 0 <= j < i ==> !StepIs(steps, j, id)
  }

  // ---- What the graph holds ----

  /** The vertex names something of the loop; a repeated step's is that of its first occurrence. */
  ghost predicate VertexReads(l: Loop, steps: seq<TrajectoryStep>, str: Value -> string, v: LoopVertex) {
    match v.kind
    case LoopV => v.id == "loop:" + l.id && v.text == l.id
    case IntentV => v.id == "intent:" + l.id && v.text == l.intent
    case SkillV => v.id == "skill:" + v.text && v.text in l.skills
    case VerifierV => v.id == "verifier:" + v.text && exists i :: VerifiedAt(l.lifecycle, i, str, v.id)
    case FailureV => v.id == "failure:" + v.text && exists i, fixes :: FailedAt(l.lifecycle, i, str, fixes, v.id)
    case TrajectoryStepV => exists i :: FirstStep(steps, i, v.id) && v.text == steps[i].stepKind
    case ContextV => false
  }

  predicate UsesSkill(l: Loop, e: LoopEdge) {
    exists k :: k in l.skills && e.dst == "skill:" + k && e.payload == map[]
  }

  ghost predicate UsesStep(steps: seq<TrajectoryStep>, e: LoopEdge) {
    exists i :: FirstStep(steps, i, e.dst)
                && e.payload == map["step_kind" := Str(steps[i].stepKind), "timestamp" := steps[i].timestamp,
                                    "duration_ms" := steps[i].durationMs, "model" := steps[i].model]
  }

  ghost predicate Verifies(es: seq<LoopEvent>, str: Value -> string, e: LoopEdge) {
    exists i :: FirstVerified(es, i, str, e.dst)
                && e.payload == map["confidence" := if "confidence" in es[i].payload then es[i].payload["confidence"]
                                                    else Null]
  }

  /** The edge joins two things of the loop in this direction, with this payload. */
  ghost predicate EdgeReads(l: Loop, steps: seq<TrajectoryStep>, str: Value -> string, e: LoopEdge) {
    match e.kind
    case Created => e.src == "intent:" + l.id && e.dst == "loop:" + l.id && e.payload == map[]
    case Uses => e.src == "loop:" + l.id && (UsesSkill(l, e) || UsesStep(steps, e))
    case VerifiedBy => e.src == "loop:" + l.id && Verifies(l.lifecycle, str, e)
    case Fixes =>
      e.src == "loop:" + l.id && e.payload == map[] && exists i :: FailedAt(l.lifecycle, i, str, true, e.dst)
    case LearnsFrom =>
      e.src == "loop:" + l.id && e.payload == map[] && exists i :: FailedAt(l.lifecycle, i, str, false, e.dst)
    case Next => e.payload == map[] && exists i :: StepIs(steps, i, e.src) && StepIs(steps, i + 1, e.dst)
    case _ => false
  }

  ghost predicate Sound(l: Loop, steps: seq<TrajectoryStep>, str: Value -> string, g: LoopGraph) {
    UniqueVertices(g.vertices) && UniqueEdges(g.edges)
    && (forall v :: v in g.vertices ==> VertexReads(l, steps, str, v))
    && forall e :: e in g.edges ==> EdgeReads(l, steps, str, e)
  }

  /** The edge and its far end are there. */
  predicate Linked(g: LoopGraph, kind: EdgeKind, src: string, dst: string) {
    HasVertex(g.vertices, dst) && HasEdge(g.edges, EdgeKey(kind, src, dst))
  }

  ghost predicate EventsAreLinked(l: Loop, str: Value -> string, g: LoopGraph) {
    (forall i, id :: VerifiedAt(l.lifecycle, i, str, id) ==> Linked(g, VerifiedBy, "loop:" + l.id, id))
    && (forall i, fixes, id :: FailedAt(l.lifecycle, i, str, fixes, id) ==>
          Linked(g, if fixes then Fixes else LearnsFrom, "loop:" + l.id, id))
  }

  ghost predicate StepsAreLinked(l: Loop, steps: seq<TrajectoryStep>, g: LoopGraph) {
    (forall i, id :: StepIs(steps, i, id) ==> Linked(g, Uses, "loop:" + l.id, id))
    && (forall i, a, b :: StepIs(steps, i, a) && StepIs(steps, i + 1, b) ==> Linked(g, Next, a, b))
  }

  ghost predicate Complete(l: Loop, steps: seq<TrajectoryStep>, str: Value -> string, g: LoopGraph) {
    HasVertex(g.vertices, "intent:" + l.id) && Linked(g, Created, "intent:" + l.id, "loop:" + l.id)
    && (forall k :: k in l.skills ==> Linked(g, Uses, "loop:" + l.id, "skill:" + k))
    && EventsAreLinked(l, str, g) && StepsAreLinked(l, steps, g)
  }

  ghost predicate Means(l: Loop, steps: seq<TrajectoryStep>, str: Value -> string, g: LoopGraph) {
    Sound(l, steps, str, g) && Complete(l, steps, str, g)
  }

  // ---- Additions ----

  /** What an addition brings is new, and nothing is lost. */
  ghost predicate Brings(g: LoopGraph, b: Batch, h: LoopGraph) {
    UniqueVertices(h.vertices) && UniqueEdges(h.edges)
    && (forall v :: v in h.vertices ==> v in g.vertices || (v in b.vertices && !HasVertex(g.vertices, v.id)))
    && (forall e :: e in h.edges ==> e in g.edges || (e in b.edges && !HasEdge(g.edges, KeyOf(e))))
    && (forall id :: HasVertex(g.vertices, id) || HasVertex(b.vertices, id) ==> HasVertex(h.vertices, id))
    && (forall key :: HasEdge(g.edges, key) || HasEdge(b.edges, key) ==> HasEdge(h.edges, key))
  }

  lemma NewVertices(vs: seq<LoopVertex>, new': seq<LoopVertex>)
    requires UniqueVertices(vs)
    ensures var after := AddVertices(vs, new');
            UniqueVertices(after)
            && (forall v :: v in after ==> v in vs || (v in new' && !HasVertex(vs, v.id)))
            && (forall id :: HasVertex(vs, id) || HasVertex(new', id) ==> HasVertex(after, id))
  {
    AddVerticesFacts(vs, new');
    var after := AddVertices(vs, new');
    assert forall i :: 0 <= i < |vs| ==> after[i] == vs[i];
    forall v, u | v in after && v !in vs && u in vs ensures u.id != v.id {
      var i, j :| 0 <= i < |vs| && vs[i] == u && 0 <= j < |after| && after[j] == v;
      assert after[i] == u;
    }
  }

  lemma NewEdges(es: seq<LoopEdge>, new': seq<LoopEdge>)
    requires UniqueEdges(es)
    ensures var after := AddEdges(es, new');
            UniqueEdges(after)
            && (forall e :: e in after ==> e in es || (e in new' && !HasEdge(es, KeyOf(e))))
            && (forall key :: HasEdge(es, key) || HasEdge(new', key) ==> HasEdge(after, key))
  {
    AddEdgesFacts(es, new');
    var after := AddEdges(es, new');
    assert forall i :: 0 <= i < |es| ==> after[i] == es[i];
    forall e, f | e in after && e !in es && f in es ensures KeyOf(f) != KeyOf(e) {
      var i, j :| 0 <= i < |es| && es[i] == f && 0 <= j < |after| && after[j] == e;
      assert after[i] == f;
    }
  }

  lemma AddedBrings(g: LoopGraph, b: Batch)
    requires UniqueVertices(g.vertices) && UniqueEdges(g.edges)
    ensures Brings(g, b, Added(g, b))
  {
    NewVertices(g.vertices, b.vertices);
    NewEdges(g.edges, b.edges);
  }

  /** The loop and its steps as recorded later. */
  predicate Later(l: Loop, steps: seq<TrajectoryStep>, m: Loop, more: seq<TrajectoryStep>) {
    m.id == l.id && m.intent == l.intent && l.skills <= m.skills && l.lifecycle <= m.lifecycle && steps <= more
  }

  lemma StillReads(l: Loop, steps: seq<TrajectoryStep>, m: Loop, more: seq<TrajectoryStep>, str: Value -> string)
    requires Later(l, steps, m, more)
    ensures forall i, id :: i < |l.lifecycle| ==>
              (VerifiedAt(l.lifecycle, i, str, id) <==> VerifiedAt(m.lifecycle, i, str, id))
    ensures forall i, id :: FirstVerified(l.lifecycle, i, str, id) ==> FirstVerified(m.lifecycle, i, str, id)
    ensures forall i, fixes, id :: FailedAt(l.lifecycle, i, str, fixes, id) ==> FailedAt(m.lifecycle, i, str, fixes, id)
    ensures forall i, id :: i < |steps| ==> (StepIs(steps, i, id) <==> StepIs(more, i, id))
    ensures forall i, id :: FirstStep(steps, i, id) ==> FirstStep(more, i, id)
  {
    assert forall i :: 0 <= i < |l.lifecycle| ==> m.lifecycle[i] == l.lifecycle[i];
    assert forall i :: 0 <= i < |steps| ==> more[i] == steps[i];
  }

  lemma VertexStillReads(
    l: Loop, steps: seq<TrajectoryStep>, m: Loop, more: seq<TrajectoryStep>, str: Value -> string, v: LoopVertex)
    requires Later(l, steps, m, more) && VertexReads(l, steps, str, v)
    ensures VertexReads(m, more, str, v)
  {
    StillReads(l, steps, m, more, str);
  }

  lemma EdgeStillReads(
    l: Loop, steps: seq<TrajectoryStep>, m: Loop, more: seq<TrajectoryStep>, str: Value -> string, e: LoopEdge)
    requires Later(l, steps, m, more) && EdgeReads(l, steps, str, e)
    ensures EdgeReads(m, more, str, e)
  {
    StillReads(l, steps, m, more, str);
  }

  /** A sound graph stays sound when what an addition brings reads right. */
  lemma SoundGrows(
    l: Loop, steps: seq<TrajectoryStep>, m: Loop, more: seq<TrajectoryStep>, str: Value -> string,
    g: LoopGraph, b: Batch)
    requires Later(l, steps, m, more) && Sound(l, steps, str, g)
    requires forall v :: v in b.vertices && !HasVertex(g.vertices, v.id) ==> VertexReads(m, more, str, v)
    requires forall e :: e in b.edges && !HasEdge(g.edges, KeyOf(e)) ==> EdgeReads(m, more, str, e)
    ensures Brings(g, b, Added(g, b)) && Sound(m, more, str, Added(g, b))
  {
    AddedBrings(g, b);
    forall v | v in Added(g, b).vertices ensures VertexReads(m, more, str, v) {
      if v in g.vertices {
        VertexStillReads(l, steps, m, more, str, v);
      }
    }
    forall e | e in Added(g, b).edges ensures EdgeReads(m, more, str, e) {
      if e in g.edges {
        EdgeStillReads(l, steps, m, more, str, e);
      }
    }
  }

  /** Where nothing but the last event is new. */
  lemma EventsGrow(l: Loop, e: LoopEvent, str: Value -> string, g: LoopGraph, h: LoopGraph)
    requires EventsAreLinked(l, str, g)
    requires forall kind, src, dst :: Linked(g, kind, src, dst) ==> Linked(h, kind, src, dst)
    requires IsVerification(e) ==> Linked(h, VerifiedBy, "loop:" + l.id, "verifier:" + VerifierOf(e, str))
    requires IsFailure(e) ==> Linked(h, if "fixes" in e.payload then Fixes else LearnsFrom, "loop:" + l.id,
                                     "failure:" + str(e.payload["failure"]))
    ensures EventsAreLinked(l.(lifecycle := l.lifecycle + [e]), str, h)
  {
    var m := l.(lifecycle := l.lifecycle + [e]);
    forall i, id | VerifiedAt(m.lifecycle, i, str, id) ensures Linked(h, VerifiedBy, "loop:" + l.id, id) {
      assert i < |l.lifecycle| ==> VerifiedAt(l.lifecycle, i, str, id);
    }
    forall i, fixes, id | FailedAt(m.lifecycle, i, str, fixes, id)
      ensures Linked(h, if fixes then Fixes else LearnsFrom, "loop:" + l.id, id)
    {
      assert i < |l.lifecycle| ==> FailedAt(l.lifecycle, i, str, fixes, id);
    }
  }

  lemma StepsGrow(l: Loop, steps: seq<TrajectoryStep>, s: TrajectoryStep, g: LoopGraph, h: LoopGraph)
    requires StepsAreLinked(l, steps, g)
    requires forall kind, src, dst :: Linked(g, kind, src, dst) ==> Linked(h, kind, src, dst)
    requires Linked(h, Uses, "loop:" + l.id, "trajectory_step:" + s.id)
    requires steps != [] ==>
               Linked(h, Next, "trajectory_step:" + steps[|steps| - 1].id, "trajectory_step:" + s.id)
    ensures StepsAreLinked(l, steps + [s], h)
  {
    var more := steps + [s];
    forall i, id | StepIs(more, i, id) ensures Linked(h, Uses, "loop:" + l.id, id) {
      assert i < |steps| ==> StepIs(steps, i, id);
    }
    forall i, a, b | StepIs(more, i, a) && StepIs(more, i + 1, b) ensures Linked(h, Next, a, b) {
      assert i + 1 < |steps| ==> StepIs(steps, i, a) && StepIs(steps, i + 1, b);
    }
  }

  lemma LinksPersist(g: LoopGraph, b: Batch, h: LoopGraph)
    requires Brings(g, b, h)
    ensures forall kind, src, dst :: Linked(g, kind, src, dst) ==> Linked(h, kind, src, dst)
    ensures forall e :: e in b.edges && HasVertex(b.vertices, e.dst) ==> Linked(h, e.kind, e.src, e.dst)
  {
    assert forall e :: e in b.edges ==> HasEdge(b.edges, KeyOf(e));
  }

  // ---- Part by part ----

  lemma VidReads(key: string)
    ensures Vid(LoopV, key) == "loop:" + key && Vid(IntentV, key) == "intent:" + key
    ensures Vid(SkillV, key) == "skill:" + key && Vid(VerifierV, key) == "verifier:" + key
    ensures Vid(FailureV, key) == "failure:" + key && Vid(TrajectoryStepV, key) == "trajectory_step:" + key
  {
    assert "loop" + ":" == "loop:" && "intent" + ":" == "intent:" && "skill" + ":" == "skill:";
    assert "verifier" + ":" == "verifier:" && "failure" + ":" == "failure:";
    assert "trajectory_step" + ":" == "trajectory_step:";
  }

  lemma CoreIs(l: Loop)
    ensures Core(l).vertices
         == [LoopVertex("loop:" + l.id, LoopV, l.id), LoopVertex("intent:" + l.id, IntentV, l.intent)]
    ensures Core(l).edges == [LoopEdge(Created, "intent:" + l.id, "loop:" + l.id, map[])]
  {
    VidReads(l.id);
  }

  lemma CoreMeans(l: Loop, str: Value -> string)
    requires l.skills == [] && l.lifecycle == []
    ensures Means(l, [], str, Added(LoopGraph([], []), Core(l)))
  {
    var empty, core := LoopGraph([], []), Core(l);
    CoreIs(l);
    SoundGrows(l, [], l, [], str, empty, core);
    assert core.vertices[0] in core.vertices && core.vertices[1] in core.vertices && core.edges[0] in core.edges;
    LinksPersist(empty, core, Added(empty, core));
    assert HasVertex(core.vertices, core.vertices[1].id) && HasVertex(core.vertices, core.vertices[0].id);
  }

  lemma SkillIs(loopId: string, k: string)
    ensures OfSkill(loopId, k) == Batch([LoopVertex("skill:" + k, SkillV, k)],
                                        [LoopEdge(Uses, "loop:" + loopId, "skill:" + k, map[])])
  {
    VidReads(loopId);
    VidReads(k);
  }

  lemma SkillMeans(l: Loop, k: string, str: Value -> string, g: LoopGraph)
    requires Means(l, [], str, g)
    ensures Means(l.(skills := l.skills + [k]), [], str, Added(g, OfSkill(l.id, k)))
  {
    var m, part := l.(skills := l.skills + [k]), OfSkill(l.id, k);
    SkillIs(l.id, k);
    assert k in m.skills;
    SoundGrows(l, [], m, [], str, g, part);
    assert part.vertices[0] in part.vertices && part.edges[0] in part.edges;
    LinksPersist(g, part, Added(g, part));
  }

  /** What an event brings, if anything. */
  lemma EventIs(l: Loop, e: LoopEvent, str: Value -> string, g: LoopGraph)
    requires EventsAreLinked(l, str, g)
    ensures var (m, part) := (l.(lifecycle := l.lifecycle + [e]), OfEvent(l.id, e, str));
            (forall v :: v in part.vertices ==> VertexReads(m, [], str, v))
            && (forall ed :: ed in part.edges && !HasEdge(g.edges, KeyOf(ed)) ==> EdgeReads(m, [], str, ed))
  {
    var m, n := l.(lifecycle := l.lifecycle + [e]), |l.lifecycle|;
    VidReads(l.id);
    assert m.lifecycle[n] == e;
    assert forall j :: 0 <= j < n ==> m.lifecycle[j] == l.lifecycle[j];
    if IsVerification(e) {
      var id := "verifier:" + VerifierOf(e, str);
      VidReads(VerifierOf(e, str));
      assert VerifiedAt(m.lifecycle, n, str, id);
      assert forall j :: 0 <= j < n && VerifiedAt(m.lifecycle, j, str, id) ==> VerifiedAt(l.lifecycle, j, str, id);
      assert !HasEdge(g.edges, EdgeKey(VerifiedBy, "loop:" + l.id, id)) ==> FirstVerified(m.lifecycle, n, str, id);
    } else if IsFailure(e) {
      VidReads(str(e.payload["failure"]));
      assert FailedAt(m.lifecycle, n, str, "fixes" in e.payload, "failure:" + str(e.payload["failure"]));
    }
  }

  lemma EventLinks(loopId: string, e: LoopEvent, str: Value -> string, g: LoopGraph)
    requires Brings(g, OfEvent(loopId, e, str), Added(g, OfEvent(loopId, e, str)))
    ensures var h := Added(g, OfEvent(loopId, e, str));
            (IsVerification(e) ==> Linked(h, VerifiedBy, "loop:" + loopId, "verifier:" + VerifierOf(e, str)))
            && (IsFailure(e) ==> Linked(h, if "fixes" in e.payload then Fixes else LearnsFrom, "loop:" + loopId,
                                        "failure:" + str(e.payload["failure"])))
  {
    var part := OfEvent(loopId, e, str);
    if part.edges != [] {
      VidReads(loopId);
      VidReads(part.vertices[0].text);
      LinksPersist(g, part, Added(g, part));
      assert part.vertices[0] in part.vertices && part.edges[0] in part.edges;
      assert HasVertex(part.vertices, part.edges[0].dst);
    }
  }

  lemma EventMeans(l: Loop, e: LoopEvent, str: Value -> string, g: LoopGraph)
    requires Means(l, [], str, g)
    ensures Means(l.(lifecycle := l.lifecycle + [e]), [], str, Added(g, OfEvent(l.id, e, str)))
  {
    var m, part := l.(lifecycle := l.lifecycle + [e]), OfEvent(l.id, e, str);
    EventIs(l, e, str, g);
    SoundGrows(l, [], m, [], str, g, part);
    LinksPersist(g, part, Added(g, part));
    EventLinks(l.id, e, str, g);
    EventsGrow(l, e, str, g, Added(g, part));
  }

  /** A step not known so far is the first of its id. */
  lemma StepIsFirst(l: Loop, steps: seq<TrajectoryStep>, s: TrajectoryStep, g: LoopGraph, id: string)
    requires StepsAreLinked(l, steps, g) && id == "trajectory_step:" + s.id
    requires !Linked(g, Uses, "loop:" + l.id, id)
    ensures FirstStep(steps + [s], |steps|, id)
  {
    forall j | 0 <= j < |steps| ensures !StepIs(steps + [s], j, id) {
      assert !StepIs(steps, j, id);
    }
  }

  lemma NextReads(
    l: Loop, steps: seq<TrajectoryStep>, s: TrajectoryStep, str: Value -> string, e: LoopEdge)
    requires steps != []
    requires e == LoopEdge(Next, "trajectory_step:" + steps[|steps| - 1].id, "trajectory_step:" + s.id, map[])
    ensures EdgeReads(l, steps + [s], str, e)
  {
    var more, n := steps + [s], |steps|;
    assert StepIs(more, n - 1, e.src) && StepIs(more, n - 1 + 1, e.dst);
  }

  lemma StepIsLiterally(loopId: string, steps: seq<TrajectoryStep>, s: TrajectoryStep)
    ensures var part := OfStep(loopId, PrevVid(steps), s);
            var id := "trajectory_step:" + s.id;
            part.vertices == [LoopVertex(id, TrajectoryStepV, s.stepKind)]
            && part.edges == [LoopEdge(Uses, "loop:" + loopId, id,
                                map["step_kind" := Str(s.stepKind), "timestamp" := s.timestamp,
                                    "duration_ms" := s.durationMs, "model" := s.model])]
               + (if steps == [] then []
                  else [LoopEdge(Next, "trajectory_step:" + steps[|steps| - 1].id, id, map[])])
  {
    VidReads(loopId);
    VidReads(s.id);
    if steps != [] {
      VidReads(steps[|steps| - 1].id);
    }
  }

  /** What a step brings. */
  lemma StepReads(l: Loop, steps: seq<TrajectoryStep>, s: TrajectoryStep, str: Value -> string, g: LoopGraph)
    requires StepsAreLinked(l, steps, g)
    ensures var (more, part) := (steps + [s], OfStep(l.id, PrevVid(steps), s));
            (forall v :: v in part.vertices && !HasVertex(g.vertices, v.id) ==> VertexReads(l, more, str, v))
            && (forall e :: e in part.edges && !HasEdge(g.edges, KeyOf(e)) ==> EdgeReads(l, more, str, e))
  {
    var part, id := OfStep(l.id, PrevVid(steps), s), "trajectory_step:" + s.id;
    StepIsLiterally(l.id, steps, s);
    if !Linked(g, Uses, "loop:" + l.id, id) {
      StepIsFirst(l, steps, s, g, id);
      assert UsesStep(steps + [s], part.edges[0]);
    }
    if steps != [] {
      NextReads(l, steps, s, str, part.edges[1]);
    }
  }

  lemma StepLinks(loopId: string, steps: seq<TrajectoryStep>, s: TrajectoryStep, g: LoopGraph)
    requires var part := OfStep(loopId, PrevVid(steps), s); Brings(g, part, Added(g, part))
    ensures var h := Added(g, OfStep(loopId, PrevVid(steps), s));
            Linked(h, Uses, "loop:" + loopId, "trajectory_step:" + s.id)
            && (steps != [] ==>
                  Linked(h, Next, "trajectory_step:" + steps[|steps| - 1].id, "trajectory_step:" + s.id))
  {
    var part := OfStep(loopId, PrevVid(steps), s);
    VidReads(loopId);
    VidReads(s.id);
    LinksPersist(g, part, Added(g, part));
    assert part.vertices[0] in part.vertices && part.edges[0] in part.edges;
    assert HasVertex(part.vertices, "trajectory_step:" + s.id);
    if steps != [] {
      VidReads(steps[|steps| - 1].id);
      assert part.edges[1] in part.edges;
    }
  }

  lemma StepMeans(l: Loop, steps: seq<TrajectoryStep>, s: TrajectoryStep, str: Value -> string, g: LoopGraph)
    requires Means(l, steps, str, g)
    ensures Means(l, steps + [s], str, Added(g, OfStep(l.id, PrevVid(steps), s)))
  {
    var more, part := steps + [s], OfStep(l.id, PrevVid(steps), s);
    StepReads(l, steps, s, str, g);
    SoundGrows(l, steps, l, more, str, g, part);
    LinksPersist(g, part, Added(g, part));
    StepLinks(l.id, steps, s, g);
    StepsGrow(l, steps, s, g, Added(g, part));
  }

  // ---- The whole projection ----

  lemma {:induction false} SkillsMean(l: Loop, str: Value -> string, g: LoopGraph)
    requires l.lifecycle == [] && Means(l.(skills := []), [], str, g)
    ensures Means(l, [], str, Added(g, Skills(l.id, l.skills)))
    decreases |l.skills|
  {
    if l.skills == [] {
      assert l.(skills := []) == l;
    } else {
      var n, k := |l.skills| - 1, l.skills[|l.skills| - 1];
      var before := l.(skills := l.skills[..n]);
      assert before.(skills := []) == l.(skills := []) && before.(skills := before.skills + [k]) == l;
      SkillsMean(before, str, g);
      AddedJoin(g, Skills(l.id, before.skills), OfSkill(l.id, k));
      SkillMeans(before, k, str, Added(g, Skills(l.id, before.skills)));
    }
  }

  lemma {:induction false} LifecycleMeans(l: Loop, str: Value -> string, g: LoopGraph)
    requires Means(l.(lifecycle := []), [], str, g)
    ensures Means(l, [], str, Added(g, Lifecycle(l.id, l.lifecycle, str)))
    decreases |l.lifecycle|
  {
    if l.lifecycle == [] {
      assert l.(lifecycle := []) == l;
    } else {
      var n, e := |l.lifecycle| - 1, l.lifecycle[|l.lifecycle| - 1];
      var before := l.(lifecycle := l.lifecycle[..n]);
      assert before.(lifecycle := []) == l.(lifecycle := []) && before.(lifecycle := before.lifecycle + [e]) == l;
      LifecycleMeans(before, str, g);
      AddedJoin(g, Lifecycle(l.id, before.lifecycle, str), OfEvent(l.id, e, str));
      EventMeans(before, e, str, Added(g, Lifecycle(l.id, before.lifecycle, str)));
    }
  }

  lemma {:induction false} TrajectoryMeans(l: Loop, steps: seq<TrajectoryStep>, str: Value -> string, g: LoopGraph)
    requires Means(l, [], str, g)
    ensures Means(l, steps, str, Added(g, Trajectory(l.id, steps)))
  {
    if steps == [] {
      assert Added(g, Trajectory(l.id, steps)) == g;
    } else {
      var before, s := steps[..|steps| - 1], steps[|steps| - 1];
      var part, h := OfStep(l.id, PrevVid(before), s), Added(g, Trajectory(l.id, before));
      assert steps == before + [s];
      TrajectoryMeans(l, before, str, g);
      StepMeans(l, before, s, str, h);
      OneStepMore(g, l.id, steps);
    }
  }

  lemma OneStepMore(g: LoopGraph, loopId: string, steps: seq<TrajectoryStep>)
    requires steps != []
    ensures Added(g, Trajectory(loopId, steps))
         == (var (before, s) := (steps[..|steps| - 1], steps[|steps| - 1]);
             Added(Added(g, Trajectory(loopId, before)), OfStep(loopId, PrevVid(before), s)))
  {
    var before, s := steps[..|steps| - 1], steps[|steps| - 1];
    AddedJoin(g, Trajectory(loopId, before), OfStep(loopId, PrevVid(before), s));
  }

  /** Every vertex and edge of a projection reads as the loop and its steps say, and everything they say is there. */
  lemma ProjectionMeans(l: Loop, steps: seq<TrajectoryStep>, str: Value -> string)
    ensures Means(l, steps, str, Projection(l, steps, str))
  {
    var empty, bare, quiet := LoopGraph([], []), l.(skills := [], lifecycle := []), l.(lifecycle := []);
    CoreMeans(bare, str);
    assert quiet.(skills := []) == bare && Core(bare) == Core(l);
    SkillsMean(quiet, str, Added(empty, Core(l)));
    LifecycleMeans(l, str, Added(Added(empty, Core(l)), Skills(l.id, l.skills)));
    TrajectoryMeans(l, steps, str,
                    Added(Added(Added(empty, Core(l)), Skills(l.id, l.skills)), Lifecycle(l.id, l.lifecycle, str)));
    ProjectionInParts(empty, l, steps, str);
  }
}
