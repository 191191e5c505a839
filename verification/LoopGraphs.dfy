/** The provenance graph: a loop's lifecycle and trajectory projected to deduplicated vertices and edges. */
module LoopGraphs {
  import opened Prelude
  import opened Json
  import opened Loops

  datatype VertexKind = IntentV | LoopV | SkillV | VerifierV | FailureV | ContextV | TrajectoryStepV

  datatype EdgeKind = Created | Uses | VerifiedBy | LearnsFrom | Fixes | Supersedes | DependsOn | Next

  datatype LoopVertex = LoopVertex(id: string, kind: VertexKind, text: string)

  datatype LoopEdge = LoopEdge(kind: EdgeKind, src: string, dst: string, payload: Payload)

  datatype LoopGraph = LoopGraph(vertices: seq<LoopVertex>, edges: seq<LoopEdge>)

  /** A recorded agent step; absent attributes are null. */
  datatype TrajectoryStep = TrajectoryStep(
    id: string, stepKind: string, timestamp: Value, durationMs: Value, model: Value)

  function KindName(kind: VertexKind): string {
    match kind
    case IntentV => "intent"
    case LoopV => "loop"
    case SkillV => "skill"
    case VerifierV => "verifier"
    case FailureV => "failure"
    case ContextV => "context"
    case TrajectoryStepV => "trajectory_step"
  }

  function Vid(kind: VertexKind, key: string): string {
    KindName(kind) + ":" + key
  }

  datatype EdgeKey = EdgeKey(kind: EdgeKind, src: string, dst: string)

  function KeyOf(e: LoopEdge): EdgeKey { EdgeKey(e.kind, e.src, e.dst) }

  // ---- First occurrences ----

  function AddVertex(vs: seq<LoopVertex>, v: LoopVertex): seq<LoopVertex> {
    if exists u :: u in vs && u.id == v.id then vs else vs + [v]
  }

  function AddEdge(es: seq<LoopEdge>, e: LoopEdge): seq<LoopEdge> {
    if exists f :: f in es && KeyOf(f) == KeyOf(e) then es else es + [e]
  }

  function AddVertices(vs: seq<LoopVertex>, new': seq<LoopVertex>): seq<LoopVertex> {
    if new' == [] then vs else AddVertex(AddVertices(vs, new'[..|new'| - 1]), new'[|new'| - 1])
  }

  function AddEdges(es: seq<LoopEdge>, new': seq<LoopEdge>): seq<LoopEdge> {
    if new' == [] then es else AddEdge(AddEdges(es, new'[..|new'| - 1]), new'[|new'| - 1])
  }

  // ---- What each part of a loop contributes ----

  /** A batch of additions. */
  datatype Batch = Batch(vertices: seq<LoopVertex>, edges: seq<LoopEdge>)

  function Core(l: Loop): Batch {
    var loopVid, intentVid := Vid(LoopV, l.id), Vid(IntentV, l.id);
    Batch(
      [LoopVertex(loopVid, LoopV, l.id), LoopVertex(intentVid, IntentV, l.intent)],
      [LoopEdge(Created, intentVid, loopVid, map[])])
  }

  function OfSkill(loopId: string, skill: string): Batch {
    var v := Vid(SkillV, skill);
    Batch([LoopVertex(v, SkillV, skill)], [LoopEdge(Uses, Vid(LoopV, loopId), v, map[])])
  }

  /** `str` stands for Python's text of a value; on a string it is the string itself. */
  function OfEvent(loopId: string, e: LoopEvent, str: Value -> string): Batch {
    if e.kind.Verified? && e.state.Verifying? then
      var verifier := str(GetOr(e.payload, "verifier", Str("default-verifier")));
      var v := Vid(VerifierV, verifier);
      Batch(
        [LoopVertex(v, VerifierV, verifier)],
        [LoopEdge(VerifiedBy, Vid(LoopV, loopId), v, map["confidence" := Get(e.payload, "confidence")])])
    else if e.kind.Failure? && "failure" in e.payload then
      var failure := str(e.payload["failure"]);
      var v := Vid(FailureV, failure);
      Batch(
        [LoopVertex(v, FailureV, failure)],
        [LoopEdge(if "fixes" in e.payload then Fixes else LearnsFrom, Vid(LoopV, loopId), v, map[])])
    else Batch([], [])
  }

  function StepVid(s: TrajectoryStep): string { Vid(TrajectoryStepV, s.id) }

  /** A step's own vertex and USES edge, and the NEXT edge from its predecessor. */
  function OfStep(loopId: string, prev: Option<string>, s: TrajectoryStep): Batch {
    Batch(
      [LoopVertex(StepVid(s), TrajectoryStepV, s.stepKind)],
      [LoopEdge(Uses, Vid(LoopV, loopId), StepVid(s),
         map["step_kind" := Str(s.stepKind), "timestamp" := s.timestamp,
             "duration_ms" := s.durationMs, "model" := s.model])]
      + (match prev case None => [] case Some(p) => [LoopEdge(Next, p, StepVid(s), map[])]))
  }

  function Join(a: Batch, b: Batch): Batch {
    Batch(a.vertices + b.vertices, a.edges + b.edges)
  }

  function Skills(loopId: string, skills: seq<string>): Batch {
    if skills == [] then Batch([], [])
    else Join(Skills(loopId, skills[..|skills| - 1]), OfSkill(loopId, skills[|skills| - 1]))
  }

  function Lifecycle(loopId: string, es: seq<LoopEvent>, str: Value -> string): Batch {
    if es == [] then Batch([], []) else Join(Lifecycle(loopId, es[..|es| - 1], str), OfEvent(loopId, es[|es| - 1], str))
  }

  function PrevVid(steps: seq<TrajectoryStep>): Option<string> {
    if steps == [] then None else Some(StepVid(steps[|steps| - 1]))
  }

  function Trajectory(loopId: string, steps: seq<TrajectoryStep>): Batch {
    if steps == [] then Batch([], [])
    else
      var before := steps[..|steps| - 1];
      Join(Trajectory(loopId, before), OfStep(loopId, PrevVid(before), steps[|steps| - 1]))
  }

  /** Everything the loop and trajectory contribute, in the order it is added. */
  function Additions(l: Loop, steps: seq<TrajectoryStep>, str: Value -> string): Batch {
    Join(Join(Join(Core(l), Skills(l.id, l.skills)), Lifecycle(l.id, l.lifecycle, str)), Trajectory(l.id, steps))
  }

  function Added(g: LoopGraph, b: Batch): LoopGraph {
    LoopGraph(AddVertices(g.vertices, b.vertices), AddEdges(g.edges, b.edges))
  }

  function Projection(l: Loop, steps: seq<TrajectoryStep>, str: Value -> string): LoopGraph {
    Added(LoopGraph([], []), Additions(l, steps, str))
  }

  // ---- The projection loop ----

  class Builder {
    var vertices: seq<LoopVertex>
    var edges: seq<LoopEdge>
    var seenV: set<string>
    var seenE: set<EdgeKey>

    ghost predicate Valid()
      reads this
    {
      seenV == (set v | v in vertices :: v.id) && seenE == (set e | e in edges :: KeyOf(e))
    }

    ghost function Graph(): LoopGraph
      reads this
    {
      LoopGraph(vertices, edges)
    }

    constructor ()
      ensures Valid() && Graph() == LoopGraph([], [])
    {
      vertices, edges, seenV, seenE := [], [], {}, {};
    }

    method AddOneVertex(v: LoopVertex)
      requires Valid()
      modifies this
      ensures Valid() && edges == old(edges) && vertices == AddVertex(old(vertices), v)
    {
      if v.id !in seenV {
        seenV := seenV + {v.id};
        vertices := vertices + [v];
      }
    }

    method AddOneEdge(e: LoopEdge)
      requires Valid()
      modifies this
      ensures Valid() && vertices == old(vertices) && edges == AddEdge(old(edges), e)
    {
      if KeyOf(e) !in seenE {
        seenE := seenE + {KeyOf(e)};
        edges := edges + [e];
      }
    }

    /** Adds a part's vertices and edges in order. */
    method AddBatch(b: Batch)
      requires Valid()
      modifies this
      ensures Valid() && Graph() == Added(old(Graph()), b)
    {
      for i := 0 to |b.vertices|
        invariant Valid() && edges == old(edges)
        invariant vertices == AddVertices(old(vertices), b.vertices[..i])
      {
        assert b.vertices[..i + 1][..i] == b.vertices[..i];
        AddOneVertex(b.vertices[i]);
      }
      assert b.vertices[..|b.vertices|] == b.vertices;
      for i := 0 to |b.edges|
        invariant Valid() && vertices == AddVertices(old(vertices), b.vertices)
        invariant edges == AddEdges(old(edges), b.edges[..i])
      {
        assert b.edges[..i + 1][..i] == b.edges[..i];
        AddOneEdge(b.edges[i]);
      }
      assert b.edges[..|b.edges|] == b.edges;
    }

    method AddSkills(l: Loop)
      requires Valid()
      modifies this
      ensures Valid() && Graph() == Added(old(Graph()), Skills(l.id, l.skills))
    {
      for i := 0 to |l.skills|
        invariant Valid() && Graph() == Added(old(Graph()), Skills(l.id, l.skills[..i]))
      {
        assert l.skills[..i + 1][..i] == l.skills[..i];
        AddedJoin(old(Graph()), Skills(l.id, l.skills[..i]), OfSkill(l.id, l.skills[i]));
        AddBatch(OfSkill(l.id, l.skills[i]));
      }
      assert l.skills[..|l.skills|] == l.skills;
    }

    method AddLifecycle(l: Loop, str: Value -> string)
      requires Valid()
      modifies this
      ensures Valid() && Graph() == Added(old(Graph()), Lifecycle(l.id, l.lifecycle, str))
    {
      for i := 0 to |l.lifecycle|
        invariant Valid() && Graph() == Added(old(Graph()), Lifecycle(l.id, l.lifecycle[..i], str))
      {
        assert l.lifecycle[..i + 1][..i] == l.lifecycle[..i];
        AddedJoin(old(Graph()), Lifecycle(l.id, l.lifecycle[..i], str), OfEvent(l.id, l.lifecycle[i], str));
        AddBatch(OfEvent(l.id, l.lifecycle[i], str));
      }
      assert l.lifecycle[..|l.lifecycle|] == l.lifecycle;
    }

    method AddTrajectory(l: Loop, steps: seq<TrajectoryStep>)
      requires Valid()
      modifies this
      ensures Valid() && Graph() == Added(old(Graph()), Trajectory(l.id, steps))
    {
      var prevVid: Option<string> := None;
      for i := 0 to |steps|
        invariant Valid() && prevVid == PrevVid(steps[..i])
        invariant Graph() == Added(old(Graph()), Trajectory(l.id, steps[..i]))
      {
        assert steps[..i + 1][..i] == steps[..i];
        AddedJoin(old(Graph()), Trajectory(l.id, steps[..i]), OfStep(l.id, prevVid, steps[i]));
        AddBatch(OfStep(l.id, prevVid, steps[i]));
        prevVid := Some(StepVid(steps[i]));
      }
      assert steps[..|steps|] == steps;
    }
  }

  /** Projects a loop and, optionally, its trajectory. */
  method Project(l: Loop, steps: seq<TrajectoryStep>, str: Value -> string) returns (g: LoopGraph)
    ensures g == Projection(l, steps, str)
    ensures Closed(g)
  {
    var b := new Builder();
    b.AddBatch(Core(l));
    b.AddSkills(l);
    b.AddLifecycle(l, str);
    b.AddTrajectory(l, steps);
    g := LoopGraph(b.vertices, b.edges);
    ProjectionInParts(LoopGraph([], []), l, steps, str);
    ProjectionIsClosed(l, steps, str);
  }

  lemma ProjectionInParts(g: LoopGraph, l: Loop, steps: seq<TrajectoryStep>, str: Value -> string)
    ensures Added(g, Additions(l, steps, str))
         == Added(Added(Added(Added(g, Core(l)), Skills(l.id, l.skills)), Lifecycle(l.id, l.lifecycle, str)),
                  Trajectory(l.id, steps))
  {
    var a := Join(Core(l), Skills(l.id, l.skills));
    AddedJoin(g, Core(l), Skills(l.id, l.skills));
    AddedJoin(g, a, Lifecycle(l.id, l.lifecycle, str));
    AddedJoin(g, Join(a, Lifecycle(l.id, l.lifecycle, str)), Trajectory(l.id, steps));
  }

  lemma {:induction false} AddVerticesConcat(vs: seq<LoopVertex>, a: seq<LoopVertex>, b: seq<LoopVertex>)
    ensures AddVertices(vs, a + b) == AddVertices(AddVertices(vs, a), b)
  {
    if b == [] {
      assert a + b == a;
    } else {
      AddVerticesConcat(vs, a, b[..|b| - 1]);
      assert (a + b)[..|a + b| - 1] == a + b[..|b| - 1];
    }
  }

  lemma {:induction false} AddEdgesConcat(es: seq<LoopEdge>, a: seq<LoopEdge>, b: seq<LoopEdge>)
    ensures AddEdges(es, a + b) == AddEdges(AddEdges(es, a), b)
  {
    if b == [] {
      assert a + b == a;
    } else {
      AddEdgesConcat(es, a, b[..|b| - 1]);
      assert (a + b)[..|a + b| - 1] == a + b[..|b| - 1];
    }
  }

  lemma AddedJoin(g: LoopGraph, a: Batch, b: Batch)
    ensures Added(g, Join(a, b)) == Added(Added(g, a), b)
  {
    AddVerticesConcat(g.vertices, a.vertices, b.vertices);
    AddEdgesConcat(g.edges, a.edges, b.edges);
  }

  // ---- Uniqueness, closure, growth ----

  /** Every edge joins known vertices: what the LoopGraph constructor demands. */
  ghost predicate Closed(g: LoopGraph) {
    forall e :: e in g.edges ==> HasVertex(g.vertices, e.src) && HasVertex(g.vertices, e.dst)
  }

  predicate HasVertex(vs: seq<LoopVertex>, id: string) {
    exists v :: v in vs && v.id == id
  }

  ghost predicate UniqueVertices(vs: seq<LoopVertex>) {
    forall i, j :: 0 <= i < j < |vs| ==> vs[i].id != vs[j].id
  }

  ghost predicate UniqueEdges(es: seq<LoopEdge>) {
    forall i, j :: 0 <= i < j < |es| ==> KeyOf(es[i]) != KeyOf(es[j])
  }

  /** Adding vertices keeps ids unique, only extends the list, and makes every added id known. */
  lemma {:induction false} AddVerticesFacts(vs: seq<LoopVertex>, new': seq<LoopVertex>)
    requires UniqueVertices(vs)
    ensures UniqueVertices(AddVertices(vs, new')) && vs <= AddVertices(vs, new')
    ensures forall v :: v in AddVertices(vs, new') ==> v in vs || v in new'
    ensures forall v :: v in new' ==> HasVertex(AddVertices(vs, new'), v.id)
  {
    if new' != [] {
      var new0, x := new'[..|new'| - 1], new'[|new'| - 1];
      AddVerticesFacts(vs, new0);
      assert new' == new0 + [x];
      var before, after := AddVertices(vs, new0), AddVertices(vs, new');
      assert x in after || HasVertex(before, x.id);
      forall v | v in new' ensures HasVertex(after, v.id) {
        if v in new0 {
          assert HasVertex(before, v.id);
        }
      }
    }
  }

  lemma {:induction false} AddEdgesFacts(es: seq<LoopEdge>, new': seq<LoopEdge>)
    requires UniqueEdges(es)
    ensures UniqueEdges(AddEdges(es, new')) && es <= AddEdges(es, new')
    ensures forall e :: e in AddEdges(es, new') ==> e in es || e in new'
    ensures forall e :: e in new' ==> HasEdge(AddEdges(es, new'), KeyOf(e))
  {
    if new' != [] {
      var new0, x := new'[..|new'| - 1], new'[|new'| - 1];
      AddEdgesFacts(es, new0);
      assert new' == new0 + [x];
      var before, after := AddEdges(es, new0), AddEdges(es, new');
      assert x in after || HasEdge(before, KeyOf(x));
      forall e | e in new' ensures HasEdge(after, KeyOf(e)) {
        if e in new0 {
          assert HasEdge(before, KeyOf(e));
        }
      }
    }
  }

  predicate HasEdge(es: seq<LoopEdge>, key: EdgeKey) {
    exists e :: e in es && KeyOf(e) == key
  }

  /** Within a batch sequence, each edge's ends are among the vertices. */
  ghost predicate ClosedOver(es: seq<LoopEdge>, vs: seq<LoopVertex>) {
    forall e :: e in es ==> HasVertex(vs, e.src) && HasVertex(vs, e.dst)
  }

  lemma HasVertexGrows(vs: seq<LoopVertex>, more: seq<LoopVertex>)
    ensures forall id :: HasVertex(vs, id) || HasVertex(more, id) ==> HasVertex(vs + more, id)
  {
    forall id | HasVertex(vs, id) || HasVertex(more, id) ensures HasVertex(vs + more, id) {
      var v :| (v in vs || v in more) && v.id == id;
      assert v in vs + more;
    }
  }

  /** A batch may point back at what was there before it. */
  ghost predicate Continues(base: seq<LoopVertex>, b: Batch) {
    ClosedOver(b.edges, base + b.vertices)
  }

  lemma ContinuesJoin(base: seq<LoopVertex>, a: Batch, b: Batch)
    requires Continues(base, a) && Continues(base + a.vertices, b)
    ensures Continues(base, Join(a, b))
  {
    assert base + a.vertices + b.vertices == base + (a.vertices + b.vertices);
    HasVertexGrows(base + a.vertices, b.vertices);
  }

  lemma PartContinues(base: seq<LoopVertex>, b: Batch, loopVid: string, prev: Option<string>)
    requires HasVertex(base, loopVid) && (prev.Some? ==> HasVertex(base, prev.value))
    requires forall e :: e in b.edges ==>
               (e.src == loopVid || Some(e.src) == prev) && HasVertex(b.vertices, e.dst)
    ensures Continues(base, b)
  {
    HasVertexGrows(base, b.vertices);
  }

  lemma {:induction false} SkillsContinue(base: seq<LoopVertex>, l: Loop, skills: seq<string>)
    requires HasVertex(base, Vid(LoopV, l.id))
    ensures Continues(base, Skills(l.id, skills))
  {
    if skills != [] {
      var before, part := Skills(l.id, skills[..|skills| - 1]), OfSkill(l.id, skills[|skills| - 1]);
      SkillsContinue(base, l, skills[..|skills| - 1]);
      HasVertexGrows(base, before.vertices);
      assert part.vertices[0] in part.vertices;
      PartContinues(base + before.vertices, part, Vid(LoopV, l.id), None);
      ContinuesJoin(base, before, part);
    }
  }

  lemma {:induction false} LifecycleContinues(
    base: seq<LoopVertex>, l: Loop, es: seq<LoopEvent>, str: Value -> string)
    requires HasVertex(base, Vid(LoopV, l.id))
    ensures Continues(base, Lifecycle(l.id, es, str))
  {
    if es != [] {
      var before, part := Lifecycle(l.id, es[..|es| - 1], str), OfEvent(l.id, es[|es| - 1], str);
      LifecycleContinues(base, l, es[..|es| - 1], str);
      HasVertexGrows(base, before.vertices);
      assert part.vertices != [] ==> part.vertices[0] in part.vertices;
      PartContinues(base + before.vertices, part, Vid(LoopV, l.id), None);
      ContinuesJoin(base, before, part);
    }
  }

  lemma {:induction false} TrajectoryContinues(base: seq<LoopVertex>, l: Loop, steps: seq<TrajectoryStep>)
    requires HasVertex(base, Vid(LoopV, l.id))
    ensures Continues(base, Trajectory(l.id, steps))
    ensures steps != [] ==> HasVertex(Trajectory(l.id, steps).vertices, StepVid(steps[|steps| - 1]))
  {
    if steps != [] {
      var steps0, s := steps[..|steps| - 1], steps[|steps| - 1];
      var before, part := Trajectory(l.id, steps0), OfStep(l.id, PrevVid(steps0), s);
      TrajectoryContinues(base, l, steps0);
      HasVertexGrows(base, before.vertices);
      assert part.vertices[0] in part.vertices;
      PartContinues(base + before.vertices, part, Vid(LoopV, l.id), PrevVid(steps0));
      ContinuesJoin(base, before, part);
      HasVertexGrows(before.vertices, part.vertices);
    }
  }

  /** A closed batch, continued by another one, is closed and still knows every vertex it knew. */
  lemma ClosedJoin(a: Batch, b: Batch, id: string)
    requires Continues([], a) && Continues(a.vertices, b) && HasVertex(a.vertices, id)
    ensures Continues([], Join(a, b)) && HasVertex(Join(a, b).vertices, id)
  {
    assert [] + a.vertices == a.vertices;
    ContinuesJoin([], a, b);
    HasVertexGrows(a.vertices, b.vertices);
  }

  lemma CoreIsClosed(l: Loop)
    ensures Continues([], Core(l)) && HasVertex(Core(l).vertices, Vid(LoopV, l.id))
  {
    var core := Core(l);
    assert [] + core.vertices == core.vertices;
    assert core.vertices[0] in core.vertices && core.vertices[1] in core.vertices;
  }

  lemma AdditionsAreClosed(l: Loop, steps: seq<TrajectoryStep>, str: Value -> string)
    ensures Continues([], Additions(l, steps, str))
  {
    var loopVid := Vid(LoopV, l.id);
    CoreIsClosed(l);
    SkillsContinue(Core(l).vertices, l, l.skills);
    ClosedJoin(Core(l), Skills(l.id, l.skills), loopVid);
    var a := Join(Core(l), Skills(l.id, l.skills));
    LifecycleContinues(a.vertices, l, l.lifecycle, str);
    ClosedJoin(a, Lifecycle(l.id, l.lifecycle, str), loopVid);
    var b := Join(a, Lifecycle(l.id, l.lifecycle, str));
    TrajectoryContinues(b.vertices, l, steps);
    ClosedJoin(b, Trajectory(l.id, steps), loopVid);
  }

  /** Projecting any loop yields unique vertex ids, unique (kind, src, dst) edges and known endpoints, so the graph
      constructor never rejects it. */
  lemma ProjectionIsClosed(l: Loop, steps: seq<TrajectoryStep>, str: Value -> string)
    ensures var g := Projection(l, steps, str);
            UniqueVertices(g.vertices) && UniqueEdges(g.edges) && Closed(g)
  {
    var b := Additions(l, steps, str);
    AdditionsAreClosed(l, steps, str);
    assert [] + b.vertices == b.vertices;
    AddVerticesFacts([], b.vertices);
    AddEdgesFacts([], b.edges);
    var g := Projection(l, steps, str);
    forall e | e in g.edges ensures HasVertex(g.vertices, e.src) && HasVertex(g.vertices, e.dst) {
      var s :| s in b.vertices && s.id == e.src;
      var d :| d in b.vertices && d.id == e.dst;
      assert HasVertex(g.vertices, s.id) && HasVertex(g.vertices, d.id);
    }
  }

  /** Vertex ids of different kinds, or different keys of one kind, never collide. */
  lemma VidIsInjective(k: VertexKind, a: string, m: VertexKind, b: string)
    ensures Vid(k, a) == Vid(m, b) <==> k == m && a == b
  {
    if Vid(k, a) == Vid(m, b) {
      KindNamesHaveNoColon(k);
      KindNamesHaveNoColon(m);
      assert Vid(k, a) == KindName(k) + [':'] + a && Vid(m, b) == KindName(m) + [':'] + b;
      SplitAtFirst(':', KindName(k), a, KindName(m), b);
    }
  }

  lemma KindNamesHaveNoColon(k: VertexKind)
    ensures ':' !in KindName(k)
    ensures forall m :: KindName(k) == KindName(m) ==> k == m
  {
    forall m | KindName(k) == KindName(m) ensures k == m {
      assert KindName(k)[0] == KindName(m)[0] && |KindName(k)| == |KindName(m)|;
    }
  }
}
