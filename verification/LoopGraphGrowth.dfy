/** How the projected graph grows, and the shape of its trajectory. */
module LoopGraphGrowth {
  import opened Prelude
  import opened Json
  import opened Loops
  import opened LoopGraphs

  ghost predicate Extends(g: LoopGraph, h: LoopGraph) {
    g.vertices <= h.vertices && g.edges <= h.edges
  }

  lemma AddedExtends(l: Loop, steps: seq<TrajectoryStep>, str: Value -> string, b: Batch)
    ensures Extends(Projection(l, steps, str), Added(Projection(l, steps, str), b))
  {
    ProjectionIsClosed(l, steps, str);
    AddedKeepsFront(Projection(l, steps, str), b);
  }

  /** Advancing a loop without trajectory adds exactly the new event's part to its graph. */
  lemma AdvanceAddsEvent(l: Loop, e: LoopEvent, validate: bool, str: Value -> string)
    requires Advance(l, e, validate).Success?
    ensures Projection(Advance(l, e, validate).value, [], str)
         == Added(Projection(l, [], str), OfEvent(l.id, e, str))
  {
    var next := Advance(l, e, validate).value;
    var empty := LoopGraph([], []);
    assert next.lifecycle[..|l.lifecycle|] == l.lifecycle;
    ProjectionInParts(empty, l, [], str);
    ProjectionInParts(empty, next, [], str);
    AddedJoin(Added(Added(empty, Core(l)), Skills(l.id, l.skills)), Lifecycle(l.id, l.lifecycle, str),
              OfEvent(l.id, e, str));
  }

  /** Advancing a loop only extends the vertex and edge lists of its graph. */
  lemma AdvanceExtends(l: Loop, e: LoopEvent, validate: bool, str: Value -> string)
    requires Advance(l, e, validate).Success?
    ensures Extends(Projection(l, [], str), Projection(Advance(l, e, validate).value, [], str))
  {
    AdvanceAddsEvent(l, e, validate, str);
    AddedExtends(l, [], str, OfEvent(l.id, e, str));
  }

  /** Recording one more step only extends the vertex and edge lists. */
  lemma RecordingExtends(l: Loop, steps: seq<TrajectoryStep>, s: TrajectoryStep, str: Value -> string)
    ensures Extends(Projection(l, steps, str), Projection(l, steps + [s], str))
  {
    var empty := LoopGraph([], []);
    assert (steps + [s])[..|steps|] == steps;
    var part := OfStep(l.id, PrevVid(steps), s);
    ProjectionInParts(empty, l, steps, str);
    ProjectionInParts(empty, l, steps + [s], str);
    AddedJoin(Added(Added(Added(empty, Core(l)), Skills(l.id, l.skills)), Lifecycle(l.id, l.lifecycle, str)),
              Trajectory(l.id, steps), part);
    AddedExtends(l, steps, str, part);
  }

  // ---- Advancing beside a trajectory ----

  /** Named after a kind other than a trajectory step. */
  predicate NotAStep(v: LoopVertex) {
    !v.kind.TrajectoryStepV? && KindName(v.kind) + ":" <= v.id
  }

  lemma NotAStepIsNoStep(v: LoopVertex, s: TrajectoryStep)
    requires NotAStep(v)
    ensures v.id != StepVid(s)
  {
    var key := v.id[|KindName(v.kind)| + 1..];
    assert v.id == Vid(v.kind, key);
    VidIsInjective(v.kind, key, TrajectoryStepV, s.id);
  }

  lemma {:induction false} SkillsHaveNoSteps(loopId: string, skills: seq<string>)
    ensures forall v :: v in Skills(loopId, skills).vertices ==> NotAStep(v)
  {
    if skills != [] {
      SkillsHaveNoSteps(loopId, skills[..|skills| - 1]);
    }
  }

  lemma {:induction false} LifecycleHasNoSteps(loopId: string, es: seq<LoopEvent>, str: Value -> string)
    ensures forall v :: v in Lifecycle(loopId, es, str).vertices ==> NotAStep(v)
  {
    if es != [] {
      LifecycleHasNoSteps(loopId, es[..|es| - 1], str);
    }
  }

  lemma BaseHasNoSteps(l: Loop, str: Value -> string)
    ensures forall v :: v in Projection(l, [], str).vertices ==> NotAStep(v)
  {
    SkillsHaveNoSteps(l.id, l.skills);
    LifecycleHasNoSteps(l.id, l.lifecycle, str);
    AddVerticesFacts([], Additions(l, [], str).vertices);
  }

  ghost predicate StepsBehind(g: LoopGraph, gt: LoopGraph) {
    Extends(g, gt)
    && |gt.vertices| > |g.vertices| && gt.vertices[|g.vertices|].kind.TrajectoryStepV?
    && |gt.edges| > |g.edges| && gt.edges[|g.edges|].kind.Uses?
  }

  /** The first step's vertex and edge are new to a graph without steps. */
  lemma FirstStepIsNew(g: LoopGraph, loopId: string, s: TrajectoryStep)
    requires UniqueVertices(g.vertices) && UniqueEdges(g.edges) && Closed(g)
    requires forall v :: v in g.vertices ==> NotAStep(v)
    ensures var (h, one) := (Added(g, OfStep(loopId, None, s)), OfStep(loopId, None, s));
            h == LoopGraph(g.vertices + [one.vertices[0]], g.edges + [one.edges[0]])
            && UniqueVertices(h.vertices) && UniqueEdges(h.edges)
  {
    var one := OfStep(loopId, None, s);
    forall v | v in g.vertices ensures v.id != StepVid(s) {
      NotAStepIsNoStep(v, s);
    }
    AddVertexOnce(g.vertices, one.vertices[0]);
    AddEdgeOnce(g, one.edges[0]);
    assert one.vertices == [one.vertices[0]] && one.edges == [one.edges[0]];
  }

  lemma AddedKeepsFront(g: LoopGraph, b: Batch)
    requires UniqueVertices(g.vertices) && UniqueEdges(g.edges)
    ensures Extends(g, Added(g, b))
  {
    AddVerticesFacts(g.vertices, b.vertices);
    AddEdgesFacts(g.edges, b.edges);
  }

  /** Whatever extends a graph by a step's vertex and edge first, has steps behind it. */
  lemma StepInFront(g: LoopGraph, v: LoopVertex, e: LoopEdge, h: LoopGraph)
    requires v.kind.TrajectoryStepV? && e.kind.Uses?
    requires Extends(LoopGraph(g.vertices + [v], g.edges + [e]), h)
    ensures StepsBehind(g, h)
  {
    assert h.vertices[|g.vertices|] == (g.vertices + [v])[|g.vertices|];
    assert h.edges[|g.edges|] == (g.edges + [e])[|g.edges|];
    assert forall i :: 0 <= i < |g.vertices| ==> h.vertices[i] == (g.vertices + [v])[i];
    assert forall i :: 0 <= i < |g.edges| ==> h.edges[i] == (g.edges + [e])[i];
  }

  /** The trajectory's first step stands right behind the rest of the graph. */
  lemma FirstStepFollows(g: LoopGraph, loopId: string, steps: seq<TrajectoryStep>)
    requires UniqueVertices(g.vertices) && UniqueEdges(g.edges) && Closed(g)
    requires steps != [] && forall v :: v in g.vertices ==> NotAStep(v)
    ensures StepsBehind(g, Added(g, Trajectory(loopId, steps)))
  {
    var one := OfStep(loopId, None, steps[0]);
    var rest := TrajectoryFrom(loopId, steps);
    AddedJoin(g, one, rest);
    FirstStepIsNew(g, loopId, steps[0]);
    AddedKeepsFront(Added(g, one), rest);
    StepInFront(g, one.vertices[0], one.edges[0], Added(g, Trajectory(loopId, steps)));
  }

  lemma TrajectoryStandsBehind(l: Loop, steps: seq<TrajectoryStep>, str: Value -> string)
    requires steps != []
    ensures StepsBehind(Projection(l, [], str), Projection(l, steps, str))
    ensures forall v :: v in Projection(l, [], str).vertices ==> NotAStep(v)
  {
    TrajectoryLast(l, steps, str);
    ProjectionIsClosed(l, [], str);
    BaseHasNoSteps(l, str);
    FirstStepFollows(Projection(l, [], str), l.id, steps);
  }

  lemma AddVertexOnce(vs: seq<LoopVertex>, v: LoopVertex)
    requires UniqueVertices(vs) && forall u :: u in vs ==> u.id != v.id
    ensures AddVertices(vs, [v]) == vs + [v] && UniqueVertices(vs + [v])
  {
    assert [v][..0] == [];
  }

  lemma AddEdgeOnce(g: LoopGraph, e: LoopEdge)
    requires UniqueEdges(g.edges) && Closed(g) && forall u :: u in g.vertices ==> u.id != e.dst
    ensures AddEdges(g.edges, [e]) == g.edges + [e] && UniqueEdges(g.edges + [e])
  {
    assert [e][..0] == [];
    forall f | f in g.edges ensures KeyOf(f) != KeyOf(e) {
      assert HasVertex(g.vertices, f.dst);
    }
  }

  lemma JoinAssociates(a: Batch, b: Batch, c: Batch)
    ensures Join(Join(a, b), c) == Join(a, Join(b, c))
  {
    assert a.vertices + b.vertices + c.vertices == a.vertices + (b.vertices + c.vertices);
    assert a.edges + b.edges + c.edges == a.edges + (b.edges + c.edges);
  }

  /** The additions of all steps but the first. */
  lemma {:induction false} TrajectoryFrom(loopId: string, steps: seq<TrajectoryStep>) returns (rest: Batch)
    requires steps != []
    ensures Trajectory(loopId, steps) == Join(OfStep(loopId, None, steps[0]), rest)
  {
    if |steps| == 1 {
      rest := Batch([], []);
      assert steps[..0] == [];
      assert Trajectory(loopId, steps[..0]) == Batch([], []);
      assert Trajectory(loopId, steps) == Join(Batch([], []), OfStep(loopId, None, steps[0]));
    } else {
      var steps0 := steps[..|steps| - 1];
      var before := TrajectoryFrom(loopId, steps0);
      var part := OfStep(loopId, PrevVid(steps0), steps[|steps| - 1]);
      rest := Join(before, part);
      JoinAssociates(OfStep(loopId, None, steps[0]), before, part);
    }
  }

  lemma EventsAreNoUses(g: LoopGraph, h: LoopGraph, loopId: string, e: LoopEvent, str: Value -> string)
    requires h == Added(g, OfEvent(loopId, e, str))
    ensures |h.edges| > |g.edges| ==> !h.edges[|g.edges|].kind.Uses?
  {
    EventAddsAtMostOne(g, loopId, e, str);
  }

  /** Advancing beside a trajectory extends the lists exactly when the graph without it does not change. */
  lemma AdvanceBesideTrajectory(
    l: Loop, e: LoopEvent, validate: bool, steps: seq<TrajectoryStep>, str: Value -> string)
    requires Advance(l, e, validate).Success? && steps != []
    ensures Extends(Projection(l, steps, str), Projection(Advance(l, e, validate).value, steps, str))
            <==> Added(Projection(l, [], str), OfEvent(l.id, e, str)) == Projection(l, [], str)
  {
    var next := Advance(l, e, validate).value;
    var g, h := Projection(l, [], str), Projection(next, [], str);
    AdvanceAddsEvent(l, e, validate, str);
    TrajectoryStandsBehind(l, steps, str);
    TrajectoryStandsBehind(next, steps, str);
    AdvanceExtends(l, e, validate, str);
    TrajectoryLast(l, steps, str);
    TrajectoryLast(next, steps, str);
    EventsAreNoUses(g, h, l.id, e, str);
    BesideTrajectory(g, h, Projection(l, steps, str), Projection(next, steps, str));
  }

  lemma BesideTrajectory(g: LoopGraph, h: LoopGraph, gt: LoopGraph, ht: LoopGraph)
    requires Extends(g, h) && StepsBehind(g, gt) && StepsBehind(h, ht) && (h == g ==> ht == gt)
    requires forall v :: v in h.vertices ==> NotAStep(v)
    requires |h.edges| > |g.edges| ==> !h.edges[|g.edges|].kind.Uses?
    ensures Extends(gt, ht) <==> h == g
  {
    if h != g {
      InsertedInFront(g, h, gt, ht);
    }
  }

  /** The event contributes this edge. */
  predicate Contributes(loopId: string, e: LoopEvent, str: Value -> string, key: EdgeKey) {
    var es := OfEvent(loopId, e, str).edges;
    es != [] && KeyOf(es[0]) == key
  }

  /** Some event of the list contributes this edge. */
  predicate Told(loopId: string, es: seq<LoopEvent>, str: Value -> string, key: EdgeKey) {
    exists e :: e in es && Contributes(loopId, e, str, key)
  }

  /** The event contributes nothing, or the edge an earlier event of the lifecycle contributed already. */
  predicate AlreadyTold(l: Loop, e: LoopEvent, str: Value -> string) {
    var es := OfEvent(l.id, e, str).edges;
    es == [] || Told(l.id, l.lifecycle, str, KeyOf(es[0]))
  }

  lemma ToldSnoc(loopId: string, es: seq<LoopEvent>, e: LoopEvent, str: Value -> string, key: EdgeKey)
    ensures Told(loopId, es + [e], str, key) <==> Told(loopId, es, str, key) || Contributes(loopId, e, str, key)
  {
    if Told(loopId, es, str, key) {
      var d :| d in es && Contributes(loopId, d, str, key);
      assert d in es + [e];
    }
    if Contributes(loopId, e, str, key) {
      assert e in es + [e];
    }
  }

  lemma {:induction false} LifecycleKeys(loopId: string, es: seq<LoopEvent>, str: Value -> string, key: EdgeKey)
    ensures HasEdge(Lifecycle(loopId, es, str).edges, key) <==> Told(loopId, es, str, key)
  {
    if es != [] {
      var es0, e := es[..|es| - 1], es[|es| - 1];
      assert es == es0 + [e];
      LifecycleKeys(loopId, es0, str, key);
      HasEdgeJoin(Lifecycle(loopId, es0, str).edges, OfEvent(loopId, e, str).edges, key);
      OneEdgeAtMost(loopId, e, str, key);
      ToldSnoc(loopId, es0, e, str, key);
    }
  }

  lemma HasEdgeJoin(a: seq<LoopEdge>, b: seq<LoopEdge>, key: EdgeKey)
    ensures HasEdge(a + b, key) <==> HasEdge(a, key) || HasEdge(b, key)
  {
    if HasEdge(a, key) {
      var e :| e in a && KeyOf(e) == key;
      assert e in a + b;
    }
    if HasEdge(b, key) {
      var e :| e in b && KeyOf(e) == key;
      assert e in a + b;
    }
  }

  lemma OneEdgeAtMost(loopId: string, e: LoopEvent, str: Value -> string, key: EdgeKey)
    ensures HasEdge(OfEvent(loopId, e, str).edges, key) <==> Contributes(loopId, e, str, key)
  {
    var es := OfEvent(loopId, e, str).edges;
    if es != [] {
      assert es[0] in es;
    }
  }

  lemma {:induction false} SkillsOnlyUse(loopId: string, skills: seq<string>)
    ensures forall f :: f in Skills(loopId, skills).edges ==> f.kind.Uses?
  {
    if skills != [] { SkillsOnlyUse(loopId, skills[..|skills| - 1]); }
  }

  /** The graph holds an edge of an event's kind exactly when some event of the lifecycle contributed it. */
  lemma EventEdgesKnown(l: Loop, str: Value -> string, key: EdgeKey)
    requires !key.kind.Created? && !key.kind.Uses?
    ensures HasEdge(Projection(l, [], str).edges, key) <==> Told(l.id, l.lifecycle, str, key)
  {
    var core, skills, cycle := Core(l).edges, Skills(l.id, l.skills).edges, Lifecycle(l.id, l.lifecycle, str).edges;
    var all := core + skills + cycle;
    assert Additions(l, [], str).edges == all + [] == all;
    DeduplicationKeepsKeys(all, key);
    HasEdgeJoin(core + skills, cycle, key);
    HasEdgeJoin(core, skills, key);
    SkillsOnlyUse(l.id, l.skills);
    LifecycleKeys(l.id, l.lifecycle, str, key);
  }

  /** An event changes the graph exactly unless its edge is there: its vertex comes with its edge. */
  lemma EventChangesUnlessKnown(g: LoopGraph, loopId: string, e: LoopEvent, str: Value -> string)
    requires Closed(g)
    ensures var es := OfEvent(loopId, e, str).edges;
            Added(g, OfEvent(loopId, e, str)) == g <==> es == [] || HasEdge(g.edges, KeyOf(es[0]))
  {
    var b := OfEvent(loopId, e, str);
    if b.edges != [] {
      var v, f := b.vertices[0], b.edges[0];
      assert b.vertices == [v] && b.edges == [f] && f.dst == v.id;
      assert [v][..0] == [] && [f][..0] == [];
      assert AddVertices(g.vertices, [v]) == AddVertex(g.vertices, v);
      assert AddEdges(g.edges, [f]) == AddEdge(g.edges, f);
      if HasEdge(g.edges, KeyOf(f)) {
        var d :| d in g.edges && KeyOf(d) == KeyOf(f);
        assert HasVertex(g.vertices, d.dst);
      }
    }
  }

  /** With a trajectory recorded, advancing the loop extends the lists as a prefix exactly when the event contributes
      nothing, or what an earlier event of the lifecycle contributed already: a new vertex and edge would be inserted
      in front of the trajectory. */
  lemma AdvanceBesideTrajectoryExtendsIff(
    l: Loop, e: LoopEvent, validate: bool, steps: seq<TrajectoryStep>, str: Value -> string)
    requires Advance(l, e, validate).Success? && steps != []
    ensures Extends(Projection(l, steps, str), Projection(Advance(l, e, validate).value, steps, str))
            <==> AlreadyTold(l, e, str)
  {
    var es := OfEvent(l.id, e, str).edges;
    AdvanceBesideTrajectory(l, e, validate, steps, str);
    ProjectionIsClosed(l, [], str);
    EventChangesUnlessKnown(Projection(l, [], str), l.id, e, str);
    if es != [] {
      EventEdgesKnown(l, str, KeyOf(es[0]));
    }
  }

  /** Where the old graph goes on with a step, the new one has something else. */
  lemma InsertedInFront(g: LoopGraph, h: LoopGraph, gt: LoopGraph, ht: LoopGraph)
    requires Extends(g, h) && h != g && Extends(h, ht) && StepsBehind(g, gt)
    requires forall v :: v in h.vertices ==> NotAStep(v)
    requires |h.edges| > |g.edges| ==> !h.edges[|g.edges|].kind.Uses?
    ensures !Extends(gt, ht)
  {
    if |h.vertices| > |g.vertices| {
      assert h.vertices[|g.vertices|] in h.vertices;
      assert ht.vertices[|g.vertices|] == h.vertices[|g.vertices|];
    } else {
      assert h.vertices == g.vertices && |h.edges| > |g.edges|;
      assert ht.edges[|g.edges|] == h.edges[|g.edges|];
    }
  }

  lemma TrajectoryLast(l: Loop, steps: seq<TrajectoryStep>, str: Value -> string)
    ensures Projection(l, steps, str) == Added(Projection(l, [], str), Trajectory(l.id, steps))
  {
    ProjectionInParts(LoopGraph([], []), l, steps, str);
    ProjectionInParts(LoopGraph([], []), l, [], str);
  }

  lemma EventAddsAtMostOne(g: LoopGraph, loopId: string, e: LoopEvent, str: Value -> string)
    ensures var h := Added(g, OfEvent(loopId, e, str));
            var b := OfEvent(loopId, e, str);
            (h.vertices == g.vertices || (|b.vertices| == 1 && h.vertices == g.vertices + b.vertices))
            && (h.edges == g.edges || (|b.edges| == 1 && h.edges == g.edges + b.edges && !b.edges[0].kind.Uses?))
  {
    var b := OfEvent(loopId, e, str);
    if b.vertices != [] {
      var v, f := b.vertices[0], b.edges[0];
      assert b.vertices == [v] && b.edges == [f];
      assert [v][..0] == [] && [f][..0] == [];
      assert AddVertices(g.vertices, [v]) == AddVertex(g.vertices, v);
      assert AddEdges(g.edges, [f]) == AddEdge(g.edges, f);
    }
  }

  // ---- The NEXT chain ----

  function IsNext(e: LoopEdge): bool { e.kind.Next? }

  /** The NEXT edges of consecutive steps, in order. */
  function Chain(steps: seq<TrajectoryStep>): seq<LoopEdge> {
    seq(if steps == [] then 0 else |steps| - 1, i requires 0 <= i < |steps| - 1 =>
      LoopEdge(Next, StepVid(steps[i]), StepVid(steps[i + 1]), map[]))
  }

  ghost predicate DistinctSteps(steps: seq<TrajectoryStep>) {
    forall i, j :: 0 <= i < j < |steps| ==> steps[i].id != steps[j].id
  }

  lemma FilterAddsOne(es: seq<LoopEdge>, e: LoopEdge)
    ensures Filter(AddEdge(es, e), IsNext)
         == if e.kind.Next? then AddEdge(Filter(es, IsNext), e) else Filter(es, IsNext)
  {
    FilterMembers(es, IsNext);
    FilterSnoc(es, e, IsNext);
    assert Filter(es, IsNext) + [] == Filter(es, IsNext);
    if e.kind.Next? && HasEdge(es, KeyOf(e)) {
      var f :| f in es && KeyOf(f) == KeyOf(e);
      assert IsNext(f) && f in Filter(es, IsNext);
    }
  }

  lemma AddEdgesSnoc(es: seq<LoopEdge>, e: LoopEdge)
    ensures AddEdges([], es + [e]) == AddEdge(AddEdges([], es), e)
  {
    assert (es + [e])[..|es|] == es;
  }

  /** Deduplication never looks across edge kinds. */
  lemma {:induction false} FilterNextAdds(es: seq<LoopEdge>)
    ensures Filter(AddEdges([], es), IsNext) == AddEdges([], Filter(es, IsNext))
  {
    if es != [] {
      var es0, e := es[..|es| - 1], es[|es| - 1];
      FilterNextAdds(es0);
      FilterAddsOne(AddEdges([], es0), e);
      if e.kind.Next? {
        AddEdgesSnoc(Filter(es0, IsNext), e);
      } else {
        assert Filter(es0, IsNext) + [] == Filter(es0, IsNext);
      }
    }
  }

  lemma {:induction false} NoNextInSkills(loopId: string, skills: seq<string>)
    ensures forall e :: e in Skills(loopId, skills).edges ==> !e.kind.Next?
  {
    if skills != [] { NoNextInSkills(loopId, skills[..|skills| - 1]); }
  }

  lemma {:induction false} NoNextInLifecycle(loopId: string, es: seq<LoopEvent>, str: Value -> string)
    ensures forall e :: e in Lifecycle(loopId, es, str).edges ==> !e.kind.Next?
  {
    if es != [] { NoNextInLifecycle(loopId, es[..|es| - 1], str); }
  }

  lemma NextOfStep(loopId: string, prev: Option<string>, s: TrajectoryStep)
    ensures Filter(OfStep(loopId, prev, s).edges, IsNext)
         == match prev case None => [] case Some(p) => [LoopEdge(Next, p, StepVid(s), map[])]
  {
    var es := OfStep(loopId, prev, s).edges;
    FilterSnoc([], es[0], IsNext);
    assert [] + [es[0]] == [es[0]];
    if prev.Some? {
      assert es == [es[0]] + [es[1]];
      FilterSnoc([es[0]], es[1], IsNext);
    } else {
      assert es == [es[0]];
    }
  }

  lemma ChainSnoc(steps: seq<TrajectoryStep>, s: TrajectoryStep)
    ensures Chain(steps + [s])
         == Chain(steps) + (match PrevVid(steps) case None => [] case Some(p) => [LoopEdge(Next, p, StepVid(s), map[])])
  {
  }

  lemma NextOfMoreSteps(loopId: string, es: seq<LoopEdge>, steps: seq<TrajectoryStep>, s: TrajectoryStep)
    requires Filter(es, IsNext) == Chain(steps)
    ensures Filter(es + OfStep(loopId, PrevVid(steps), s).edges, IsNext) == Chain(steps + [s])
  {
    FilterConcat(es, OfStep(loopId, PrevVid(steps), s).edges, IsNext);
    NextOfStep(loopId, PrevVid(steps), s);
    ChainSnoc(steps, s);
  }

  lemma TrajectoryEdges(loopId: string, steps: seq<TrajectoryStep>, s: TrajectoryStep)
    ensures Trajectory(loopId, steps + [s]).edges
         == Trajectory(loopId, steps).edges + OfStep(loopId, PrevVid(steps), s).edges
  {
    assert (steps + [s])[..|steps|] == steps;
  }

  lemma {:induction false} NextInTrajectory(loopId: string, steps: seq<TrajectoryStep>)
    ensures Filter(Trajectory(loopId, steps).edges, IsNext) == Chain(steps)
  {
    if steps == [] {
      assert Trajectory(loopId, steps).edges == [];
    } else {
      var steps0, s := steps[..|steps| - 1], steps[|steps| - 1];
      assert steps == steps0 + [s];
      NextInTrajectory(loopId, steps0);
      NextOfMoreSteps(loopId, Trajectory(loopId, steps0).edges, steps0, s);
      TrajectoryEdges(loopId, steps0, s);
    }
  }

  /** The graph's NEXT edges are the deduplicated chain of consecutive steps. */
  lemma NextEdgesAreTheChain(l: Loop, steps: seq<TrajectoryStep>, str: Value -> string)
    ensures Filter(Projection(l, steps, str).edges, IsNext) == AddEdges([], Chain(steps))
  {
    var parts := Join(Join(Core(l), Skills(l.id, l.skills)), Lifecycle(l.id, l.lifecycle, str)).edges;
    FilterNextAdds(Additions(l, steps, str).edges);
    FilterConcat(parts, Trajectory(l.id, steps).edges, IsNext);
    NoNextInSkills(l.id, l.skills);
    NoNextInLifecycle(l.id, l.lifecycle, str);
    forall i | 0 <= i < |parts| ensures !IsNext(parts[i]) {
      assert parts[i] in parts;
    }
    FilterNone(parts, IsNext);
    NextInTrajectory(l.id, steps);
    assert [] + Chain(steps) == Chain(steps);
  }

  lemma {:induction false} AddDistinctEdges(es: seq<LoopEdge>)
    requires UniqueEdges(es)
    ensures AddEdges([], es) == es
  {
    if es != [] {
      AddDistinctEdges(es[..|es| - 1]);
    }
  }

  /** With distinct step ids, the NEXT edges form one path in trajectory order. */
  lemma DistinctStepsFormAPath(l: Loop, steps: seq<TrajectoryStep>, str: Value -> string)
    requires DistinctSteps(steps)
    ensures Filter(Projection(l, steps, str).edges, IsNext) == Chain(steps)
  {
    NextEdgesAreTheChain(l, steps, str);
    forall i, j | 0 <= i < j < |Chain(steps)| ensures KeyOf(Chain(steps)[i]) != KeyOf(Chain(steps)[j]) {
      VidIsInjective(TrajectoryStepV, steps[i].id, TrajectoryStepV, steps[j].id);
    }
    AddDistinctEdges(Chain(steps));
  }

  ghost predicate NextEdge(g: LoopGraph, a: string, b: string) {
    HasEdge(g.edges, EdgeKey(Next, a, b))
  }

  predicate StepAt(steps: seq<TrajectoryStep>, i: int, a: string, b: string) {
    0 <= i < |steps| - 1 && StepVid(steps[i]) == a && StepVid(steps[i + 1]) == b
  }

  lemma ChainAt(steps: seq<TrajectoryStep>, i: int)
    requires 0 <= i < |Chain(steps)|
    ensures KeyOf(Chain(steps)[i]) == EdgeKey(Next, StepVid(steps[i]), StepVid(steps[i + 1]))
  {
  }

  lemma JoinedInChain(steps: seq<TrajectoryStep>, i: int, a: string, b: string)
    requires StepAt(steps, i, a, b)
    ensures HasEdge(Chain(steps), EdgeKey(Next, a, b))
  {
    ChainAt(steps, i);
    assert Chain(steps)[i] in Chain(steps);
  }

  lemma ChainJoins(steps: seq<TrajectoryStep>, a: string, b: string)
    ensures HasEdge(Chain(steps), EdgeKey(Next, a, b)) <==> exists i :: StepAt(steps, i, a, b)
  {
    if HasEdge(Chain(steps), EdgeKey(Next, a, b)) {
      var e :| e in Chain(steps) && KeyOf(e) == EdgeKey(Next, a, b);
      var i :| 0 <= i < |Chain(steps)| && Chain(steps)[i] == e;
      ChainAt(steps, i);
      assert StepAt(steps, i, a, b);
    }
    if i :| StepAt(steps, i, a, b) {
      JoinedInChain(steps, i, a, b);
    }
  }

  lemma NextEdgesSurviveFilter(es: seq<LoopEdge>, a: string, b: string)
    ensures HasEdge(es, EdgeKey(Next, a, b)) <==> HasEdge(Filter(es, IsNext), EdgeKey(Next, a, b))
  {
    FilterMembers(es, IsNext);
    if HasEdge(es, EdgeKey(Next, a, b)) {
      var e :| e in es && KeyOf(e) == EdgeKey(Next, a, b);
      assert IsNext(e);
    }
  }

  lemma DeduplicationKeepsKeys(es: seq<LoopEdge>, key: EdgeKey)
    ensures HasEdge(AddEdges([], es), key) <==> HasEdge(es, key)
  {
    AddEdgesFacts([], es);
    if HasEdge(es, key) {
      var e :| e in es && KeyOf(e) == key;
      assert HasEdge(AddEdges([], es), KeyOf(e));
    }
  }

  /** A NEXT edge joins exactly the ids of two consecutive steps. */
  lemma NextEdgeMeans(l: Loop, steps: seq<TrajectoryStep>, str: Value -> string, a: string, b: string)
    ensures NextEdge(Projection(l, steps, str), a, b) <==> exists i :: StepAt(steps, i, a, b)
  {
    NextEdgesAreTheChain(l, steps, str);
    NextEdgesSurviveFilter(Projection(l, steps, str).edges, a, b);
    DeduplicationKeepsKeys(Chain(steps), EdgeKey(Next, a, b));
    ChainJoins(steps, a, b);
  }

  /** A walk along NEXT edges, at least one edge long. */
  ghost predicate Walk(g: LoopGraph, p: seq<string>) {
    |p| >= 2 && forall i :: 0 <= i < |p| - 1 ==> NextEdge(g, p[i], p[i + 1])
  }

  ghost predicate Acyclic(g: LoopGraph) {
    forall p :: Walk(g, p) ==> p[0] != p[|p| - 1]
  }

  lemma SamePosition(steps: seq<TrajectoryStep>, i: nat, j: nat)
    requires DistinctSteps(steps) && i < |steps| && j < |steps| && StepVid(steps[i]) == StepVid(steps[j])
    ensures i == j
  {
    VidIsInjective(TrajectoryStepV, steps[i].id, TrajectoryStepV, steps[j].id);
  }

  ghost predicate Consecutive(steps: seq<TrajectoryStep>, a: string, b: string) {
    exists i :: StepAt(steps, i, a, b)
  }

  ghost predicate StepWalk(steps: seq<TrajectoryStep>, p: seq<string>) {
    |p| >= 2 && forall i :: 0 <= i < |p| - 1 ==> Consecutive(steps, p[i], p[i + 1])
  }

  lemma JoinedIffConsecutive(l: Loop, steps: seq<TrajectoryStep>, str: Value -> string, a: string, b: string)
    ensures NextEdge(Projection(l, steps, str), a, b) <==> Consecutive(steps, a, b)
  {
    NextEdgeMeans(l, steps, str, a, b);
  }

  lemma WalksAreStepWalks(l: Loop, steps: seq<TrajectoryStep>, str: Value -> string, p: seq<string>)
    ensures Walk(Projection(l, steps, str), p) <==> StepWalk(steps, p)
  {
    var g := Projection(l, steps, str);
    forall i | 0 <= i < |p| - 1 ensures NextEdge(g, p[i], p[i + 1]) <==> Consecutive(steps, p[i], p[i + 1]) {
      JoinedIffConsecutive(l, steps, str, p[i], p[i + 1]);
    }
  }

  lemma {:induction false} WalkFollowsSteps(steps: seq<TrajectoryStep>, p: seq<string>, k: nat) returns (i: nat)
    requires DistinctSteps(steps) && StepWalk(steps, p) && 1 <= k < |p|
    ensures i + k < |steps| && p[0] == StepVid(steps[i]) && p[k] == StepVid(steps[i + k])
  {
    assert Consecutive(steps, p[k - 1], p[k - 1 + 1]);
    var m :| StepAt(steps, m, p[k - 1], p[k]);
    if k == 1 {
      i := m;
    } else {
      i := WalkFollowsSteps(steps, p, k - 1);
      SamePosition(steps, i + k - 1, m);
    }
  }

  lemma DistinctStepsAreAcyclic(steps: seq<TrajectoryStep>, p: seq<string>)
    requires DistinctSteps(steps) && StepWalk(steps, p)
    ensures p[0] != p[|p| - 1]
  {
    var i := WalkFollowsSteps(steps, p, |p| - 1);
    VidIsInjective(TrajectoryStepV, steps[i].id, TrajectoryStepV, steps[i + |p| - 1].id);
  }

  /** The ids of the steps from position i through position j. */
  function Stretch(steps: seq<TrajectoryStep>, i: nat, j: nat): (p: seq<string>)
    requires i <= j < |steps|
    ensures |p| == j - i + 1
  {
    seq(j - i + 1, k requires 0 <= k <= j - i => StepVid(steps[i + k]))
  }

  lemma StretchSteps(steps: seq<TrajectoryStep>, i: nat, j: nat, k: nat)
    requires i <= j < |steps| && k < j - i
    ensures StepAt(steps, i + k, Stretch(steps, i, j)[k], Stretch(steps, i, j)[k + 1])
  {
  }

  lemma RepeatedStepClosesAWalk(steps: seq<TrajectoryStep>, i: nat, j: nat) returns (p: seq<string>)
    requires i < j < |steps| && steps[i].id == steps[j].id
    ensures StepWalk(steps, p) && p[0] == p[|p| - 1]
  {
    p := Stretch(steps, i, j);
    forall k | 0 <= k < |p| - 1 ensures Consecutive(steps, p[k], p[k + 1]) {
      StretchSteps(steps, i, j, k);
    }
    StretchEnds(steps, i, j);
  }

  lemma StretchEnds(steps: seq<TrajectoryStep>, i: nat, j: nat)
    requires i <= j < |steps|
    ensures var p := Stretch(steps, i, j); p[0] == StepVid(steps[i]) && p[|p| - 1] == StepVid(steps[j])
  {
  }

  /** The trajectory is acyclic exactly when no step id is repeated. */
  lemma AcyclicIffDistinctSteps(l: Loop, steps: seq<TrajectoryStep>, str: Value -> string)
    ensures Acyclic(Projection(l, steps, str)) <==> DistinctSteps(steps)
  {
    if DistinctSteps(steps) {
      forall p | Walk(Projection(l, steps, str), p) ensures p[0] != p[|p| - 1] {
        WalksAreStepWalks(l, steps, str, p);
        DistinctStepsAreAcyclic(steps, p);
      }
    } else {
      var i, j :| 0 <= i < j < |steps| && steps[i].id == steps[j].id;
      var p := RepeatedStepClosesAWalk(steps, i, j);
      WalksAreStepWalks(l, steps, str, p);
    }
  }
}
