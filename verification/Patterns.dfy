/** Graph-shape patterns: conjunctions of EXISTS / NOT_EXISTS clauses over a snapshot of the graph. */
module Patterns {
  import opened Prelude
  import opened Json

  datatype Condition = Exists | NotExists

  /** An edge requirement after its defaults: kind "", target type "" and direction "outgoing". */
  datatype EdgeSpec = EdgeSpec(kind: string, targetType: string, direction: string)

  datatype PatternClause = PatternClause(
    vertexType: string, condition: Condition, filter: Payload, edgeTo: Option<EdgeSpec>)

  datatype Pattern = Pattern(name: string, clauses: seq<PatternClause>, description: string)

  /** An edge of the snapshot; a missing key is None. */
  datatype ViewEdge = ViewEdge(kind: Option<string>, source: Option<string>, target: Option<string>)

  /** `order` lists the vertex ids as the dictionary iterates them. */
  datatype GraphView = GraphView(order: seq<string>, vertices: map<string, Payload>, edges: seq<ViewEdge>) {
    ghost predicate Valid() {
      Distinct(order) && (forall v :: v in order <==> v in vertices)
    }

    /** `vertices.get(id, {}).get("type")` */
    function TypeOf(id: string): Value {
      if id in vertices then Get(vertices[id], "type") else Null
    }
  }

  function OrEmpty(s: Option<string>): string {
    if s.Some? then s.value else ""
  }

  predicate FilterMatches(data: Payload, filter: Payload) {
    forall k :: k in filter ==> Get(data, k) == filter[k]
  }

  /** This edge satisfies the requirement for the vertex. */
  predicate EdgeFits(v: string, spec: EdgeSpec, e: ViewEdge, g: GraphView) {
    e.kind == Some(spec.kind)
    && ((spec.direction == "outgoing" && e.source == Some(v) && g.TypeOf(OrEmpty(e.target)) == Str(spec.targetType))
        || (spec.direction == "incoming" && e.target == Some(v)
            && g.TypeOf(OrEmpty(e.source)) == Str(spec.targetType)))
  }

  predicate HasEdge(v: string, spec: EdgeSpec, g: GraphView) {
    exists e :: e in g.edges && EdgeFits(v, spec, e, g)
  }

  /** The vertex satisfies the clause's type, filter and edge requirement. */
  predicate Fits(v: string, clause: PatternClause, g: GraphView) {
    v in g.vertices
    && Get(g.vertices[v], "type") == Str(clause.vertexType)
    && FilterMatches(g.vertices[v], clause.filter)
    && (clause.edgeTo.Some? ==> HasEdge(v, clause.edgeTo.value, g))
  }

  predicate ClauseHolds(clause: PatternClause, g: GraphView) {
    clause.condition.Exists? <==> exists v :: v in g.vertices && Fits(v, clause, g)
  }

  predicate Holds(p: Pattern, g: GraphView) {
    forall c :: c in p.clauses ==> ClauseHolds(c, g)
  }

  class PatternMatcher {
    constructor () {}

    method Matches(pattern: Pattern, graph: GraphView) returns (b: bool)
      requires graph.Valid()
      ensures b == Holds(pattern, graph)
      ensures b <==> forall i :: 0 <= i < |pattern.clauses| ==> ClauseReads(pattern.clauses[i], graph)
    {
      HoldsMeans(pattern, graph);
      for i := 0 to |pattern.clauses|
        invariant forall j :: 0 <= j < i ==> ClauseHolds(pattern.clauses[j], graph)
      {
        var ok := ClauseMatches(pattern.clauses[i], graph);
        if !ok {
          assert pattern.clauses[i] in pattern.clauses;
          return false;
        }
      }
      b := true;
    }

    method FindMatchingVertices(clause: PatternClause, graph: GraphView) returns (results: seq<string>)
      requires graph.Valid()
      ensures results == Filter(graph.order, v => Fits(v, clause, graph))
    {
      results := [];
      ghost var p := v => Fits(v, clause, graph);
      for i := 0 to |graph.order|
        invariant results == Filter(graph.order[..i], p)
      {
        var vid := graph.order[i];
        assert vid in graph.order;
        FilterSnoc(graph.order[..i], vid, p);
        assert graph.order[..i + 1] == graph.order[..i] + [vid];
        var data := graph.vertices[vid];
        if Get(data, "type") != Str(clause.vertexType) {
          continue;
        }
        if !FilterMatches(data, clause.filter) {
          continue;
        }
        if clause.edgeTo.Some? {
          var found := FindEdge(vid, clause.edgeTo.value, graph);
          if !found {
            continue;
          }
        }
        results := results + [vid];
      }
      assert graph.order[..|graph.order|] == graph.order;
    }

    method ClauseMatches(clause: PatternClause, graph: GraphView) returns (b: bool)
      requires graph.Valid()
      ensures b == ClauseHolds(clause, graph)
    {
      var matching := FindMatchingVertices(clause, graph);
      ghost var p := v => Fits(v, clause, graph);
      FilterMembers(graph.order, p);
      if matching != [] {
        assert matching[0] in matching;
      }
      forall v | v in graph.vertices && Fits(v, clause, graph) ensures v in matching {
        assert v in graph.order;
      }
      b := match clause.condition
        case Exists => |matching| > 0
        case NotExists => |matching| == 0;
    }

    method FindEdge(v: string, spec: EdgeSpec, graph: GraphView) returns (b: bool)
      ensures b == HasEdge(v, spec, graph)
    {
      for i := 0 to |graph.edges|
        invariant forall j :: 0 <= j < i ==> !EdgeFits(v, spec, graph.edges[j], graph)
      {
        var e := graph.edges[i];
        assert e in graph.edges;
        if e.kind != Some(spec.kind) {
          continue;
        }
        if spec.direction == "outgoing" && e.source == Some(v) {
          if graph.TypeOf(OrEmpty(e.target)) == Str(spec.targetType) {
            assert EdgeFits(v, spec, e, graph);
            return true;
          }
        } else if spec.direction == "incoming" && e.target == Some(v) {
          if graph.TypeOf(OrEmpty(e.source)) == Str(spec.targetType) {
            assert EdgeFits(v, spec, e, graph);
            return true;
          }
        }
      }
      b := false;
    }
  }

  // ---- What a pattern says ----

  /** A missing value reads as the empty string. */
  predicate Reads(o: Option<string>, s: string) {
    o == Some(s) || (o == None && s == "")
  }

  predicate IsOfType(g: GraphView, v: string, vertexType: string) {
    v in g.vertices && "type" in g.vertices[v] && g.vertices[v]["type"] == Str(vertexType)
  }

  /** The filter's keys carry its values; an absent key passes for null. */
  predicate Carries(data: Payload, filter: Payload) {
    forall k :: k in filter ==> if k in data then data[k] == filter[k] else filter[k] == Null
  }

  /** The edge leads from the vertex to the other end, or the other way round. */
  predicate Leads(e: ViewEdge, direction: string, v: string, other: string) {
    (direction == "outgoing" && e.source == Some(v) && Reads(e.target, other))
    || (direction == "incoming" && e.target == Some(v) && Reads(e.source, other))
  }

  /** Edge i leads to a vertex of the required type. */
  ghost predicate Reaches(v: string, spec: EdgeSpec, g: GraphView, i: int, other: string) {
    0 <= i < |g.edges| && g.edges[i].kind == Some(spec.kind) && Leads(g.edges[i], spec.direction, v, other)
    && IsOfType(g, other, spec.targetType)
  }

  ghost predicate Answers(v: string, c: PatternClause, g: GraphView) {
    IsOfType(g, v, c.vertexType) && Carries(g.vertices[v], c.filter)
    && (c.edgeTo.Some? ==> exists i, other :: Reaches(v, c.edgeTo.value, g, i, other))
  }

  /** Some vertex answers the clause, or none does. */
  ghost predicate ClauseReads(c: PatternClause, g: GraphView) {
    match c.condition
    case Exists => exists v :: Answers(v, c, g)
    case NotExists => forall v :: !Answers(v, c, g)
  }

  lemma EdgeMeans(v: string, spec: EdgeSpec, g: GraphView)
    ensures HasEdge(v, spec, g) <==> exists i, other :: Reaches(v, spec, g, i, other)
  {
    if HasEdge(v, spec, g) {
      var e :| e in g.edges && EdgeFits(v, spec, e, g);
      var i :| 0 <= i < |g.edges| && g.edges[i] == e;
      assert Reaches(v, spec, g, i, OrEmpty(if spec.direction == "outgoing" then e.target else e.source));
    }
    if i, other :| Reaches(v, spec, g, i, other) {
      assert g.edges[i] in g.edges && EdgeFits(v, spec, g.edges[i], g);
    }
  }

  lemma FitsMeans(v: string, c: PatternClause, g: GraphView)
    ensures Fits(v, c, g) <==> Answers(v, c, g)
  {
    if c.edgeTo.Some? {
      EdgeMeans(v, c.edgeTo.value, g);
    }
  }

  lemma ClauseMeans(c: PatternClause, g: GraphView)
    ensures ClauseHolds(c, g) <==> ClauseReads(c, g)
  {
    forall v ensures Fits(v, c, g) <==> Answers(v, c, g) {
      FitsMeans(v, c, g);
    }
  }

  /** A pattern holds exactly when each of its clauses is answered by a vertex, or by none, as its condition says. */
  lemma HoldsMeans(p: Pattern, g: GraphView)
    ensures Holds(p, g) <==> forall i :: 0 <= i < |p.clauses| ==> ClauseReads(p.clauses[i], g)
  {
    forall c ensures ClauseHolds(c, g) <==> ClauseReads(c, g) {
      ClauseMeans(c, g);
    }
    if Holds(p, g) {
      assert forall i :: 0 <= i < |p.clauses| ==> p.clauses[i] in p.clauses;
    }
  }

  // ---- Monotonicity ----

  /** Vertices and edges were only gained. */
  ghost predicate Grows(g: GraphView, h: GraphView) {
    (forall v :: v in g.vertices ==> v in h.vertices && h.vertices[v] == g.vertices[v])
    && forall e :: e in g.edges ==> e in h.edges
  }

  ghost predicate OnlyExists(p: Pattern) {
    forall c :: c in p.clauses ==> c.condition.Exists?
  }

  lemma FitsGrows(v: string, c: PatternClause, g: GraphView, h: GraphView)
    requires Grows(g, h) && Fits(v, c, g)
    ensures Fits(v, c, h)
  {
    if c.edgeTo.Some? {
      var e :| e in g.edges && EdgeFits(v, c.edgeTo.value, e, g);
      assert EdgeFits(v, c.edgeTo.value, e, h);
    }
  }

  lemma ClauseGrows(c: PatternClause, g: GraphView, h: GraphView)
    requires Grows(g, h) && c.condition.Exists? && ClauseHolds(c, g)
    ensures ClauseHolds(c, h)
  {
    var v :| v in g.vertices && Fits(v, c, g);
    FitsGrows(v, c, g, h);
  }

  /** A pattern of EXISTS clauses that holds keeps holding while the graph only grows. */
  lemma ExistsIsMonotone(p: Pattern, g: GraphView, h: GraphView)
    requires OnlyExists(p) && Grows(g, h) && Holds(p, g)
    ensures Holds(p, h)
  {
    forall c | c in p.clauses ensures ClauseHolds(c, h) {
      ClauseGrows(c, g, h);
    }
  }
}
