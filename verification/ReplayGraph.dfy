/** The graph a replay rebuilds, read off the events: which vertex or edge each event contributes, and what a whole run
    leaves. */
module ReplayGraph {
  import opened Prelude
  import opened Json
  import opened EventStore
  import opened ReplayEngine

  lemma RebuildSnoc(es: seq<GraphEvent>, e: GraphEvent, g: GraphState)
    ensures Rebuild(es + [e], g)
         == match Rebuild(es, g) case Success(h) => ApplyEvent(e, h) case Failure(error) => Failure(error)
  {
    RebuildComposes(es, [e], g);
    assert [e][1..] == [];
    match Rebuild(es, g) {
      case Success(h) =>
        assert Rebuild([e], h) == match ApplyEvent(e, h) case Success(next) => Rebuild([], next)
                                                        case Failure(error) => Failure(error);
      case Failure(_) =>
    }
  }

  /** A replay that failed stays failed. */
  lemma FailureStays(es: seq<GraphEvent>, e: GraphEvent, g: GraphState)
    requires Rebuild(es, g).Failure?
    ensures Rebuild(es + [e], g) == Rebuild(es, g)
  {
    RebuildSnoc(es, e, g);
  }

  // ---- One more event ----

  predicate IsRelationEvent(e: GraphEvent) {
    e.eventType == "relation.created" || e.eventType == "edge.added"
  }

  predicate IsVertexEvent(e: GraphEvent) {
    e.eventType == "object.created" || e.eventType == "vertex.upserted" || e.eventType == "claim.created"
  }

  /** The patch carried by the event, if it is an applied patch of this operation. */
  predicate IsPatch(e: GraphEvent, op: string) {
    e.eventType == "patch.applied" && "patch" in e.payload && e.payload["patch"].Obj?
    && "op_type" in e.payload["patch"].fields && e.payload["patch"].fields["op_type"] == Str(op)
  }

  /** What the patch operation works on; nothing given is the empty dictionary. */
  function PatchData(e: GraphEvent): Value
    requires "patch" in e.payload && e.payload["patch"].Obj?
  {
    var patch := e.payload["patch"].fields;
    if "payload" in patch then patch["payload"] else Obj(map[])
  }

  /** The value under the key, or the default when the key is absent. */
  function Field(p: Payload, k: string, default: Value): Value {
    if k in p then p[k] else default
  }

  /** The edge from the payload's source to its target. */
  predicate IsRelationEdge(p: Payload, r: EdgeRecord) {
    r.kind == (if "kind" in p then p["kind"] else Field(p, "edge_kind", Str("")))
    && r.source == Field(p, "source", Str(""))
    && r.target == Field(p, "target", Str(""))
  }

  predicate IsPatchEdge(p: Payload, r: EdgeRecord) {
    r.kind == Field(p, "kind", Str("")) && r.source == Field(p, "source", Str(""))
    && r.target == Field(p, "target", Str(""))
  }

  lemma RelationStep(e: GraphEvent, h: GraphState)
    requires IsRelationEvent(e)
    ensures var r := ApplyEvent(e, h);
            r.Success? && r.value.vertices == h.vertices
            && |r.value.edges| == |h.edges| + 1 && h.edges <= r.value.edges
            && IsRelationEdge(e.payload, r.value.edges[|h.edges|])
  {
  }

  /** A relation event adds exactly the edge its payload names and touches no vertex. */
  lemma RelationEventAddsItsEdge(es: seq<GraphEvent>, e: GraphEvent, g: GraphState)
    requires Rebuild(es, g).Success? && IsRelationEvent(e)
    ensures var (h, r) := (Rebuild(es, g).value, Rebuild(es + [e], g));
            r.Success? && r.value.vertices == h.vertices
            && |r.value.edges| == |h.edges| + 1 && h.edges <= r.value.edges
            && IsRelationEdge(e.payload, r.value.edges[|h.edges|])
  {
    RebuildSnoc(es, e, g);
    RelationStep(e, Rebuild(es, g).value);
  }

  /** The first of the payload's ids that is given and not empty. */
  predicate IsVertexId(p: Payload, id: Value) {
    if "vertex_id" in p && Truthy(p["vertex_id"]) then id == p["vertex_id"]
    else if "claim_id" in p && Truthy(p["claim_id"]) then id == p["claim_id"]
    else id == Field(p, "id", Str(""))
  }

  /** The payload without its ids, under the first type given and not empty. */
  ghost predicate IsVertexData(p: Payload, data: Payload) {
    "type" in data
    && data["type"] == (if "vertex_type" in p && Truthy(p["vertex_type"]) then p["vertex_type"]
                        else Field(p, "type", Str("object")))
    && forall k :: k != "type" ==>
         (k in data <==> k in p && k != "vertex_id" && k != "claim_id" && k != "id" && k != "vertex_type")
         && (k in data ==> data[k] == p[k])
  }

  /** From h to r exactly this vertex was set. */
  ghost predicate SetsVertex(h: GraphState, r: GraphState, id: Value) {
    id in r.vertices && r.edges == h.edges
    && (forall v :: v != id ==>
          (v in r.vertices <==> v in h.vertices) && (v in h.vertices ==> r.vertices[v] == h.vertices[v]))
  }

  lemma VertexIdIsFirst(p: Payload, id: Value)
    requires IsVertexId(p, id)
    ensures Or(Get(p, "vertex_id"), Or(Get(p, "claim_id"), GetOr(p, "id", Str("")))) == id
  {
  }

  lemma VertexDataIs(p: Payload, rest: Payload)
    requires rest == map k | k in p && k !in ["vertex_id", "claim_id", "id", "vertex_type", "type"] :: p[k]
    ensures IsVertexData(p, rest["type" := Or(Get(p, "vertex_type"), GetOr(p, "type", Str("object")))])
  {
  }

  lemma VertexStep(e: GraphEvent, h: GraphState, id: Value)
    requires IsVertexEvent(e) && IsVertexId(e.payload, id)
    ensures var r := ApplyEvent(e, h);
            if !Truthy(id) then r == Success(h)
            else if !Hashable(id) then r == Failure(UnhashableVertexId)
            else r.Success? && SetsVertex(h, r.value, id) && IsVertexData(e.payload, r.value.vertices[id])
  {
    VertexIdIsFirst(e.payload, id);
    VertexDataIs(
      e.payload,
      map k | k in e.payload && k !in ["vertex_id", "claim_id", "id", "vertex_type", "type"] :: e.payload[k]);
  }

  /** A vertex event sets exactly the vertex it names to its payload; without an id it changes nothing, and a list or
      dictionary as id ends the replay. */
  lemma VertexEventSetsItsVertex(es: seq<GraphEvent>, e: GraphEvent, g: GraphState, id: Value)
    requires Rebuild(es, g).Success? && IsVertexEvent(e) && IsVertexId(e.payload, id)
    ensures var (h, r) := (Rebuild(es, g).value, Rebuild(es + [e], g));
            if !Truthy(id) then r == Success(h)
            else if !Hashable(id) then r == Failure(UnhashableVertexId)
            else r.Success? && SetsVertex(h, r.value, id) && IsVertexData(e.payload, r.value.vertices[id])
  {
    RebuildSnoc(es, e, g);
    VertexStep(e, Rebuild(es, g).value, id);
  }

  lemma PatchStep(e: GraphEvent, h: GraphState, op: string)
    requires IsPatch(e, op)
    ensures ApplyEvent(e, h) == ApplyPatch(e.payload["patch"].fields, h)
  {
  }

  lemma NodeStep(e: GraphEvent, h: GraphState)
    requires IsPatch(e, "add_node")
    ensures var r := ApplyPatch(e.payload["patch"].fields, h);
            match PatchData(e)
            case Obj(p) =>
              var id := Field(p, "node_id", Str(""));
              if !Truthy(id) then r == Success(h)
              else if !Hashable(id) then r == Failure(UnhashableVertexId)
              else r.Success? && SetsVertex(h, r.value, id) && IsNodeData(p, r.value.vertices[id])
            case _ => r == Failure(PatchPayloadNotADict)
  {
  }

  /** An add_node patch sets exactly the node it names, with its kind and text. */
  lemma NodePatchSetsItsVertex(es: seq<GraphEvent>, e: GraphEvent, g: GraphState)
    requires Rebuild(es, g).Success? && IsPatch(e, "add_node")
    ensures var (h, r) := (Rebuild(es, g).value, Rebuild(es + [e], g));
            match PatchData(e)
            case Obj(p) =>
              var id := Field(p, "node_id", Str(""));
              if !Truthy(id) then r == Success(h)
              else if !Hashable(id) then r == Failure(UnhashableVertexId)
              else r.Success? && SetsVertex(h, r.value, id) && IsNodeData(p, r.value.vertices[id])
            case _ => r == Failure(PatchPayloadNotADict)
  {
    RebuildSnoc(es, e, g);
    PatchStep(e, Rebuild(es, g).value, "add_node");
    NodeStep(e, Rebuild(es, g).value);
  }

  predicate IsNodeData(p: Payload, data: Payload) {
    data == map["type" := Field(p, "kind", Str("node")), "text" := Field(p, "text", Str(""))]
  }

  lemma EdgeStep(e: GraphEvent, h: GraphState)
    requires IsPatch(e, "add_edge")
    ensures var r := ApplyPatch(e.payload["patch"].fields, h);
            match PatchData(e)
            case Obj(p) =>
              r.Success? && r.value.vertices == h.vertices
              && |r.value.edges| == |h.edges| + 1 && h.edges <= r.value.edges
              && IsPatchEdge(p, r.value.edges[|h.edges|])
            case _ => r == Failure(PatchPayloadNotADict)
  {
  }

  /** An add_edge patch adds exactly the edge it names. */
  lemma EdgePatchAddsItsEdge(es: seq<GraphEvent>, e: GraphEvent, g: GraphState)
    requires Rebuild(es, g).Success? && IsPatch(e, "add_edge")
    ensures var (h, r) := (Rebuild(es, g).value, Rebuild(es + [e], g));
            match PatchData(e)
            case Obj(p) =>
              r.Success? && r.value.vertices == h.vertices
              && |r.value.edges| == |h.edges| + 1 && h.edges <= r.value.edges
              && IsPatchEdge(p, r.value.edges[|h.edges|])
            case _ => r == Failure(PatchPayloadNotADict)
  {
    RebuildSnoc(es, e, g);
    PatchStep(e, Rebuild(es, g).value, "add_edge");
    EdgeStep(e, Rebuild(es, g).value);
  }

  /** Every other event changes nothing. */
  lemma OtherEventsChangeNothing(es: seq<GraphEvent>, e: GraphEvent, g: GraphState)
    requires !IsRelationEvent(e) && !IsVertexEvent(e) && !IsPatch(e, "add_node") && !IsPatch(e, "add_edge")
    ensures Rebuild(es + [e], g) == Rebuild(es, g)
  {
    RebuildSnoc(es, e, g);
  }

  // ---- Whole runs ----

  predicate AddsEdge(e: GraphEvent) {
    IsRelationEvent(e) || IsPatch(e, "add_edge")
  }

  predicate IsEdgeOf(e: GraphEvent, r: EdgeRecord) {
    if IsRelationEvent(e) then IsRelationEdge(e.payload, r)
    else IsPatch(e, "add_edge") && PatchData(e).Obj? && IsPatchEdge(PatchData(e).fields, r)
  }

  /** The edges of a run are those of its edge events, in order. */
  lemma {:induction false} EdgesAreTheEdgeEvents(es: seq<GraphEvent>)
    requires Rebuild(es, EMPTY_GRAPH).Success?
    ensures var (edges, events) := (Rebuild(es, EMPTY_GRAPH).value.edges, Filter(es, AddsEdge));
            |edges| == |events| && forall i :: 0 <= i < |edges| ==> IsEdgeOf(events[i], edges[i])
  {
    if es != [] {
      var es0, e := es[..|es| - 1], es[|es| - 1];
      assert es == es0 + [e];
      if Rebuild(es0, EMPTY_GRAPH).Failure? {
        FailureStays(es0, e, EMPTY_GRAPH);
      }
      EdgesAreTheEdgeEvents(es0);
      FilterSnoc(es0, e, AddsEdge);
      EdgesGrow(es0, e);
    }
  }

  lemma EdgesGrow(es: seq<GraphEvent>, e: GraphEvent)
    requires Rebuild(es, EMPTY_GRAPH).Success? && Rebuild(es + [e], EMPTY_GRAPH).Success?
    ensures var (before, after) := (Rebuild(es, EMPTY_GRAPH).value.edges, Rebuild(es + [e], EMPTY_GRAPH).value.edges);
            if AddsEdge(e) then |after| == |before| + 1 && before <= after && IsEdgeOf(e, after[|before|])
            else after == before
  {
    var g := EMPTY_GRAPH;
    if IsRelationEvent(e) {
      RelationEventAddsItsEdge(es, e, g);
    } else if IsPatch(e, "add_edge") {
      EdgePatchAddsItsEdge(es, e, g);
    } else if IsPatch(e, "add_node") {
      NodePatchSetsItsVertex(es, e, g);
    } else if IsVertexEvent(e) {
      VertexEventSetsItsVertex(es, e, g, IdOf(e.payload));
    } else {
      OtherEventsChangeNothing(es, e, g);
    }
  }

  function IdOf(p: Payload): (id: Value)
    ensures IsVertexId(p, id)
  {
    if "vertex_id" in p && Truthy(p["vertex_id"]) then p["vertex_id"]
    else if "claim_id" in p && Truthy(p["claim_id"]) then p["claim_id"]
    else Field(p, "id", Str(""))
  }

  /** The event gives this vertex its data. */
  predicate Gives(e: GraphEvent, id: Value) {
    Truthy(id)
    && if IsVertexEvent(e) then IsVertexId(e.payload, id)
       else IsPatch(e, "add_node") && PatchData(e).Obj? && id == Field(PatchData(e).fields, "node_id", Str(""))
  }

  ghost predicate IsDataOf(e: GraphEvent, data: Payload) {
    if IsVertexEvent(e) then IsVertexData(e.payload, data)
    else IsPatch(e, "add_node") && PatchData(e).Obj? && IsNodeData(PatchData(e).fields, data)
  }

  /** Position i holds the last event that gives the vertex its data. */
  predicate LastGiving(es: seq<GraphEvent>, i: int, id: Value) {
    0 <= i < |es| && Gives(es[i], id) && forall j :: i < j < |es| ==> !Gives(es[j], id)
  }

  lemma VerticesGrow(es: seq<GraphEvent>, e: GraphEvent, id: Value)
    requires Rebuild(es, EMPTY_GRAPH).Success? && Rebuild(es + [e], EMPTY_GRAPH).Success?
    ensures var before := Rebuild(es, EMPTY_GRAPH).value.vertices;
            var after := Rebuild(es + [e], EMPTY_GRAPH).value.vertices;
            if Gives(e, id) then id in after && IsDataOf(e, after[id])
            else (id in after <==> id in before) && (id in before ==> after[id] == before[id])
  {
    var g := EMPTY_GRAPH;
    if IsVertexEvent(e) {
      VertexEventSetsItsVertex(es, e, g, IdOf(e.payload));
    } else if IsPatch(e, "add_node") {
      NodePatchSetsItsVertex(es, e, g);
    } else if IsRelationEvent(e) {
      RelationEventAddsItsEdge(es, e, g);
    } else if IsPatch(e, "add_edge") {
      EdgePatchAddsItsEdge(es, e, g);
    } else {
      OtherEventsChangeNothing(es, e, g);
    }
  }

  lemma LastGivingSnoc(es: seq<GraphEvent>, e: GraphEvent, i: int, id: Value)
    requires LastGiving(es + [e], i, id) && !Gives(e, id)
    ensures LastGiving(es, i, id)
  {
    assert (es + [e])[|es|] == e;
    assert forall j :: 0 <= j < |es| ==> (es + [e])[j] == es[j];
  }

  /** A run's vertices are those some event gives data, and each holds the data of the last event that does. */
  lemma {:induction false} VerticesHoldTheirLastData(es: seq<GraphEvent>, id: Value)
    requires Rebuild(es, EMPTY_GRAPH).Success?
    ensures var vertices := Rebuild(es, EMPTY_GRAPH).value.vertices;
            (id in vertices <==> exists i :: 0 <= i < |es| && Gives(es[i], id))
            && forall i :: LastGiving(es, i, id) ==> id in vertices && IsDataOf(es[i], vertices[id])
  {
    if es != [] {
      var es0, e := es[..|es| - 1], es[|es| - 1];
      assert es == es0 + [e];
      if Rebuild(es0, EMPTY_GRAPH).Failure? {
        FailureStays(es0, e, EMPTY_GRAPH);
      }
      VerticesHoldTheirLastData(es0, id);
      VerticesGrow(es0, e, id);
      var vertices := Rebuild(es, EMPTY_GRAPH).value.vertices;
      if Gives(e, id) {
        assert Gives(es[|es| - 1], id);
      } else {
        if i :| 0 <= i < |es0| && Gives(es0[i], id) {
          assert Gives(es[i], id);
        }
      }
      forall i | LastGiving(es, i, id) ensures id in vertices && IsDataOf(es[i], vertices[id]) {
        if !Gives(e, id) {
          LastGivingSnoc(es0, e, i, id);
        }
      }
    }
  }
}
