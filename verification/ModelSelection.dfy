/** Choosing a model for a pipeline stage: capable, then preferred, then cheapest. */
module ModelSelection {
  import opened Prelude
  import opened StableSort

  datatype Capability = Vision | Thinking | Tools | StructuredOutput | Streaming | Fast

  datatype StageType = Parse | VisionExtraction | Synthesize | Repair | Default

  /** Costs are in a fixed unit small enough to be whole numbers. */
  datatype ModelGenome = ModelGenome(
    id: string, capabilities: set<Capability>, contextWindow: nat,
    costInput: nat, costOutput: nat, providerId: string)

  function Cost(g: ModelGenome): int { g.costInput + g.costOutput }

  function HasAll(required: set<Capability>): ModelGenome -> bool {
    (g: ModelGenome) => required <= g.capabilities
  }

  function Has(cap: Capability): ModelGenome -> bool {
    (g: ModelGenome) => cap in g.capabilities
  }

  function StagePreference(stage: StageType): Option<Capability> {
    match stage
    case Parse => Some(Fast)
    case VisionExtraction => Some(Vision)
    case Synthesize => Some(Thinking)
    case Repair => Some(Tools)
    case Default => None
  }

  /** The candidates with the stage's preferred capability, or all of them when none has it. */
  function Preferred(stage: StageType, candidates: seq<ModelGenome>): seq<ModelGenome> {
    match StagePreference(stage)
    case None => candidates
    case Some(cap) =>
      var preferred := Filter(candidates, Has(cap));
      if preferred != [] then preferred else candidates
  }

  /** The simple selector over a registry. */
  function SelectModel(stage: StageType, required: set<Capability>, registry: seq<ModelGenome>): Option<ModelGenome> {
    var candidates := Filter(registry, HasAll(required));
    if candidates == [] then None
    else
      var preferred := Preferred(stage, candidates);
      Some(Min(preferred, Cost))
  }

  lemma {:induction false} FilterCommutes<T>(s: seq<T>, p: T -> bool, q: T -> bool)
    ensures Filter(Filter(s, p), q) == Filter(Filter(s, q), p)
  {
    if s != [] {
      var s0, x := s[..|s| - 1], s[|s| - 1];
      FilterCommutes(s0, p, q);
      if p(x) { FilterSnoc(Filter(s0, p), x, q); }
      if q(x) { FilterSnoc(Filter(s0, q), x, p); }
      assert Filter(s0, p) + [] == Filter(s0, p) && Filter(s0, q) + [] == Filter(s0, q);
      assert Filter(Filter(s0, p), q) + [] == Filter(Filter(s0, p), q);
    }
  }

  /** m beats g for the stage: it has the preferred capability if g has, and is no dearer when they tie on that. */
  predicate AtLeastAsGood(stage: StageType, m: ModelGenome, g: ModelGenome) {
    match StagePreference(stage)
    case None => Cost(m) <= Cost(g)
    case Some(cap) =>
      (cap in g.capabilities ==> cap in m.capabilities)
      && ((cap in g.capabilities <==> cap in m.capabilities) ==> Cost(m) <= Cost(g))
  }

  /** None is returned exactly when no model is capable; otherwise a capable model that is at least as good as all. */
  lemma SelectModelIsBest(stage: StageType, required: set<Capability>, registry: seq<ModelGenome>)
    ensures match SelectModel(stage, required, registry)
            case None => forall g :: g in registry ==> !(required <= g.capabilities)
            case Some(m) =>
              m in registry && required <= m.capabilities
              && forall g :: g in registry && required <= g.capabilities ==> AtLeastAsGood(stage, m, g)
  {
    var candidates := Filter(registry, HasAll(required));
    FilterMembers(registry, HasAll(required));
    forall g | g in registry && required <= g.capabilities ensures g in candidates {
      assert HasAll(required)(g);
    }
    if candidates != [] {
      assert candidates[0] in candidates;
      CheapestPreferredIsBest(stage, candidates);
    }
  }

  /** Having the preferred capability, among candidates that are preferred if any is. */
  lemma PreferredMembers(stage: StageType, candidates: seq<ModelGenome>, m: ModelGenome, g: ModelGenome)
    requires m in Preferred(stage, candidates) && g in candidates
    ensures m in candidates
    ensures g !in Preferred(stage, candidates) ==>
              StagePreference(stage).Some?
              && StagePreference(stage).value in m.capabilities && StagePreference(stage).value !in g.capabilities
    ensures g in Preferred(stage, candidates) && StagePreference(stage).Some? ==>
              (StagePreference(stage).value in g.capabilities ==> StagePreference(stage).value in m.capabilities)
  {
    if StagePreference(stage).Some? {
      var cap := StagePreference(stage).value;
      FilterMembers(candidates, Has(cap));
      assert Has(cap)(m) == (cap in m.capabilities) && Has(cap)(g) == (cap in g.capabilities);
      assert Has(cap)(g) ==> g in Filter(candidates, Has(cap));
    }
  }

  lemma CheapestPreferredIsBest(stage: StageType, candidates: seq<ModelGenome>)
    requires candidates != []
    ensures var m := Min(Preferred(stage, candidates), Cost);
            m in candidates && forall g :: g in candidates ==> AtLeastAsGood(stage, m, g)
  {
    var preferred := Preferred(stage, candidates);
    var i := MinIsFirstLeast(preferred, Cost);
    var m := preferred[i];
    PreferredMembers(stage, candidates, m, candidates[0]);
    forall g | g in candidates ensures AtLeastAsGood(stage, m, g) {
      PreferredMembers(stage, candidates, m, g);
      if g in preferred {
        var j :| 0 <= j < |preferred| && preferred[j] == g;
      }
    }
  }

  // ---- In the stages' and prices' own terms ----

  /** Parsing is best done fast, extracting from pictures by vision, synthesising by thinking, repairing with tools. */
  predicate BestDoneBy(stage: StageType, cap: Capability) {
    (stage == Parse && cap == Fast) || (stage == VisionExtraction && cap == Vision)
    || (stage == Synthesize && cap == Thinking) || (stage == Repair && cap == Tools)
  }

  /** The model does the stage in the best way, if there is one. */
  predicate DoesBest(stage: StageType, g: ModelGenome) {
    exists cap :: cap in g.capabilities && BestDoneBy(stage, cap)
  }

  /** The selected model can do all that is required; no other that can does the stage better, and none that does it as
      well costs less for input and output together. */
  lemma SelectModelMeans(stage: StageType, required: set<Capability>, registry: seq<ModelGenome>)
    ensures match SelectModel(stage, required, registry)
            case None => forall g :: g in registry ==> exists cap :: cap in required && cap !in g.capabilities
            case Some(m) =>
              m in registry && (forall cap :: cap in required ==> cap in m.capabilities)
              && forall g :: g in registry && (forall cap :: cap in required ==> cap in g.capabilities) ==>
                   (DoesBest(stage, g) ==> DoesBest(stage, m))
                   && (DoesBest(stage, g) == DoesBest(stage, m)
                       ==> m.costInput + m.costOutput <= g.costInput + g.costOutput)
  {
    SelectModelIsBest(stage, required, registry);
    forall g
      ensures DoesBest(stage, g) <==> StagePreference(stage).Some? && StagePreference(stage).value in g.capabilities
    {
      PreferenceIsBest(stage, g);
    }
  }

  lemma PreferenceIsBest(stage: StageType, g: ModelGenome)
    ensures DoesBest(stage, g) <==> StagePreference(stage).Some? && StagePreference(stage).value in g.capabilities
  {
    if StagePreference(stage).Some? && StagePreference(stage).value in g.capabilities {
      assert BestDoneBy(stage, StagePreference(stage).value);
    }
  }

  /** The preferred candidates are those that do the stage best, or all when none does. */
  lemma PreferredMeans(stage: StageType, candidates: seq<ModelGenome>, g: ModelGenome)
    ensures g in Preferred(stage, candidates) <==>
              g in candidates && (DoesBest(stage, g) || !exists h :: h in candidates && DoesBest(stage, h))
  {
    forall h
      ensures DoesBest(stage, h) <==> StagePreference(stage).Some? && StagePreference(stage).value in h.capabilities
    {
      PreferenceIsBest(stage, h);
    }
    if StagePreference(stage).Some? {
      var cap := StagePreference(stage).value;
      FilterMembers(candidates, Has(cap));
      var preferred := Filter(candidates, Has(cap));
      assert forall h :: h in preferred <==> h in candidates && DoesBest(stage, h) by {
        assert forall h: ModelGenome :: Has(cap)(h) <==> cap in h.capabilities;
      }
      assert preferred != [] ==> preferred[0] in preferred;
    }
  }
}
