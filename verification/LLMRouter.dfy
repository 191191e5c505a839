/** Routing a request through the healthy models, cheapest first, with retries and fallback. */
module LLMRouter {
  import opened Prelude
  import opened StableSort
  import opened ModelSelection

  /** The time of the last success is not part of this model. */
  datatype ProviderHealth = ProviderHealth(consecutiveFailures: nat, lastError: Option<string>) {
    function RecordFailure(error: string): ProviderHealth {
      ProviderHealth(consecutiveFailures + 1, Some(error))
    }

    function RecordSuccess(): ProviderHealth {
      ProviderHealth(0, None)
    }

    predicate IsHealthy(maxFailures: int) {
      consecutiveFailures < maxFailures
    }
  }

  /** The exceptions a selection lets through: a model whose provider was never configured, and a health
      threshold below one. */
  datatype RouterError = UnknownProvider | BadThreshold

  type HealthMap = map<string, ProviderHealth>

  /** `[g for g in models if health[g.provider_id].is_healthy(...)]` */
  function KeepHealthy(models: seq<ModelGenome>, health: HealthMap, maxFailures: int)
    : Result<seq<ModelGenome>, RouterError>
  {
    if models == [] then Success([])
    else if models[0].providerId !in health then Failure(UnknownProvider)
    else if maxFailures < 1 then Failure(BadThreshold)
    else match KeepHealthy(models[1..], health, maxFailures)
      case Failure(error) => Failure(error)
      case Success(rest) =>
        Success((if health[models[0].providerId].IsHealthy(maxFailures) then [models[0]] else []) + rest)
  }

  /** The models to try, in order. */
  function ModelsToTry(
    stage: StageType, required: set<Capability>, registry: seq<ModelGenome>, health: HealthMap, maxFailures: int)
    : Result<seq<ModelGenome>, RouterError>
  {
    match KeepHealthy(Filter(registry, HasAll(required)), health, maxFailures)
    case Failure(error) => Failure(error)
    case Success(models) => Success(Sort(Preferred(stage, models), Cost))
  }

  function RouterSelect(
    stage: StageType, required: set<Capability>, registry: seq<ModelGenome>, health: HealthMap, maxFailures: int)
    : Result<Option<ModelGenome>, RouterError>
  {
    if SelectModel(stage, required, registry) == None then Success(None)
    else match ModelsToTry(stage, required, registry, health, maxFailures)
      case Failure(error) => Failure(error)
      case Success(models) => Success(if models == [] then None else Some(models[0]))
  }

  // ---- One request ----

  /** How a provider call ends: an exception, a falsy result, or a served request. */
  datatype CallOutcome = Raised(error: string) | Empty | Served

  /** Everything outside the router: how the n-th provider call ends, and the configured retries and backoff. */
  datatype Env = Env(outcomes: nat -> CallOutcome, maxRetries: int, baseBackoff: real) {
    function Call(n: nat): CallOutcome { outcomes(n) }

    /** The pause after a failed attempt. */
    function Delay(attempt: nat): real { baseBackoff * Pow2(attempt) as real }
  }

  /** What a request leaves behind: provider health, calls made, delays slept, providers tried. */
  datatype World = World(health: HealthMap, calls: nat, slept: seq<real>, attempts: seq<(string, bool)>)

  function Pow2(k: nat): nat {
    if k == 0 then 1 else 2 * Pow2(k - 1)
  }

  function ErrorText(o: CallOutcome): string {
    if o.Raised? then o.error else "provider returned no result"
  }

  datatype Attempt = Attempt(world: World, served: bool)

  /** The retry loop from attempt number `attempt` on. */
  function AttemptFrom(env: Env, pid: string, attempt: nat, w: World): Attempt
    requires pid in w.health
    decreases env.maxRetries + 1 - attempt
  {
    if attempt > env.maxRetries then Attempt(w, false)
    else
      var o := env.Call(w.calls);
      var called := w.(calls := w.calls + 1);
      if o.Served? then
        Attempt(
          called.(health := w.health[pid := w.health[pid].RecordSuccess()], attempts := w.attempts + [(pid, true)]),
          true)
      else if attempt < env.maxRetries then
        AttemptFrom(env, pid, attempt + 1,
                    called.(slept := w.slept + [env.Delay(attempt)]))
      else
        Attempt(
          called.(health := w.health[pid := w.health[pid].RecordFailure(ErrorText(o))],
                  attempts := w.attempts + [(pid, false)]),
          false)
  }

  datatype RoutingResult = RoutingResult(
    providerId: string, genome: ModelGenome, usedFallback: bool, attempts: seq<(string, bool)>)

  datatype Routed = Routed(world: World, result: Option<RoutingResult>)

  ghost predicate KnownProviders(models: seq<ModelGenome>, health: HealthMap) {
    forall g :: g in models ==> g.providerId in health
  }

  /** The fallback loop from model i on. */
  function RouteFrom(env: Env, models: seq<ModelGenome>, i: nat, w: World): Routed
    requires i <= |models| && KnownProviders(models, w.health)
    decreases |models| - i
  {
    if i == |models| then Routed(w, None)
    else
      var g := models[i];
      var a := AttemptFrom(env, g.providerId, 0, w);
      AttemptShape(env, g.providerId, 0, w);
      if a.served then Routed(a.world, Some(RoutingResult(g.providerId, g, i > 0, a.world.attempts)))
      else RouteFrom(env, models, i + 1, a.world)
  }

  class Router {
    const registry: seq<ModelGenome>
    const env: Env
    const maxFailures: int
    var health: HealthMap
    var calls: nat
    ghost var slept: seq<real>

    constructor (registry: seq<ModelGenome>, health: HealthMap, maxFailures: int, env: Env)
      ensures this.registry == registry && this.health == health && this.maxFailures == maxFailures && this.env == env
      ensures calls == 0 && slept == []
    {
      this.registry, this.health, this.maxFailures, this.env := registry, health, maxFailures, env;
      calls, slept := 0, [];
    }

    method Select(stage: StageType, required: set<Capability>) returns (r: Result<Option<ModelGenome>, RouterError>)
      ensures r == RouterSelect(stage, required, registry, health, maxFailures)
      ensures var capable := Filter(registry, HasAll(required));
              if capable == [] || (maxFailures >= 1 && KnownProviders(capable, health))
              then r == Success(SelectModel(stage, required, Filter(registry, IsHealthyIn(health, maxFailures))))
              else r.Failure?
    {
      RouterAgreesWithSelector(stage, required, registry, health, maxFailures);
      var candidates := SelectModel(stage, required, registry);
      if candidates == None {
        return Success(None);
      }
      var ordered := OrderedHealthyModels(stage, required);
      if ordered.Failure? {
        return Failure(ordered.error);
      }
      r := Success(if ordered.value == [] then None else Some(ordered.value[0]));
    }

    method OrderedHealthyModels(stage: StageType, required: set<Capability>)
      returns (r: Result<seq<ModelGenome>, RouterError>)
      ensures r == ModelsToTry(stage, required, registry, health, maxFailures)
      ensures r.Success? ==> AreEligible(r.value, stage, required, registry, health, maxFailures)
    {
      OrderedModels(stage, required, registry, health, maxFailures);
      var models := KeepHealthy(Filter(registry, HasAll(required)), health, maxFailures);
      if models.Failure? {
        return Failure(models.error);
      }
      r := Success(Sort(Preferred(stage, models.value), Cost));
    }

    /** Tries the ordered models one after the other until one serves the request. */
    method RouteWithFallback(stage: StageType, required: set<Capability>)
      returns (r: Result<Option<RoutingResult>, RouterError>)
      modifies this
      ensures match ModelsToTry(stage, required, registry, old(health), maxFailures)
              case Failure(error) => r == Failure(error) && health == old(health) && calls == old(calls)
                                     && slept == old(slept)
              case Success(models) =>
                KnownProviders(models, old(health))
                && var routed := RouteFrom(env, models, 0, World(old(health), old(calls), old(slept), []));
                   r == Success(routed.result)
                   && health == routed.world.health && calls == routed.world.calls && slept == routed.world.slept
    {
      var ordered := OrderedHealthyModels(stage, required);
      if ordered.Failure? {
        return Failure(ordered.error);
      }
      var models := ordered.value;
      OrderedModels(stage, required, registry, health, maxFailures);
      var attempts := [];
      var usedFallback := false;
      ghost var whole := RouteFrom(env, models, 0, World(health, calls, slept, []));
      for i := 0 to |models|
        invariant KnownProviders(models, health)
        invariant usedFallback <==> i > 1
        invariant RouteFrom(env, models, i, World(health, calls, slept, attempts)) == whole
      {
        var genome := models[i];
        AttemptShape(env, genome.providerId, 0, World(health, calls, slept, attempts));
        if i > 0 {
          usedFallback := true;
        }
        var served;
        served, attempts := AttemptWithRetries(genome.providerId, attempts);
        if served {
          return Success(Some(RoutingResult(genome.providerId, genome, usedFallback, attempts)));
        }
      }
      r := Success(None);
    }

    /** Retries one provider with exponential backoff; only the last failure counts against its health. */
    method AttemptWithRetries(pid: string, attempts: seq<(string, bool)>)
      returns (served: bool, attemptsAfter: seq<(string, bool)>)
      requires pid in health
      modifies this
      ensures Attempt(World(health, calls, slept, attemptsAfter), served)
           == AttemptFrom(env, pid, 0, World(old(health), old(calls), old(slept), attempts))
    {
      attemptsAfter := attempts;
      var attempt := 0;
      while attempt < env.maxRetries + 1
        invariant health == old(health) && attemptsAfter == attempts
        invariant AttemptFrom(env, pid, attempt, World(health, calls, slept, attempts))
               == AttemptFrom(env, pid, 0, World(old(health), old(calls), old(slept), attempts))
        decreases env.maxRetries + 1 - attempt
      {
        var outcome := env.Call(calls);
        calls := calls + 1;
        if outcome.Served? {
          health := health[pid := health[pid].RecordSuccess()];
          attemptsAfter := attempts + [(pid, true)];
          return true, attemptsAfter;
        }
        if attempt < env.maxRetries {
          slept := slept + [env.Delay(attempt)];
          attempt := attempt + 1;
          continue;
        }
        health := health[pid := health[pid].RecordFailure(ErrorText(outcome))];
        attemptsAfter := attempts + [(pid, false)];
        return false, attemptsAfter;
      }
      served := false;
    }
  }

  // ---- Selection agrees with the simple selector ----

  predicate HealthyIn(g: ModelGenome, health: HealthMap, maxFailures: int) {
    g.providerId in health && health[g.providerId].IsHealthy(maxFailures)
  }

  function IsHealthyIn(health: HealthMap, maxFailures: int): ModelGenome -> bool {
    (g: ModelGenome) => HealthyIn(g, health, maxFailures)
  }

  lemma {:induction false} KeepHealthyFilters(models: seq<ModelGenome>, health: HealthMap, maxFailures: int)
    ensures KeepHealthy(models, health, maxFailures).Success?
            <==> (models == [] || (maxFailures >= 1 && KnownProviders(models, health)))
    ensures KeepHealthy(models, health, maxFailures).Success? ==>
              KeepHealthy(models, health, maxFailures).value == Filter(models, IsHealthyIn(health, maxFailures))
  {
    if models != [] {
      KeepHealthyFilters(models[1..], health, maxFailures);
      assert models == [models[0]] + models[1..];
      FilterConcat([models[0]], models[1..], IsHealthyIn(health, maxFailures));
      FilterSnoc([], models[0], IsHealthyIn(health, maxFailures));
      assert [models[0]] == [] + [models[0]];
      assert KnownProviders(models, health)
         <==> models[0].providerId in health && KnownProviders(models[1..], health);
    }
  }

  /** The models are, cheapest first, the healthy capable ones (narrowed to the preferred ones, if any). */
  ghost predicate AreEligible(
    models: seq<ModelGenome>, stage: StageType, required: set<Capability>, registry: seq<ModelGenome>,
    health: HealthMap, maxFailures: int)
  {
    var healthy := Filter(Filter(registry, HasAll(required)), IsHealthyIn(health, maxFailures));
    (forall g :: g in models <==> g in Preferred(stage, healthy))
    && (forall g :: g in models ==>
          g in registry && required <= g.capabilities && HealthyIn(g, health, maxFailures))
    && (forall i, j :: 0 <= i < j < |models| ==> Cost(models[i]) <= Cost(models[j]))
    && KnownProviders(models, health)
  }

  lemma OrderedModels(
    stage: StageType, required: set<Capability>, registry: seq<ModelGenome>, health: HealthMap, maxFailures: int)
    ensures match ModelsToTry(stage, required, registry, health, maxFailures)
            case Failure(_) => true
            case Success(models) => AreEligible(models, stage, required, registry, health, maxFailures)
  {
    var capable := Filter(registry, HasAll(required));
    KeepHealthyFilters(capable, health, maxFailures);
    if KeepHealthy(capable, health, maxFailures).Success? {
      var healthy := Filter(capable, IsHealthyIn(health, maxFailures));
      SortIsOrderedPermutation(Preferred(stage, healthy), Cost);
      FilterMembers(registry, HasAll(required));
      FilterMembers(capable, IsHealthyIn(health, maxFailures));
      if StagePreference(stage).Some? {
        FilterMembers(healthy, Has(StagePreference(stage).value));
      }
    }
  }

  /** Whenever the health lookups succeed, the router picks what the simple selector picks from the registry
      restricted to healthy providers: ties and the case of no match included. */
  lemma RouterAgreesWithSelector(
    stage: StageType, required: set<Capability>, registry: seq<ModelGenome>, health: HealthMap, maxFailures: int)
    ensures var r := RouterSelect(stage, required, registry, health, maxFailures);
            var capable := Filter(registry, HasAll(required));
            if capable == [] || (maxFailures >= 1 && KnownProviders(capable, health))
            then r == Success(SelectModel(stage, required, Filter(registry, IsHealthyIn(health, maxFailures))))
            else r.Failure?
  {
    var capable := Filter(registry, HasAll(required));
    KeepHealthyFilters(capable, health, maxFailures);
    FilterCommutes(registry, HasAll(required), IsHealthyIn(health, maxFailures));
    var healthy := Filter(capable, IsHealthyIn(health, maxFailures));
    if capable == [] {
      assert healthy == [];
    } else if KeepHealthy(capable, health, maxFailures).Success? {
      if healthy == [] {
        NoneHealthy(stage);
      } else {
        SortHeadIsMin(Preferred(stage, healthy), Cost);
      }
    }
  }

  lemma NoneHealthy(stage: StageType)
    ensures Sort(Preferred(stage, []), Cost) == []
  {
  }

  // ---- Retries ----

  function Sum(xs: seq<real>): real {
    if xs == [] then 0.0 else Sum(xs[..|xs| - 1]) + xs[|xs| - 1]
  }

  /** The known providers never change. */
  lemma {:induction false} AttemptShape(env: Env, pid: string, attempt: nat, w: World)
    requires pid in w.health
    ensures AttemptFrom(env, pid, attempt, w).world.health.Keys == w.health.Keys
    decreases env.maxRetries + 1 - attempt
  {
    if attempt < env.maxRetries && !env.Call(w.calls).Served? {
      AttemptShape(env, pid, attempt + 1,
                   w.(calls := w.calls + 1, slept := w.slept + [env.Delay(attempt)]));
    } else {
      var r := AttemptFrom(env, pid, attempt, w).world.health;
      assert r == w.health || (pid in r && r == w.health[pid := r[pid]]);
    }
  }

  /** The delays after attempts number `from` up to, not including, `to`: base * (2^to - 2^from). */
  function Backoff(env: Env, from: nat, to: nat): real {
    env.baseBackoff * (Pow2(to) - Pow2(from)) as real
  }

  lemma BackoffStep(env: Env, from: nat, to: nat)
    ensures env.Delay(from) + Backoff(env, from + 1, to) == Backoff(env, from, to)
    ensures Backoff(env, from, from) == 0.0
  {
    var a, b := Pow2(from) as real, Pow2(to) as real;
    assert (Pow2(to) - Pow2(from)) as real == b - a;
    assert (Pow2(to) - Pow2(from + 1)) as real == b - 2.0 * a;
  }

  /** What one provider's retry loop did: `n` calls of which only the last can have served, and the delays between. */
  ghost predicate Retried(env: Env, pid: string, attempt: nat, w: World, a: Attempt, n: nat)
    requires pid in w.health
  {
    1 <= n <= env.maxRetries + 1 - attempt
    && a.world.calls == w.calls + n
    && (forall c: nat :: w.calls <= c < w.calls + n - 1 ==> !env.Call(c).Served?)
    && (a.served <==> env.Call(w.calls + n - 1).Served?)
    && (!a.served ==> n == env.maxRetries + 1 - attempt)
    && Sum(a.world.slept) == Sum(w.slept) + Backoff(env, attempt, attempt + n - 1)
    && a.world.attempts == w.attempts + [(pid, a.served)]
    && a.world.health == w.health[pid :=
         if a.served then w.health[pid].RecordSuccess()
         else w.health[pid].RecordFailure(ErrorText(env.Call(w.calls + n - 1)))]
  }

  lemma SumSnoc(xs: seq<real>, x: real)
    ensures Sum(xs + [x]) == Sum(xs) + x
  {
    assert (xs + [x])[..|xs|] == xs;
  }

  /** Retrying one provider: at most max_retries + 1 calls, one recorded attempt, one health update. */
  lemma {:induction false} RetriesOf(env: Env, pid: string, attempt: nat, w: World) returns (n: nat)
    requires pid in w.health && attempt <= env.maxRetries
    ensures Retried(env, pid, attempt, w, AttemptFrom(env, pid, attempt, w), n)
    decreases env.maxRetries + 1 - attempt
  {
    n := 1;
    BackoffStep(env, attempt, attempt);
    if attempt < env.maxRetries && !env.Call(w.calls).Served? {
      var delay := env.Delay(attempt);
      var next := w.(calls := w.calls + 1, slept := w.slept + [delay]);
      var m := RetriesOf(env, pid, attempt + 1, next);
      SumSnoc(w.slept, delay);
      n := m + 1;
      assert AttemptFrom(env, pid, attempt, w) == AttemptFrom(env, pid, attempt + 1, next);
      BackoffStep(env, attempt, attempt + m);
    }
  }

  /** The delay slept over n calls to one provider: base * (2^(n-1) - 1). */
  function SleptOver(env: Env, n: int): real {
    if n <= 1 then 0.0 else Backoff(env, 0, n - 1)
  }

  /** The most calls one provider gets. */
  function MaxCalls(env: Env): nat {
    if env.maxRetries < 0 then 0 else env.maxRetries + 1
  }

  /** The delay one provider costs, by the number of calls made to it. */
  function Slept(env: Env): int -> real {
    (n: int) => SleptOver(env, n)
  }

  /** What trying one provider costs: at most `calls` calls, all of them when it fails, and `slept(n)` for n calls. */
  ghost predicate Costs(env: Env, calls: nat, slept: int -> real, pid: string, w: World) {
    pid in w.health ==>
    var a := AttemptFrom(env, pid, 0, w);
    var n := a.world.calls - w.calls;
    1 <= n <= calls && (!a.served ==> n == calls)
    && Sum(a.world.slept) == Sum(w.slept) + slept(n)
    && a.world.attempts == w.attempts + [(pid, a.served)]
    && a.world.health.Keys == w.health.Keys
  }

  lemma EachCosts(env: Env, pid: string, w: World, slept: int -> real)
    requires pid in w.health && 0 <= env.maxRetries && forall n :: slept(n) == SleptOver(env, n)
    ensures Costs(env, env.maxRetries + 1, slept, pid, w)
  {
    var n := RetriesOf(env, pid, 0, w);
    BackoffStep(env, 0, 0);
    AttemptShape(env, pid, 0, w);
  }

  /** A provider whose retries are exhausted has one more failure on record, and is degraded from then on exactly when
      that failure reached the threshold. */
  lemma ExhaustedProvider(env: Env, pid: string, w: World, maxFailures: int)
    requires pid in w.health && 0 <= env.maxRetries && !AttemptFrom(env, pid, 0, w).served
    ensures var (before, after) := (w.health[pid], AttemptFrom(env, pid, 0, w).world.health);
            pid in after
            && after == w.health[pid := after[pid]]
            && after[pid].consecutiveFailures == before.consecutiveFailures + 1
            && (!after[pid].IsHealthy(maxFailures) <==> before.consecutiveFailures + 1 >= maxFailures)
  {
    var n := RetriesOf(env, pid, 0, w);
  }

  // ---- Fallback ----

  /** The first n models of the list, each recorded as tried in vain. */
  function FailedAttempts(models: seq<ModelGenome>, n: nat): seq<(string, bool)>
    requires n <= |models|
  {
    seq(n, i requires 0 <= i < n => (models[i].providerId, false))
  }

  function CallsOver(rounds: nat, calls: nat): nat {
    if rounds == 0 then 0 else CallsOver(rounds - 1, calls) + calls
  }

  function DelayOver(rounds: nat, delay: real): real {
    if rounds == 0 then 0.0 else DelayOver(rounds - 1, delay) + delay
  }

  lemma {:induction false} OverIsProduct(rounds: nat, calls: nat, delay: real)
    ensures CallsOver(rounds, calls) == rounds * calls
    ensures DelayOver(rounds, delay) == rounds as real * delay
  {
    if rounds > 0 {
      OverIsProduct(rounds - 1, calls, delay);
      RoundsAdd(rounds - 1, calls);
      DelaysAdd(rounds - 1, delay);
    }
  }

  lemma RoundsAdd(i: nat, calls: nat)
    ensures (i + 1) * calls == i * calls + calls
  {
  }

  lemma DelaysAdd(i: nat, d: real)
    ensures i as real * d + d == (i + 1) as real * d
  {
    assert (i + 1) as real == i as real + 1.0;
  }

  /** The request after `rounds` exhausted models and n calls to a further one. */
  ghost predicate Spent(start: World, w: World, rounds: nat, calls: nat, slept: int -> real, n: int) {
    w.calls == start.calls + CallsOver(rounds, calls) + n
    && Sum(w.slept) == Sum(start.slept) + DelayOver(rounds, slept(calls)) + slept(n)
    && w.health.Keys == start.health.Keys
  }

  /** The model at position k served with its n-th call, after every model in front of it was exhausted. */
  ghost predicate ServedAt(
    models: seq<ModelGenome>, start: World, r: Routed, calls: nat, slept: int -> real, k: nat, n: nat)
  {
    k < |models| && r.result.Some?
    && r.result.value == RoutingResult(
         models[k].providerId, models[k], k > 0,
         start.attempts + FailedAttempts(models, k) + [(models[k].providerId, true)])
    && 1 <= n <= calls && Spent(start, r.world, k, calls, slept, n)
  }

  ghost predicate Exhausted(
    models: seq<ModelGenome>, start: World, w: World, i: nat, calls: nat, slept: int -> real)
    requires i <= |models|
  {
    w.attempts == start.attempts + FailedAttempts(models, i) && Spent(start, w, i, calls, slept, 0)
  }

  lemma OneMoreExhausted(
    env: Env, models: seq<ModelGenome>, i: nat, calls: nat, slept: int -> real, start: World, w: World)
    requires i < |models| && models[i].providerId in w.health && slept(0) == 0.0
    requires Exhausted(models, start, w, i, calls, slept) && Costs(env, calls, slept, models[i].providerId, w)
    requires !AttemptFrom(env, models[i].providerId, 0, w).served
    ensures Exhausted(models, start, AttemptFrom(env, models[i].providerId, 0, w).world, i + 1, calls, slept)
  {
    OneMoreFailed(start.attempts, models, i);
  }

  lemma OneMoreFailed(before: seq<(string, bool)>, models: seq<ModelGenome>, i: nat)
    requires i < |models|
    ensures before + FailedAttempts(models, i + 1)
         == before + FailedAttempts(models, i) + [(models[i].providerId, false)]
  {
  }

  lemma {:induction false} RouteSpends(
    env: Env, models: seq<ModelGenome>, i: nat, calls: nat, slept: int -> real, start: World, w: World)
    returns (k: nat, n: nat)
    requires i <= |models| && KnownProviders(models, w.health) && slept(0) == 0.0
    requires forall pid, v :: Costs(env, calls, slept, pid, v)
    requires Exhausted(models, start, w, i, calls, slept)
    ensures var r := RouteFrom(env, models, i, w);
            if r.result.Some? then ServedAt(models, start, r, calls, slept, k, n)
            else Exhausted(models, start, r.world, |models|, calls, slept)
    decreases |models| - i
  {
    k, n := i, 0;
    if i < |models| {
      var pid := models[i].providerId;
      var a := AttemptFrom(env, pid, 0, w);
      assert Costs(env, calls, slept, pid, w);
      if a.served {
        n := a.world.calls - w.calls;
      } else {
        OneMoreExhausted(env, models, i, calls, slept, start, w);
        k, n := RouteSpends(env, models, i + 1, calls, slept, start, a.world);
      }
    }
  }

  /** Routing either exhausts every model or is served at some position; in both cases calls, delays and attempts
      are accounted for model by model. */
  lemma RouteOutcome(env: Env, models: seq<ModelGenome>, w: World)
    requires 0 <= env.maxRetries && KnownProviders(models, w.health)
    ensures var r := RouteFrom(env, models, 0, w);
            if r.result.Some? then exists k, n :: ServedAt(models, w, r, MaxCalls(env), Slept(env), k, n)
            else Exhausted(models, w, r.world, |models|, MaxCalls(env), Slept(env))
  {
    var calls, slept := MaxCalls(env), Slept(env);
    forall pid, v ensures Costs(env, calls, slept, pid, v) {
      if pid in v.health { EachCosts(env, pid, v, slept); }
    }
    assert w.attempts + FailedAttempts(models, 0) == w.attempts;
    var k, n := RouteSpends(env, models, 0, calls, slept, w, w);
  }

  /** Routing over n models makes at most n * (max_retries + 1) provider calls; when all models are exhausted it makes
      exactly that many and sleeps the full delay of each. */
  lemma CallsAreBounded(env: Env, models: seq<ModelGenome>, w: World)
    requires 0 <= env.maxRetries && KnownProviders(models, w.health)
    ensures var (r, calls) := (RouteFrom(env, models, 0, w), |models| * (env.maxRetries + 1));
            r.world.calls <= w.calls + calls
            && (r.result.None? ==> r.world.calls == w.calls + calls
                                   && Sum(r.world.slept) == Sum(w.slept) + ExhaustedDelay(env, |models|))
  {
    var r := RouteFrom(env, models, 0, w);
    RouteOutcome(env, models, w);
    OverIsProduct(|models|, env.maxRetries + 1, 0.0);
    if r.result.Some? {
      var k, n :| ServedAt(models, w, r, MaxCalls(env), Slept(env), k, n);
      RoundsAtMost(k, n, env.maxRetries + 1, |models|);
    }
  }

  /** The delay of n models that exhaust their retries. */
  function ExhaustedDelay(env: Env, n: nat): real {
    DelayOver(n, SleptOver(env, env.maxRetries + 1))
  }

  /** Each exhausted model costs base * (2^max_retries - 1) of sleep. */
  lemma ExhaustedDelayIs(env: Env, n: nat)
    requires 0 <= env.maxRetries
    ensures ExhaustedDelay(env, n) == n as real * (env.baseBackoff * (Pow2(env.maxRetries) - 1) as real)
  {
    OverIsProduct(n, 0, SleptOver(env, env.maxRetries + 1));
  }

  /** The attempts are those of the first models of the list, in order, and only the last one succeeded. */
  predicate OneEach(models: seq<ModelGenome>, served: RoutingResult) {
    var n := |served.attempts|;
    0 < n <= |models| && served.genome == models[n - 1] && served.usedFallback == (n > 1)
    && forall j :: 0 <= j < n ==> served.attempts[j] == (models[j].providerId, j == n - 1)
  }

  lemma ServedAfterOneEach(
    models: seq<ModelGenome>, start: World, r: Routed, calls: nat, slept: int -> real, k: nat, n: nat)
    requires ServedAt(models, start, r, calls, slept, k, n) && start.attempts == []
    ensures OneEach(models, r.result.value)
  {
    assert r.result.value.attempts == FailedAttempts(models, k) + [(models[k].providerId, true)];
  }

  /** One attempt is recorded per model tried, in order; only the last one served. */
  lemma OneAttemptPerModel(env: Env, models: seq<ModelGenome>, w: World)
    requires 0 <= env.maxRetries && KnownProviders(models, w.health) && w.attempts == []
    ensures var r := RouteFrom(env, models, 0, w);
            if r.result.Some? then OneEach(models, r.result.value)
            else r.world.attempts == FailedAttempts(models, |models|)
  {
    var r := RouteFrom(env, models, 0, w);
    RouteOutcome(env, models, w);
    if r.result.Some? {
      var k, n :| ServedAt(models, w, r, MaxCalls(env), Slept(env), k, n);
      ServedAfterOneEach(models, w, r, MaxCalls(env), Slept(env), k, n);
    } else {
      ExhaustedAfterAll(models, w, r.world, MaxCalls(env), Slept(env));
    }
  }

  lemma ExhaustedAfterAll(models: seq<ModelGenome>, start: World, w: World, calls: nat, slept: int -> real)
    requires Exhausted(models, start, w, |models|, calls, slept) && start.attempts == []
    ensures w.attempts == FailedAttempts(models, |models|)
  {
  }

  /** With a negative retry count nothing is called, nothing is recorded and no model serves. */
  lemma {:induction false} NegativeRetriesTryNothing(env: Env, models: seq<ModelGenome>, i: nat, w: World)
    requires env.maxRetries < 0 && i <= |models| && KnownProviders(models, w.health)
    ensures RouteFrom(env, models, i, w) == Routed(w, None)
    decreases |models| - i
  {
    if i < |models| {
      NegativeRetriesTryNothing(env, models, i + 1, w);
    }
  }

  lemma {:induction false} RoundsAtMost(k: nat, n: nat, calls: nat, rounds: nat)
    requires k < rounds && n <= calls
    ensures CallsOver(k, calls) + n <= CallsOver(rounds, calls)
  {
    if k < rounds - 1 {
      RoundsAtMost(k, n, calls, rounds - 1);
    }
  }

  /** g was tried in vain before the model that served. */
  ghost predicate TriedInVain(models: seq<ModelGenome>, attempts: seq<(string, bool)>, g: ModelGenome) {
    exists i :: 0 <= i < |attempts| - 1 && i < |models| && models[i] == g && attempts[i] == (g.providerId, false)
  }

  lemma CheaperCameFirst(env: Env, models: seq<ModelGenome>, w: World, g: ModelGenome)
    requires 0 <= env.maxRetries && w.attempts == [] && KnownProviders(models, w.health)
    requires forall i, j :: 0 <= i < j < |models| ==> Cost(models[i]) <= Cost(models[j])
    requires RouteFrom(env, models, 0, w).result.Some?
    requires g in models && Cost(g) < Cost(RouteFrom(env, models, 0, w).result.value.genome)
    ensures TriedInVain(models, RouteFrom(env, models, 0, w).result.value.attempts, g)
  {
    assert FailedAttempts(models, 0) == [];
    var r := RouteFrom(env, models, 0, w);
    RouteOutcome(env, models, w);
    var k, n :| ServedAt(models, w, r, MaxCalls(env), Slept(env), k, n);
    CheaperBefore(models, k, g);
  }

  lemma CheaperBefore(models: seq<ModelGenome>, k: nat, g: ModelGenome)
    requires forall i, j :: 0 <= i < j < |models| ==> Cost(models[i]) <= Cost(models[j])
    requires k < |models| && g in models && Cost(g) < Cost(models[k])
    ensures TriedInVain(models, FailedAttempts(models, k) + [(models[k].providerId, true)], g)
  {
    var i :| 0 <= i < |models| && models[i] == g;
    assert i < k;
    assert (FailedAttempts(models, k) + [(models[k].providerId, true)])[i] == (g.providerId, false);
  }

  /** Every eligible model strictly cheaper than the one that served was tried and exhausted its retries. */
  lemma CheaperModelsWereExhausted(
    stage: StageType, required: set<Capability>, registry: seq<ModelGenome>, maxFailures: int,
    env: Env, models: seq<ModelGenome>, w: World, g: ModelGenome)
    requires ModelsToTry(stage, required, registry, w.health, maxFailures) == Success(models)
    requires 0 <= env.maxRetries && w.attempts == [] && KnownProviders(models, w.health)
    requires RouteFrom(env, models, 0, w).result.Some?
    requires g in Preferred(stage, Filter(Filter(registry, HasAll(required)), IsHealthyIn(w.health, maxFailures)))
    requires Cost(g) < Cost(RouteFrom(env, models, 0, w).result.value.genome)
    ensures TriedInVain(models, RouteFrom(env, models, 0, w).result.value.attempts, g)
  {
    OrderedModels(stage, required, registry, w.health, maxFailures);
    CheaperCameFirst(env, models, w, g);
  }

  // ---- Health on the way ----

  /** What the request left behind when model i's turn comes; None when an earlier model served. */
  function AtTurn(env: Env, models: seq<ModelGenome>, i: nat, w: World): (r: Option<World>)
    requires i <= |models| && KnownProviders(models, w.health)
    ensures r.Some? ==> r.value.health.Keys == w.health.Keys
  {
    if i == 0 then Some(w)
    else match AtTurn(env, models, i - 1, w)
      case None => None
      case Some(v) =>
        var a := AttemptFrom(env, models[i - 1].providerId, 0, v);
        AttemptShape(env, models[i - 1].providerId, 0, v);
        if a.served then None else Some(a.world)
  }

  /** When its turn comes, the request goes on with model i. */
  lemma {:induction false} RoutingReaches(env: Env, models: seq<ModelGenome>, i: nat, w: World)
    requires i <= |models| && KnownProviders(models, w.health) && AtTurn(env, models, i, w).Some?
    ensures RouteFrom(env, models, 0, w) == RouteFrom(env, models, i, AtTurn(env, models, i, w).value)
  {
    if i > 0 {
      RoutingReaches(env, models, i - 1, w);
    }
  }

  /** How many of the first i models are of this provider. */
  function Earlier(models: seq<ModelGenome>, i: nat, pid: string): nat
    requires i <= |models|
  {
    if i == 0 then 0 else Earlier(models, i - 1, pid) + (if models[i - 1].providerId == pid then 1 else 0)
  }

  /** By model i's turn, every provider has one more failure on record for each of its models tried before. */
  lemma {:induction false} FailuresAtTurn(env: Env, models: seq<ModelGenome>, i: nat, w: World, pid: string)
    requires 0 <= env.maxRetries && i <= |models| && KnownProviders(models, w.health) && pid in w.health
    requires AtTurn(env, models, i, w).Some?
    ensures AtTurn(env, models, i, w).value.health[pid].consecutiveFailures
         == w.health[pid].consecutiveFailures + Earlier(models, i, pid)
  {
    if i > 0 {
      FailuresAtTurn(env, models, i - 1, w, pid);
      ExhaustedProvider(env, models[i - 1].providerId, AtTurn(env, models, i - 1, w).value, 0);
    }
  }

  /** The documented "the next healthy model is tried": the list is fixed before the first attempt, so the model whose
      turn it is is tried whatever its provider's health has become, and that is healthy exactly when the failures of
      its provider's earlier models did not reach the threshold. */
  lemma NextModelIsHealthyIff(env: Env, models: seq<ModelGenome>, i: nat, w: World, maxFailures: int)
    requires 0 <= env.maxRetries && i < |models| && KnownProviders(models, w.health)
    requires AtTurn(env, models, i, w).Some?
    ensures var (pid, v) := (models[i].providerId, AtTurn(env, models, i, w).value);
            RouteFrom(env, models, 0, w) == RouteFrom(env, models, i, v)
            && (v.health[pid].IsHealthy(maxFailures)
                <==> w.health[pid].consecutiveFailures + Earlier(models, i, pid) < maxFailures)
  {
    RoutingReaches(env, models, i, w);
    FailuresAtTurn(env, models, i, w, models[i].providerId);
  }

  /** Two models of one provider that is one failure short of the threshold and never serves: the second is tried while
      its provider is degraded. */
  lemma DegradedProviderIsTried(env: Env, g: ModelGenome, w: World, maxFailures: int)
    requires 0 <= env.maxRetries && g.providerId in w.health && forall n :: !env.Call(n).Served?
    requires w.health[g.providerId].consecutiveFailures + 1 == maxFailures
    ensures var (r, before) := (RouteFrom(env, [g, g], 0, w), AtTurn(env, [g, g], 1, w));
            w.health[g.providerId].IsHealthy(maxFailures)
            && before.Some? && !before.value.health[g.providerId].IsHealthy(maxFailures)
            && r.world.attempts == w.attempts + [(g.providerId, false), (g.providerId, false)]
  {
    var pid, models := g.providerId, [g, g];
    var first := AttemptFrom(env, pid, 0, w);
    var n := RetriesOf(env, pid, 0, w);
    assert AtTurn(env, models, 0, w) == Some(w);
    assert AtTurn(env, models, 1, w) == Some(first.world);
    NextModelIsHealthyIff(env, models, 1, w, maxFailures);
    assert Earlier(models, 0, pid) == 0 && Earlier(models, 1, pid) == 1;
    var second := AttemptFrom(env, pid, 0, first.world);
    var m := RetriesOf(env, pid, 0, first.world);
    assert RouteFrom(env, models, 2, second.world) == Routed(second.world, None);
    assert RouteFrom(env, models, 1, first.world) == RouteFrom(env, models, 2, second.world);
  }

  // ---- Which models are tried ----

  /** Registered, capable of all that is required, and of a provider below the failure threshold. */
  predicate Eligible(
    g: ModelGenome, required: set<Capability>, registry: seq<ModelGenome>, health: HealthMap, maxFailures: int)
  {
    g in registry && (forall cap :: cap in required ==> cap in g.capabilities)
    && g.providerId in health && health[g.providerId].consecutiveFailures < maxFailures
  }

  /** Of the eligible models those are tried that do the stage best, or all when none does, cheapest first. */
  lemma TriesEligible(
    stage: StageType, required: set<Capability>, registry: seq<ModelGenome>, health: HealthMap, maxFailures: int,
    models: seq<ModelGenome>)
    requires ModelsToTry(stage, required, registry, health, maxFailures) == Success(models)
    ensures forall g :: g in models <==>
              Eligible(g, required, registry, health, maxFailures)
              && (DoesBest(stage, g)
                  || !exists h :: Eligible(h, required, registry, health, maxFailures) && DoesBest(stage, h))
    ensures forall i, j :: 0 <= i < j < |models| ==>
              models[i].costInput + models[i].costOutput <= models[j].costInput + models[j].costOutput
  {
    OrderedModels(stage, required, registry, health, maxFailures);
    var capable := Filter(registry, HasAll(required));
    var healthy := Filter(capable, IsHealthyIn(health, maxFailures));
    forall g ensures g in healthy <==> Eligible(g, required, registry, health, maxFailures) {
      FilterMembers(registry, HasAll(required));
      FilterMembers(capable, IsHealthyIn(health, maxFailures));
      assert g in capable <==> g in registry && HasAll(required)(g);
      assert g in healthy <==> g in capable && IsHealthyIn(health, maxFailures)(g);
    }
    forall g ensures g in Preferred(stage, healthy) <==>
                       g in healthy && (DoesBest(stage, g) || !exists h :: h in healthy && DoesBest(stage, h)) {
      PreferredMeans(stage, healthy, g);
    }
  }

  // ---- What an attempt leaves on record ----

  /** The error's own text, or what is recorded for an empty answer. */
  predicate ErrorReads(o: CallOutcome, text: string) {
    match o
    case Raised(error) => text == error
    case Empty => text == "provider returned no result"
    case Served => false
  }

  /** A model that served leaves its provider a clean record, and one that did not one more failure, with the error of
      the last call; no other provider's record moved. */
  predicate Recorded(pid: string, before: HealthMap, after: HealthMap, served: bool, last: CallOutcome)
    requires pid in before
  {
    after.Keys == before.Keys && (forall q :: q in before && q != pid ==> after[q] == before[q])
    && (served ==> after[pid].consecutiveFailures == 0 && after[pid].lastError == None)
    && (!served ==> after[pid].consecutiveFailures == before[pid].consecutiveFailures + 1
                    && after[pid].lastError.Some? && ErrorReads(last, after[pid].lastError.value))
  }

  lemma {:induction false} AttemptRecords(env: Env, pid: string, attempt: nat, w: World)
    requires pid in w.health && attempt <= env.maxRetries
    ensures var a := AttemptFrom(env, pid, attempt, w);
            Recorded(pid, w.health, a.world.health, a.served, env.outcomes(w.calls + env.maxRetries - attempt))
    decreases env.maxRetries - attempt
  {
    if attempt < env.maxRetries && !env.Call(w.calls).Served? {
      AttemptRecords(env, pid, attempt + 1, w.(calls := w.calls + 1, slept := w.slept + [env.Delay(attempt)]));
    }
  }

  /** A first pause, and each further one twice as long as the one before. */
  predicate Doubling(first: real, pauses: seq<real>) {
    (pauses != [] ==> pauses[0] == first)
    && forall j :: 0 < j < |pauses| ==> pauses[j] == 2.0 * pauses[j - 1]
  }

  lemma DoublingCons(first: real, pauses: seq<real>)
    requires Doubling(2.0 * first, pauses)
    ensures Doubling(first, [first] + pauses)
  {
  }

  lemma {:induction false} AttemptSleeps(env: Env, pid: string, attempt: nat, w: World) returns (pauses: seq<real>)
    requires pid in w.health && attempt <= env.maxRetries
    ensures var after := AttemptFrom(env, pid, attempt, w).world;
            after.slept == w.slept + pauses && Doubling(env.Delay(attempt), pauses)
            && |pauses| == after.calls - w.calls - 1
    decreases env.maxRetries - attempt
  {
    pauses := [];
    if attempt < env.maxRetries && !env.Call(w.calls).Served? {
      var delay := env.Delay(attempt);
      var rest := AttemptSleeps(env, pid, attempt + 1, w.(calls := w.calls + 1, slept := w.slept + [delay]));
      assert env.Delay(attempt + 1) == 2.0 * delay;
      DoublingCons(delay, rest);
      pauses := [delay] + rest;
      assert w.slept + pauses == w.slept + [delay] + rest;
    }
  }

  /** Between two calls to a provider the router sleeps: the base pause first, then each time twice as long. */
  lemma PausesDouble(env: Env, pid: string, w: World)
    requires pid in w.health && 0 <= env.maxRetries
    ensures var after := AttemptFrom(env, pid, 0, w).world;
            w.slept <= after.slept && |after.slept| - |w.slept| == after.calls - w.calls - 1
            && Doubling(env.baseBackoff, after.slept[|w.slept|..])
  {
    var pauses := AttemptSleeps(env, pid, 0, w);
    assert env.Delay(0) == env.baseBackoff;
    assert AttemptFrom(env, pid, 0, w).world.slept[|w.slept|..] == pauses;
  }
}
