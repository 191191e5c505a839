/** The hill-climb over transformation genomes: one bumped parameter per mutation, scored by the compiler stub. */
module TransformEvolution {
  import opened Prelude
  import opened CompilerStub

  const TILE_SIZE_MAX := 256
  const TILE_SIZE_BUMP := 8
  const UNROLL_FACTOR_MAX := 16
  const FUSED_LOOPS_MAX := 4

  type Genome = seq<TransformParams>

  /** The numeric parameter of a candidate's kind, with its default; interchange has none. */
  function Current(c: TransformParams): int {
    match c.kind
    case Tile => Param(c, "tile_size", 32)
    case Unroll => Param(c, "unroll_factor", 2)
    case Fusion => Param(c, "fused_loops", 2)
    case Interchange => 0
  }

  function Name(kind: TransformKind): string {
    match kind
    case Tile => "tile_size"
    case Unroll => "unroll_factor"
    case Fusion => "fused_loops"
    case Interchange => ""
  }

  function Cap(kind: TransformKind): int {
    match kind
    case Tile => TILE_SIZE_MAX
    case Unroll => UNROLL_FACTOR_MAX
    case Fusion => FUSED_LOOPS_MAX
    case Interchange => 0
  }

  function Bumped(kind: TransformKind, current: int): int {
    match kind
    case Tile => Min(TILE_SIZE_MAX, current + TILE_SIZE_BUMP)
    case Unroll => Min(UNROLL_FACTOR_MAX, current * 2)
    case Fusion => Min(FUSED_LOOPS_MAX, current + 1)
    case Interchange => current
  }

  function TryMutate(c: TransformParams): TransformParams {
    var bumped := Bumped(c.kind, Current(c));
    if bumped == Current(c) then c else c.(params := c.params[Name(c.kind) := bumped])
  }

  lemma MutatedParameter(c: TransformParams)
    ensures Current(TryMutate(c)) == Bumped(c.kind, Current(c))
    ensures TryMutate(c).kind == c.kind && TryMutate(c).legal == c.legal
    ensures TryMutate(c) != c <==> Bumped(c.kind, Current(c)) != Current(c)
  {
  }

  /** The first candidate that can be bumped is; the rest of the genome is untouched. */
  function Mutated(g: Genome): Genome {
    if g == [] then []
    else if TryMutate(g[0]) != g[0] then [TryMutate(g[0])] + g[1..]
    else [g[0]] + Mutated(g[1..])
  }

  lemma MutatedFrom(g: Genome, i: nat)
    requires i < |g|
    ensures g[i..] == [g[i]] + g[i + 1..]
    ensures Mutated(g[i..])
         == if TryMutate(g[i]) != g[i] then [TryMutate(g[i])] + g[i + 1..] else [g[i]] + Mutated(g[i + 1..])
  {
    assert g[i..][1..] == g[i + 1..];
  }

  lemma JoinAssociates<T>(a: seq<T>, x: T, b: seq<T>)
    ensures a + ([x] + b) == (a + [x]) + b
  {
  }

  method Mutate(genome: Genome) returns (variant: Genome)
    ensures variant == Mutated(genome)
  {
    variant := [];
    var mutated := false;
    for i := 0 to |genome|
      invariant Mutated(genome) == variant + (if mutated then genome[i..] else Mutated(genome[i..]))
    {
      var cand := genome[i];
      MutatedFrom(genome, i);
      if mutated {
        JoinAssociates(variant, cand, genome[i + 1..]);
        variant := variant + [cand];
        continue;
      }
      var changed := TryMutate(cand);
      if changed == cand {
        JoinAssociates(variant, cand, Mutated(genome[i + 1..]));
        variant := variant + [cand];
      } else {
        JoinAssociates(variant, changed, genome[i + 1..]);
        variant := variant + [changed];
        mutated := true;
      }
    }
  }

  // ---- Termination of the climb ----

  function Iterate(g: Genome, n: nat): Genome {
    if n == 0 then g else Mutated(Iterate(g, n - 1))
  }

  /** Mutations a candidate's parameter still takes. */
  function Steps(c: TransformParams): nat {
    var v := Current(c);
    match c.kind
    case Tile => if v > TILE_SIZE_MAX then 1 else (TILE_SIZE_MAX - v + 7) / 8
    case Fusion => if v > FUSED_LOOPS_MAX then 1 else FUSED_LOOPS_MAX - v
    case Unroll =>
      if v == 16 || v <= 0 then 0 else if v >= 8 then 1 else if v >= 4 then 2 else if v >= 2 then 3 else 4
    case Interchange => 0
  }

  function TotalSteps(g: Genome): nat {
    if g == [] then 0 else Steps(g[0]) + TotalSteps(g[1..])
  }

  /** Doubling a negative factor goes on for ever. */
  predicate Wild(c: TransformParams) {
    c.kind.Unroll? && Current(c) < 0
  }

  predicate Tame(g: Genome) {
    forall c :: c in g ==> !Wild(c)
  }

  lemma OneStep(c: TransformParams)
    ensures Wild(c) ==> Wild(TryMutate(c)) && TryMutate(c) != c
    ensures !Wild(c) ==>
              !Wild(TryMutate(c))
              && (TryMutate(c) == c <==> Steps(c) == 0)
              && (Steps(c) > 0 ==> Steps(TryMutate(c)) == Steps(c) - 1)
  {
    MutatedParameter(c);
  }

  /** On a tame genome every mutation takes exactly one of the remaining steps, until none is left. */
  lemma {:induction false} MutationTakesOneStep(g: Genome)
    requires Tame(g)
    ensures Tame(Mutated(g))
    ensures Mutated(g) == g <==> TotalSteps(g) == 0
    ensures TotalSteps(g) > 0 ==> TotalSteps(Mutated(g)) == TotalSteps(g) - 1
  {
    if g != [] {
      OneStep(g[0]);
      assert g == [g[0]] + g[1..];
      assert forall c :: c in g[1..] ==> c in g;
      MutationTakesOneStep(g[1..]);
      if TryMutate(g[0]) != g[0] {
        assert Mutated(g)[1..] == g[1..];
      } else {
        assert Mutated(g)[1..] == Mutated(g[1..]);
      }
    }
  }

  lemma {:induction false} WildNeverSettles(g: Genome)
    requires !Tame(g)
    ensures Mutated(g) != g && !Tame(Mutated(g))
  {
    OneStep(g[0]);
    assert g == [g[0]] + g[1..];
    if TryMutate(g[0]) != g[0] {
      var c :| c in g && Wild(c);
      assert Mutated(g)[0] == TryMutate(g[0]);
      if c == g[0] {
        assert Mutated(g)[0] in Mutated(g);
      } else {
        assert c in g[1..] && c in Mutated(g);
      }
    } else {
      assert forall c :: c in g ==> c == g[0] || c in g[1..];
      WildNeverSettles(g[1..]);
      var c :| c in Mutated(g[1..]) && Wild(c);
      assert c in Mutated(g);
      assert Mutated(g)[1..] == Mutated(g[1..]);
    }
  }

  predicate TakesOne(h: Genome, keeps: Genome -> bool, steps: Genome -> nat) {
    keeps(h) ==> keeps(Mutated(h)) && steps(Mutated(h)) == if steps(h) > 0 then steps(h) - 1 else 0
  }

  /** What every mutation takes one from, the iteration counts down to zero. */
  lemma {:induction false} CountsDown(g: Genome, n: nat, keeps: Genome -> bool, steps: Genome -> nat)
    requires keeps(g) && forall h :: TakesOne(h, keeps, steps)
    ensures keeps(Iterate(g, n))
    ensures steps(Iterate(g, n)) == if n < steps(g) then steps(g) - n else 0
  {
    if n > 0 {
      CountsDown(g, n - 1, keeps, steps);
      assert TakesOne(Iterate(g, n - 1), keeps, steps);
    }
  }

  lemma IterationCountsDown(g: Genome, n: nat)
    requires Tame(g)
    ensures Tame(Iterate(g, n))
    ensures TotalSteps(Iterate(g, n)) == if n < TotalSteps(g) then TotalSteps(g) - n else 0
  {
    forall h ensures TakesOne(h, Tame, TotalSteps) {
      if Tame(h) { MutationTakesOneStep(h); }
    }
    CountsDown(g, n, Tame, TotalSteps);
  }

  lemma {:induction false} WildIterates(g: Genome, n: nat)
    requires !Tame(g)
    ensures !Tame(Iterate(g, n))
  {
    if n > 0 {
      WildIterates(g, n - 1);
      WildNeverSettles(Iterate(g, n - 1));
    }
  }

  predicate Settled(g: Genome) {
    Mutated(g) == g
  }

  /** A tame genome settles after exactly its total number of steps, and not before. */
  lemma SettlesExactlyAt(g: Genome, n: nat)
    requires Tame(g)
    ensures Settled(Iterate(g, n)) <==> n >= TotalSteps(g)
  {
    IterationCountsDown(g, n);
    MutationTakesOneStep(Iterate(g, n));
  }

  /** Repeated mutation reaches a fixpoint exactly when no unroll factor is negative. */
  lemma SettlesIff(g: Genome)
    ensures (exists n :: Settled(Iterate(g, n))) <==> Tame(g)
  {
    if Tame(g) {
      SettlesExactlyAt(g, TotalSteps(g));
    } else {
      forall n ensures !Settled(Iterate(g, n)) {
        WildIterates(g, n);
        WildNeverSettles(Iterate(g, n));
      }
    }
  }

  /** The sum of the parameters' distances to their caps. */
  function Distance(g: Genome): int {
    if g == [] then 0 else Cap(g[0].kind) - Current(g[0]) + Distance(g[1..])
  }

  predicate WithinCaps(g: Genome) {
    forall c :: c in g ==> c.kind.Interchange? || 1 <= Current(c) <= Cap(c.kind)
  }

  lemma StepsWithinOne(c: TransformParams)
    requires c.kind.Interchange? || 1 <= Current(c) <= Cap(c.kind)
    ensures !Wild(c) && Steps(c) <= Cap(c.kind) - Current(c)
  {
  }

  lemma {:induction false} StepsWithinDistance(g: Genome)
    requires WithinCaps(g)
    ensures Tame(g) && TotalSteps(g) <= Distance(g)
  {
    if g != [] {
      var c, rest := g[0], g[1..];
      assert g == [c] + rest;
      assert c in g && WithinCaps(rest);
      StepsWithinOne(c);
      StepsWithinDistance(rest);
    }
  }

  // ---- Scoring ----

  datatype FitnessSignal = FitnessSignal(quality: real, cost: real, latency: real, regression: bool)

  /** `genome[:max_candidates]`, negative counts dropping from the end. */
  function Tried(g: Genome, maxCandidates: Option<int>): Genome {
    match maxCandidates
    case None => g
    case Some(m) => if m < 0 then g[..Max(0, |g| + m)] else g[..Min(|g|, m)]
  }

  predicate Improves(c: TransformParams, b: Metrics) {
    Invoke(c, b).Some? && Invoke(c, b).value.BetterThan(b)
  }

  /** The share of the baseline's cycles an improving candidate saves. */
  function Reduction(c: TransformParams, b: Metrics): real {
    if Improves(c, b) && b.cycles > 0
    then (b.cycles - Invoke(c, b).value.cycles) as real / b.cycles as real else 0.0
  }

  function Reductions(cs: Genome, b: Metrics): (rs: seq<real>)
    ensures |rs| == |cs|
  {
    seq(|cs|, i requires 0 <= i < |cs| => Reduction(cs[i], b))
  }

  /** The largest of the values, and of zero. */
  function Highest(rs: seq<real>): real {
    if rs == [] then 0.0
    else
      var h, r := Highest(rs[..|rs| - 1]), rs[|rs| - 1];
      if r > h then r else h
  }

  function Best(cs: Genome, b: Metrics): real {
    Highest(Reductions(cs, b))
  }

  predicate AnyImproves(cs: Genome, b: Metrics) {
    exists c :: c in cs && Improves(c, b)
  }

  /** Quality is clamped to [0, 1] as the source does it. */
  function Clamp(q: real): real {
    if q > 1.0 then 1.0 else if q < 0.0 then 0.0 else q
  }

  method Evaluate(genome: Genome, baseline: Metrics, maxCandidates: Option<int>) returns (f: FitnessSignal)
    ensures f == Fitness(genome, baseline, maxCandidates)
  {
    var candidates := Tried(genome, maxCandidates);
    var bestReduction := 0.0;
    var anyImprovement := false;
    var tried := 0;
    for i := 0 to |candidates|
      invariant tried == i
      invariant bestReduction == Best(candidates[..i], baseline)
      invariant anyImprovement <==> AnyImproves(candidates[..i], baseline)
    {
      tried := tried + 1;
      var cand := candidates[i];
      ScoreSnoc(candidates, i, baseline);
      var metrics := Invoke(cand, baseline);
      if metrics.None? {
        continue;
      }
      if metrics.value.BetterThan(baseline) {
        anyImprovement := true;
        if baseline.cycles > 0 {
          var reduction := (baseline.cycles - metrics.value.cycles) as real / baseline.cycles as real;
          if reduction > bestReduction {
            bestReduction := reduction;
          }
        }
      }
    }
    assert candidates[..|candidates|] == candidates;
    f := FitnessSignal(Clamp(bestReduction), tried as real, 1.0, !anyImprovement);
  }

  function Fitness(g: Genome, b: Metrics, maxCandidates: Option<int>): FitnessSignal {
    var cs := Tried(g, maxCandidates);
    FitnessSignal(Clamp(Best(cs, b)), |cs| as real, 1.0, !AnyImproves(cs, b))
  }

  lemma ImprovesSnoc(cs: Genome, c: TransformParams, b: Metrics)
    ensures AnyImproves(cs + [c], b) <==> AnyImproves(cs, b) || Improves(c, b)
  {
    if AnyImproves(cs, b) {
      var d :| d in cs && Improves(d, b);
      assert d in cs + [c];
    }
    if Improves(c, b) {
      assert c in cs + [c];
    }
  }

  lemma ScoreSnoc(cs: Genome, i: nat, b: Metrics)
    requires i < |cs|
    ensures var (best, r) := (Best(cs[..i], b), Reduction(cs[i], b));
            0.0 <= best && Best(cs[..i + 1], b) == if r > best then r else best
    ensures AnyImproves(cs[..i + 1], b) <==> AnyImproves(cs[..i], b) || Improves(cs[i], b)
  {
    assert cs[..i + 1] == cs[..i] + [cs[i]];
    ImprovesSnoc(cs[..i], cs[i], b);
    HighestInOrder(Reductions(cs[..i], b));
    assert Reductions(cs[..i + 1], b)[..i] == Reductions(cs[..i], b);
  }

  /** The highest of the values bounds them all, and is one of them or zero. */
  lemma {:induction false} HighestInOrder(rs: seq<real>)
    ensures Highest(rs) >= 0.0 && forall r :: r in rs ==> r <= Highest(rs)
    ensures Highest(rs) == 0.0 || Highest(rs) in rs
  {
    if rs != [] {
      var n := |rs| - 1;
      HighestInOrder(rs[..n]);
      assert rs == rs[..n] + [rs[n]];
    }
  }

  lemma ReductionAtMostOne(c: TransformParams, b: Metrics)
    ensures Reduction(c, b) <= 1.0
  {
    if Improves(c, b) && b.cycles > 0 {
      var n := Invoke(c, b).value.cycles;
      QuotientAtMostOne((b.cycles - n) as real, b.cycles as real);
    }
  }

  lemma QuotientAtMostOne(x: real, y: real)
    requires y > 0.0 && x <= y
    ensures x / y <= 1.0
  {
  }

  /** The best reduction lies in [0, 1], so the clamp never acts. */
  lemma BestInUnit(cs: Genome, b: Metrics)
    ensures 0.0 <= Best(cs, b) <= 1.0 && Clamp(Best(cs, b)) == Best(cs, b)
  {
    var rs := Reductions(cs, b);
    HighestInOrder(rs);
    forall r | r in rs ensures r <= 1.0 {
      var i :| 0 <= i < |rs| && rs[i] == r;
      ReductionAtMostOne(cs[i], b);
    }
  }

  // ---- Mutation never worsens ----

  predicate AtMostCap(c: TransformParams) {
    c.kind.Interchange? || Current(c) <= Cap(c.kind)
  }

  /** Bumping the candidate cannot cost anything: it never runs, or its parameter does not exceed its cap. */
  predicate SafeToBump(c: TransformParams) {
    !c.legal || AtMostCap(c)
  }

  predicate AllSafe(g: Genome) {
    forall c :: c in g ==> SafeToBump(c)
  }

  /** Position i holds the candidate the next mutation bumps. */
  predicate IsBumped(g: Genome, i: int) {
    0 <= i < |g| && TryMutate(g[i]) != g[i] && forall j :: 0 <= j < i ==> TryMutate(g[j]) == g[j]
  }

  lemma {:induction false} FusionOverSteps(cycles: nat, k: nat, m: nat)
    requires k <= m
    ensures FusedCycles(cycles, m) <= FusedCycles(cycles, k)
  {
    if k < m {
      FusionOverSteps(cycles, k, m - 1);
      FusionIsMonotone(cycles, m - 1);
    }
  }

  /** A bumped candidate still runs, with no more cycles and, unless it tiles, the same spills. */
  lemma BumpNeverCostsCycles(c: TransformParams, b: Metrics)
    requires AtMostCap(c) && Invoke(c, b).Some?
    ensures Invoke(TryMutate(c), b).Some?
    ensures Invoke(TryMutate(c), b).value.cycles <= Invoke(c, b).value.cycles
    ensures !c.kind.Tile? ==> Invoke(TryMutate(c), b).value.spills == Invoke(c, b).value.spills
  {
    MutatedParameter(c);
    var v, w := Current(c), Bumped(c.kind, Current(c));
    match c.kind {
      case Tile => DivisionIsAntitone(b.cycles, v, w);
      case Unroll => DivisionIsAntitone(b.cycles, v, w);
      case Fusion => FusionOverSteps(b.cycles, v, w);
      case Interchange =>
    }
  }

  /** At equal cycles only fewer spills can make a tiled, fused or unrolled candidate better. */
  lemma TieNeedsFewerSpills(c: TransformParams, b: Metrics)
    requires !c.kind.Interchange? && b.isValid && b.energy >= 0.0 && Improves(c, b)
    ensures var m := Invoke(c, b).value;
            m.cycles < b.cycles || (m.cycles == b.cycles && m.spills < b.spills)
  {
    var m := Invoke(c, b).value;
    if m.cycles == b.cycles {
      SameCyclesSameEnergy(b, m.regPressure, m.spills);
    }
  }

  lemma BumpKeepsImproving(c: TransformParams, b: Metrics)
    requires SafeToBump(c) && b.energy >= 0.0 && Improves(c, b)
    ensures Improves(TryMutate(c), b)
  {
    BumpNeverCostsCycles(c, b);
    if c.kind.Interchange? {
      MutatedParameter(c);
    } else if b.isValid {
      TieNeedsFewerSpills(c, b);
    }
  }

  lemma BumpNeverLowersReduction(c: TransformParams, b: Metrics)
    requires SafeToBump(c) && b.energy >= 0.0
    ensures Reduction(c, b) <= Reduction(TryMutate(c), b) || Reduction(c, b) <= 0.0
  {
    if Improves(c, b) && b.cycles > 0 {
      BumpKeepsImproving(c, b);
      BumpNeverCostsCycles(c, b);
      var m, n := Invoke(c, b).value.cycles, Invoke(TryMutate(c), b).value.cycles;
      DividedOrder((b.cycles - m) as real, (b.cycles - n) as real, b.cycles as real);
    }
  }

  lemma DividedOrder(x: real, y: real, d: real)
    requires x <= y && d > 0.0
    ensures x / d <= y / d
  {
  }

  /** The genome with candidate i bumped. */
  lemma {:induction false} MutatedAt(g: Genome) returns (i: nat)
    ensures i <= |g| && |Mutated(g)| == |g|
    ensures i < |g| ==> IsBumped(g, i)
    ensures Mutated(g) == if i < |g| then g[i := TryMutate(g[i])] else g
  {
    i := 0;
    if g != [] {
      var x, rest := g[0], g[1..];
      assert g == [x] + rest;
      if TryMutate(x) == x {
        i := MutatedAt(rest);
        assert i < |rest| ==> [x] + rest[i := TryMutate(rest[i])] == g[i + 1 := TryMutate(g[i + 1])];
        i := i + 1;
      } else {
        assert [TryMutate(x)] + rest == g[0 := TryMutate(x)];
      }
    }
  }

  lemma {:induction false} HighestAfterSwap(rs: seq<real>, i: nat, r: real)
    requires i < |rs| && (rs[i] <= r || rs[i] <= 0.0)
    ensures Highest(rs) <= Highest(rs[i := r])
  {
    var us, n := rs[i := r], |rs| - 1;
    HighestInOrder(rs[..n]);
    if i == n {
      assert us[..n] == rs[..n];
    } else {
      assert us[..n] == rs[..n][i := r];
      HighestAfterSwap(rs[..n], i, r);
    }
  }

  lemma BestAfterBump(cs: Genome, b: Metrics, i: nat)
    requires i < |cs| && SafeToBump(cs[i]) && b.energy >= 0.0
    ensures Best(cs, b) <= Best(cs[i := TryMutate(cs[i])], b)
  {
    var d := TryMutate(cs[i]);
    BumpNeverLowersReduction(cs[i], b);
    HighestAfterSwap(Reductions(cs, b), i, Reduction(d, b));
    assert Reductions(cs[i := d], b) == Reductions(cs, b)[i := Reduction(d, b)];
  }

  lemma ImprovementAfterBump(cs: Genome, b: Metrics, i: nat)
    requires i < |cs| && SafeToBump(cs[i]) && b.energy >= 0.0 && AnyImproves(cs, b)
    ensures AnyImproves(cs[i := TryMutate(cs[i])], b)
  {
    var ds := cs[i := TryMutate(cs[i])];
    var c :| c in cs && Improves(c, b);
    var j :| 0 <= j < |cs| && cs[j] == c;
    if j == i {
      BumpKeepsImproving(c, b);
    }
    assert ds[j] in ds;
  }

  /** As long as the candidate it bumps is safe to bump, a mutation never lowers the quality, never introduces a
      regression and never changes cost or latency, on any dataset. */
  lemma MutationNeverWorsens(g: Genome, b: Metrics, maxCandidates: Option<int>)
    requires b.energy >= 0.0 && forall i :: IsBumped(g, i) ==> SafeToBump(g[i])
    ensures var (f, m) := (Fitness(g, b, maxCandidates), Fitness(Mutated(g), b, maxCandidates));
            0.0 <= f.quality <= m.quality <= 1.0 && (m.regression ==> f.regression)
            && m.cost == f.cost && m.latency == f.latency
  {
    var i := MutatedAt(g);
    var cs := Tried(g, maxCandidates);
    var ds := Tried(Mutated(g), maxCandidates);
    BestInUnit(cs, b);
    BestInUnit(ds, b);
    if i < |cs| {
      assert cs[i] == g[i];
      assert ds == cs[i := TryMutate(cs[i])];
      BestAfterBump(cs, b, i);
      if AnyImproves(cs, b) { ImprovementAfterBump(cs, b, i); }
    } else {
      assert ds == cs;
    }
  }

  lemma {:induction false} MutationStaysSafe(g: Genome)
    requires AllSafe(g)
    ensures AllSafe(Mutated(g))
  {
    var i := MutatedAt(g);
    if i < |g| {
      assert g[i] in g;
      MutatedParameter(g[i]);
    }
  }

  predicate Raises(h: Genome, keeps: Genome -> bool, score: Genome -> real) {
    keeps(h) ==> keeps(Mutated(h)) && score(h) <= score(Mutated(h))
  }

  /** What every mutation keeps or raises, the climb keeps or raises. */
  lemma {:induction false} ClimbKeeps(g: Genome, n: nat, keeps: Genome -> bool, score: Genome -> real)
    requires keeps(g) && forall h :: Raises(h, keeps, score)
    ensures keeps(Iterate(g, n)) && score(g) <= score(Iterate(g, n))
  {
    if n > 0 {
      ClimbKeeps(g, n - 1, keeps, score);
      assert Raises(Iterate(g, n - 1), keeps, score);
    }
  }

  /** As long as no legal candidate exceeds its cap, quality only rises along the whole climb. */
  lemma ClimbNeverWorsens(g: Genome, b: Metrics, maxCandidates: Option<int>, n: nat)
    requires AllSafe(g) && b.energy >= 0.0
    ensures AllSafe(Iterate(g, n))
    ensures Fitness(g, b, maxCandidates).quality <= Fitness(Iterate(g, n), b, maxCandidates).quality
  {
    var quality := h => Fitness(h, b, maxCandidates).quality;
    forall h ensures Raises(h, AllSafe, quality) {
      if AllSafe(h) {
        MutationStaysSafe(h);
        assert forall i :: IsBumped(h, i) ==> h[i] in h;
        MutationNeverWorsens(h, b, maxCandidates);
      }
    }
    ClimbKeeps(g, n, AllSafe, quality);
  }

  // ---- Above the cap ----

  function PlainBaseline(cycles: nat): Metrics { Metrics(cycles, 0, 0, 0.0, true) }

  lemma {:induction false} PowOrder(k: nat)
    ensures 0 < Pow(7, k) <= Pow(10, k)
    ensures k > 0 ==> Pow(7, k) < Pow(10, k)
  {
    if k > 0 { PowOrder(k - 1); }
  }

  lemma ExactQuotient(q: nat, d: nat)
    requires d > 0
    ensures (q * d) / d == q && (q * d) % d == 0
  {
    QuotientUnique(q * d, d, q, 0);
  }

  /** A baseline on which cutting a parameter down to its cap visibly costs cycles. */
  lemma CapCostsCycles(c: TransformParams) returns (cycles: nat)
    requires c.legal && !AtMostCap(c)
    ensures var b := PlainBaseline(cycles);
            cycles > 0 && Invoke(c, b).Some? && Invoke(TryMutate(c), b).Some?
            && Invoke(c, b).value.cycles < Invoke(TryMutate(c), b).value.cycles
            && Invoke(c, b).value.cycles < cycles
  {
    MutatedParameter(c);
    var v := Current(c);
    match c.kind {
      case Tile =>
        cycles := 256 * v;
        ExactQuotient(256, v);
        ExactQuotient(v, 256);
      case Unroll =>
        cycles := 16 * v;
        ExactQuotient(16, v);
        ExactQuotient(v, 16);
      case Fusion =>
        cycles := Pow(10, v);
        PowOrder(v);
        ExactQuotient(Pow(7, v), Pow(10, v));
        assert FusedCycles(cycles, v) == Pow(7, v);
        PowSplits(7, v - 4, 4);
        PowSplits(10, v - 4, 4);
        PowOrder(v - 4);
        assert cycles * Pow(7, 4) == (Pow(10, v - 4) * Pow(7, 4)) * Pow(10, 4);
        ExactQuotient(Pow(10, v - 4) * Pow(7, 4), Pow(10, 4));
        assert FusedCycles(cycles, 4) == Pow(10, v - 4) * Pow(7, 4);
        assert Pow(7, 4) > 0;
        assert Pow(7, v - 4) * Pow(7, 4) < Pow(10, v - 4) * Pow(7, 4);
    }
  }

  lemma MulSwap(x: nat, y: nat, z: nat)
    ensures x * (y * z) == y * (x * z)
  {
  }

  lemma {:induction false} PowSplits(x: nat, a: nat, b: nat)
    ensures Pow(x, a + b) == Pow(x, a) * Pow(x, b)
  {
    if b > 0 {
      PowSplits(x, a, b - 1);
      MulSwap(x, Pow(x, a), Pow(x, b - 1));
    }
  }

  lemma HighestOfOne(r: real)
    ensures Highest([r]) == if r > 0.0 then r else 0.0
  {
    assert [r][..0] == [];
  }

  lemma SingleQuality(c: TransformParams, b: Metrics)
    ensures Fitness([c], b, None).quality == (if Reduction(c, b) > 0.0 then Reduction(c, b) else 0.0)
  {
    BestInUnit([c], b);
    HighestOfOne(Reduction(c, b));
    assert Reductions([c], b) == [Reduction(c, b)];
  }

  lemma StrictQuotient(x: real, y: real, d: real)
    requires x < y && y > 0.0 && d > 0.0
    ensures x / d < y / d && y / d > 0.0
  {
  }

  lemma AboveCapWorsens(c: TransformParams) returns (b: Metrics)
    requires c.legal && !AtMostCap(c)
    ensures b.energy >= 0.0 && Fitness([c], b, None).quality > Fitness([TryMutate(c)], b, None).quality
  {
    var cycles := CapCostsCycles(c);
    b := PlainBaseline(cycles);
    SingleQuality(c, b);
    SingleQuality(TryMutate(c), b);
    FewerCyclesReduceMore(c, TryMutate(c), cycles);
  }

  lemma FewerCyclesReduceMore(c: TransformParams, d: TransformParams, cycles: nat)
    requires cycles > 0 && Invoke(c, PlainBaseline(cycles)).Some? && Invoke(d, PlainBaseline(cycles)).Some?
    requires Invoke(c, PlainBaseline(cycles)).value.cycles < Invoke(d, PlainBaseline(cycles)).value.cycles
    requires Invoke(c, PlainBaseline(cycles)).value.cycles < cycles
    ensures var b := PlainBaseline(cycles); Reduction(c, b) > 0.0 && Reduction(d, b) < Reduction(c, b)
  {
    var b := PlainBaseline(cycles);
    var x, y := Invoke(c, b).value.cycles, Invoke(d, b).value.cycles;
    StrictQuotient((cycles - y) as real, (cycles - x) as real, cycles as real);
  }

  /** For a single candidate, mutation never lowers the quality on any dataset exactly when the candidate is illegal, so
      that it never runs, or its parameter does not exceed its cap: above the cap the "bump" is a cut. */
  lemma SingleNeverWorsensIff(c: TransformParams)
    ensures (forall b: Metrics :: b.energy >= 0.0 ==>
               Fitness([c], b, None).quality <= Fitness([TryMutate(c)], b, None).quality)
            <==> !c.legal || AtMostCap(c)
    ensures Mutated([c]) == [TryMutate(c)]
  {
    assert [c][1..] == [];
    if SafeToBump(c) {
      forall b: Metrics | b.energy >= 0.0
        ensures Fitness([c], b, None).quality <= Fitness([TryMutate(c)], b, None).quality
      {
        MutationNeverWorsens([c], b, None);
      }
    } else {
      var b := AboveCapWorsens(c);
    }
  }

  // ---- The climb, spelled out ----

  /** The next value of a parameter: one bump further, but not past the cap. */
  predicate Next(kind: TransformKind, v: int, w: int) {
    match kind
    case Tile => w == if v + 8 > 256 then 256 else v + 8
    case Unroll => w == if v + v > 16 then 16 else v + v
    case Fusion => w == if v + 1 > 4 then 4 else v + 1
    case Interchange => w == v
  }

  lemma BumpMeans(c: TransformParams, v: int, w: int)
    requires Carries(c, v) && Next(c.kind, v, w)
    ensures v == w ==> TryMutate(c) == c
    ensures v != w ==> !c.kind.Interchange? && Carries(TryMutate(c), w)
                       && TryMutate(c).kind == c.kind && TryMutate(c).legal == c.legal
                       && (forall name :: name in c.params ==> name in TryMutate(c).params)
                       && forall name :: name in TryMutate(c).params && !IsParameter(c.kind, name) ==>
                            name in c.params && TryMutate(c).params[name] == c.params[name]
  {
  }

  predicate IsParameter(kind: TransformKind, name: string) {
    (kind.Tile? && name == "tile_size") || (kind.Unroll? && name == "unroll_factor")
    || (kind.Fusion? && name == "fused_loops")
  }

  /** Of n candidates, those up to the limit are tried; a negative limit leaves out as many at the end. */
  predicate TriesFirst(n: nat, maxCandidates: Option<int>, tried: nat) {
    match maxCandidates
    case None => tried == n
    case Some(m) =>
      if m >= 0 then tried == (if m < n then m else n) else tried == (if n + m > 0 then n + m else 0)
  }

  lemma TriedMeans(g: Genome, maxCandidates: Option<int>)
    ensures TriesFirst(|g|, maxCandidates, |Tried(g, maxCandidates)|) && Tried(g, maxCandidates) <= g
  {
  }

  /** Candidate i runs, to metrics that beat the baseline. */
  predicate Wins(g: Genome, i: int, b: Metrics, m: Metrics) {
    0 <= i < |g| && Invoke(g[i], b) == Some(m) && Beats(m, b)
  }

  /** The cycles these metrics save, as a share of the baseline's. */
  predicate Saves(m: Metrics, b: Metrics, share: real) {
    share * b.cycles as real == (b.cycles - m.cycles) as real
  }

  /** The quality is the largest share of cycles a winner among the first n saves, or zero. */
  ghost predicate IsBestShare(g: Genome, n: nat, b: Metrics, quality: real) {
    quality >= 0.0
    && (forall i, m, share :: i < n && b.cycles > 0 && Wins(g, i, b, m) && Saves(m, b, share) ==> share <= quality)
    && (quality == 0.0 || exists i, m :: i < n && b.cycles > 0 && Wins(g, i, b, m) && Saves(m, b, quality))
  }

  lemma SharesAreUnique(x: real, y: real, z: real)
    requires y > 0.0
    ensures x * y == z <==> x == z / y
  {
  }

  lemma SavesMeans(m: Metrics, b: Metrics, share: real)
    requires b.cycles > 0
    ensures Saves(m, b, share) <==> share == (b.cycles - m.cycles) as real / b.cycles as real
  {
    SharesAreUnique(share, b.cycles as real, (b.cycles - m.cycles) as real);
  }

  lemma ImprovesMeans(cs: Genome, i: int, b: Metrics)
    requires 0 <= i < |cs|
    ensures Improves(cs[i], b) <==> exists m :: Wins(cs, i, b, m)
    ensures forall m :: Wins(cs, i, b, m) ==> Improves(cs[i], b) && Invoke(cs[i], b) == Some(m)
  {
    if Invoke(cs[i], b).Some? {
      BetterMeans(Invoke(cs[i], b).value, b);
      assert Improves(cs[i], b) <==> Wins(cs, i, b, Invoke(cs[i], b).value);
    }
  }

  lemma ReductionMeans(c: TransformParams, b: Metrics, share: real)
    requires Improves(c, b) && b.cycles > 0
    ensures Saves(Invoke(c, b).value, b, share) <==> share == Reduction(c, b)
  {
    SavesMeans(Invoke(c, b).value, b, share);
  }

  lemma BestMeans(cs: Genome, b: Metrics)
    ensures IsBestShare(cs, |cs|, b, Best(cs, b))
  {
    var rs := Reductions(cs, b);
    HighestInOrder(rs);
    forall i, m, share | i < |cs| && b.cycles > 0 && Wins(cs, i, b, m) && Saves(m, b, share)
      ensures share <= Best(cs, b)
    {
      ImprovesMeans(cs, i, b);
      ReductionMeans(cs[i], b, share);
      assert rs[i] in rs;
    }
    if Best(cs, b) != 0.0 {
      var i :| 0 <= i < |rs| && rs[i] == Best(cs, b);
      ImprovesMeans(cs, i, b);
      ReductionMeans(cs[i], b, rs[i]);
    }
  }

  /** What a fitness signal says: the best share saved by a candidate that beats the baseline, how many were tried, and
      whether none of them beats it. */
  lemma FitnessMeans(g: Genome, b: Metrics, maxCandidates: Option<int>) returns (n: nat)
    ensures TriesFirst(|g|, maxCandidates, n)
    ensures var f := Fitness(g, b, maxCandidates);
            IsBestShare(g, n, b, f.quality) && f.cost == n as real && f.latency == 1.0
            && (f.regression <==> !exists i, m :: i < n && Wins(g, i, b, m))
  {
    var cs := Tried(g, maxCandidates);
    n := |cs|;
    TriedMeans(g, maxCandidates);
    BestInUnit(cs, b);
    BestMeans(cs, b);
    assert forall i, m :: i < n ==> (Wins(g, i, b, m) <==> Wins(cs, i, b, m));
    forall i | 0 <= i < n ensures Improves(cs[i], b) <==> exists m :: Wins(cs, i, b, m) {
      ImprovesMeans(cs, i, b);
    }
    if AnyImproves(cs, b) {
      var c :| c in cs && Improves(c, b);
      var i :| 0 <= i < n && cs[i] == c;
      assert exists m :: Wins(cs, i, b, m);
    }
    if i, m :| i < n && Wins(cs, i, b, m) {
      assert cs[i] in cs && Improves(cs[i], b);
    }
  }
}
