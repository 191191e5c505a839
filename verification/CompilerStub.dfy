/** The deterministic compiler stub: how a loop transformation changes the metrics. */
module CompilerStub {
  import opened Prelude

  datatype TransformKind = Tile | Interchange | Fusion | Unroll

  /** A candidate transformation; numeric parameters are whole numbers. */
  datatype TransformParams = TransformParams(kind: TransformKind, params: map<string, int>, legal: bool)

  /** Cache misses and vectorisation keep their defaults throughout and never break a tie. */
  datatype Metrics = Metrics(cycles: nat, regPressure: nat, spills: nat, energy: real, isValid: bool)
  {
    /** Strictly better: validity first, then cycles, spills and energy. */
    predicate BetterThan(other: Metrics) {
      if isValid != other.isValid then isValid
      else if cycles != other.cycles then cycles < other.cycles
      else if spills != other.spills then spills < other.spills
      else energy < other.energy
    }
  }

  function Max(a: int, b: int): int { if a < b then b else a }

  function Min(a: int, b: int): int { if a < b then a else b }

  function Param(c: TransformParams, name: string, default: int): int {
    if name in c.params then c.params[name] else default
  }

  lemma {:induction false} PowPositive(x: nat, k: nat)
    requires x > 0
    ensures Pow(x, k) > 0
  {
    if k > 0 { PowPositive(x, k - 1); }
  }

  /** a / d to the nearest whole number, halves to even. */
  function RoundHalfEven(a: nat, d: nat): nat
    requires d > 0
  {
    var q, r := a / d, a % d;
    if 2 * r < d || (2 * r == d && q % 2 == 0) then q else q + 1
  }

  /** `round(cycles * 0.7**k)`, in exact arithmetic. */
  function FusedCycles(cycles: nat, k: nat): nat {
    PowPositive(10, k);
    RoundHalfEven(cycles * Pow(7, k), Pow(10, k))
  }

  /** The transformed metrics: always valid, with energy scaled by the change in cycles. */
  function Transformed(b: Metrics, cycles: nat, regPressure: nat, spills: nat): Metrics {
    var scaled := b.energy * (cycles as real / Max(1, b.cycles) as real);
    Metrics(cycles, regPressure, spills, if scaled > 0.0 then scaled else 0.0, true)
  }

  /** None stands for the ValueError of an out-of-range parameter. */
  function ApplyTransform(c: TransformParams, b: Metrics): Option<Metrics> {
    match c.kind
    case Tile =>
      var n := Param(c, "tile_size", 32);
      if n <= 0 then None
      else Some(Transformed(b, Max(1, b.cycles / n), b.regPressure + 2 * n, b.spills + (n + 15) / 16))
    case Interchange =>
      Some(Transformed(b, b.cycles, Max(0, b.regPressure - 1), b.spills))
    case Fusion =>
      var k := Param(c, "fused_loops", 2);
      if k <= 0 then None
      else Some(Transformed(b, Max(1, FusedCycles(b.cycles, k)), b.regPressure + 4 * k, Max(0, b.spills - 1)))
    case Unroll =>
      var factor := Param(c, "unroll_factor", 2);
      if factor <= 1 then None
      else Some(Transformed(b, Max(1, b.cycles / factor), b.regPressure + factor, Max(0, b.spills - 1)))
  }

  /** The tool call: an illegal candidate fails like an out-of-range one. */
  function Invoke(c: TransformParams, b: Metrics): Option<Metrics> {
    if !c.legal then None else ApplyTransform(c, b)
  }

  // ---- Monotonicity of the cost formulas ----

  /** Rounding is monotone in the numerator. */
  lemma RoundIsMonotone(a: nat, b: nat, d: nat)
    requires d > 0 && a <= b
    ensures RoundHalfEven(a, d) <= RoundHalfEven(b, d)
  {
    QuotientIsMonotone(a, b, d);
    if a / d == b / d {
      assert a % d == a - d * (a / d) && b % d == b - d * (b / d);
    }
  }

  lemma MulAtLeast(x: int, d: nat)
    requires x >= 1
    ensures x * d >= d
  {
  }

  lemma LessThanOne(x: int, d: nat)
    requires x * d < d
    ensures x < 1
  {
    if x >= 1 { MulAtLeast(x, d); }
  }

  lemma QuotientIsMonotone(a: nat, b: nat, d: nat)
    requires d > 0 && a <= b
    ensures a / d <= b / d
  {
    var x := a / d - b / d;
    assert x * d == d * (a / d) - d * (b / d);
    LessThanOne(x, d);
  }

  lemma QuotientUnique(a: nat, d: nat, q: nat, r: nat)
    requires d > 0 && r < d && a == q * d + r
    ensures a / d == q && a % d == r
  {
    var x, y := a / d - q, q - a / d;
    assert x * d == d * (a / d) - q * d;
    assert y * d == q * d - d * (a / d);
    LessThanOne(x, d);
    LessThanOne(y, d);
  }

  lemma MulDistributes(m: nat, x: nat, y: nat)
    ensures m * (x + y) == m * x + m * y
  {
  }

  lemma MulExchange(m: nat, q: nat, d: nat)
    ensures m * (q * d) == q * (m * d)
  {
  }

  lemma ScaledDivision(m: nat, q: nat, d: nat, r: nat)
    requires m > 0 && r < d
    ensures m * (q * d + r) == q * (m * d) + m * r
    ensures m * r < m * d
  {
    MulDistributes(m, q * d, r);
    MulExchange(m, q, d);
    MulDistributes(m, r, d - r);
    MulAtLeast(d - r, m);
  }

  /** Rounding depends on the fraction only. */
  lemma RoundOfScaled(a: nat, d: nat, m: nat)
    requires d > 0 && m > 0
    ensures m * d > 0
    ensures RoundHalfEven(m * a, m * d) == RoundHalfEven(a, d)
  {
    var q, r := a / d, a % d;
    assert a == q * d + r;
    ScaledDivision(m, q, d, r);
    QuotientUnique(m * a, m * d, q, m * r);
    ScaledComparison(m, r, d);
  }

  lemma ScaledComparison(m: nat, r: nat, d: nat)
    requires m > 0
    ensures 2 * (m * r) < m * d <==> 2 * r < d
    ensures 2 * (m * r) == m * d <==> 2 * r == d
  {
    assert 2 * (m * r) == m * (2 * r);
    if 2 * r < d { assert m * (2 * r) < m * d; }
    if 2 * r > d { assert m * (2 * r) > m * d; }
  }

  /** Fusing one more loop never costs cycles. */
  lemma FusionIsMonotone(cycles: nat, k: nat)
    ensures FusedCycles(cycles, k + 1) <= FusedCycles(cycles, k)
  {
    PowPositive(10, k);
    var p, t := Pow(7, k), Pow(10, k);
    RoundOfScaled(cycles * p, t, 10);
    assert cycles * Pow(7, k + 1) == 7 * (cycles * p);
    RoundIsMonotone(7 * (cycles * p), 10 * (cycles * p), 10 * t);
  }

  lemma MulMonotone(q: nat, n: nat, m: nat)
    requires n <= m
    ensures q * n <= m * q
  {
    assert m * q - q * n == (m - n) * q;
  }

  /** Larger tiles and factors never cost cycles. */
  lemma DivisionIsAntitone(cycles: nat, n: nat, m: nat)
    requires 0 < n <= m
    ensures cycles / m <= cycles / n
  {
    var q := cycles / m;
    var x := q - cycles / n;
    MulMonotone(q, n, m);
    assert m * q <= cycles < n * (cycles / n) + n;
    assert x * n == q * n - n * (cycles / n);
    LessThanOne(x, n);
  }

  /** Scaling by an unchanged cycle count changes no energy. */
  lemma SameCyclesSameEnergy(b: Metrics, regPressure: nat, spills: nat)
    requires b.cycles >= 1 && b.energy >= 0.0
    ensures Transformed(b, b.cycles, regPressure, spills).energy == b.energy
  {
    assert b.cycles as real / Max(1, b.cycles) as real == 1.0;
  }

  // ---- The formulas, in whole numbers ----

  /** q is a / d, rounded down. */
  predicate IsFloor(q: nat, a: nat, d: nat) {
    q * d <= a < q * d + d
  }

  /** q is the whole number nearest to a / d, the even one of two. */
  predicate IsNearest(q: nat, a: nat, d: nat) {
    2 * (q * d) <= 2 * a + d && 2 * a <= 2 * (q * d) + d
    && (q % 2 == 1 ==> 2 * (q * d) < 2 * a + d && 2 * a < 2 * (q * d) + d)
  }

  /** n blocks of sixteen, the last one possibly short, hold this many. */
  predicate BlocksOfSixteen(n: int, size: int) {
    16 * n - 16 < size <= 16 * n
  }

  function AtLeastOne(q: nat): nat { if q == 0 then 1 else q }

  function LessOne(n: nat): nat { if n == 0 then 0 else n - 1 }

  lemma FloorMeans(a: nat, d: nat)
    requires d > 0
    ensures IsFloor(a / d, a, d)
  {
    assert a == d * (a / d) + a % d;
  }

  lemma RoundMeans(a: nat, d: nat)
    requires d > 0
    ensures IsNearest(RoundHalfEven(a, d), a, d)
  {
    var q, r := a / d, a % d;
    assert a == q * d + r;
    assert (q + 1) * d == q * d + d;
    assert q % 2 == 1 <==> (q + 1) % 2 == 0;
  }

  /** How a transformation of this kind and parameter changes the counts: `q` cycles, at least one. */
  predicate Reshapes(kind: TransformKind, v: int, b: Metrics, m: Metrics, q: nat) {
    m.cycles == AtLeastOne(q)
    && match kind
       case Tile =>
         v > 0 && IsFloor(q, b.cycles, v) && m.regPressure == b.regPressure + 2 * v
         && m.spills >= b.spills && BlocksOfSixteen(m.spills - b.spills, v)
       case Fusion =>
         v > 0 && IsNearest(q, b.cycles * Pow(7, v), Pow(10, v)) && m.regPressure == b.regPressure + 4 * v
         && m.spills == LessOne(b.spills)
       case Unroll =>
         v > 1 && IsFloor(q, b.cycles, v) && m.regPressure == b.regPressure + v && m.spills == LessOne(b.spills)
       case Interchange => false
  }

  predicate Reorders(b: Metrics, m: Metrics) {
    m.cycles == b.cycles && m.regPressure == LessOne(b.regPressure) && m.spills == b.spills
  }

  /** The value a candidate carries for its kind's parameter. */
  predicate Carries(c: TransformParams, v: int) {
    match c.kind
    case Tile => v == if "tile_size" in c.params then c.params["tile_size"] else 32
    case Fusion => v == if "fused_loops" in c.params then c.params["fused_loops"] else 2
    case Unroll => v == if "unroll_factor" in c.params then c.params["unroll_factor"] else 2
    case Interchange => v == 0
  }

  /** The tool refuses illegal candidates and parameters out of range, and only those. */
  lemma InvokeSucceedsIff(c: TransformParams, b: Metrics, v: int)
    requires Carries(c, v)
    ensures Invoke(c, b).Some? <==> c.legal && (c.kind.Interchange? || v > 1 || (v == 1 && !c.kind.Unroll?))
  {
  }

  lemma TileReshapes(b: Metrics, v: int, m: Metrics) returns (q: nat)
    requires v > 0 && m == Transformed(b, Max(1, b.cycles / v), b.regPressure + 2 * v, b.spills + (v + 15) / 16)
    ensures Reshapes(Tile, v, b, m, q)
  {
    q := b.cycles / v;
    FloorMeans(b.cycles, v);
  }

  lemma UnrollReshapes(b: Metrics, v: int, m: Metrics) returns (q: nat)
    requires v > 1 && m == Transformed(b, Max(1, b.cycles / v), b.regPressure + v, Max(0, b.spills - 1))
    ensures Reshapes(Unroll, v, b, m, q)
  {
    q := b.cycles / v;
    FloorMeans(b.cycles, v);
  }

  lemma FusionReshapes(b: Metrics, v: int, m: Metrics) returns (q: nat)
    requires v > 0
    requires m == Transformed(b, Max(1, FusedCycles(b.cycles, v)), b.regPressure + 4 * v, Max(0, b.spills - 1))
    ensures Reshapes(Fusion, v, b, m, q)
  {
    q := FusedCycles(b.cycles, v);
    PowPositive(10, v);
    RoundMeans(b.cycles * Pow(7, v), Pow(10, v));
  }

  lemma TileIs(c: TransformParams, b: Metrics, v: int)
    requires c.kind.Tile? && Carries(c, v) && Invoke(c, b).Some?
    ensures v > 0
    ensures Invoke(c, b).value == Transformed(b, Max(1, b.cycles / v), b.regPressure + 2 * v, b.spills + (v + 15) / 16)
  {
  }

  lemma InvokeTiles(c: TransformParams, b: Metrics, v: int, m: Metrics) returns (q: nat)
    requires c.kind.Tile? && Carries(c, v) && Invoke(c, b) == Some(m)
    ensures Reshapes(Tile, v, b, m, q)
  {
    TileIs(c, b, v);
    q := TileReshapes(b, v, m);
  }

  lemma InvokeUnrolls(c: TransformParams, b: Metrics, v: int, m: Metrics) returns (q: nat)
    requires c.kind.Unroll? && Carries(c, v) && Invoke(c, b) == Some(m)
    ensures Reshapes(Unroll, v, b, m, q)
  {
    q := UnrollReshapes(b, v, m);
  }

  lemma InvokeFuses(c: TransformParams, b: Metrics, v: int, m: Metrics) returns (q: nat)
    requires c.kind.Fusion? && Carries(c, v) && Invoke(c, b) == Some(m)
    ensures Reshapes(Fusion, v, b, m, q)
  {
    q := FusionReshapes(b, v, m);
  }

  lemma InvokeInterchanges(c: TransformParams, b: Metrics, m: Metrics)
    requires c.kind.Interchange? && Invoke(c, b) == Some(m)
    ensures Reorders(b, m)
  {
  }

  lemma InvokeTransforms(c: TransformParams, b: Metrics, m: Metrics)
    requires Invoke(c, b) == Some(m)
    ensures m == Transformed(b, m.cycles, m.regPressure, m.spills)
  {
  }

  lemma TransformedEnergy(b: Metrics, cycles: nat, regPressure: nat, spills: nat)
    requires b.cycles > 0 && b.energy >= 0.0
    ensures Transformed(b, cycles, regPressure, spills).energy * b.cycles as real == b.energy * cycles as real
  {
    ScaledShare(b.energy, cycles as real, b.cycles as real);
  }

  lemma ScaledShare(e: real, x: real, y: real)
    requires e >= 0.0 && x >= 0.0 && y > 0.0
    ensures e * (x / y) >= 0.0 && e * (x / y) * y == e * x
  {
    assert x / y >= 0.0 && (x / y) * y == x;
    assert e * (x / y) * y == e * ((x / y) * y);
  }

  /** Strictly better, spelled out. */
  predicate Beats(m: Metrics, b: Metrics) {
    (m.isValid && !b.isValid)
    || (m.isValid == b.isValid
        && (m.cycles < b.cycles
            || (m.cycles == b.cycles && m.spills < b.spills)
            || (m.cycles == b.cycles && m.spills == b.spills && m.energy < b.energy)))
  }

  /** Better means Beats, and that is a strict order. */
  lemma BetterMeans(m: Metrics, b: Metrics)
    ensures m.BetterThan(b) <==> Beats(m, b)
  {
  }
}
