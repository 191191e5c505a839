/** Termination made quantitative: how far one publish can spread, and that the bounds are attained. */
module DispatchBounds {
  import opened Prelude
  import opened EventStore
  import opened Behaviors
  import opened Dispatch

  /** The sum of x^k for k below n. */
  function SumPow(x: nat, n: nat): nat {
    if n == 0 then 0 else SumPow(x, n - 1) + Pow(x, n - 1)
  }

  lemma Distributes(x: nat, a: nat, b: nat)
    ensures x * (a + b) == x * a + x * b
  {
  }

  lemma {:induction false} SumPowStep(x: nat, n: nat)
    ensures SumPow(x, n + 1) == 1 + x * SumPow(x, n)
  {
    if n > 0 {
      SumPowStep(x, n - 1);
      Distributes(x, SumPow(x, n - 1), Pow(x, n - 1));
    }
  }

  ghost predicate EmitsAtMost(regs: seq<Reg>, limit: nat) {
    forall j, c :: 0 <= j < |regs| ==> |regs[j].handler(c).emits| <= limit
  }

  ghost predicate AllMatch(regs: seq<Reg>, e: GraphEvent) {
    forall j :: 0 <= j < |regs| ==> regs[j].behavior.Matches(e.eventType, Some(e.payload))
  }

  ghost predicate AllActive(regs: seq<Reg>, processed: int) {
    forall j :: 0 <= j < |regs| ==> regs[j].behavior.ShouldActivate(processed)
  }

  /** Every handler emits the full number of events and every emitted event interests every registration. */
  ghost predicate Saturated(regs: seq<Reg>, limit: nat) {
    forall j, c :: 0 <= j < |regs| ==>
      |regs[j].handler(c).emits| == limit && forall e :: e in regs[j].handler(c).emits ==> AllMatch(regs, e)
  }

  lemma ActiveStays(regs: seq<Reg>, before: int, after: int)
    requires before <= after
    ensures AllActive(regs, before) ==> AllActive(regs, after)
  {
  }

  lemma MulAtMost(a: nat, b: nat, c: nat)
    requires a <= b
    ensures a * c <= b * c
  {
  }

  lemma MulAssociates(a: nat, b: nat, c: nat)
    ensures a * (b * c) == a * b * c
  {
  }

  lemma OneLess(n: nat, i: nat, x: nat)
    requires i < n
    ensures (n - i) * x == (n - (i + 1)) * x + x
  {
  }

  // ---- Events processed ----

  /** One publish counts at most the sum of (R*E)^k for k = 0..left, and a saturated runtime counts exactly that. */
  lemma {:induction false} PublishGrowth(regs: seq<Reg>, limit: nat, left: nat, e: GraphEvent, st: RtState)
    requires |st.counters| == |regs| && EmitsAtMost(regs, limit)
    ensures var grown := Publish(regs, left, e, st).processed - st.processed;
            1 <= grown <= SumPow(|regs| * limit, left + 1)
            && (Saturated(regs, limit) && AllMatch(regs, e) && AllActive(regs, st.processed + 1)
                ==> grown == SumPow(|regs| * limit, left + 1))
    decreases left, 0, 0
  {
    SumPowStep(|regs| * limit, left);
    if left > 0 {
      DispatchGrowth(regs, limit, left - 1, e, 0, st.(processed := st.processed + 1));
      MulAssociates(|regs|, limit, SumPow(|regs| * limit, left));
    }
  }

  lemma {:induction false} DispatchGrowth(regs: seq<Reg>, limit: nat, left: nat, e: GraphEvent, i: nat, st: RtState)
    requires |st.counters| == |regs| && i <= |regs| && EmitsAtMost(regs, limit)
    ensures var grown := DispatchFrom(regs, left, e, i, st).processed - st.processed;
            var bound := (|regs| - i) * (limit * SumPow(|regs| * limit, left + 1));
            0 <= grown <= bound
            && (Saturated(regs, limit) && AllMatch(regs, e) && AllActive(regs, st.processed) ==> grown == bound)
    decreases left, 2, |regs| - i
  {
    if i < |regs| {
      TurnGrowth(regs, limit, left, e, i, st);
      DispatchGrowth(regs, limit, left, e, i + 1, Turn(regs, left, e, i, st));
      OneLess(|regs|, i, limit * SumPow(|regs| * limit, left + 1));
    }
  }

  lemma {:induction false} TurnGrowth(regs: seq<Reg>, limit: nat, left: nat, e: GraphEvent, i: nat, st: RtState)
    requires |st.counters| == |regs| && i < |regs| && EmitsAtMost(regs, limit)
    ensures var grown := Turn(regs, left, e, i, st).processed - st.processed;
            0 <= grown <= limit * SumPow(|regs| * limit, left + 1)
            && (Saturated(regs, limit) && AllMatch(regs, e) && AllActive(regs, st.processed)
                ==> grown == limit * SumPow(|regs| * limit, left + 1))
    decreases left, 2, |regs| - i - 1
  {
    if Enabled(regs[i], e, st.processed) {
      var o := Run(regs[i], e, st.processed);
      EmitGrowth(regs, limit, left, o.emits, 0, st.(visits := st.visits + [Visit(i, e, st.processed, left)]));
      MulAtMost(|o.emits|, limit, SumPow(|regs| * limit, left + 1));
    }
  }

  lemma {:induction false} EmitGrowth(
    regs: seq<Reg>, limit: nat, left: nat, es: seq<GraphEvent>, i: nat, st: RtState)
    requires |st.counters| == |regs| && i <= |es| && EmitsAtMost(regs, limit)
    ensures var grown := EmitFrom(regs, left, es, i, st).processed - st.processed;
            0 <= grown <= (|es| - i) * SumPow(|regs| * limit, left + 1)
            && (Saturated(regs, limit) && (forall e :: e in es ==> AllMatch(regs, e)) && AllActive(regs, st.processed)
                ==> grown == (|es| - i) * SumPow(|regs| * limit, left + 1))
    decreases left, 1, |es| - i
  {
    if i < |es| {
      PublishGrowth(regs, limit, left, es[i], st);
      EmitGrowth(regs, limit, left, es, i + 1, Publish(regs, left, es[i], st));
      OneLess(|es|, i, SumPow(|regs| * limit, left + 1));
    }
  }

  // ---- Handler runs ----

  /** Handler runs of the first n registrations so far: firings plus errors. */
  function RunsBelow(cs: seq<Counters>, n: nat): nat
    requires n <= |cs|
  {
    if n == 0 then 0 else RunsBelow(cs, n - 1) + cs[n - 1].fires + cs[n - 1].errors
  }

  function Runs(cs: seq<Counters>): nat {
    RunsBelow(cs, |cs|)
  }

  function FiresBelow(cs: seq<Counters>, n: nat): nat
    requires n <= |cs|
  {
    if n == 0 then 0 else FiresBelow(cs, n - 1) + cs[n - 1].fires
  }

  function Fires(cs: seq<Counters>): nat {
    FiresBelow(cs, |cs|)
  }

  lemma {:induction false} SettlingBelow(cs: seq<Counters>, i: nat, o: Outcome, n: nat)
    requires i < |cs| && n <= |cs|
    ensures var us := cs[i := Settled(cs[i], o)];
            RunsBelow(us, n) == RunsBelow(cs, n) + (if i < n then 1 else 0)
            && FiresBelow(us, n) == FiresBelow(cs, n) + (if i < n && o.raised.None? then 1 else 0)
  {
    if n > 0 {
      SettlingBelow(cs, i, o, n - 1);
    }
  }

  lemma SettlingAddsOneRun(cs: seq<Counters>, i: nat, o: Outcome)
    requires i < |cs|
    ensures Runs(cs[i := Settled(cs[i], o)]) == Runs(cs) + 1
    ensures Fires(cs[i := Settled(cs[i], o)]) == Fires(cs) + (if o.raised.None? then 1 else 0)
  {
    SettlingBelow(cs, i, o, |cs|);
  }

  ghost predicate RunsGrowWithin(st: RtState, r: RtState, bound: nat) {
    Runs(st.counters) <= Runs(r.counters) <= Runs(st.counters) + bound
    && Fires(st.counters) <= Fires(r.counters)
    && Fires(r.counters) - Fires(st.counters) <= Runs(r.counters) - Runs(st.counters)
  }

  ghost predicate RunsGrowBy(st: RtState, r: RtState, n: nat) {
    Runs(r.counters) == Runs(st.counters) + n
  }

  /** One publish runs at most R * sum of (R*E)^k for k < left handlers, and a saturated runtime exactly that many. */
  lemma {:induction false} PublishRuns(regs: seq<Reg>, limit: nat, left: nat, e: GraphEvent, st: RtState)
    requires |st.counters| == |regs| && EmitsAtMost(regs, limit)
    ensures var (r, n) := (Publish(regs, left, e, st), |regs| * SumPow(|regs| * limit, left));
            RunsGrowWithin(st, r, n)
            && (Saturated(regs, limit) && AllMatch(regs, e) && AllActive(regs, st.processed + 1)
                ==> RunsGrowBy(st, r, n))
    decreases left, 0, 0
  {
    if left > 0 {
      DispatchRuns(regs, limit, left - 1, e, 0, st.(processed := st.processed + 1));
    }
  }

  lemma {:induction false} DispatchRuns(regs: seq<Reg>, limit: nat, left: nat, e: GraphEvent, i: nat, st: RtState)
    requires |st.counters| == |regs| && i <= |regs| && EmitsAtMost(regs, limit)
    ensures var (r, n) := (DispatchFrom(regs, left, e, i, st), (|regs| - i) * SumPow(|regs| * limit, left + 1));
            RunsGrowWithin(st, r, n)
            && (Saturated(regs, limit) && AllMatch(regs, e) && AllActive(regs, st.processed) ==> RunsGrowBy(st, r, n))
    decreases left, 2, |regs| - i
  {
    if i < |regs| {
      TurnRuns(regs, limit, left, e, i, st);
      var mid := Turn(regs, left, e, i, st);
      TurnGrowth(regs, limit, left, e, i, st);
      ActiveStays(regs, st.processed, mid.processed);
      DispatchRuns(regs, limit, left, e, i + 1, mid);
      OneLess(|regs|, i, SumPow(|regs| * limit, left + 1));
    }
  }

  lemma EmittedRuns(m: nat, limit: nat, n: nat, s: nat)
    requires m <= limit
    ensures m * (n * s) <= n * limit * s
    ensures m == limit ==> m * (n * s) == n * limit * s
  {
    MulAtMost(m, limit, n * s);
    assert limit * (n * s) == n * limit * s;
  }

  lemma {:induction false} TurnRuns(regs: seq<Reg>, limit: nat, left: nat, e: GraphEvent, i: nat, st: RtState)
    requires |st.counters| == |regs| && i < |regs| && EmitsAtMost(regs, limit)
    ensures var (r, n) := (Turn(regs, left, e, i, st), SumPow(|regs| * limit, left + 1));
            RunsGrowWithin(st, r, n)
            && (Saturated(regs, limit) && AllMatch(regs, e) && AllActive(regs, st.processed) ==> RunsGrowBy(st, r, n))
    decreases left, 2, |regs| - i - 1
  {
    SumPowStep(|regs| * limit, left);
    if Enabled(regs[i], e, st.processed) {
      var o := Run(regs[i], e, st.processed);
      var seen := st.(visits := st.visits + [Visit(i, e, st.processed, left)]);
      var s := SumPow(|regs| * limit, left);
      EmitRuns(regs, limit, left, o.emits, 0, seen);
      SettlingAddsOneRun(EmitFrom(regs, left, o.emits, 0, seen).counters, i, o);
      EmittedRuns(|o.emits|, limit, |regs|, s);
    }
  }

  lemma {:induction false} EmitRuns(
    regs: seq<Reg>, limit: nat, left: nat, es: seq<GraphEvent>, i: nat, st: RtState)
    requires |st.counters| == |regs| && i <= |es| && EmitsAtMost(regs, limit)
    ensures var (r, n) := (EmitFrom(regs, left, es, i, st), (|es| - i) * (|regs| * SumPow(|regs| * limit, left)));
            RunsGrowWithin(st, r, n)
            && (Saturated(regs, limit) && (forall e :: e in es ==> AllMatch(regs, e)) && AllActive(regs, st.processed)
                ==> RunsGrowBy(st, r, n))
    decreases left, 1, |es| - i
  {
    if i < |es| {
      PublishRuns(regs, limit, left, es[i], st);
      var mid := Publish(regs, left, es[i], st);
      PublishGrowth(regs, limit, left, es[i], st);
      ActiveStays(regs, st.processed, mid.processed);
      EmitRuns(regs, limit, left, es, i + 1, mid);
      OneLess(|es|, i, |regs| * SumPow(|regs| * limit, left));
    }
  }

  // ---- The bounds are attained ----

  const ECHO_EVENT := GraphEvent("e", "echo", map[], "", "", "", 0)

  /** A behaviour that reacts to every echo with `limit` echoes. */
  function Echo(limit: nat): Reg {
    Reg(Behavior("echo", EventMatcher(["echo"], map[]), "function", 0),
        (c: Context) => Outcome(seq(limit, i => ECHO_EVENT), None))
  }

  /** For any number of registrations, emitted events and levels there is a runtime that counts exactly the bound and
      runs exactly the bounding number of handlers: neither can be lowered. */
  lemma BoundsAreAttained(r: nat, limit: nat, left: nat)
    ensures exists regs: seq<Reg>, st: RtState ::
              |regs| == r == |st.counters| && EmitsAtMost(regs, limit)
              && Publish(regs, left, ECHO_EVENT, st).processed - st.processed == SumPow(r * limit, left + 1)
              && RunsGrowBy(st, Publish(regs, left, ECHO_EVENT, st), r * SumPow(r * limit, left))
  {
    var regs := seq(r, i => Echo(limit));
    var st := RtState(0, seq(r, i => Counters(0, 0, "")), []);
    assert Saturated(regs, limit) && AllMatch(regs, ECHO_EVENT) && AllActive(regs, st.processed + 1);
    PublishGrowth(regs, limit, left, ECHO_EVENT, st);
    PublishRuns(regs, limit, left, ECHO_EVENT, st);
  }
}
