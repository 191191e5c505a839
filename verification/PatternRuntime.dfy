/** Pattern triggers: a handler fires when its pattern goes from not matching to matching. */
module PatternRuntime {
  import opened Prelude
  import opened Json
  import opened EventStore
  import opened Dispatch
  import opened BehaviorRuntime
  import opened Patterns

  datatype PatternState = PatternState(lastMatched: bool, fireCount: nat)

  /** The trigger's rising edge. */
  predicate Rises(s: PatternState, now: bool) {
    now && !s.lastMatched
  }

  /** A trigger's state after a check that found the pattern matching, or not. */
  function Step(s: PatternState, now: bool): PatternState {
    PatternState(now, s.fireCount + (if Rises(s, now) then 1 else 0))
  }

  function MatchedEvent(p: Pattern, fireCount: nat, runId: string, eventsProcessed: int): GraphEvent {
    GraphEvent(
      "pattern." + p.name + "." + Decimal(fireCount), "pattern.matched",
      map["pattern_name" := Str(p.name), "description" := Str(p.description)],
      "pattern_runtime", runId, "", eventsProcessed + 1)
  }

  datatype Trigger = Trigger(pattern: Pattern, handler: Handler)

  /** The event runtime after one trigger was checked: a rising one runs its handler. */
  ghost function CheckTurn(
    regs: seq<Reg>, left: nat, t: Trigger, s: PatternState, g: GraphView, runId: string, st: RtState): (r: RtState)
    requires |st.counters| == |regs|
    ensures |r.counters| == |regs|
  {
    if !Rises(s, Holds(t.pattern, g)) then st
    else
      var e := MatchedEvent(t.pattern, s.fireCount + 1, runId, st.processed);
      EmitFrom(regs, left, t.handler(Context(e, runId, st.processed)).emits, 0, st)
  }

  /** A trigger whose pattern was not matching and now is runs its handler on this event, and what that emits is
      published; otherwise nothing happens. */
  lemma CheckTurnMeans(
    regs: seq<Reg>, left: nat, t: Trigger, s: PatternState, g: GraphView, runId: string, st: RtState)
    requires |st.counters| == |regs|
    ensures var shown := GraphEvent(
              "pattern." + t.pattern.name + "." + Decimal(s.fireCount + 1), "pattern.matched",
              map["pattern_name" := Str(t.pattern.name), "description" := Str(t.pattern.description)],
              "pattern_runtime", runId, "", st.processed + 1);
            CheckTurn(regs, left, t, s, g, runId, st)
            == if !s.lastMatched && Holds(t.pattern, g)
               then EmitFrom(regs, left, t.handler(Context(shown, runId, st.processed)).emits, 0, st)
               else st
    ensures Step(s, Holds(t.pattern, g))
         == PatternState(Holds(t.pattern, g), if !s.lastMatched && Holds(t.pattern, g) then s.fireCount + 1
                                              else s.fireCount)
  {
  }

  ghost function CheckFrom(
    regs: seq<Reg>, left: nat, ts: seq<Trigger>, ss: seq<PatternState>, g: GraphView, runId: string,
    i: nat, st: RtState): (r: RtState)
    requires |ts| == |ss| && i <= |ts| && |st.counters| == |regs|
    ensures |r.counters| == |regs|
    decreases |ts| - i
  {
    if i == |ts| then st
    else CheckFrom(regs, left, ts, ss, g, runId, i + 1, CheckTurn(regs, left, ts[i], ss[i], g, runId, st))
  }

  lemma CheckedFromNext(
    regs: seq<Reg>, left: nat, ts: seq<Trigger>, ss: seq<PatternState>, g: GraphView, runId: string,
    i: nat, st: RtState)
    requires |ts| == |ss| && i < |ts| && |st.counters| == |regs|
    ensures CheckFrom(regs, left, ts, ss, g, runId, i, st)
         == CheckFrom(regs, left, ts, ss, g, runId, i + 1, CheckTurn(regs, left, ts[i], ss[i], g, runId, st))
  {
  }

  /** The trigger states once the first n triggers have been checked. */
  ghost function Stepped(ts: seq<Trigger>, ss: seq<PatternState>, g: GraphView, n: nat): (r: seq<PatternState>)
    requires |ts| == |ss| && n <= |ts|
    ensures |r| == |ss|
  {
    if n == 0 then ss
    else Stepped(ts, ss, g, n - 1)[n - 1 := Step(ss[n - 1], Holds(ts[n - 1].pattern, g))]
  }

  lemma SteppedNext(ts: seq<Trigger>, ss: seq<PatternState>, g: GraphView, n: nat)
    requires |ts| == |ss| && n < |ts|
    ensures Stepped(ts, ss, g, n + 1) == Stepped(ts, ss, g, n)[n := Step(ss[n], Holds(ts[n].pattern, g))]
    ensures Rising(ts, ss, g, n + 1)
         == Rising(ts, ss, g, n) + (if Rises(ss[n], Holds(ts[n].pattern, g)) then 1 else 0)
  {
  }

  lemma {:induction false} SteppedAt(ts: seq<Trigger>, ss: seq<PatternState>, g: GraphView, n: nat, i: nat)
    requires |ts| == |ss| && n <= |ts| && i < |ts|
    ensures Stepped(ts, ss, g, n)[i] == if i < n then Step(ss[i], Holds(ts[i].pattern, g)) else ss[i]
  {
    if n > 0 {
      SteppedAt(ts, ss, g, n - 1, i);
    }
  }

  /** How many of the first n triggers rise. */
  function Rising(ts: seq<Trigger>, ss: seq<PatternState>, g: GraphView, n: nat): nat
    requires |ts| == |ss| && n <= |ts|
  {
    if n == 0 then 0
    else Rising(ts, ss, g, n - 1) + (if Rises(ss[n - 1], Holds(ts[n - 1].pattern, g)) then 1 else 0)
  }

  class PatternTriggerRegistration {
    const pattern: Pattern
    const handler: Handler
    var lastMatched: bool
    var fireCount: nat

    constructor (pattern: Pattern, handler: Handler)
      ensures this.pattern == pattern && this.handler == handler
      ensures !lastMatched && fireCount == 0
    {
      this.pattern, this.handler := pattern, handler;
      lastMatched, fireCount := false, 0;
    }
  }

  ghost function TriggersOf(rs: seq<PatternTriggerRegistration>): (ts: seq<Trigger>)
    ensures |ts| == |rs|
  {
    seq(|rs|, i requires 0 <= i < |rs| => Trigger(rs[i].pattern, rs[i].handler))
  }

  ghost function StatesOf(rs: seq<PatternTriggerRegistration>): (ss: seq<PatternState>)
    reads rs
    ensures |ss| == |rs|
  {
    seq(|rs|, i requires 0 <= i < |rs| reads rs => PatternState(rs[i].lastMatched, rs[i].fireCount))
  }

  /** The event runtime extended with pattern triggers; `base` is the part it inherits. */
  class PatternBehaviorRuntime {
    const base: InMemoryBehaviorRuntime
    const matcher: PatternMatcher
    var triggers: seq<PatternTriggerRegistration>

    ghost predicate Valid()
      reads this, base
    {
      base.Valid() && Distinct(triggers)
    }

    constructor (eventsProcessed: int, maxDepth: int)
      ensures Valid() && fresh(base) && triggers == [] && base.registrations == []
      ensures base.State() == RtState(eventsProcessed, [], [])
    {
      base := new InMemoryBehaviorRuntime(eventsProcessed, maxDepth);
      matcher := new PatternMatcher();
      triggers := [];
    }

    method RegisterPattern(pattern: Pattern, handler: Handler)
      requires Valid()
      modifies this
      ensures Valid()
      ensures TriggersOf(triggers) == old(TriggersOf(triggers)) + [Trigger(pattern, handler)]
      ensures StatesOf(triggers) == old(StatesOf(triggers)) + [PatternState(false, 0)]
    {
      var registration := new PatternTriggerRegistration(pattern, handler);
      triggers := triggers + [registration];
    }

    /** Checks every trigger against the view; returns how many fired. */
    method CheckPatterns(view: GraphView, runId: string) returns (firedCount: nat)
      requires Valid() && view.Valid()
      modifies base, base.registrations, triggers
      ensures Valid() && triggers == old(triggers) && base.registrations == old(base.registrations)
      ensures StatesOf(triggers) == Stepped(TriggersOf(triggers), old(StatesOf(triggers)), view, |triggers|)
      ensures firedCount == Rising(TriggersOf(triggers), old(StatesOf(triggers)), view, |triggers|)
      ensures base.State() == CheckFrom(
                base.Regs(), base.Left(), TriggersOf(triggers), old(StatesOf(triggers)), view, runId,
                0, old(base.State()))
    {
      firedCount := 0;
      ghost var regs, left, ts, ss := base.Regs(), base.Left(), TriggersOf(triggers), StatesOf(triggers);
      ghost var whole := CheckFrom(regs, left, ts, ss, view, runId, 0, base.State());
      for i := 0 to |triggers|
        invariant Valid() && base.registrations == old(base.registrations)
        invariant base.Regs() == regs && base.Left() == left
        invariant StatesOf(triggers) == Stepped(ts, ss, view, i)
        invariant firedCount == Rising(ts, ss, view, i)
        invariant CheckFrom(regs, left, ts, ss, view, runId, i, base.State()) == whole
      {
        SteppedAt(ts, ss, view, i, i);
        SteppedNext(ts, ss, view, i);
        CheckedFromNext(regs, left, ts, ss, view, runId, i, base.State());
        var fired := CheckAt(i, view, runId);
        firedCount := if fired then firedCount + 1 else firedCount;
      }
    }

    /** Checks the trigger at position i: its own state steps, and no other trigger's. */
    method CheckAt(i: nat, view: GraphView, runId: string) returns (fired: bool)
      requires Valid() && view.Valid() && i < |triggers|
      modifies base, base.registrations, triggers[i]
      ensures Valid() && base.registrations == old(base.registrations)
      ensures base.Regs() == old(base.Regs()) && base.Left() == old(base.Left())
      ensures var t, ss := TriggersOf(triggers)[i], old(StatesOf(triggers));
              StatesOf(triggers) == ss[i := Step(ss[i], Holds(t.pattern, view))]
              && fired == Rises(ss[i], Holds(t.pattern, view))
              && base.State() == CheckTurn(base.Regs(), base.Left(), t, ss[i], view, runId, old(base.State()))
    {
      fired := CheckOne(triggers[i], view, runId);
      assert forall j :: 0 <= j < |triggers| && j != i ==> triggers[j] != triggers[i];
    }

    method CheckOne(reg: PatternTriggerRegistration, view: GraphView, runId: string) returns (fired: bool)
      requires base.Valid() && view.Valid()
      modifies base, base.registrations, reg
      ensures base.Valid() && base.registrations == old(base.registrations)
      ensures base.currentDepth == old(base.currentDepth)
      ensures var s := PatternState(old(reg.lastMatched), old(reg.fireCount));
              PatternState(reg.lastMatched, reg.fireCount) == Step(s, Holds(reg.pattern, view))
              && fired == Rises(s, Holds(reg.pattern, view))
              && base.State() == CheckTurn(base.Regs(), base.Left(), Trigger(reg.pattern, reg.handler), s, view, runId,
                                           old(base.State()))
    {
      fired := false;
      var nowMatches := matcher.Matches(reg.pattern, view);
      if nowMatches && !reg.lastMatched {
        fired := true;
        reg.fireCount := reg.fireCount + 1;
        reg.lastMatched := true;
        assert base.State() == old(base.State());
        var event := MatchedEvent(reg.pattern, reg.fireCount, runId, base.eventsProcessed);
        DispatchHandler(reg, event);
      } else if !nowMatches {
        reg.lastMatched := false;
        assert base.State() == old(base.State());
      }
    }

    /** Runs the handler; what it raises is only logged. */
    method DispatchHandler(reg: PatternTriggerRegistration, event: GraphEvent)
      requires base.Valid()
      modifies base, base.registrations
      ensures base.Valid() && base.registrations == old(base.registrations)
      ensures base.currentDepth == old(base.currentDepth)
      ensures var o := reg.handler(Context(event, event.runId, old(base.eventsProcessed)));
              base.State() == EmitFrom(base.Regs(), base.Left(), o.emits, 0, old(base.State()))
    {
      var outcome := reg.handler(Context(event, event.runId, base.eventsProcessed));
      base.EmitAll(outcome.emits);
    }
  }

  // ---- Whole runs ----

  /** What successive checks of the pattern find. */
  function Observed(p: Pattern, views: seq<GraphView>): (bs: seq<bool>)
    ensures |bs| == |views|
  {
    seq(|views|, i requires 0 <= i < |views| => Holds(p, views[i]))
  }

  /** A trigger's state after a sequence of checks. */
  function After(s: PatternState, bs: seq<bool>): PatternState {
    if bs == [] then s else Step(After(s, bs[..|bs| - 1]), bs[|bs| - 1])
  }

  predicate IsTransition(s: PatternState, bs: seq<bool>, i: nat)
    requires i < |bs|
  {
    bs[i] && !(if i == 0 then s.lastMatched else bs[i - 1])
  }

  /** The positions where the pattern goes from not matching to matching. */
  ghost function Transitions(s: PatternState, bs: seq<bool>): set<nat> {
    set i: nat | i < |bs| && IsTransition(s, bs, i)
  }

  lemma LastTransition(s: PatternState, bs: seq<bool>)
    requires bs != []
    ensures var n := |bs| - 1;
            Transitions(s, bs) == Transitions(s, bs[..n]) + (if IsTransition(s, bs, n) then {n} else {})
  {
    var n := |bs| - 1;
    assert forall i: nat | i < n :: IsTransition(s, bs, i) == IsTransition(s, bs[..n], i);
  }

  /** Over any sequence of checks, a trigger fires once per not-matching to matching transition. */
  lemma {:induction false} FiresOncePerTransition(s: PatternState, bs: seq<bool>)
    ensures After(s, bs).fireCount == s.fireCount + |Transitions(s, bs)|
    ensures bs != [] ==> After(s, bs).lastMatched == bs[|bs| - 1]
  {
    if bs == [] {
      assert Transitions(s, bs) == {};
    } else {
      var n := |bs| - 1;
      FiresOncePerTransition(s, bs[..n]);
      LastTransition(s, bs);
    }
  }

  /** A call on the runtime as far as its pattern triggers are concerned. */
  datatype PatternCall = Check(view: GraphView) | RegisterTrigger(trigger: Trigger)

  datatype PatternSystem = PatternSystem(triggers: seq<Trigger>, states: seq<PatternState>)

  ghost predicate Matched(y: PatternSystem) {
    |y.triggers| == |y.states|
  }

  ghost function AfterCall(y: PatternSystem, call: PatternCall): (r: PatternSystem)
    requires Matched(y)
    ensures Matched(r) && y.triggers <= r.triggers
  {
    match call
    case Check(view) => PatternSystem(y.triggers, Stepped(y.triggers, y.states, view, |y.triggers|))
    case RegisterTrigger(t) => PatternSystem(y.triggers + [t], y.states + [PatternState(false, 0)])
  }

  /** The triggers after a run of checks and registrations. */
  ghost function AfterCalls(y: PatternSystem, calls: seq<PatternCall>): (r: PatternSystem)
    requires Matched(y)
    ensures Matched(r) && y.triggers <= r.triggers
  {
    if calls == [] then y else AfterCall(AfterCalls(y, calls[..|calls| - 1]), calls[|calls| - 1])
  }

  /** The views checked, in order. */
  function ViewsOf(calls: seq<PatternCall>): seq<GraphView> {
    if calls == [] then []
    else ViewsOf(calls[..|calls| - 1])
         + (match calls[|calls| - 1] case Check(view) => [view] case RegisterTrigger(_) => [])
  }

  lemma OneMoreView(s: PatternState, p: Pattern, views: seq<GraphView>, view: GraphView)
    ensures After(s, Observed(p, views + [view])) == Step(After(s, Observed(p, views)), Holds(p, view))
  {
    assert Observed(p, views + [view])[..|views|] == Observed(p, views);
  }

  /** Whatever is checked and registered, a trigger's state is that of a lone trigger shown the same views. */
  lemma {:induction false} EachTriggerObserves(y: PatternSystem, calls: seq<PatternCall>, i: nat)
    requires Matched(y) && i < |y.triggers|
    ensures AfterCalls(y, calls).states[i] == After(y.states[i], Observed(y.triggers[i].pattern, ViewsOf(calls)))
  {
    if calls != [] {
      var calls0, call := calls[..|calls| - 1], calls[|calls| - 1];
      var before := AfterCalls(y, calls0);
      EachTriggerObserves(y, calls0, i);
      match call {
        case Check(view) =>
          SteppedAt(before.triggers, before.states, view, |before.triggers|, i);
          OneMoreView(y.states[i], y.triggers[i].pattern, ViewsOf(calls0), view);
        case RegisterTrigger(_) =>
          assert ViewsOf(calls0) + [] == ViewsOf(calls0);
      }
    }
  }

  /** Over any run of checks and registrations, each trigger's fire count grows by the number of checked views in which
      its own pattern went from not matching to matching. */
  lemma TriggersFireOncePerTransition(y: PatternSystem, calls: seq<PatternCall>, i: nat)
    requires Matched(y) && i < |y.triggers|
    ensures AfterCalls(y, calls).states[i].fireCount
         == y.states[i].fireCount + |Transitions(y.states[i], Observed(y.triggers[i].pattern, ViewsOf(calls)))|
  {
    EachTriggerObserves(y, calls, i);
    FiresOncePerTransition(y.states[i], Observed(y.triggers[i].pattern, ViewsOf(calls)));
  }

  lemma {:induction false} RisesOnce(bs: seq<bool>)
    requires forall i, j :: 0 <= i <= j < |bs| && bs[i] ==> bs[j]
    ensures After(PatternState(false, 0), bs)
         == if bs != [] && bs[|bs| - 1] then PatternState(true, 1) else PatternState(false, 0)
  {
    if bs != [] {
      RisesOnce(bs[..|bs| - 1]);
    }
  }

  lemma {:induction false} GrowingViewsKeepHolding(p: Pattern, views: seq<GraphView>, i: nat, j: nat)
    requires OnlyExists(p) && forall k :: 0 <= k < |views| - 1 ==> Grows(views[k], views[k + 1])
    requires i <= j < |views| && Holds(p, views[i])
    ensures Holds(p, views[j])
  {
    if i < j {
      GrowingViewsKeepHolding(p, views, i, j - 1);
      assert Grows(views[j - 1], views[j - 1 + 1]);
      ExistsIsMonotone(p, views[j - 1], views[j]);
    }
  }

  /** On a graph that only grows, a fresh trigger of EXISTS clauses fires at most once in the whole run:
      once if the last view matches, and never otherwise. */
  lemma ExistsFiresAtMostOnce(y: PatternSystem, calls: seq<PatternCall>, i: nat)
    requires Matched(y) && i < |y.triggers|
    requires y.states[i] == PatternState(false, 0) && OnlyExists(y.triggers[i].pattern)
    requires var views := ViewsOf(calls); forall k :: 0 <= k < |views| - 1 ==> Grows(views[k], views[k + 1])
    ensures var views := ViewsOf(calls);
            AfterCalls(y, calls).states[i].fireCount
            == if views != [] && Holds(y.triggers[i].pattern, views[|views| - 1]) then 1 else 0
  {
    var p, views := y.triggers[i].pattern, ViewsOf(calls);
    var bs := Observed(p, views);
    EachTriggerObserves(y, calls, i);
    forall j, k | 0 <= j <= k < |bs| && bs[j] ensures bs[k] {
      GrowingViewsKeepHolding(p, views, j, k);
    }
    RisesOnce(bs);
  }
}
