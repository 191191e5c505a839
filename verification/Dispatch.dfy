/** The reactive engine as a pure depth-first interpreter over its counters, and what every publish keeps. */
module Dispatch {
  import opened Prelude
  import opened EventStore
  import opened Behaviors

  /** What a handler is shown when it fires; the count is frozen at that moment. */
  datatype Context = Context(event: GraphEvent, runId: string, eventsProcessed: int)

  /** What a handler does: the events it emits, in order, and the error it then raises, if any. */
  datatype Outcome = Outcome(emits: seq<GraphEvent>, raised: Option<string>)

  type Handler = Context -> Outcome

  datatype Reg = Reg(behavior: Behavior, handler: Handler)

  datatype Counters = Counters(fires: nat, errors: nat, lastError: string)

  /** One turn of the dispatch loop: which registration was considered, for which event, at which count, and with how
      many levels of nesting left. */
  datatype Visit = Visit(reg: nat, event: GraphEvent, processed: int, left: nat)

  datatype RtState = RtState(processed: int, counters: seq<Counters>, visits: seq<Visit>)

  predicate Enabled(r: Reg, e: GraphEvent, processed: int) {
    r.behavior.ShouldActivate(processed) && r.behavior.Matches(e.eventType, Some(e.payload))
  }

  function Run(r: Reg, e: GraphEvent, processed: int): Outcome {
    r.handler(Context(e, e.runId, processed))
  }

  function Settled(c: Counters, o: Outcome): Counters {
    match o.raised
    case None => c.(fires := c.fires + 1)
    case Some(err) => c.(errors := c.errors + 1, lastError := err)
  }

  /** Publishing with `left` levels of nesting still allowed. */
  ghost function Publish(regs: seq<Reg>, left: nat, e: GraphEvent, st: RtState): (r: RtState)
    requires |st.counters| == |regs|
    ensures |r.counters| == |regs|
    decreases left, 0, 0
  {
    var counted := st.(processed := st.processed + 1);
    if left == 0 then counted else DispatchFrom(regs, left - 1, e, 0, counted)
  }

  /** The dispatch loop from registration i on. */
  ghost function DispatchFrom(regs: seq<Reg>, left: nat, e: GraphEvent, i: nat, st: RtState): (r: RtState)
    requires |st.counters| == |regs| && i <= |regs|
    ensures |r.counters| == |regs|
    decreases left, 2, |regs| - i
  {
    if i == |regs| then st
    else DispatchFrom(regs, left, e, i + 1, Turn(regs, left, e, i, st))
  }

  /** One iteration: the gate reads the current count, the handler's events are published, then it is settled. */
  ghost function Turn(regs: seq<Reg>, left: nat, e: GraphEvent, i: nat, st: RtState): (r: RtState)
    requires |st.counters| == |regs| && i < |regs|
    ensures |r.counters| == |regs|
    decreases left, 2, |regs| - i - 1
  {
    var seen := st.(visits := st.visits + [Visit(i, e, st.processed, left)]);
    if !Enabled(regs[i], e, st.processed) then seen
    else
      var o := Run(regs[i], e, st.processed);
      var after := EmitFrom(regs, left, o.emits, 0, seen);
      after.(counters := after.counters[i := Settled(after.counters[i], o)])
  }

  /** Publishing a handler's emitted events from the i-th on. */
  ghost function EmitFrom(regs: seq<Reg>, left: nat, es: seq<GraphEvent>, i: nat, st: RtState): (r: RtState)
    requires |st.counters| == |regs| && i <= |es|
    ensures |r.counters| == |regs|
    decreases left, 1, |es| - i
  {
    if i == |es| then st else EmitFrom(regs, left, es, i + 1, Publish(regs, left, es[i], st))
  }
}
