/** The in-memory runtime: registrations whose counters are updated in place while handlers publish re-entrantly. */
module BehaviorRuntime {
  import opened Prelude
  import opened EventStore
  import opened Behaviors
  import opened Dispatch

  class BehaviorRegistration {
    const behavior: Behavior
    const handler: Handler
    var fireCount: nat
    var errorCount: nat
    var lastError: string

    constructor (behavior: Behavior, handler: Handler)
      ensures this.behavior == behavior && this.handler == handler
      ensures fireCount == errorCount == 0 && lastError == ""
    {
      this.behavior, this.handler := behavior, handler;
      fireCount, errorCount, lastError := 0, 0, "";
    }
  }

  /** The fixed part of the registrations. */
  ghost function RegsOf(rs: seq<BehaviorRegistration>): (regs: seq<Reg>)
    ensures |regs| == |rs|
  {
    seq(|rs|, i requires 0 <= i < |rs| => Reg(rs[i].behavior, rs[i].handler))
  }

  class InMemoryBehaviorRuntime {
    var registrations: seq<BehaviorRegistration>
    var eventsProcessed: int
    const maxDepth: int
    var currentDepth: nat
    ghost var visits: seq<Visit>

    ghost predicate Valid()
      reads this
    {
      Distinct(registrations)
    }

    ghost function Regs(): (regs: seq<Reg>)
      reads this
      ensures |regs| == |registrations|
    {
      RegsOf(registrations)
    }

    ghost function State(): (st: RtState)
      reads this, registrations
      ensures |st.counters| == |registrations|
    {
      RtState(
        eventsProcessed,
        seq(|registrations|, i requires 0 <= i < |registrations| reads this, registrations =>
          Counters(registrations[i].fireCount, registrations[i].errorCount, registrations[i].lastError)),
        visits)
    }

    /** Levels of nesting still allowed. */
    ghost function Left(): nat
      reads this
    {
      if currentDepth < maxDepth then maxDepth - currentDepth else 0
    }

    constructor (eventsProcessed: int, maxDepth: int)
      ensures Valid() && registrations == [] && currentDepth == 0 && this.maxDepth == maxDepth
      ensures State() == RtState(eventsProcessed, [], [])
    {
      registrations, this.eventsProcessed, this.maxDepth, currentDepth := [], eventsProcessed, maxDepth, 0;
      visits := [];
    }

    method Register(behavior: Behavior, handler: Handler)
      requires Valid()
      modifies this
      ensures Valid() && currentDepth == old(currentDepth)
      ensures Regs() == old(Regs()) + [Reg(behavior, handler)]
      ensures State() == old(State()).(counters := old(State()).counters + [Counters(0, 0, "")])
    {
      var registration := new BehaviorRegistration(behavior, handler);
      registrations := registrations + [registration];
    }

    /** Counts the event and, below the depth limit, dispatches it; the depth is restored whatever handlers do. */
    method Publish(event: GraphEvent)
      requires Valid()
      modifies this, registrations
      ensures Valid() && registrations == old(registrations) && currentDepth == old(currentDepth)
      ensures State() == Dispatch.Publish(Regs(), Left(), event, old(State()))
      decreases if currentDepth < maxDepth then maxDepth - currentDepth else 0, 0, 0
    {
      eventsProcessed := eventsProcessed + 1;
      ghost var counted := State();
      assert counted == old(State()).(processed := old(State()).processed + 1);
      if currentDepth >= maxDepth {
        return;
      }
      currentDepth := currentDepth + 1;
      assert State() == counted;
      DispatchAll(event);
      ghost var dispatched := State();
      currentDepth := currentDepth - 1;
      assert State() == dispatched;
    }

    method DispatchAll(event: GraphEvent)
      requires Valid() && currentDepth <= maxDepth
      modifies this, registrations
      ensures Valid() && registrations == old(registrations) && currentDepth == old(currentDepth)
      ensures State() == DispatchFrom(Regs(), Left(), event, 0, old(State()))
      decreases maxDepth - currentDepth, 2, 0
    {
      for i := 0 to |registrations|
        invariant Valid() && registrations == old(registrations) && currentDepth == old(currentDepth)
        invariant DispatchFrom(Regs(), Left(), event, i, State())
               == DispatchFrom(Regs(), Left(), event, 0, old(State()))
      {
        Consider(i, event);
      }
    }

    /** One turn of the dispatch loop: gate, match, run the handler, settle the outcome. */
    method Consider(i: nat, event: GraphEvent)
      requires Valid() && currentDepth <= maxDepth && i < |registrations|
      modifies this, registrations
      ensures Valid() && registrations == old(registrations) && currentDepth == old(currentDepth)
      ensures State() == Turn(Regs(), Left(), event, i, old(State()))
      decreases maxDepth - currentDepth, 1, 1
    {
      var reg := registrations[i];
      var b := reg.behavior;
      visits := visits + [Visit(i, event, eventsProcessed, Left())];
      assert State() == old(State()).(visits := visits);
      if !b.ShouldActivate(eventsProcessed) {
        return;
      }
      if !b.Matches(event.eventType, Some(event.payload)) {
        return;
      }
      var ctx := Context(event, event.runId, eventsProcessed);
      var outcome := reg.handler(ctx);
      EmitAll(outcome.emits);
      ghost var after := State();
      match outcome.raised {
        case None =>
          reg.fireCount := reg.fireCount + 1;
        case Some(error) =>
          reg.errorCount := reg.errorCount + 1;
          reg.lastError := error;
      }
      assert State() == after.(counters := after.counters[i := Settled(after.counters[i], outcome)]);
    }

    /** The handler's calls to `emit`, each one a nested publish. */
    method EmitAll(events: seq<GraphEvent>)
      requires Valid()
      modifies this, registrations
      ensures Valid() && registrations == old(registrations) && currentDepth == old(currentDepth)
      ensures State() == EmitFrom(Regs(), Left(), events, 0, old(State()))
      decreases if currentDepth < maxDepth then maxDepth - currentDepth else 0, 1, 0
    {
      for i := 0 to |events|
        invariant Valid() && registrations == old(registrations) && currentDepth == old(currentDepth)
        invariant EmitFrom(Regs(), Left(), events, i, State()) == EmitFrom(Regs(), Left(), events, 0, old(State()))
      {
        Publish(events[i]);
      }
    }
  }
}
