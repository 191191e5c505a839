/** Behaviours and the matchers that subscribe them to events. */
module Behaviors {
  import opened Prelude
  import opened Json

  datatype EventMatcher = EventMatcher(eventTypes: seq<string>, payloadFilter: Payload) {
    /** An absent payload satisfies only the empty filter; an absent key reads as null. */
    predicate Matches(eventType: string, payload: Option<Payload>) {
      eventType in eventTypes
      && (payloadFilter == map[]
          || (payload.Some? && forall k :: k in payloadFilter ==> Get(payload.value, k) == payloadFilter[k]))
    }
  }

  datatype Behavior = Behavior(name: string, matcher: EventMatcher, kind: string, activateAfter: nat) {
    predicate ShouldActivate(eventsProcessed: int) {
      eventsProcessed >= activateAfter
    }

    predicate Matches(eventType: string, payload: Option<Payload>) {
      matcher.Matches(eventType, payload)
    }
  }

  /** "Present and equal", as the matcher's documentation puts it. */
  predicate PresentAndEqual(filter: Payload, payload: Payload) {
    forall k :: k in filter ==> k in payload && payload[k] == filter[k]
  }

  /** A filter means "present and equal" on every payload exactly when it never expects null. */
  lemma FilterMeansPresentIff(m: EventMatcher, eventType: string)
    requires eventType in m.eventTypes
    ensures (forall p: Payload :: m.Matches(eventType, Some(p)) <==> PresentAndEqual(m.payloadFilter, p))
            <==> forall k :: k in m.payloadFilter ==> m.payloadFilter[k] != Null
  {
    if k :| k in m.payloadFilter && m.payloadFilter[k] == Null {
      var missing: Payload := m.payloadFilter - {k};
      assert Get(missing, k) == Null;
      assert m.Matches(eventType, Some(missing)) && !PresentAndEqual(m.payloadFilter, missing);
    }
  }
}
