/** What a visit and its handler do, in the behaviours' own terms: who runs, who is counted, what is published. */
module VisitMeaning {
  import opened Prelude
  import opened Json
  import opened EventStore
  import opened Behaviors
  import opened Dispatch
  import opened VisitLedger

  /** The behaviour is past its activation count, subscribed to the event's type, and every key of its filter reads as
      expected, an absent one as null. */
  predicate Wants(b: Behavior, v: Visit) {
    v.processed >= b.activateAfter
    && v.event.eventType in b.matcher.eventTypes
    && forall k :: k in b.matcher.payloadFilter ==>
         b.matcher.payloadFilter[k] == if k in v.event.payload then v.event.payload[k] else Null
  }

  /** What the registration's handler does when it is shown the visit's event. */
  function Shown(r: Reg, v: Visit): Outcome {
    r.handler(Context(v.event, v.event.runId, v.processed))
  }

  lemma EnabledIff(r: Reg, v: Visit)
    ensures Enabled(r, v.event, v.processed) <==> Wants(r.behavior, v)
    ensures Run(r, v.event, v.processed) == Shown(r, v)
  {
  }

  /** The visits at which registration i wanted the event and its handler returned. */
  ghost function Returned(regs: seq<Reg>, i: nat, vs: seq<Visit>): set<nat>
    requires i < |regs|
  {
    set k: nat | k < |vs| && vs[k].reg == i && Wants(regs[i].behavior, vs[k]) && Shown(regs[i], vs[k]).raised.None?
  }

  /** The visits at which registration i wanted the event and its handler raised. */
  ghost function Raised(regs: seq<Reg>, i: nat, vs: seq<Visit>): set<nat>
    requires i < |regs|
  {
    set k: nat | k < |vs| && vs[k].reg == i && Wants(regs[i].behavior, vs[k]) && Shown(regs[i], vs[k]).raised.Some?
  }

  lemma OneMoreVisit(regs: seq<Reg>, i: nat, vs: seq<Visit>, v: Visit)
    requires i < |regs|
    ensures var wanted := v.reg == i && Wants(regs[i].behavior, v);
            Returned(regs, i, vs + [v])
            == Returned(regs, i, vs) + (if wanted && Shown(regs[i], v).raised.None? then {|vs|} else {})
            && Raised(regs, i, vs + [v])
               == Raised(regs, i, vs) + (if wanted && Shown(regs[i], v).raised.Some? then {|vs|} else {})
  {
    assert forall k: nat | k < |vs| :: (vs + [v])[k] == vs[k];
  }

  lemma {:induction false} LedgerCounts(regs: seq<Reg>, i: nat, vs: seq<Visit>)
    requires i < |regs|
    ensures FiredIn(regs, i, vs) == |Returned(regs, i, vs)|
    ensures RaisedIn(regs, i, vs) == |Raised(regs, i, vs)|
  {
    if vs == [] {
      assert Returned(regs, i, vs) == {} == Raised(regs, i, vs);
    } else {
      var vs0, v := vs[..|vs| - 1], vs[|vs| - 1];
      assert vs == vs0 + [v];
      LedgerCounts(regs, i, vs0);
      OneMoreVisit(regs, i, vs0, v);
      EnabledIff(regs[i], v);
    }
  }

  /** Over one publish, a registration's fire count and error count grow by exactly the added visits at which it was
      active, subscribed and satisfied, and its handler returned, or raised. */
  lemma CountersCountWantedVisits(regs: seq<Reg>, left: nat, e: GraphEvent, st: RtState, i: nat)
    requires |st.counters| == |regs| && i < |regs|
    ensures var r := Publish(regs, left, e, st);
            st.visits <= r.visits
            && r.counters[i].fires == st.counters[i].fires + |Returned(regs, i, r.visits[|st.visits|..])|
            && r.counters[i].errors == st.counters[i].errors + |Raised(regs, i, r.visits[|st.visits|..])|
  {
    CountersFollowVisits(regs, left, e, st, i);
    LedgerCounts(regs, i, Publish(regs, left, e, st).visits[|st.visits|..]);
  }

  /** A turn nobody wants only records the visit; a wanted one publishes what the handler emits and then settles the
      registration's own counters, keeping the error it raised. */
  lemma TurnSettles(regs: seq<Reg>, left: nat, e: GraphEvent, i: nat, st: RtState)
    requires |st.counters| == |regs| && i < |regs|
    ensures var (v, r) := (Visit(i, e, st.processed, left), Turn(regs, left, e, i, st));
            var seen := RtState(st.processed, st.counters, st.visits + [v]);
            if !Wants(regs[i].behavior, v) then r == seen
            else
              var o := Shown(regs[i], v);
              var after := EmitFrom(regs, left, o.emits, 0, seen);
              var c := after.counters[i];
              r.processed == after.processed && r.visits == after.visits
              && (forall j :: 0 <= j < |regs| && j != i ==> r.counters[j] == after.counters[j])
              && r.counters[i] == match o.raised
                 case None => Counters(c.fires + 1, c.errors, c.lastError)
                 case Some(error) => Counters(c.fires, c.errors + 1, error)
  {
    EnabledIff(regs[i], Visit(i, e, st.processed, left));
  }

  // ---- What a handler publishes ----

  /** Position b of block a of n visits is registration b's turn for the event es[from + a]. */
  predicate TurnAt(vs: seq<Visit>, n: nat, es: seq<GraphEvent>, from: nat, a: nat, b: nat) {
    from + a < |es| && a * n + b < |vs| && vs[a * n + b].reg == b && vs[a * n + b].event == es[from + a]
  }

  /** Block a of n visits gives every registration its turn for the event es[from + a]. */
  predicate Blocks(vs: seq<Visit>, n: nat, es: seq<GraphEvent>, from: nat) {
    from <= |es| && |vs| == (|es| - from) * n
    && forall a: nat, b: nat :: a < |es| - from && b < n ==> TurnAt(vs, n, es, from, a, b)
  }

  lemma Shifted(n: nat, a: nat)
    ensures (a + 1) * n == n + a * n
  {
  }

  lemma TurnInBlock(block: seq<Visit>, rest: seq<Visit>, es: seq<GraphEvent>, from: nat, a: nat, b: nat)
    requires from < |es| && TurnsFrom(block, 0, es[from]) && Blocks(rest, |block|, es, from + 1)
    requires a < |es| - from && b < |block|
    ensures TurnAt(block + rest, |block|, es, from, a, b)
  {
    var n, vs := |block|, block + rest;
    if a == 0 {
      assert vs[b] == block[b];
    } else {
      Shifted(n, a - 1);
      assert TurnAt(rest, n, es, from + 1, a - 1, b);
      assert vs[n + ((a - 1) * n + b)] == rest[(a - 1) * n + b];
    }
  }

  lemma BlockInFront(block: seq<Visit>, rest: seq<Visit>, es: seq<GraphEvent>, from: nat)
    requires from < |es| && TurnsFrom(block, 0, es[from]) && Blocks(rest, |block|, es, from + 1)
    ensures Blocks(block + rest, |block|, es, from)
  {
    Shifted(|block|, |es| - from - 1);
    forall a: nat, b: nat | a < |es| - from && b < |block| ensures TurnAt(block + rest, |block|, es, from, a, b) {
      TurnInBlock(block, rest, es, from, a, b);
    }
  }

  /** Publishing a list of events below the depth limit visits every registration in order for the first event, then for
      the second, and so on. */
  lemma {:induction false} EmitsInOrder(regs: seq<Reg>, left: nat, es: seq<GraphEvent>, i: nat, st: RtState)
    returns (turns: seq<Visit>)
    requires |st.counters| == |regs| && i <= |es| && left > 0
    ensures Filter(EmitFrom(regs, left, es, i, st).visits, AtLevel(left - 1))
         == Filter(st.visits, AtLevel(left - 1)) + turns
    ensures Blocks(turns, |regs|, es, i)
    decreases |es| - i
  {
    var before := Filter(st.visits, AtLevel(left - 1));
    if i == |es| {
      turns := [];
      assert before + [] == before;
    } else {
      var next := Publish(regs, left, es[i], st);
      var block := DispatchTakesTurns(regs, left - 1, es[i], 0, st.(processed := st.processed + 1));
      var rest := EmitsInOrder(regs, left, es, i + 1, next);
      turns := block + rest;
      BlockInFront(block, rest, es, i);
      assert before + block + rest == before + turns;
    }
  }

  lemma Divided(m: nat, n: nat)
    requires n > 0
    ensures m == (m / n) * n + m % n
  {
  }

  lemma QuotientBelow(m: nat, n: nat, k: nat)
    requires n > 0 && m < k * n
    ensures m / n < k
  {
    Divided(m, n);
    LargerFactor(m / n, k, n);
  }

  lemma LargerFactor(x: nat, k: nat, n: nat)
    ensures x >= k ==> x * n >= k * n
  {
  }

  /** A wanted turn whose handler emits k events publishes them in order: at the next level of nesting there are k times
      as many visits as registrations, the m-th of which is registration m % R considering event m / R. */
  lemma TurnPublishesInOrder(regs: seq<Reg>, left: nat, e: GraphEvent, i: nat, st: RtState)
    requires |st.counters| == |regs| && i < |regs| && left > 0
    requires Wants(regs[i].behavior, Visit(i, e, st.processed, left))
    ensures st.visits <= Turn(regs, left, e, i, st).visits
    ensures var es := regs[i].handler(Context(e, e.runId, st.processed)).emits;
            var turns := Filter(Turn(regs, left, e, i, st).visits[|st.visits|..], AtLevel(left - 1));
            |turns| == |es| * |regs| && forall m: nat :: m < |turns| ==> TurnAtQuotient(turns, |regs|, es, m)
  {
    var v := Visit(i, e, st.processed, left);
    var seen := st.(visits := st.visits + [v]);
    var es := Shown(regs[i], v).emits;
    var p := AtLevel(left - 1);
    TurnSettles(regs, left, e, i, st);
    TurnVisits(regs, left, e, i, st);
    var turns := EmitsInOrder(regs, left, es, 0, seen);
    var r := Turn(regs, left, e, i, st);
    AddedAtLevel(st.visits, v, r.visits, turns, p);
    forall m: nat | m < |turns| ensures TurnAtQuotient(turns, |regs|, es, m) {
      BlocksByQuotient(turns, |regs|, es, m);
    }
  }

  /** Visit m is registration m % n considering event m / n. */
  predicate TurnAtQuotient(vs: seq<Visit>, n: nat, es: seq<GraphEvent>, m: nat) {
    m < |vs| && n > 0 && m / n < |es| && vs[m].reg == m % n && vs[m].event == es[m / n]
  }

  lemma BlocksByQuotient(vs: seq<Visit>, n: nat, es: seq<GraphEvent>, m: nat)
    requires Blocks(vs, n, es, 0) && m < |vs|
    ensures TurnAtQuotient(vs, n, es, m)
  {
    assert n == 0 ==> |es| * n == 0;
    Divided(m, n);
    QuotientBelow(m, n, |es|);
    assert TurnAt(vs, n, es, 0, m / n, m % n);
  }

  lemma AddedAtLevel(before: seq<Visit>, v: Visit, after: seq<Visit>, turns: seq<Visit>, p: Visit -> bool)
    requires before <= after && !p(v)
    requires Filter(after, p) == Filter(before + [v], p) + turns
    ensures Filter(after[|before|..], p) == turns
  {
    var added := after[|before|..];
    assert after == before + added;
    FilterConcat(before, added, p);
    FilterSnoc(before, v, p);
    var f := Filter(before, p);
    assert f + [] == f;
    assert (f + Filter(added, p))[|f|..] == (f + turns)[|f|..];
  }

  /** At the depth limit what is emitted is counted, and nobody is visited. */
  lemma {:induction false} EmitsAtTheLimit(regs: seq<Reg>, es: seq<GraphEvent>, i: nat, st: RtState)
    requires |st.counters| == |regs| && i <= |es|
    ensures EmitFrom(regs, 0, es, i, st) == st.(processed := st.processed + (|es| - i))
    decreases |es| - i
  {
    if i < |es| {
      EmitsAtTheLimit(regs, es, i + 1, Publish(regs, 0, es[i], st));
    }
  }
}
