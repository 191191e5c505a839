/** Every handler run is accounted for: counters against the visits of the dispatch loop. */
module VisitLedger {
  import opened Prelude
  import opened EventStore
  import opened Dispatch

  /** The visit found registration i enabled, so its handler ran. */
  predicate RanAt(regs: seq<Reg>, i: nat, v: Visit) {
    i < |regs| && v.reg == i && Enabled(regs[i], v.event, v.processed)
  }

  /** Number of visits at which registration i ran and did not raise. */
  function FiredIn(regs: seq<Reg>, i: nat, vs: seq<Visit>): nat {
    if vs == [] then 0
    else
      var v := vs[|vs| - 1];
      FiredIn(regs, i, vs[..|vs| - 1])
      + (if RanAt(regs, i, v) && Run(regs[i], v.event, v.processed).raised.None? then 1 else 0)
  }

  /** Number of visits at which registration i ran and raised. */
  function RaisedIn(regs: seq<Reg>, i: nat, vs: seq<Visit>): nat {
    if vs == [] then 0
    else
      var v := vs[|vs| - 1];
      RaisedIn(regs, i, vs[..|vs| - 1])
      + (if RanAt(regs, i, v) && Run(regs[i], v.event, v.processed).raised.Some? then 1 else 0)
  }

  lemma CountOneMore(regs: seq<Reg>, i: nat, vs: seq<Visit>, v: Visit)
    ensures FiredIn(regs, i, vs + [v]) == FiredIn(regs, i, vs)
      + (if RanAt(regs, i, v) && Run(regs[i], v.event, v.processed).raised.None? then 1 else 0)
    ensures RaisedIn(regs, i, vs + [v]) == RaisedIn(regs, i, vs)
      + (if RanAt(regs, i, v) && Run(regs[i], v.event, v.processed).raised.Some? then 1 else 0)
  {
    assert (vs + [v])[..|vs|] == vs;
  }

  lemma {:induction false} CountsAdd(regs: seq<Reg>, i: nat, vs: seq<Visit>, ws: seq<Visit>)
    ensures FiredIn(regs, i, vs + ws) == FiredIn(regs, i, vs) + FiredIn(regs, i, ws)
    ensures RaisedIn(regs, i, vs + ws) == RaisedIn(regs, i, vs) + RaisedIn(regs, i, ws)
  {
    if ws == [] {
      assert vs + ws == vs;
    } else {
      var ws0, w := ws[..|ws| - 1], ws[|ws| - 1];
      CountsAdd(regs, i, vs, ws0);
      CountOneMore(regs, i, vs + ws0, w);
      assert vs + ws == (vs + ws0) + [w];
    }
  }

  /** Visits are in count order and none is ahead of the current count. */
  ghost predicate InCountOrder(vs: seq<Visit>, processed: int) {
    (forall a, b :: 0 <= a < b < |vs| ==> vs[a].processed <= vs[b].processed)
    && forall a :: 0 <= a < |vs| ==> vs[a].processed <= processed
  }

  /** From st to r: visits only accumulate, in count order, and the counters of registration i moved with them. */
  ghost predicate Kept(regs: seq<Reg>, i: nat, st: RtState, r: RtState)
    requires i < |regs| == |st.counters| == |r.counters|
  {
    st.visits <= r.visits
    && st.processed <= r.processed
    && (InCountOrder(st.visits, st.processed) ==> InCountOrder(r.visits, r.processed))
    && r.counters[i].fires - FiredIn(regs, i, r.visits) == st.counters[i].fires - FiredIn(regs, i, st.visits)
    && r.counters[i].errors - RaisedIn(regs, i, r.visits) == st.counters[i].errors - RaisedIn(regs, i, st.visits)
  }

  lemma {:induction false} PublishKeeps(regs: seq<Reg>, left: nat, e: GraphEvent, st: RtState, i: nat)
    requires |st.counters| == |regs| && i < |regs|
    ensures Kept(regs, i, st, Publish(regs, left, e, st))
    decreases left, 0, 0
  {
    if left > 0 {
      DispatchKeeps(regs, left - 1, e, 0, st.(processed := st.processed + 1), i);
    }
  }

  lemma {:induction false} DispatchKeeps(regs: seq<Reg>, left: nat, e: GraphEvent, k: nat, st: RtState, i: nat)
    requires |st.counters| == |regs| && i < |regs| && k <= |regs|
    ensures Kept(regs, i, st, DispatchFrom(regs, left, e, k, st))
    decreases left, 2, |regs| - k
  {
    if k < |regs| {
      TurnKeeps(regs, left, e, k, st, i);
      DispatchKeeps(regs, left, e, k + 1, Turn(regs, left, e, k, st), i);
    }
  }

  lemma {:induction false} TurnKeeps(regs: seq<Reg>, left: nat, e: GraphEvent, k: nat, st: RtState, i: nat)
    requires |st.counters| == |regs| && i < |regs| && k < |regs|
    ensures Kept(regs, i, st, Turn(regs, left, e, k, st))
    decreases left, 2, |regs| - k - 1
  {
    var v := Visit(k, e, st.processed, left);
    var seen := st.(visits := st.visits + [v]);
    CountOneMore(regs, i, st.visits, v);
    if Enabled(regs[k], e, st.processed) {
      EmitKeeps(regs, left, Run(regs[k], e, st.processed).emits, 0, seen, i);
    }
  }

  lemma {:induction false} EmitKeeps(regs: seq<Reg>, left: nat, es: seq<GraphEvent>, k: nat, st: RtState, i: nat)
    requires |st.counters| == |regs| && i < |regs| && k <= |es|
    ensures Kept(regs, i, st, EmitFrom(regs, left, es, k, st))
    decreases left, 1, |es| - k
  {
    if k < |es| {
      PublishKeeps(regs, left, es[k], st, i);
      EmitKeeps(regs, left, es, k + 1, Publish(regs, left, es[k], st), i);
    }
  }

  /** Over one publish, a registration's fire count and error count grow by exactly the visits at which it was
      enabled and did not raise, and at which it was enabled and raised. */
  lemma CountersFollowVisits(regs: seq<Reg>, left: nat, e: GraphEvent, st: RtState, i: nat)
    requires |st.counters| == |regs| && i < |regs|
    ensures var r := Publish(regs, left, e, st);
            st.visits <= r.visits
            && r.counters[i].fires == st.counters[i].fires + FiredIn(regs, i, r.visits[|st.visits|..])
            && r.counters[i].errors == st.counters[i].errors + RaisedIn(regs, i, r.visits[|st.visits|..])
  {
    var r := Publish(regs, left, e, st);
    PublishKeeps(regs, left, e, st, i);
    CountsAdd(regs, i, st.visits, r.visits[|st.visits|..]);
    assert st.visits + r.visits[|st.visits|..] == r.visits;
  }

  /** The activation gate never closes again: a registration active at one visit is active at every later one. */
  lemma GateNeverCloses(regs: seq<Reg>, left: nat, e: GraphEvent, st: RtState, a: nat, b: nat, i: nat)
    requires |st.counters| == |regs| && i < |regs| && InCountOrder(st.visits, st.processed)
    requires a < b < |Publish(regs, left, e, st).visits|
    ensures var vs := Publish(regs, left, e, st).visits;
            regs[i].behavior.ShouldActivate(vs[a].processed) ==> regs[i].behavior.ShouldActivate(vs[b].processed)
  {
    PublishKeeps(regs, left, e, st, i);
  }

  // ---- Whose turn it is ----

  /** From st to r, visits were only appended, and only with fewer than `left` levels of nesting left. */
  ghost predicate VisitsBelow(st: RtState, r: RtState, left: nat) {
    st.visits <= r.visits && forall k :: |st.visits| <= k < |r.visits| ==> r.visits[k].left < left
  }

  lemma {:induction false} PublishVisitsBelow(regs: seq<Reg>, left: nat, e: GraphEvent, st: RtState)
    requires |st.counters| == |regs|
    ensures VisitsBelow(st, Publish(regs, left, e, st), left)
    decreases left, 0, 0
  {
    if left > 0 {
      DispatchVisitsBelow(regs, left - 1, e, 0, st.(processed := st.processed + 1));
    }
  }

  lemma {:induction false} DispatchVisitsBelow(regs: seq<Reg>, left: nat, e: GraphEvent, i: nat, st: RtState)
    requires |st.counters| == |regs| && i <= |regs|
    ensures VisitsBelow(st, DispatchFrom(regs, left, e, i, st), left + 1)
    decreases left, 2, |regs| - i
  {
    if i < |regs| {
      TurnVisits(regs, left, e, i, st);
      DispatchVisitsBelow(regs, left, e, i + 1, Turn(regs, left, e, i, st));
    }
  }

  /** A turn records itself first; whatever its handler causes happens further down. */
  lemma {:induction false} TurnVisits(regs: seq<Reg>, left: nat, e: GraphEvent, i: nat, st: RtState)
    requires |st.counters| == |regs| && i < |regs|
    ensures var (v, r) := (Visit(i, e, st.processed, left), Turn(regs, left, e, i, st));
            VisitsBelow(st.(visits := st.visits + [v]), r, left) && VisitsBelow(st, r, left + 1)
    decreases left, 2, |regs| - i - 1
  {
    var seen := st.(visits := st.visits + [Visit(i, e, st.processed, left)]);
    if Enabled(regs[i], e, st.processed) {
      EmitVisitsBelow(regs, left, Run(regs[i], e, st.processed).emits, 0, seen);
    }
  }

  lemma {:induction false} EmitVisitsBelow(regs: seq<Reg>, left: nat, es: seq<GraphEvent>, i: nat, st: RtState)
    requires |st.counters| == |regs| && i <= |es|
    ensures VisitsBelow(st, EmitFrom(regs, left, es, i, st), left)
    decreases left, 1, |es| - i
  {
    if i < |es| {
      PublishVisitsBelow(regs, left, es[i], st);
      EmitVisitsBelow(regs, left, es, i + 1, Publish(regs, left, es[i], st));
    }
  }

  function AtLevel(left: nat): Visit -> bool {
    (v: Visit) => v.left == left
  }

  /** The visits' registrations are `from`, `from` + 1, ... and each was shown the event e. */
  predicate TurnsFrom(vs: seq<Visit>, from: nat, e: GraphEvent) {
    forall k :: 0 <= k < |vs| ==> vs[k].reg == from + k && vs[k].event == e
  }

  lemma LevelAfterTurn(regs: seq<Reg>, left: nat, e: GraphEvent, i: nat, st: RtState) returns (v: Visit)
    requires |st.counters| == |regs| && i < |regs|
    ensures v == Visit(i, e, st.processed, left)
    ensures Filter(Turn(regs, left, e, i, st).visits, AtLevel(left)) == Filter(st.visits, AtLevel(left)) + [v]
  {
    v := Visit(i, e, st.processed, left);
    var r := Turn(regs, left, e, i, st);
    var seen := st.visits + [v];
    TurnVisits(regs, left, e, i, st);
    var more := r.visits[|seen|..];
    assert r.visits == seen + more;
    FilterConcat(seen, more, AtLevel(left));
    FilterNone(more, AtLevel(left));
    FilterSnoc(st.visits, v, AtLevel(left));
  }

  lemma VisitsFromNext(regs: seq<Reg>, left: nat, e: GraphEvent, i: nat, st: RtState)
    requires |st.counters| == |regs| && i < |regs|
    ensures DispatchFrom(regs, left, e, i, st).visits
         == DispatchFrom(regs, left, e, i + 1, Turn(regs, left, e, i, st)).visits
  {
  }

  lemma NoTurnsLeft(regs: seq<Reg>, left: nat, e: GraphEvent, st: RtState)
    requires |st.counters| == |regs|
    ensures Filter(DispatchFrom(regs, left, e, |regs|, st).visits, AtLevel(left))
         == Filter(st.visits, AtLevel(left)) + []
  {
    assert Filter(st.visits, AtLevel(left)) + [] == Filter(st.visits, AtLevel(left));
  }

  /** At its own level of nesting, the dispatch loop visits the registrations from i on, each once and in order, all
      for the event dispatched, whatever is published in between. */
  lemma {:induction false} DispatchTakesTurns(regs: seq<Reg>, left: nat, e: GraphEvent, i: nat, st: RtState)
    returns (turns: seq<Visit>)
    requires |st.counters| == |regs| && i <= |regs|
    ensures Filter(DispatchFrom(regs, left, e, i, st).visits, AtLevel(left))
         == Filter(st.visits, AtLevel(left)) + turns
    ensures |turns| == |regs| - i && TurnsFrom(turns, i, e)
    decreases |regs| - i
  {
    if i == |regs| {
      turns := [];
      NoTurnsLeft(regs, left, e, st);
    } else {
      var v := LevelAfterTurn(regs, left, e, i, st);
      var rest := DispatchTakesTurns(regs, left, e, i + 1, Turn(regs, left, e, i, st));
      VisitsFromNext(regs, left, e, i, st);
      turns := OneTurnMore(
        Filter(st.visits, AtLevel(left)), Filter(Turn(regs, left, e, i, st).visits, AtLevel(left)),
        Filter(DispatchFrom(regs, left, e, i, st).visits, AtLevel(left)), v, rest, i, e);
    }
  }

  lemma OneTurnMore(
    before: seq<Visit>, after: seq<Visit>, all: seq<Visit>, v: Visit, rest: seq<Visit>, i: nat, e: GraphEvent)
    returns (turns: seq<Visit>)
    requires after == before + [v] && all == after + rest
    requires v.reg == i && v.event == e && TurnsFrom(rest, i + 1, e)
    ensures all == before + turns && |turns| == |rest| + 1 && TurnsFrom(turns, i, e)
  {
    turns := [v] + rest;
    assert all == before + turns;
    assert forall k :: 0 < k < |turns| ==> turns[k] == rest[k - 1];
  }

  /** Every publish below the depth limit gives every registration exactly one turn, in registration order; at the
      limit nobody gets one. */
  lemma PublishTakesTurns(regs: seq<Reg>, left: nat, e: GraphEvent, st: RtState)
    requires |st.counters| == |regs|
    ensures st.visits <= Publish(regs, left, e, st).visits
    ensures var added := Publish(regs, left, e, st).visits[|st.visits|..];
            if left == 0 then added == []
            else
              var turns := Filter(added, AtLevel(left - 1));
              |turns| == |regs| && TurnsFrom(turns, 0, e) && forall v :: v in added ==> v.left < left
  {
    if left > 0 {
      var r := Publish(regs, left, e, st);
      PublishVisitsBelow(regs, left, e, st);
      var added := r.visits[|st.visits|..];
      var turns := DispatchTakesTurns(regs, left - 1, e, 0, st.(processed := st.processed + 1));
      assert r.visits == st.visits + added;
      FilterConcat(st.visits, added, AtLevel(left - 1));
      var before := Filter(st.visits, AtLevel(left - 1));
      assert (before + Filter(added, AtLevel(left - 1)))[|before|..] == (before + turns)[|before|..];
    }
  }
}
