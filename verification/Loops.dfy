/** The Loop entity: an append-only lifecycle whose state is the state of its last event. */
module Loops {
  import opened Prelude
  import opened Json

  datatype LoopState = Pending | Running | Verifying | Done | Failed | Retained

  datatype LoopEventKind =
    | Started | StateChanged | SkillUsed | Verified | Failure | Retaining | Finished | BudgetExhausted

  datatype LoopEvent = LoopEvent(kind: LoopEventKind, state: LoopState, payload: Payload)

  datatype Loop = Loop(id: string, intent: string, skills: seq<string>, lifecycle: seq<LoopEvent>, state: LoopState)

  datatype LoopError = TerminalState | IllegalTransition

  predicate IsTerminal(s: LoopState) {
    s.Done? || s.Failed? || s.Retained?
  }

  predicate IsLegal(src: LoopState, dst: LoopState) {
    match src
    case Pending => dst.Running? || dst.Failed? || dst.Retained?
    case Running => dst.Verifying? || dst.Failed? || dst.Retained? || dst.Done?
    case Verifying => dst.Done? || dst.Failed? || dst.Retained? || dst.Running?
    case _ => false
  }

  /** The state is the projection of the last event. */
  predicate Projected(l: Loop) {
    l.state == if l.lifecycle == [] then Pending else l.lifecycle[|l.lifecycle| - 1].state
  }

  function Advance(l: Loop, e: LoopEvent, validateTransition: bool): Result<Loop, LoopError> {
    if IsTerminal(l.state) then Result.Failure(TerminalState)
    else if validateTransition && !IsLegal(l.state, e.state) then Result.Failure(IllegalTransition)
    else Success(Loop(l.id, l.intent, l.skills, l.lifecycle + [e], e.state))
  }

  function Start(id: string, intent: string, skills: seq<string>): Result<Loop, LoopError> {
    Advance(
      Loop(id, intent, skills, [], Pending),
      LoopEvent(Started, Running, map["intent" := Str(intent)]),
      false)
  }

  /** A call of `advance`: the event and whether its transition is validated. */
  datatype Call = Call(event: LoopEvent, validate: bool)

  /** A loop after a run of advances; rejected ones leave it as it was. */
  function AdvanceAll(l: Loop, calls: seq<Call>): Loop {
    if calls == [] then l
    else
      var before, call := AdvanceAll(l, calls[..|calls| - 1]), calls[|calls| - 1];
      match Advance(before, call.event, call.validate)
      case Success(next) => next
      case Failure(_) => before
  }

  /** The calls that were accepted. */
  function Accepted(l: Loop, calls: seq<Call>): seq<Call> {
    if calls == [] then []
    else
      var calls0, call := calls[..|calls| - 1], calls[|calls| - 1];
      Accepted(l, calls0)
      + (if Advance(AdvanceAll(l, calls0), call.event, call.validate).Success? then [call] else [])
  }

  /** The state before position i of a lifecycle. */
  function StateBefore(es: seq<LoopEvent>, i: nat): LoopState
    requires i <= |es|
  {
    if i == 0 then Pending else es[i - 1].state
  }

  /** The lifecycle is the start event followed by exactly the accepted calls' events: no accepted call follows a
      terminal state, and every validated one is a legal transition. */
  predicate Follows(es: seq<LoopEvent>, accepted: seq<Call>) {
    |es| == 1 + |accepted|
    && forall i :: 0 <= i < |accepted| ==>
         es[i + 1] == accepted[i].event
         && !IsTerminal(StateBefore(es, i + 1))
         && (accepted[i].validate ==> IsLegal(StateBefore(es, i + 1), es[i + 1].state))
  }

  /** The legal transitions, one by one. */
  lemma LegalTransitions(src: LoopState, dst: LoopState)
    ensures IsLegal(src, dst) <==>
              (src, dst) in {(Pending, Running), (Pending, Failed), (Pending, Retained),
                             (Running, Verifying), (Running, Done), (Running, Failed), (Running, Retained),
                             (Verifying, Running), (Verifying, Done), (Verifying, Failed), (Verifying, Retained)}
    ensures IsTerminal(src) <==> forall next :: !IsLegal(src, next)
  {
    assert IsLegal(Pending, Running) && IsLegal(Running, Done) && IsLegal(Verifying, Done);
  }

  /** Starting a loop records one event: it runs, with its intent. */
  lemma StartMeans(id: string, intent: string, skills: seq<string>)
    ensures Start(id, intent, skills)
         == Success(Loop(id, intent, skills, [LoopEvent(Started, Running, map["intent" := Str(intent)])], Running))
  {
    var e := LoopEvent(Started, Running, map["intent" := Str(intent)]);
    assert [] + [e] == [e];
  }

  lemma FollowsSnoc(es: seq<LoopEvent>, accepted: seq<Call>, call: Call)
    requires es != [] && Follows(es, accepted) && !IsTerminal(es[|es| - 1].state)
    requires call.validate ==> IsLegal(es[|es| - 1].state, call.event.state)
    ensures Follows(es + [call.event], accepted + [call])
  {
    var es', accepted' := es + [call.event], accepted + [call];
    forall i | 0 <= i < |accepted'|
      ensures es'[i + 1] == accepted'[i].event && !IsTerminal(StateBefore(es', i + 1))
              && (accepted'[i].validate ==> IsLegal(StateBefore(es', i + 1), es'[i + 1].state))
    {
      assert es'[i] == es[i];
      if i < |accepted| {
        assert accepted'[i] == accepted[i] && es'[i + 1] == es[i + 1] && !IsTerminal(StateBefore(es, i + 1));
      }
    }
  }

  /** Over any run of validated and unvalidated advances, a started loop keeps its identity, only appends what was
      accepted to its lifecycle, leaves no terminal state, walks legal transitions wherever validated, and stays the
      projection of its last event. */
  lemma {:induction false} LifecycleIsAppendOnly(id: string, intent: string, skills: seq<string>, calls: seq<Call>)
    ensures Start(id, intent, skills).Success?
    ensures var first := Start(id, intent, skills).value;
            var l := AdvanceAll(first, calls);
            l.id == id && l.intent == intent && l.skills == skills
            && first.lifecycle <= l.lifecycle && Projected(l) && Follows(l.lifecycle, Accepted(first, calls))
  {
    var first := Start(id, intent, skills).value;
    if calls == [] {
      assert AdvanceAll(first, calls) == first && Accepted(first, calls) == [];
    } else {
      var calls0, call := calls[..|calls| - 1], calls[|calls| - 1];
      LifecycleIsAppendOnly(id, intent, skills, calls0);
      var before := AdvanceAll(first, calls0);
      if Advance(before, call.event, call.validate).Success? {
        FollowsSnoc(before.lifecycle, Accepted(first, calls0), call);
      } else {
        assert Accepted(first, calls0) + [] == Accepted(first, calls0);
      }
    }
  }
}
