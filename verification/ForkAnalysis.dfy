/** Why a fork diverged: reactive audit events of the two runs, counted and compared. */
module ForkAnalysis {
  import opened Prelude
  import opened Json
  import opened EventLog
  import opened EventStore
  import opened RunDiffs
  import opened ForkEngine

  /** An audit event type together with the payload key that names who it is about. */
  datatype Tally = Tally(eventType: string, key: string)

  const BEHAVIORS := Tally("behavior.triggered", "behavior_name")
  const PROPOSERS := Tally("patch.proposed", "proposed_by")
  const PATTERNS := Tally("pattern.matched", "pattern_name")

  datatype AnalysisError = UnhashableName

  function NameOf(e: GraphEvent, t: Tally): Value {
    GetOr(e.payload, t.key, Str("unknown"))
  }

  /** Number of audit events of this kind about this name. */
  function Count(es: seq<GraphEvent>, t: Tally, name: Value): nat {
    if es == [] then 0
    else
      var e := es[|es| - 1];
      Count(es[..|es| - 1], t, name) + (if e.eventType == t.eventType && NameOf(e, t) == name then 1 else 0)
  }

  function Names(es: seq<GraphEvent>, t: Tally): set<Value> {
    set e | e in es && e.eventType == t.eventType :: NameOf(e, t)
  }

  predicate IsDecision(e: GraphEvent) {
    e.eventType == "policy.approved" || e.eventType == "policy.rejected"
  }

  function ProposalOf(e: GraphEvent): Value {
    GetOr(e.payload, "proposal_id", Str(""))
  }

  /** The last decision taken about a proposal. */
  function Decision(es: seq<GraphEvent>, pid: Value): Option<string> {
    if es == [] then None
    else
      var e := es[|es| - 1];
      if IsDecision(e) && ProposalOf(e) == pid then Some(e.eventType) else Decision(es[..|es| - 1], pid)
  }

  function Decided(es: seq<GraphEvent>): set<Value> {
    set e | e in es && IsDecision(e) :: ProposalOf(e)
  }

  predicate AllHashable(s: set<Value>) {
    forall v :: v in s ==> Hashable(v)
  }

  function CountDiff(ps: seq<GraphEvent>, fs: seq<GraphEvent>, t: Tally): map<Value, (nat, nat)> {
    map n | n in Names(ps, t) + Names(fs, t) && Count(ps, t, n) != Count(fs, t, n)
      :: (Count(ps, t, n), Count(fs, t, n))
  }

  function OrNone(d: Option<string>): string {
    if d.Some? then d.value else "none"
  }

  function DecisionDiff(ps: seq<GraphEvent>, fs: seq<GraphEvent>): map<Value, (string, string)> {
    map pid | pid in Decided(ps) + Decided(fs) && Decision(ps, pid) != Decision(fs, pid)
      :: (OrNone(Decision(ps, pid)), OrNone(Decision(fs, pid)))
  }

  datatype ReactiveDivergence = ReactiveDivergence(
    behaviorFirings: map<Value, (nat, nat)>, patchProposals: map<Value, (nat, nat)>,
    policyDecisions: map<Value, (string, string)>, patternMatches: map<Value, (nat, nat)>)
  {
    predicate HasDivergence() {
      behaviorFirings != map[] || patchProposals != map[] || policyDecisions != map[] || patternMatches != map[]
    }
  }

  datatype ForkAnalysisRecord = ForkAnalysisRecord(
    parentRunId: string, forkRunId: string, structuralDiff: Option<RunDiff>,
    reactive: ReactiveDivergence, splitEventId: string)

  function Reactive(ps: seq<GraphEvent>, fs: seq<GraphEvent>): ReactiveDivergence {
    ReactiveDivergence(
      CountDiff(ps, fs, BEHAVIORS), CountDiff(ps, fs, PROPOSERS), DecisionDiff(ps, fs), CountDiff(ps, fs, PATTERNS))
  }

  /** Every name the analysis uses as a dictionary key can be one. */
  predicate Analyzable(es: seq<GraphEvent>) {
    AllHashable(Names(es, BEHAVIORS)) && AllHashable(Names(es, PROPOSERS))
    && AllHashable(Names(es, PATTERNS)) && AllHashable(Decided(es))
  }

  class ForkAnalysisUseCase {
    const store: EventStoreImpl

    constructor (store: EventStoreImpl)
      ensures this.store == store
    {
      this.store := store;
    }

    method Analyze(parentRunId: string, forkRunId: string, structuralDiff: Option<RunDiff>)
      returns (analysis: Result<ForkAnalysisRecord, AnalysisError>)
      requires store.backend.Valid()
      ensures var ps := Events(store.codec, store.backend.rows, Some(parentRunId));
              var fs := Events(store.codec, store.backend.rows, Some(forkRunId));
              analysis ==
                if Analyzable(ps) && Analyzable(fs) then
                  Success(ForkAnalysisRecord(
                    parentRunId, forkRunId, structuralDiff, Reactive(ps, fs),
                    if structuralDiff.Some? then structuralDiff.value.splitEventId else ""))
                else Failure(UnhashableName)
      ensures analysis.Success? ==>
                forall n :: Compares(
                  analysis.value.reactive, Events(store.codec, store.backend.rows, Some(parentRunId)),
                  Events(store.codec, store.backend.rows, Some(forkRunId)), n)
    {
      var parentEvents := store.IterEvents(Some(parentRunId));
      var forkEvents := store.IterEvents(Some(forkRunId));
      forall n ensures Compares(Reactive(parentEvents, forkEvents), parentEvents, forkEvents, n) {
        ReactiveCompares(parentEvents, forkEvents, n);
      }
      var behaviors := CountBy(BEHAVIORS, parentEvents, forkEvents);
      if behaviors.Failure? { return Failure(UnhashableName); }
      var proposers := CountBy(PROPOSERS, parentEvents, forkEvents);
      if proposers.Failure? { return Failure(UnhashableName); }
      var decisions := PolicyDecisions(parentEvents, forkEvents);
      if decisions.Failure? { return Failure(UnhashableName); }
      var patterns := CountBy(PATTERNS, parentEvents, forkEvents);
      if patterns.Failure? { return Failure(UnhashableName); }
      analysis := Success(ForkAnalysisRecord(
        parentRunId, forkRunId, structuralDiff,
        ReactiveDivergence(behaviors.value, proposers.value, decisions.value, patterns.value),
        if structuralDiff.Some? then structuralDiff.value.splitEventId else ""));
    }

    /** Shared shape of the behaviour, proposer and pattern counters. */
    method CountBy(t: Tally, ps: seq<GraphEvent>, fs: seq<GraphEvent>)
      returns (diff: Result<map<Value, (nat, nat)>, AnalysisError>)
      ensures diff == if AllHashable(Names(ps, t)) && AllHashable(Names(fs, t))
                      then Success(CountDiff(ps, fs, t)) else Failure(UnhashableName)
    {
      var parentCounts := CountNames(t, ps);
      if parentCounts.Failure? { return Failure(UnhashableName); }
      var forkCounts := CountNames(t, fs);
      if forkCounts.Failure? { return Failure(UnhashableName); }
      var pc, fc := parentCounts.value, forkCounts.value;
      var result := map n | n in pc.Keys + fc.Keys && GetCount(pc, n) != GetCount(fc, n)
        :: (GetCount(pc, n), GetCount(fc, n));
      assert result == CountDiff(ps, fs, t);
      diff := Success(result);
    }

    method CountNames(t: Tally, es: seq<GraphEvent>) returns (counts: Result<map<Value, nat>, AnalysisError>)
      ensures counts.Success? <==> AllHashable(Names(es, t))
      ensures counts.Success? ==>
                counts.value.Keys == Names(es, t) && forall n :: GetCount(counts.value, n) == Count(es, t, n)
    {
      var c: map<Value, nat> := map[];
      for i := 0 to |es|
        invariant AllHashable(Names(es[..i], t))
        invariant c.Keys == Names(es[..i], t) && forall n :: GetCount(c, n) == Count(es[..i], t, n)
      {
        var event := es[i];
        assert es[..i + 1] == es[..i] + [event];
        NamesSnoc(es[..i], event, t);
        CountSnoc(es[..i], event, t);
        if event.eventType == t.eventType {
          var name := NameOf(event, t);
          if !Hashable(name) {
            assert event in es;
            return Failure(UnhashableName);
          }
          c := c[name := GetCount(c, name) + 1];
        }
      }
      assert es[..|es|] == es;
      counts := Success(c);
    }

    method PolicyDecisions(ps: seq<GraphEvent>, fs: seq<GraphEvent>)
      returns (diff: Result<map<Value, (string, string)>, AnalysisError>)
      ensures diff == if AllHashable(Decided(ps)) && AllHashable(Decided(fs))
                      then Success(DecisionDiff(ps, fs)) else Failure(UnhashableName)
    {
      var parentDecisions := LastDecisions(ps);
      if parentDecisions.Failure? { return Failure(UnhashableName); }
      var forkDecisions := LastDecisions(fs);
      if forkDecisions.Failure? { return Failure(UnhashableName); }
      var pd, fd := parentDecisions.value, forkDecisions.value;
      var result := map pid | pid in pd.Keys + fd.Keys && Lookup(pd, pid) != Lookup(fd, pid)
        :: (OrNone(Lookup(pd, pid)), OrNone(Lookup(fd, pid)));
      assert result == DecisionDiff(ps, fs);
      diff := Success(result);
    }

    method LastDecisions(es: seq<GraphEvent>) returns (last: Result<map<Value, string>, AnalysisError>)
      ensures last.Success? <==> AllHashable(Decided(es))
      ensures last.Success? ==>
                last.value.Keys == Decided(es) && forall pid :: Lookup(last.value, pid) == Decision(es, pid)
    {
      var d: map<Value, string> := map[];
      for i := 0 to |es|
        invariant AllHashable(Decided(es[..i]))
        invariant d.Keys == Decided(es[..i]) && forall pid :: Lookup(d, pid) == Decision(es[..i], pid)
      {
        var event := es[i];
        assert es[..i + 1] == es[..i] + [event];
        DecisionSnoc(es[..i], event);
        if IsDecision(event) {
          if !Hashable(ProposalOf(event)) {
            assert event in es;
            return Failure(UnhashableName);
          }
          d := d[ProposalOf(event) := event.eventType];
        }
      }
      assert es[..|es|] == es;
      last := Success(d);
    }
  }

  function GetCount(c: map<Value, nat>, name: Value): nat {
    if name in c then c[name] else 0
  }

  function Lookup(d: map<Value, string>, pid: Value): Option<string> {
    if pid in d then Some(d[pid]) else None
  }

  // ---- Properties ----

  lemma NamesSnoc(es: seq<GraphEvent>, e: GraphEvent, t: Tally)
    ensures Names(es + [e], t) == Names(es, t) + (if e.eventType == t.eventType then {NameOf(e, t)} else {})
  {
    if e.eventType == t.eventType { assert e in es + [e]; }
  }

  lemma CountSnoc(es: seq<GraphEvent>, e: GraphEvent, t: Tally)
    ensures forall n :: Count(es + [e], t, n)
                     == Count(es, t, n) + (if e.eventType == t.eventType && NameOf(e, t) == n then 1 else 0)
  {
    assert (es + [e])[..|es|] == es;
  }

  lemma DecisionSnoc(es: seq<GraphEvent>, e: GraphEvent)
    ensures Decided(es + [e]) == Decided(es) + (if IsDecision(e) then {ProposalOf(e)} else {})
    ensures forall pid :: Decision(es + [e], pid)
                       == if IsDecision(e) && ProposalOf(e) == pid then Some(e.eventType) else Decision(es, pid)
  {
    if IsDecision(e) { assert e in es + [e]; }
    assert (es + [e])[..|es|] == es;
  }

  lemma {:induction false} CountSplits(a: seq<GraphEvent>, b: seq<GraphEvent>, t: Tally, n: Value)
    ensures Count(a + b, t, n) == Count(a, t, n) + Count(b, t, n)
  {
    if b == [] {
      assert a + b == a;
    } else {
      var b0, e := b[..|b| - 1], b[|b| - 1];
      CountSplits(a, b0, t, n);
      assert a + b == (a + b0) + [e];
      CountSnoc(a + b0, e, t);
    }
  }

  lemma {:induction false} DecisionSplits(a: seq<GraphEvent>, b: seq<GraphEvent>, pid: Value)
    ensures Decision(a + b, pid) == if Decision(b, pid).Some? then Decision(b, pid) else Decision(a, pid)
  {
    if b == [] {
      assert a + b == a;
    } else {
      var b0, e := b[..|b| - 1], b[|b| - 1];
      DecisionSplits(a, b0, pid);
      assert a + b == (a + b0) + [e];
      DecisionSnoc(a + b0, e);
    }
  }

  lemma {:induction false} RenamingKeepsCounts(es: seq<GraphEvent>, f: string, t: Tally, n: Value)
    ensures Count(RenamedAll(es, f), t, n) == Count(es, t, n)
    ensures Decision(RenamedAll(es, f), n) == Decision(es, n)
  {
    if es != [] {
      RenamingKeepsCounts(es[..|es| - 1], f, t, n);
      assert RenamedAll(es, f)[..|es| - 1] == RenamedAll(es[..|es| - 1], f);
    }
  }

  lemma {:induction false} CountedAreNames(es: seq<GraphEvent>, t: Tally, n: Value)
    ensures 0 < Count(es, t, n) <==> n in Names(es, t)
    ensures Decision(es, n).Some? <==> n in Decided(es)
  {
    if es != [] {
      var es0, e := es[..|es| - 1], es[|es| - 1];
      CountedAreNames(es0, t, n);
      assert es == es0 + [e];
      NamesSnoc(es0, e, t);
      DecisionSnoc(es0, e);
    }
  }

  /** A name is reported exactly when its counts differ, with those counts. */
  lemma CountDiffMeans(ps: seq<GraphEvent>, fs: seq<GraphEvent>, t: Tally, n: Value)
    ensures n in CountDiff(ps, fs, t) <==> Count(ps, t, n) != Count(fs, t, n)
    ensures n in DecisionDiff(ps, fs) <==> Decision(ps, n) != Decision(fs, n)
  {
    CountedAreNames(ps, t, n);
    CountedAreNames(fs, t, n);
  }

  /** What is reported about n is what the parent's events from position k on say about it: a count difference
      equal to its count there, and a policy difference exactly for a later decision that changed the outcome. */
  ghost predicate ReportsTheRest(ps: seq<GraphEvent>, fs: seq<GraphEvent>, k: nat, t: Tally, n: Value) {
    k <= |ps|
    && (n in CountDiff(ps, fs, t) <==> 0 < Count(ps[k..], t, n))
    && (n in CountDiff(ps, fs, t) ==>
          CountDiff(ps, fs, t)[n].0 == CountDiff(ps, fs, t)[n].1 + Count(ps[k..], t, n))
    && (n in DecisionDiff(ps, fs) <==>
          Decision(ps[k..], n).Some? && Decision(ps[k..], n) != Decision(ps[..k], n))
  }

  // ---- The analysis in the events' own terms ----

  /** The positions of the events of this type that name n under this key; without the key they name "unknown". */
  ghost function Mentions(es: seq<GraphEvent>, eventType: string, key: string, n: Value): set<nat> {
    set i: nat | i < |es| && es[i].eventType == eventType
                 && n == (if key in es[i].payload then es[i].payload[key] else Str("unknown"))
  }

  lemma MentionsSnoc(es: seq<GraphEvent>, e: GraphEvent, eventType: string, key: string, n: Value)
    ensures var names := e.eventType == eventType && n == (if key in e.payload then e.payload[key] else Str("unknown"));
            Mentions(es + [e], eventType, key, n)
            == Mentions(es, eventType, key, n) + (if names then {|es|} else {})
  {
    assert forall i: nat | i < |es| :: (es + [e])[i] == es[i];
  }

  lemma {:induction false} CountIsMentions(es: seq<GraphEvent>, t: Tally, n: Value)
    ensures Count(es, t, n) == |Mentions(es, t.eventType, t.key, n)|
  {
    if es == [] {
      assert Mentions(es, t.eventType, t.key, n) == {};
    } else {
      var es0, e := es[..|es| - 1], es[|es| - 1];
      assert es == es0 + [e];
      CountIsMentions(es0, t, n);
      MentionsSnoc(es0, e, t.eventType, t.key, n);
    }
  }

  /** A decision about the proposal; without an id the event is about the empty one. */
  predicate Decides(e: GraphEvent, pid: Value) {
    (e.eventType == "policy.approved" || e.eventType == "policy.rejected")
    && pid == (if "proposal_id" in e.payload then e.payload["proposal_id"] else Str(""))
  }

  /** Position i holds the last decision about the proposal. */
  predicate LastDeciding(es: seq<GraphEvent>, i: int, pid: Value) {
    0 <= i < |es| && Decides(es[i], pid) && forall j :: i < j < |es| ==> !Decides(es[j], pid)
  }

  predicate Undecided(es: seq<GraphEvent>, pid: Value) {
    forall j :: 0 <= j < |es| ==> !Decides(es[j], pid)
  }

  /** How the last decision about the proposal reads: its event type, or "none". */
  ghost predicate ReadsAs(es: seq<GraphEvent>, pid: Value, s: string) {
    (Undecided(es, pid) && s == "none") || exists i :: LastDeciding(es, i, pid) && s == es[i].eventType
  }

  lemma LastDecidingStays(es: seq<GraphEvent>, e: GraphEvent, i: int, pid: Value)
    requires LastDeciding(es, i, pid) && !Decides(e, pid)
    ensures LastDeciding(es + [e], i, pid) && (es + [e])[i] == es[i]
  {
  }

  lemma LastDecidingIsNew(es: seq<GraphEvent>, e: GraphEvent, pid: Value)
    requires Decides(e, pid)
    ensures LastDeciding(es + [e], |es|, pid) && (es + [e])[|es|] == e
  {
  }

  ghost predicate LastReads(es: seq<GraphEvent>, pid: Value, s: string) {
    exists i :: LastDeciding(es, i, pid) && s == es[i].eventType
  }

  lemma {:induction false} DecisionIsLast(es: seq<GraphEvent>, pid: Value)
    ensures match Decision(es, pid)
            case None => Undecided(es, pid)
            case Some(s) => LastReads(es, pid, s)
  {
    if es != [] {
      var es0, e := es[..|es| - 1], es[|es| - 1];
      assert es == es0 + [e];
      if Decides(e, pid) {
        LastDecidingIsNew(es0, e, pid);
      } else {
        DecisionIsLast(es0, pid);
        if Decision(es0, pid).Some? {
          var i :| LastDeciding(es0, i, pid) && Decision(es0, pid).value == es0[i].eventType;
          LastDecidingStays(es0, e, i, pid);
        }
      }
    }
  }

  /** The pair is listed under n exactly when its two counts differ, and then holds the parent's and the fork's. */
  ghost predicate ComparesCounts(
    diff: map<Value, (nat, nat)>, ps: seq<GraphEvent>, fs: seq<GraphEvent>, eventType: string, key: string, n: Value)
  {
    var (a, b) := (|Mentions(ps, eventType, key, n)|, |Mentions(fs, eventType, key, n)|);
    (n in diff <==> a != b) && (n in diff ==> diff[n] == (a, b))
  }

  /** The pair is listed under a proposal exactly when the runs' last decisions about it differ, and then holds how the
      parent's and how the fork's read. */
  ghost predicate ComparesDecisions(
    diff: map<Value, (string, string)>, ps: seq<GraphEvent>, fs: seq<GraphEvent>, pid: Value)
  {
    (pid in diff <==> forall s :: ReadsAs(ps, pid, s) ==> !ReadsAs(fs, pid, s))
    && (pid in diff ==> ReadsAs(ps, pid, diff[pid].0) && ReadsAs(fs, pid, diff[pid].1))
  }

  /** The four comparisons: behaviours by behaviour name, proposers by who proposed, policies by their last decision and
      patterns by pattern name, the parent's side always first. */
  ghost predicate Compares(r: ReactiveDivergence, ps: seq<GraphEvent>, fs: seq<GraphEvent>, n: Value) {
    ComparesCounts(r.behaviorFirings, ps, fs, "behavior.triggered", "behavior_name", n)
    && ComparesCounts(r.patchProposals, ps, fs, "patch.proposed", "proposed_by", n)
    && ComparesDecisions(r.policyDecisions, ps, fs, n)
    && ComparesCounts(r.patternMatches, ps, fs, "pattern.matched", "pattern_name", n)
  }

  lemma CountsCompared(ps: seq<GraphEvent>, fs: seq<GraphEvent>, t: Tally, n: Value)
    ensures ComparesCounts(CountDiff(ps, fs, t), ps, fs, t.eventType, t.key, n)
  {
    CountDiffMeans(ps, fs, t, n);
    CountIsMentions(ps, t, n);
    CountIsMentions(fs, t, n);
  }

  lemma ReadsAsDecision(es: seq<GraphEvent>, pid: Value, s: string)
    ensures ReadsAs(es, pid, s) <==> s == OrNone(Decision(es, pid))
  {
    DecisionIsLast(es, pid);
    if i :| LastDeciding(es, i, pid) && s == es[i].eventType {
      OneLastDecision(es, i, pid);
    }
  }

  lemma OneLastDecision(es: seq<GraphEvent>, i: int, pid: Value)
    requires LastDeciding(es, i, pid)
    ensures Decision(es, pid) == Some(es[i].eventType)
  {
    DecisionIsLast(es, pid);
    assert !Undecided(es, pid);
    var j :| LastDeciding(es, j, pid) && Decision(es, pid).value == es[j].eventType;
    assert i == j;
  }

  lemma DecisionsAreNotNone(es: seq<GraphEvent>, pid: Value)
    ensures Decision(es, pid) != Some("none")
  {
    DecisionIsLast(es, pid);
  }

  lemma DecisionsCompared(ps: seq<GraphEvent>, fs: seq<GraphEvent>, pid: Value)
    ensures ComparesDecisions(DecisionDiff(ps, fs), ps, fs, pid)
  {
    CountDiffMeans(ps, fs, BEHAVIORS, pid);
    var a, b := OrNone(Decision(ps, pid)), OrNone(Decision(fs, pid));
    DecisionsAreNotNone(ps, pid);
    DecisionsAreNotNone(fs, pid);
    forall s ensures ReadsAs(ps, pid, s) <==> s == a {
      ReadsAsDecision(ps, pid, s);
    }
    forall s ensures ReadsAs(fs, pid, s) <==> s == b {
      ReadsAsDecision(fs, pid, s);
    }
    assert ReadsAs(ps, pid, a) && (ReadsAs(fs, pid, a) <==> a == b);
  }

  lemma ReactiveCompares(ps: seq<GraphEvent>, fs: seq<GraphEvent>, n: Value)
    ensures Compares(Reactive(ps, fs), ps, fs, n)
  {
    CountsCompared(ps, fs, BEHAVIORS, n);
    CountsCompared(ps, fs, PROPOSERS, n);
    CountsCompared(ps, fs, PATTERNS, n);
    DecisionsCompared(ps, fs, n);
  }

  lemma DivergenceIsTheRest(all: seq<GraphEvent>, k: nat, f: string, t: Tally, n: Value)
    requires k <= |all|
    ensures ReportsTheRest(all, RenamedAll(all[..k], f), k, t, n)
  {
    assert all[..k] + all[k..] == all;
    CountDiffMeans(all, RenamedAll(all[..k], f), t, n);
    CountSplits(all[..k], all[k..], t, n);
    DecisionSplits(all[..k], all[k..], n);
    RenamingKeepsCounts(all[..k], f, t, n);
  }

  lemma NoDifference(all: seq<GraphEvent>, f: string, t: Tally)
    ensures CountDiff(all, RenamedAll(all, f), t) == map[]
    ensures DecisionDiff(all, RenamedAll(all, f)) == map[]
  {
    assert all[..|all|] == all;
    forall n ensures n !in CountDiff(all, RenamedAll(all, f), t) && n !in DecisionDiff(all, RenamedAll(all, f)) {
      DivergenceIsTheRest(all, |all|, f, t, n);
    }
  }

  lemma ForkedRuns(c: Codec, rows: seq<Row>, parent: string, at: string, f: string)
    requires UniqueIds(rows) && SpeaksJson(c) && UnusedRun(rows, f) && parent != f
    requires UnusedIds(rows, ParentPrefix(c, rows, parent, at), f)
    ensures Events(c, Forked(c, rows, parent, at, f), Some(parent)) == Events(c, rows, Some(parent))
    ensures Events(c, Forked(c, rows, parent, at, f), Some(f)) == RenamedAll(ParentPrefix(c, rows, parent, at), f)
  {
    ForkLeavesOtherRunsAlone(c, rows, parent, at, f, parent);
    ForkIsPrefixIff(c, rows, parent, at, f);
  }

  lemma RenamedReadsTheSame(es: seq<GraphEvent>, f: string, eventType: string, key: string, n: Value, s: string)
    ensures Mentions(RenamedAll(es, f), eventType, key, n) == Mentions(es, eventType, key, n)
    ensures ReadsAs(RenamedAll(es, f), n, s) == ReadsAs(es, n, s)
  {
    RenamingKeepsCounts(es, f, BEHAVIORS, n);
    ReadsAsDecision(es, n, s);
    ReadsAsDecision(RenamedAll(es, f), n, s);
  }

  /** The two lists read the same about n. */
  ghost predicate SameAbout(fs: seq<GraphEvent>, gs: seq<GraphEvent>, n: Value) {
    (forall eventType, key :: Mentions(fs, eventType, key, n) == Mentions(gs, eventType, key, n))
    && forall s :: ReadsAs(fs, n, s) == ReadsAs(gs, n, s)
  }

  lemma RenamedIsSame(es: seq<GraphEvent>, f: string, n: Value)
    ensures SameAbout(RenamedAll(es, f), es, n)
  {
    forall eventType, key ensures Mentions(RenamedAll(es, f), eventType, key, n) == Mentions(es, eventType, key, n) {
      RenamedReadsTheSame(es, f, eventType, key, n, "");
    }
    forall s ensures ReadsAs(RenamedAll(es, f), n, s) == ReadsAs(es, n, s) {
      RenamedReadsTheSame(es, f, "", "", n, s);
    }
  }

  lemma CountsSame(
    diff: map<Value, (nat, nat)>, ps: seq<GraphEvent>, fs: seq<GraphEvent>, gs: seq<GraphEvent>,
    eventType: string, key: string, n: Value)
    requires SameAbout(fs, gs, n) && ComparesCounts(diff, ps, fs, eventType, key, n)
    ensures ComparesCounts(diff, ps, gs, eventType, key, n)
  {
  }

  lemma DecisionsSame(
    diff: map<Value, (string, string)>, ps: seq<GraphEvent>, fs: seq<GraphEvent>, gs: seq<GraphEvent>, n: Value)
    requires SameAbout(fs, gs, n) && ComparesDecisions(diff, ps, fs, n)
    ensures ComparesDecisions(diff, ps, gs, n)
  {
  }

  lemma ComparesSame(r: ReactiveDivergence, ps: seq<GraphEvent>, fs: seq<GraphEvent>, gs: seq<GraphEvent>, n: Value)
    requires SameAbout(fs, gs, n) && Compares(r, ps, fs, n)
    ensures Compares(r, ps, gs, n)
  {
    CountsSame(r.behaviorFirings, ps, fs, gs, "behavior.triggered", "behavior_name", n);
    CountsSame(r.patchProposals, ps, fs, gs, "patch.proposed", "proposed_by", n);
    CountsSame(r.patternMatches, ps, fs, gs, "pattern.matched", "pattern_name", n);
    DecisionsSame(r.policyDecisions, ps, fs, gs, n);
  }

  /** Right after a fork, the analysis compares the parent's events with its own first ones through the fork point. */
  lemma AnalysisAfterForkMeans(c: Codec, rows: seq<Row>, parent: string, at: string, f: string, n: Value)
    requires UniqueIds(rows) && SpeaksJson(c) && UnusedRun(rows, f) && parent != f
    requires UnusedIds(rows, ParentPrefix(c, rows, parent, at), f)
    ensures var (all, rows') := (Events(c, rows, Some(parent)), Forked(c, rows, parent, at, f));
            var k := |ParentPrefix(c, rows, parent, at)|;
            k <= |all|
            && Compares(Reactive(Events(c, rows', Some(parent)), Events(c, rows', Some(f))), all, all[..k], n)
  {
    var all, k := Events(c, rows, Some(parent)), |ParentPrefix(c, rows, parent, at)|;
    PrefixIsPrefix(all, at);
    assert all[..k] == ParentPrefix(c, rows, parent, at);
    ForkedRuns(c, rows, parent, at, f);
    ReactiveCompares(all, RenamedAll(all[..k], f), n);
    RenamedIsSame(all[..k], f, n);
    ComparesSame(
      Reactive(all, RenamedAll(all[..k], f)), all, RenamedAll(all[..k], f), all[..k], n);
  }

  /** Right after a fork, the analysis of every name reports exactly the parent's events after the fork point. */
  lemma AnalysisAfterFork(c: Codec, rows: seq<Row>, parent: string, at: string, f: string, t: Tally, n: Value)
    requires UniqueIds(rows) && SpeaksJson(c) && UnusedRun(rows, f) && parent != f
    requires UnusedIds(rows, ParentPrefix(c, rows, parent, at), f)
    ensures ReportsTheRest(
              Events(c, Forked(c, rows, parent, at, f), Some(parent)),
              Events(c, Forked(c, rows, parent, at, f), Some(f)),
              |ParentPrefix(c, rows, parent, at)|, t, n)
  {
    var all, k := Events(c, rows, Some(parent)), |ParentPrefix(c, rows, parent, at)|;
    PrefixIsPrefix(all, at);
    assert all[..k] == ParentPrefix(c, rows, parent, at);
    ForkedRuns(c, rows, parent, at, f);
    DivergenceIsTheRest(all, k, f, t, n);
  }

  /** Forking at the parent's last event, or at an unknown event, shows no reactive divergence at all. */
  lemma WholeForkDoesNotDiverge(c: Codec, rows: seq<Row>, parent: string, at: string, f: string)
    requires UniqueIds(rows) && SpeaksJson(c) && UnusedRun(rows, f) && parent != f
    requires UnusedIds(rows, ParentPrefix(c, rows, parent, at), f)
    requires var all := Events(c, rows, Some(parent));
             (all != [] && all[|all| - 1].id == at) || forall i :: 0 <= i < |all| ==> all[i].id != at
    ensures var rows' := Forked(c, rows, parent, at, f);
            !Reactive(Events(c, rows', Some(parent)), Events(c, rows', Some(f))).HasDivergence()
  {
    var all := Events(c, rows, Some(parent));
    ForkPoint(c, rows, parent, at);
    assert all[..|all|] == all;
    assert ParentPrefix(c, rows, parent, at) == all;
    ForkedRuns(c, rows, parent, at, f);
    NoDifference(all, f, BEHAVIORS);
    NoDifference(all, f, PROPOSERS);
    NoDifference(all, f, PATTERNS);
  }
}
