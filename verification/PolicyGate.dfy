/** The gate between proposal and execution: registered policies decide pending proposals. */
module PolicyGate {
  import opened Prelude
  import opened Json
  import opened StableSort
  import opened PatchApplier

  datatype PolicyRule = AutoApprove | AutoReject | MeasurableImprovement | ManualReview

  datatype PolicyDecision = Approve | Reject | Leave

  datatype Policy = Policy(name: string, rule: PolicyRule, description: string, priority: int, patchFilter: Payload) {
    /** An absent attribute reads as null; the empty filter matches every patch. */
    predicate MatchesPatch(patch: Payload) {
      forall k :: k in patchFilter ==> Get(patch, k) == patchFilter[k]
    }
  }

  datatype PolicyEvaluation = PolicyEvaluation(
    decision: PolicyDecision, policyName: string, reason: string, patchId: string)

  function LowerChar(c: char): char {
    if 'A' <= c <= 'Z' then c - 'A' + 'a' else c
  }

  function Lower(s: string): string {
    seq(|s|, i requires 0 <= i < |s| => LowerChar(s[i]))
  }

  predicate Contains(s: string, word: string) {
    exists i :: 0 <= i <= |s| && word <= s[i..]
  }

  /** What one policy says about a proposal. */
  function ApplyRule(policy: Policy, proposal: PatchProposal): PolicyEvaluation {
    match policy.rule
    case AutoApprove => PolicyEvaluation(Approve, policy.name, "Auto-approved by " + policy.name, "")
    case AutoReject => PolicyEvaluation(Reject, policy.name, "Auto-rejected by " + policy.name, "")
    case ManualReview => PolicyEvaluation(Leave, policy.name, "Manual review required by " + policy.name, "")
    case MeasurableImprovement =>
      if Contains(Lower(proposal.reason), "improvement") then
        PolicyEvaluation(Approve, policy.name, "Measurable improvement claimed by " + proposal.proposedBy, "")
      else PolicyEvaluation(Reject, policy.name, "No measurable improvement detected", "")
  }

  /** The policy applies to the patch and takes a decision; manual review never does. */
  predicate Decisive(policy: Policy, proposal: PatchProposal) {
    policy.MatchesPatch(proposal.patch) && ApplyRule(policy, proposal).decision != Leave
  }

  function IsDecisive(proposal: PatchProposal): Policy -> bool {
    (p: Policy) => Decisive(p, proposal)
  }

  function FirstDecisive(policies: seq<Policy>, proposal: PatchProposal): Option<Policy> {
    if policies == [] then None
    else if Decisive(policies[0], proposal) then Some(policies[0])
    else FirstDecisive(policies[1..], proposal)
  }

  /** Highest priority first. */
  function Rank(p: Policy): int { -p.priority }

  function NoMatch(proposal: PatchProposal): PolicyEvaluation {
    PolicyEvaluation(Leave, "", "No matching policy; manual review required", proposal.id)
  }

  /** Acting on a decision: the applier's review of the proposal. */
  function Carry(s: Store, proposal: PatchProposal, ev: PolicyEvaluation): Reply {
    Review(s, proposal.id, if ev.decision == Approve then Approved else Rejected, ev.policyName, ev.reason)
  }

  datatype Outcome = Outcome(store: Store, result: Result<PolicyEvaluation, ApplierError>)

  /** One evaluation: the first decisive policy reviews the proposal; otherwise it is left for manual review. */
  function Evaluated(policies: seq<Policy>, s: Store, proposal: PatchProposal): Outcome {
    match FirstDecisive(policies, proposal)
    case None => Outcome(s, Success(NoMatch(proposal)))
    case Some(p) =>
      var ev := ApplyRule(p, proposal);
      var reply := Carry(s, proposal, ev);
      match reply.result
      case Success(_) => Outcome(reply.store, Success(ev.(patchId := proposal.id)))
      case Failure(error) => Outcome(reply.store, Failure(error))
  }

  class PolicyGateUseCase {
    const applier: InMemoryPatchApplier
    var policies: seq<Policy>
    ghost var registered: seq<Policy>

    /** The list is the stable descending-priority order of everything registered. */
    ghost predicate Valid()
      reads this, applier
    {
      applier.Valid() && policies == Sort(registered, Rank)
    }

    constructor (applier: InMemoryPatchApplier)
      requires applier.Valid()
      ensures Valid() && this.applier == applier && policies == registered == []
    {
      this.applier, policies, registered := applier, [], [];
    }

    method Register(policy: Policy)
      requires Valid()
      modifies this
      ensures Valid() && registered == old(registered) + [policy]
    {
      ghost var before := registered;
      policies := policies + [policy];
      assert policies == Sort(before, Rank) + [policy];
      policies := Sort(policies, Rank);
      registered := before + [policy];
      assert policies == Sort(registered, Rank) by {
        SortAfterAppend(before, policy, Rank);
      }
    }

    method Evaluate(proposal: PatchProposal) returns (result: Result<PolicyEvaluation, ApplierError>)
      requires Valid()
      modifies applier
      ensures Valid()
      ensures Outcome(applier.Contents(), result) == Evaluated(policies, old(applier.Contents()), proposal)
    {
      for i := 0 to |policies|
        invariant Valid() && applier.Contents() == old(applier.Contents())
        invariant FirstDecisive(policies, proposal) == FirstDecisive(policies[i..], proposal)
      {
        var policy := policies[i];
        DecidedFrom(policies, i, proposal);
        if !policy.MatchesPatch(proposal.patch) {
          continue;
        }
        var decision := ApplyRule(policy, proposal);
        match decision.decision {
          case Approve =>
            EvaluatedBy(policies, applier.Contents(), proposal, policy, Approved);
            var reply := applier.Approve(proposal.id, policy.name, decision.reason);
            return if reply.Success? then Success(decision.(patchId := proposal.id)) else Failure(reply.error);
          case Reject =>
            EvaluatedBy(policies, applier.Contents(), proposal, policy, Rejected);
            var reply := applier.Reject(proposal.id, policy.name, decision.reason);
            return if reply.Success? then Success(decision.(patchId := proposal.id)) else Failure(reply.error);
          case Leave =>
        }
      }
      result := Success(NoMatch(proposal));
    }

    /** Evaluates every proposal that was pending at the start; no evaluation fails. */
    method EvaluateAllPending() returns (results: seq<PolicyEvaluation>)
      requires Valid()
      modifies applier
      ensures Valid()
      ensures SameDecisions(policies, old(applier.Contents()), applier.Contents())
      ensures forall id :: id in old(applier.Contents()).proposals ==>
                GatedBy(registered, old(applier.Contents()).proposals[id], applier.Contents().proposals[id])
      ensures results == Answers(policies, PendingIn(old(applier.Contents())))
      ensures AllReported(applier.Contents(), PendingIn(old(applier.Contents())), results)
    {
      var pending := applier.ListPending();
      PendingAreSnapshots(applier.Contents());
      AnyOrderDecidesTheSame(policies, applier.Contents(), pending);
      ghost var before := applier.Contents();
      results := EvaluateEach(pending);
      AnswersReport(policies, before, applier.Contents());
      forall id | id in before.proposals
        ensures GatedBy(registered, before.proposals[id], applier.Contents().proposals[id])
      {
        GateMeans(registered, before.proposals[id]);
      }
    }

    method EvaluateEach(pending: seq<PatchProposal>) returns (results: seq<PolicyEvaluation>)
      requires Valid() && Snapshots(applier.Contents(), pending)
      modifies applier
      ensures Valid()
      ensures applier.Contents() == EvaluatedAll(policies, old(applier.Contents()), pending)
      ensures results == Answers(policies, pending)
    {
      results := [];
      ghost var start := applier.Contents();
      for i := 0 to |pending|
        invariant Valid()
        invariant applier.Contents() == EvaluatedAll(policies, start, pending[..i])
        invariant results == Answers(policies, pending[..i])
      {
        EvaluatedOneMore(policies, start, pending, i);
        StillPending(policies, start, pending, i);
        var evaluation := Evaluate(pending[i]);
        results := results + [evaluation.value];
      }
      assert pending[..|pending|] == pending;
    }
  }

  // ---- Properties ----

  lemma EvaluatedBy(policies: seq<Policy>, s: Store, proposal: PatchProposal, policy: Policy, status: Status)
    requires FirstDecisive(policies, proposal) == Some(policy)
    requires status == if ApplyRule(policy, proposal).decision == Approve then Approved else Rejected
    ensures var ev := ApplyRule(policy, proposal);
            var reply := Review(s, proposal.id, status, policy.name, ev.reason);
            Evaluated(policies, s, proposal)
            == Outcome(reply.store, if reply.result.Success? then Success(ev.(patchId := proposal.id))
                                    else Failure(reply.result.error))
  {
  }

  lemma DecidedFrom(policies: seq<Policy>, i: nat, proposal: PatchProposal)
    requires i < |policies|
    ensures FirstDecisive(policies[i..], proposal)
         == if Decisive(policies[i], proposal) then Some(policies[i]) else FirstDecisive(policies[i + 1..], proposal)
  {
    assert policies[i..][1..] == policies[i + 1..];
  }

  lemma EvaluatedOneMore(policies: seq<Policy>, s: Store, ps: seq<PatchProposal>, i: nat)
    requires i < |ps|
    ensures EvaluatedAll(policies, s, ps[..i + 1])
         == Evaluated(policies, EvaluatedAll(policies, s, ps[..i]), ps[i]).store
    ensures Answers(policies, ps[..i + 1]) == Answers(policies, ps[..i]) + [Answer(policies, ps[i])]
  {
    assert ps[..i + 1][..i] == ps[..i];
  }

  /** The evaluation reported for a proposal. */
  function Answer(policies: seq<Policy>, proposal: PatchProposal): PolicyEvaluation {
    match FirstDecisive(policies, proposal)
    case None => NoMatch(proposal)
    case Some(p) => ApplyRule(p, proposal).(patchId := proposal.id)
  }

  function Answers(policies: seq<Policy>, ps: seq<PatchProposal>): seq<PolicyEvaluation> {
    seq(|ps|, i requires 0 <= i < |ps| => Answer(policies, ps[i]))
  }

  lemma {:induction false} FirstDecisiveIsFiltered(policies: seq<Policy>, proposal: PatchProposal)
    ensures var kept := Filter(policies, IsDecisive(proposal));
            FirstDecisive(policies, proposal) == if kept == [] then None else Some(kept[0])
  {
    if policies != [] {
      FirstDecisiveIsFiltered(policies[1..], proposal);
      assert policies == [policies[0]] + policies[1..];
      FilterConcat([policies[0]], policies[1..], IsDecisive(proposal));
      assert Filter([policies[0]], IsDecisive(proposal))
          == if Decisive(policies[0], proposal) then [policies[0]] else [] by {
        assert [policies[0]] == [] + [policies[0]];
        FilterSnoc([], policies[0], IsDecisive(proposal));
      }
    }
  }

  /** The deciding policy has the highest priority among all registered decisive ones, and was registered first
      among those of that priority; there is none exactly when no registered policy is decisive. */
  lemma DeciderHasTopPriority(registered: seq<Policy>, proposal: PatchProposal)
    ensures match FirstDecisive(Sort(registered, Rank), proposal)
            case None => forall p :: p in registered ==> !Decisive(p, proposal)
            case Some(p) =>
              p in registered && Decisive(p, proposal)
              && (forall q :: q in registered && Decisive(q, proposal) ==> q.priority <= p.priority)
              && (var able := Filter(registered, IsDecisive(proposal));
                  exists i :: 0 <= i < |able| && able[i] == p
                    && forall j :: 0 <= j < i ==> able[j].priority < p.priority)
  {
    var able := Filter(registered, IsDecisive(proposal));
    FilterMembers(registered, IsDecisive(proposal));
    FirstDecisiveIsFiltered(Sort(registered, Rank), proposal);
    FilterSort(registered, Rank, IsDecisive(proposal));
    if able == [] {
      forall p | p in registered ensures !Decisive(p, proposal) {
        assert IsDecisive(proposal)(p) ==> p in able;
      }
    } else {
      SortHeadIsMin(able, Rank);
      var i := MinIsFirstLeast(able, Rank);
      assert able[i] in able;
      forall q | q in registered && Decisive(q, proposal) ensures q.priority <= able[i].priority {
        assert IsDecisive(proposal)(q);
        var j :| 0 <= j < |able| && able[j] == q;
        assert Rank(able[i]) <= Rank(able[j]);
      }
      forall j | 0 <= j < i ensures able[j].priority < able[i].priority {
        assert Rank(able[i]) < Rank(able[j]);
      }
    }
  }

  function FirstMatching(policies: seq<Policy>, proposal: PatchProposal): Option<Policy> {
    if policies == [] then None
    else if policies[0].MatchesPatch(proposal.patch) then Some(policies[0])
    else FirstMatching(policies[1..], proposal)
  }

  /** Manual review is the one rule that never decides. */
  lemma DecisiveIff(policy: Policy, proposal: PatchProposal)
    ensures Decisive(policy, proposal) <==> policy.MatchesPatch(proposal.patch) && !policy.rule.ManualReview?
  {
  }

  lemma {:induction false} NoneDecisiveIff(policies: seq<Policy>, proposal: PatchProposal)
    ensures FirstDecisive(policies, proposal).None?
       <==> forall p :: p in policies && p.MatchesPatch(proposal.patch) ==> p.rule.ManualReview?
  {
    if policies != [] {
      NoneDecisiveIff(policies[1..], proposal);
      DecisiveIff(policies[0], proposal);
      assert policies == [policies[0]] + policies[1..];
    }
  }

  lemma {:induction false} DeciderDecides(policies: seq<Policy>, p: PatchProposal)
    requires FirstDecisive(policies, p).Some?
    ensures Decisive(FirstDecisive(policies, p).value, p)
  {
    DeciderFacts(policies, p);
  }

  /** Whoever decides, decides; and if the first match is decisive, it is the one. */
  lemma {:induction false} DeciderFacts(policies: seq<Policy>, proposal: PatchProposal)
    ensures var (first, decider) := (FirstMatching(policies, proposal), FirstDecisive(policies, proposal));
            (first.None? ==> decider.None?)
            && (first.Some? && !first.value.rule.ManualReview? ==> decider == first)
            && (decider.Some? ==> Decisive(decider.value, proposal))
  {
    if policies != [] {
      DecisiveIff(policies[0], proposal);
      DeciderFacts(policies[1..], proposal);
    }
  }

  /** The documented "first matching policy's decision" is what is taken exactly when a manual-review policy in front
      is followed by matching manual-review policies only: any other matching policy behind it would decide. */
  lemma FirstMatchDecidesIff(policies: seq<Policy>, proposal: PatchProposal)
    ensures var first := FirstMatching(policies, proposal);
            Answer(policies, proposal).decision
            == (if first.Some? then ApplyRule(first.value, proposal).decision else Leave)
            <==> (first.Some? && first.value.rule.ManualReview? ==>
                    forall p :: p in policies && p.MatchesPatch(proposal.patch) ==> p.rule.ManualReview?)
  {
    NoneDecisiveIff(policies, proposal);
    DeciderFacts(policies, proposal);
  }

  /** Evaluating a list of proposals, one after the other. */
  function EvaluatedAll(policies: seq<Policy>, s: Store, ps: seq<PatchProposal>): Store {
    if ps == [] then s else Evaluated(policies, EvaluatedAll(policies, s, ps[..|ps| - 1]), ps[|ps| - 1]).store
  }

  /** A pending proposal after the gate: reviewed by its first decisive policy, or as it was. */
  function Gated(policies: seq<Policy>, p: PatchProposal): PatchProposal {
    if p.status != Pending then p
    else match FirstDecisive(policies, p)
      case None => p
      case Some(policy) =>
        var ev := ApplyRule(policy, p);
        p.WithStatus(if ev.decision == Approve then Approved else Rejected, ev.policyName, ev.reason)
  }

  /** Every proposal is as the gate alone determines it, and nothing else moved. */
  ghost predicate SameDecisions(policies: seq<Policy>, s: Store, r: Store) {
    r.order == s.order && r.executed == s.executed && r.proposals.Keys == s.proposals.Keys
    && forall id :: id in s.proposals ==> r.proposals[id] == Gated(policies, s.proposals[id])
  }

  /** The listed proposals are the store's own, pending and pairwise distinct. */
  ghost predicate Snapshots(s: Store, ps: seq<PatchProposal>) {
    (forall p :: p in ps ==> p.id in s.proposals && s.proposals[p.id] == p && p.status == Pending)
    && forall i, j :: 0 <= i < j < |ps| ==> ps[i].id != ps[j].id
  }

  predicate Listed(ps: seq<PatchProposal>, id: string) {
    exists i :: 0 <= i < |ps| && ps[i].id == id
  }

  ghost predicate OwnIds(ids: seq<string>, proposals: map<string, PatchProposal>) {
    forall id :: id in ids ==> id in proposals && proposals[id].id == id
  }

  lemma {:induction false} PendingFromHas(ids: seq<string>, proposals: map<string, PatchProposal>, p: PatchProposal)
    requires OwnIds(ids, proposals)
    ensures p in PendingFrom(ids, proposals) <==> (p.id in ids && proposals[p.id] == p && p.status == Pending)
  {
    if ids != [] {
      var ids0, id := ids[..|ids| - 1], ids[|ids| - 1];
      assert ids == ids0 + [id] && id in ids;
      assert p.id in ids <==> p.id in ids0 || p.id == id;
      PendingFromHas(ids0, proposals, p);
      var last := if proposals[id].status == Pending then [proposals[id]] else [];
      assert PendingFrom(ids, proposals) == PendingFrom(ids0, proposals) + last;
      assert p in last <==> p == proposals[id] && p.status == Pending;
    }
  }

  lemma {:induction false} PendingFromDistinct(ids: seq<string>, proposals: map<string, PatchProposal>)
    requires Distinct(ids) && OwnIds(ids, proposals)
    ensures var ps := PendingFrom(ids, proposals); forall i, j :: 0 <= i < j < |ps| ==> ps[i].id != ps[j].id
  {
    if ids != [] {
      var ids0, id := ids[..|ids| - 1], ids[|ids| - 1];
      assert ids == ids0 + [id] && id in ids && id !in ids0;
      PendingFromDistinct(ids0, proposals);
      var ps0 := PendingFrom(ids0, proposals);
      forall i | 0 <= i < |ps0| ensures ps0[i].id != proposals[id].id {
        PendingFromHas(ids0, proposals, ps0[i]);
      }
      var last := if proposals[id].status == Pending then [proposals[id]] else [];
      var ps := PendingFrom(ids, proposals);
      assert ps == ps0 + last;
      forall i, j | 0 <= i < j < |ps| ensures ps[i].id != ps[j].id {
        assert ps[i] == ps0[i];
        assert j < |ps0| ==> ps[j] == ps0[j];
      }
    }
  }

  lemma PendingAreSnapshots(s: Store)
    requires Indexed(s)
    ensures Snapshots(s, PendingIn(s))
    ensures forall id :: id in s.proposals && s.proposals[id].status == Pending ==> Listed(PendingIn(s), id)
  {
    var ps := PendingIn(s);
    PendingFromDistinct(s.order, s.proposals);
    forall p | p in ps ensures p.id in s.proposals && s.proposals[p.id] == p && p.status == Pending {
      PendingFromHas(s.order, s.proposals, p);
    }
    forall id | id in s.proposals && s.proposals[id].status == Pending ensures Listed(ps, id) {
      PendingFromHas(s.order, s.proposals, s.proposals[id]);
      var i :| 0 <= i < |ps| && ps[i] == s.proposals[id];
      assert ps[i].id == id;
    }
  }

  /** Evaluating a pending proposal never fails and decides that proposal alone. */
  lemma EvaluatingOne(policies: seq<Policy>, r: Store, p: PatchProposal)
    requires p.id in r.proposals && r.proposals[p.id] == p && p.status == Pending
    ensures var o := Evaluated(policies, r, p);
            o.result == Success(Answer(policies, p))
            && o.store.proposals == r.proposals[p.id := Gated(policies, p)]
            && o.store.order == r.order && o.store.executed == r.executed
  {
    if FirstDecisive(policies, p) == None {
      assert r.proposals == r.proposals[p.id := p];
    }
  }

  /** r is s with exactly the listed proposals gated. */
  ghost predicate GatedSome(policies: seq<Policy>, s: Store, ps: seq<PatchProposal>, r: Store) {
    r.order == s.order && r.executed == s.executed && r.proposals.Keys == s.proposals.Keys
    && forall id :: id in s.proposals ==>
         r.proposals[id] == if Listed(ps, id) then Gated(policies, s.proposals[id]) else s.proposals[id]
  }

  lemma ListedSnoc(ps: seq<PatchProposal>, p: PatchProposal, id: string)
    ensures Listed(ps + [p], id) <==> Listed(ps, id) || id == p.id
  {
    if Listed(ps, id) {
      var i :| 0 <= i < |ps| && ps[i].id == id;
      assert (ps + [p])[i].id == id;
    }
    if id == p.id {
      assert (ps + [p])[|ps|].id == id;
    }
  }

  lemma GatingOneMore(policies: seq<Policy>, s: Store, ps: seq<PatchProposal>, p: PatchProposal, r: Store)
    requires GatedSome(policies, s, ps, r) && !Listed(ps, p.id)
    requires p.id in s.proposals && s.proposals[p.id] == p && p.status == Pending
    ensures GatedSome(policies, s, ps + [p], Evaluated(policies, r, p).store)
  {
    EvaluatingOne(policies, r, p);
    var after := Evaluated(policies, r, p).store;
    forall id | id in s.proposals
      ensures after.proposals[id] == if Listed(ps + [p], id) then Gated(policies, s.proposals[id]) else s.proposals[id]
    {
      ListedSnoc(ps, p, id);
    }
  }

  lemma SnapshotsBefore(s: Store, ps: seq<PatchProposal>, i: nat)
    requires Snapshots(s, ps) && i < |ps|
    ensures Snapshots(s, ps[..i]) && !Listed(ps[..i], ps[i].id)
    ensures ps[i].id in s.proposals && s.proposals[ps[i].id] == ps[i] && ps[i].status == Pending
  {
    assert ps[i] in ps && forall q :: q in ps[..i] ==> q in ps;
  }

  /** Evaluating some of the pending proposals, in any order, decides exactly those. */
  lemma {:induction false} EvaluatingSome(policies: seq<Policy>, s: Store, ps: seq<PatchProposal>)
    requires Snapshots(s, ps)
    ensures GatedSome(policies, s, ps, EvaluatedAll(policies, s, ps))
  {
    if ps != [] {
      var ps0, p := ps[..|ps| - 1], ps[|ps| - 1];
      SnapshotsBefore(s, ps, |ps| - 1);
      EvaluatingSome(policies, s, ps0);
      assert ps == ps0 + [p];
      GatingOneMore(policies, s, ps0, p, EvaluatedAll(policies, s, ps0));
    }
  }

  lemma StillPending(policies: seq<Policy>, s: Store, ps: seq<PatchProposal>, i: nat)
    requires Snapshots(s, ps) && i < |ps|
    ensures Evaluated(policies, EvaluatedAll(policies, s, ps[..i]), ps[i]).result == Success(Answer(policies, ps[i]))
  {
    SnapshotsBefore(s, ps, i);
    EvaluatingSome(policies, s, ps[..i]);
    EvaluatingOne(policies, EvaluatedAll(policies, s, ps[..i]), ps[i]);
  }

  /** Whatever the order in which the pending proposals are evaluated, the resulting proposals are the same ones. */
  lemma AnyOrderDecidesTheSame(policies: seq<Policy>, s: Store, ps: seq<PatchProposal>)
    requires Indexed(s) && Snapshots(s, ps)
    requires forall id :: id in s.proposals && s.proposals[id].status == Pending ==> Listed(ps, id)
    ensures SameDecisions(policies, s, EvaluatedAll(policies, s, ps))
  {
    EvaluatingSome(policies, s, ps);
  }

  predicate Regated(policies: seq<Policy>, p: PatchProposal, q: PatchProposal) {
    Gated(policies, q) == q
    && (q.status == Pending <==> p.status == Pending && FirstDecisive(policies, p) == None)
  }

  lemma GatedTwice(policies: seq<Policy>, p: PatchProposal)
    ensures Regated(policies, p, Gated(policies, p))
  {
  }

  // ---- The gate in the policies' own terms ----

  /** Every attribute the policy asks for is as asked, an absent one reading as null, and somebody need not look. */
  predicate MayDecide(d: Policy, p: PatchProposal) {
    d.rule != ManualReview
    && forall k :: k in d.patchFilter ==> d.patchFilter[k] == if k in p.patch then p.patch[k] else Null
  }

  /** Position m holds the policy whose word counts: of those that may decide the highest in priority, and of these the
      first registered. */
  predicate Decider(registered: seq<Policy>, p: PatchProposal, m: int) {
    0 <= m < |registered| && MayDecide(registered[m], p)
    && (forall j :: 0 <= j < m && MayDecide(registered[j], p) ==> registered[j].priority < registered[m].priority)
    && (forall j :: m < j < |registered| && MayDecide(registered[j], p) ==>
          registered[j].priority <= registered[m].priority)
  }

  /** The word "improvement", in small letters, capitals or a mixture, stands somewhere in the text. */
  predicate ClaimsImprovement(text: string) {
    exists i :: 0 <= i <= |text| && StandsAt(text, i)
  }

  predicate StandsAt(text: string, i: int) {
    0 <= i <= |text| - 11
    && forall j :: 0 <= j < 11 ==> text[i + j] == "improvement"[j] || text[i + j] == "IMPROVEMENT"[j]
  }

  /** What the policy makes of a pending proposal: automatic approval approves, automatic rejection rejects, and the
      third rule goes by the claim; the policy is named as the reviewer. */
  predicate Judged(d: Policy, p: PatchProposal, q: PatchProposal) {
    q == PatchProposal(
           p.id, p.proposedBy, p.patch, p.reason, p.createdAt,
           (if d.rule == AutoApprove || (d.rule == MeasurableImprovement && ClaimsImprovement(p.reason))
            then Approved else Rejected),
           d.name,
           match d.rule
           case AutoApprove => "Auto-approved by " + d.name
           case AutoReject => "Auto-rejected by " + d.name
           case _ => if ClaimsImprovement(p.reason) then "Measurable improvement claimed by " + p.proposedBy
                     else "No measurable improvement detected")
  }

  /** The proposal after the gate: judged by the policy whose word counts, and as it was if it was not pending or no
      policy may decide. */
  ghost predicate GatedBy(registered: seq<Policy>, p: PatchProposal, q: PatchProposal) {
    if p.status == Pending && exists m :: Decider(registered, p, m)
    then exists m :: Decider(registered, p, m) && Judged(registered[m], p, q)
    else q == p
  }

  lemma DecisiveMayDecide(d: Policy, p: PatchProposal)
    ensures Decisive(d, p) <==> MayDecide(d, p)
  {
  }

  lemma LoweredIs(c: char, w: char, u: char)
    requires 'a' <= w <= 'z' && u == w - 'a' + 'A'
    ensures LowerChar(c) == w <==> c == w || c == u
  {
  }

  lemma WordInBothCases(j: int)
    requires 0 <= j < 11
    ensures var (w, u) := ("improvement"[j], "IMPROVEMENT"[j]); 'a' <= w <= 'z' && u == w - 'a' + 'A'
  {
  }

  lemma StandsAtIff(text: string, i: int)
    requires 0 <= i <= |text|
    ensures "improvement" <= Lower(text)[i..] <==> StandsAt(text, i)
  {
    if i <= |text| - 11 {
      var word := "improvement";
      assert |word| == 11;
      forall j | 0 <= j < 11
        ensures Lower(text)[i..][j] == word[j] <==> text[i + j] == "improvement"[j] || text[i + j] == "IMPROVEMENT"[j]
      {
        WordInBothCases(j);
        LoweredIs(text[i + j], "improvement"[j], "IMPROVEMENT"[j]);
      }
    }
  }

  lemma ClaimIff(text: string)
    ensures Contains(Lower(text), "improvement") <==> ClaimsImprovement(text)
  {
    forall i | 0 <= i <= |text| ensures "improvement" <= Lower(text)[i..] <==> StandsAt(text, i) {
      StandsAtIff(text, i);
    }
  }

  lemma {:induction false} FirstAbleIsDecider(registered: seq<Policy>, p: PatchProposal)
    ensures match FirstDecisive(Sort(registered, Rank), p)
            case None => forall m :: !Decider(registered, p, m)
            case Some(d) => exists m :: Decider(registered, p, m) && registered[m] == d
  {
    var able := Filter(registered, IsDecisive(p));
    FirstDecisiveIsFiltered(Sort(registered, Rank), p);
    FilterSort(registered, Rank, IsDecisive(p));
    FilterMembers(registered, IsDecisive(p));
    if able == [] {
      NoneAbleBefore(registered, p);
    } else {
      SortHeadIsMin(able, Rank);
      var m := LeastAble(registered, p);
    }
  }

  lemma LastDecides(init: seq<Policy>, last: Policy, p: PatchProposal)
    requires MayDecide(last, p)
    requires forall j :: 0 <= j < |init| && MayDecide(init[j], p) ==> init[j].priority < last.priority
    ensures Decider(init + [last], p, |init|)
  {
  }

  lemma EarlierDecides(init: seq<Policy>, last: Policy, p: PatchProposal, m: nat)
    requires Decider(init, p, m) && (MayDecide(last, p) ==> last.priority <= init[m].priority)
    ensures Decider(init + [last], p, m)
  {
  }

  lemma MinOfMore(able: seq<Policy>, last: Policy)
    ensures Min(able + [last], Rank)
         == if able == [] then last
            else if last.priority > Min(able, Rank).priority then last else Min(able, Rank)
  {
    assert (able + [last])[..|able|] == able;
  }

  /** A registration of least rank among the able ones that no able one of that rank precedes. */
  lemma {:induction false} LeastAble(registered: seq<Policy>, p: PatchProposal) returns (m: nat)
    requires Filter(registered, IsDecisive(p)) != []
    ensures Decider(registered, p, m) && registered[m] == Min(Filter(registered, IsDecisive(p)), Rank)
  {
    var n := |registered| - 1;
    var init, last := registered[..n], registered[n];
    assert registered == init + [last];
    FilterSnoc(init, last, IsDecisive(p));
    DecisiveMayDecide(last, p);
    var able := Filter(init, IsDecisive(p));
    MinOfMore(able, last);
    if able == [] {
      m := n;
      NoneAbleBefore(init, p);
      LastDecides(init, last, p);
    } else {
      m := LeastAble(init, p);
      if MayDecide(last, p) && last.priority > init[m].priority {
        AllAtMost(init, p, m);
        LastDecides(init, last, p);
        m := n;
      } else {
        EarlierDecides(init, last, p, m);
        assert able + [] == able;
      }
    }
  }

  lemma NoneAbleBefore(init: seq<Policy>, p: PatchProposal)
    requires Filter(init, IsDecisive(p)) == []
    ensures forall j :: 0 <= j < |init| ==> !MayDecide(init[j], p)
  {
    FilterMembers(init, IsDecisive(p));
    forall j | 0 <= j < |init| ensures !MayDecide(init[j], p) {
      var d := init[j];
      DecisiveMayDecide(d, p);
      assert d in init && d !in Filter(init, IsDecisive(p));
    }
  }

  lemma AllAtMost(init: seq<Policy>, p: PatchProposal, m: nat)
    requires Decider(init, p, m)
    ensures forall j :: 0 <= j < |init| && MayDecide(init[j], p) ==> init[j].priority <= init[m].priority
  {
  }

  lemma JudgedIff(d: Policy, p: PatchProposal)
    requires Decisive(d, p)
    ensures var ev := ApplyRule(d, p);
            Judged(d, p, p.WithStatus(if ev.decision == Approve then Approved else Rejected, ev.policyName, ev.reason))
  {
    ClaimIff(p.reason);
  }

  lemma OneDecider(registered: seq<Policy>, p: PatchProposal, m: int, n: int)
    requires Decider(registered, p, m) && Decider(registered, p, n)
    ensures m == n
  {
  }

  /** The gate does to every proposal what the policies' own terms say. */
  lemma GateMeans(registered: seq<Policy>, p: PatchProposal)
    ensures GatedBy(registered, p, Gated(Sort(registered, Rank), p))
  {
    FirstAbleIsDecider(registered, p);
    var decider := FirstDecisive(Sort(registered, Rank), p);
    if decider.Some? {
      DeciderDecides(Sort(registered, Rank), p);
      JudgedIff(decider.value, p);
    }
  }

  /** What is reported of a proposal that was pending: what became of it, or that nothing did. */
  predicate Reported(q: PatchProposal, ev: PolicyEvaluation) {
    if q.status == Pending
    then ev == PolicyEvaluation(Leave, "", "No matching policy; manual review required", q.id)
    else ev == PolicyEvaluation(if q.status == Approved then Approve else Reject, q.reviewedBy, q.reviewReason, q.id)
  }

  lemma AnswerReports(policies: seq<Policy>, p: PatchProposal)
    requires p.status == Pending
    ensures Reported(Gated(policies, p), Answer(policies, p))
  {
    if FirstDecisive(policies, p).Some? {
      DeciderDecides(policies, p);
    }
  }

  /** The reports are those of the proposals that were pending, in order. */
  lemma AnswersReport(policies: seq<Policy>, s: Store, r: Store)
    requires Indexed(s) && SameDecisions(policies, s, r)
    ensures AllReported(r, PendingIn(s), Answers(policies, PendingIn(s)))
  {
    var ps := PendingIn(s);
    PendingAreSnapshots(s);
    forall i | 0 <= i < |ps|
      ensures ps[i].id in r.proposals && Reported(r.proposals[ps[i].id], Answer(policies, ps[i]))
    {
      assert ps[i] in ps;
      AnswerReports(policies, ps[i]);
    }
  }

  predicate AllReported(r: Store, ps: seq<PatchProposal>, results: seq<PolicyEvaluation>) {
    |results| == |ps|
    && forall i :: 0 <= i < |ps| ==> ps[i].id in r.proposals && Reported(r.proposals[ps[i].id], results[i])
  }

  /** What the gate leaves pending is exactly what no policy decides, and gating again changes nothing. */
  lemma GatingIsIdempotent(policies: seq<Policy>, s: Store, r: Store)
    requires Indexed(s) && SameDecisions(policies, s, r)
    ensures forall id :: id in s.proposals ==>
              (r.proposals[id].status == Pending <==>
                 s.proposals[id].status == Pending && FirstDecisive(policies, s.proposals[id]) == None)
    ensures SameDecisions(policies, r, r)
    ensures EvaluatedAll(policies, r, PendingIn(r)) == r
  {
    assert Indexed(r) by {
      forall id | id in s.proposals ensures r.proposals[id].id == id {
        assert s.proposals[id].id == id;
      }
    }
    forall id | id in s.proposals ensures Regated(policies, s.proposals[id], r.proposals[id]) {
      GatedTwice(policies, s.proposals[id]);
    }
    PendingAreSnapshots(r);
    NothingLeftToDecide(policies, r, PendingIn(r));
  }

  lemma {:induction false} NothingLeftToDecide(policies: seq<Policy>, r: Store, ps: seq<PatchProposal>)
    requires Snapshots(r, ps) && SameDecisions(policies, r, r)
    ensures EvaluatedAll(policies, r, ps) == r
  {
    if ps != [] {
      SnapshotsBefore(r, ps, |ps| - 1);
      NothingLeftToDecide(policies, r, ps[..|ps| - 1]);
    }
  }
}
