/** The patch lifecycle: proposed patches are approved or rejected, and approved ones applied. */
module PatchApplier {
  import opened Prelude
  import opened Json

  datatype Status = Pending | Approved | Rejected | Applied

  datatype PatchProposal = PatchProposal(
    id: string, proposedBy: string, patch: Payload, reason: string, createdAt: string,
    status: Status, reviewedBy: string, reviewReason: string)
  {
    function WithStatus(status: Status, reviewedBy: string, reason: string): PatchProposal {
      PatchProposal(id, proposedBy, patch, this.reason, createdAt, status, reviewedBy, reason)
    }
  }

  datatype ApplierError = ProposalNotFound | WrongStatus

  /** A status a proposal took on. */
  datatype Change = Change(id: string, status: Status)

  /** One call of the patch function: for which proposal, with which patch, at which position of the history. */
  datatype Execution = Execution(id: string, patch: Payload, at: nat)

  /** `order` lists the proposal ids as the dictionary iterates them. */
  datatype Store = Store(
    order: seq<string>, proposals: map<string, PatchProposal>, history: seq<Change>, executed: seq<Execution>)

  const EMPTY_STORE := Store([], map[], [], [])

  datatype Op =
    | DoPropose(id: string, proposedBy: string, patch: Payload, reason: string, now: string)
    | DoApprove(id: string, reviewedBy: string, reason: string)
    | DoReject(id: string, reviewedBy: string, reason: string)
    | DoApply(id: string)

  datatype Reply = Reply(store: Store, result: Result<PatchProposal, ApplierError>)

  function Moved(s: Store, id: string, p: PatchProposal): Store {
    s.(proposals := s.proposals[id := p], history := s.history + [Change(id, p.status)])
  }

  /** Reviewing succeeds only on a pending proposal. */
  function Review(s: Store, id: string, status: Status, reviewedBy: string, reason: string): Reply {
    if id !in s.proposals then Reply(s, Failure(ProposalNotFound))
    else if s.proposals[id].status != Pending then Reply(s, Failure(WrongStatus))
    else
      var updated := s.proposals[id].WithStatus(status, reviewedBy, reason);
      Reply(Moved(s, id, updated), Success(updated))
  }

  /** Applying succeeds only on an approved proposal; its patch is handed to the patch function, if there is one. */
  function Apply(executes: bool, s: Store, id: string): Reply {
    if id !in s.proposals then Reply(s, Failure(ProposalNotFound))
    else if s.proposals[id].status != Approved then Reply(s, Failure(WrongStatus))
    else
      var p := s.proposals[id];
      var updated := p.WithStatus(Applied, p.reviewedBy, p.reviewReason);
      var executed := if executes then s.executed + [Execution(id, p.patch, |s.history|)] else s.executed;
      Reply(Moved(s, id, updated).(executed := executed), Success(updated))
  }

  /** One call; a proposal's id is drawn fresh, so a known one never reaches `DoPropose`. */
  function Perform(executes: bool, s: Store, op: Op): Reply
    requires op.DoPropose? ==> op.id !in s.proposals
  {
    match op
    case DoPropose(id, proposedBy, patch, reason, now) =>
      var p := PatchProposal(id, proposedBy, patch, reason, now, Pending, "", "");
      Reply(Moved(s, id, p).(order := s.order + [id]), Success(p))
    case DoApprove(id, reviewedBy, reason) => Review(s, id, Approved, reviewedBy, reason)
    case DoReject(id, reviewedBy, reason) => Review(s, id, Rejected, reviewedBy, reason)
    case DoApply(id) => Apply(executes, s, id)
  }

  class InMemoryPatchApplier {
    var order: seq<string>
    var proposals: map<string, PatchProposal>
    const executes: bool
    ghost var history: seq<Change>
    ghost var executed: seq<Execution>

    ghost function Contents(): Store
      reads this
    {
      Store(order, proposals, history, executed)
    }

    ghost predicate Valid()
      reads this
    {
      Indexed(Contents())
    }

    /** `executes` says whether a patch function was supplied. */
    constructor (executes: bool)
      ensures Valid() && Contents() == EMPTY_STORE && this.executes == executes
    {
      order, proposals, this.executes := [], map[], executes;
      history, executed := [], [];
    }

    /** `id` stands for the id drawn from uuid4, `now` for the clock. */
    method Propose(id: string, proposedBy: string, patch: Payload, reason: string, now: string)
      returns (proposal: PatchProposal)
      requires Valid() && id !in proposals
      modifies this
      ensures Valid()
      ensures Reply(Contents(), Success(proposal))
           == Perform(executes, old(Contents()), DoPropose(id, proposedBy, patch, reason, now))
    {
      PerformKeepsIndexed(executes, Contents(), DoPropose(id, proposedBy, patch, reason, now));
      proposal := PatchProposal(id, proposedBy, patch, reason, now, Pending, "", "");
      order := order + [id];
      proposals := proposals[id := proposal];
      history := history + [Change(id, Pending)];
    }

    method Approve(id: string, reviewedBy: string, reason: string)
      returns (result: Result<PatchProposal, ApplierError>)
      requires Valid()
      modifies this
      ensures Valid()
      ensures Reply(Contents(), result) == Perform(executes, old(Contents()), DoApprove(id, reviewedBy, reason))
    {
      PerformKeepsIndexed(executes, Contents(), DoApprove(id, reviewedBy, reason));
      result := Require(id);
      if result.Failure? {
        return;
      }
      if result.value.status != Pending {
        return Failure(WrongStatus);
      }
      var updated := result.value.WithStatus(Approved, reviewedBy, reason);
      proposals := proposals[id := updated];
      history := history + [Change(id, Approved)];
      result := Success(updated);
      assert Contents() == Review(old(Contents()), id, Approved, reviewedBy, reason).store;
    }

    method Reject(id: string, reviewedBy: string, reason: string)
      returns (result: Result<PatchProposal, ApplierError>)
      requires Valid()
      modifies this
      ensures Valid()
      ensures Reply(Contents(), result) == Perform(executes, old(Contents()), DoReject(id, reviewedBy, reason))
    {
      PerformKeepsIndexed(executes, Contents(), DoReject(id, reviewedBy, reason));
      result := Require(id);
      if result.Failure? {
        return;
      }
      if result.value.status != Pending {
        return Failure(WrongStatus);
      }
      var updated := result.value.WithStatus(Rejected, reviewedBy, reason);
      proposals := proposals[id := updated];
      history := history + [Change(id, Rejected)];
      result := Success(updated);
      assert Contents() == Review(old(Contents()), id, Rejected, reviewedBy, reason).store;
    }

    method Apply(id: string) returns (result: Result<PatchProposal, ApplierError>)
      requires Valid()
      modifies this
      ensures Valid()
      ensures Reply(Contents(), result) == Perform(executes, old(Contents()), DoApply(id))
    {
      PerformKeepsIndexed(executes, Contents(), DoApply(id));
      result := Require(id);
      if result.Failure? { return; }
      var proposal := result.value;
      if proposal.status != Approved { return Failure(WrongStatus); }
      if executes {
        executed := executed + [Execution(id, proposal.patch, |history|)];
      }
      var updated := proposal.WithStatus(Applied, proposal.reviewedBy, proposal.reviewReason);
      proposals := proposals[id := updated];
      history := history + [Change(id, Applied)];
      result := Success(updated);
    }

    method ListPending() returns (pending: seq<PatchProposal>)
      requires Valid()
      ensures pending == PendingIn(Contents())
    {
      pending := [];
      for i := 0 to |order|
        invariant pending == PendingFrom(order[..i], proposals)
      {
        assert order[i] in order && order[..i + 1][..i] == order[..i];
        var p := proposals[order[i]];
        if p.status == Pending {
          pending := pending + [p];
        }
      }
      assert order[..|order|] == order;
    }

    method Require(id: string) returns (result: Result<PatchProposal, ApplierError>)
      requires Valid()
      ensures result == if id in proposals then Success(proposals[id]) else Failure(ProposalNotFound)
      ensures result.Success? ==> result.value.id == id
    {
      if id !in proposals {
        return Failure(ProposalNotFound);
      }
      assert id in Contents().proposals;
      result := Success(proposals[id]);
    }
  }

  function PendingFrom(ids: seq<string>, proposals: map<string, PatchProposal>): seq<PatchProposal>
  {
    if ids == [] then []
    else
      var id := ids[|ids| - 1];
      PendingFrom(ids[..|ids| - 1], proposals)
      + (if id in proposals && proposals[id].status == Pending then [proposals[id]] else [])
  }

  function PendingIn(s: Store): seq<PatchProposal> {
    PendingFrom(s.order, s.proposals)
  }

  // ---- The lifecycle, over whole runs ----

  /** The statuses a proposal took on, in order. */
  function Trail(history: seq<Change>, id: string): seq<Status> {
    if history == [] then []
    else
      var c := history[|history| - 1];
      Trail(history[..|history| - 1], id) + (if c.id == id then [c.status] else [])
  }

  /** The only way to reach a status. */
  function PathTo(status: Status): seq<Status> {
    match status
    case Pending => [Pending]
    case Approved => [Pending, Approved]
    case Rejected => [Pending, Rejected]
    case Applied => [Pending, Approved, Applied]
  }

  /** The execution was of this proposal's patch, when it became applied, after it had been approved. */
  ghost predicate Justified(s: Store, e: Execution) {
    e.id in s.proposals && s.proposals[e.id].status == Applied && s.proposals[e.id].patch == e.patch
    && e.at < |s.history| && s.history[e.at] == Change(e.id, Applied)
    && exists j :: 0 <= j < e.at && s.history[j] == Change(e.id, Approved)
  }

  /** The dictionary is keyed by its proposals' own ids and iterates each once. */
  ghost predicate Indexed(s: Store) {
    Distinct(s.order)
    && (forall id :: id in s.order <==> id in s.proposals)
    && forall id :: id in s.proposals ==> s.proposals[id].id == id
  }

  /** Every proposal took the one path to its present status. */
  ghost predicate OnPath(s: Store) {
    forall id :: Trail(s.history, id) == if id in s.proposals then PathTo(s.proposals[id].status) else []
  }

  ghost predicate ExecutedOnce(s: Store) {
    (forall e :: e in s.executed ==> Justified(s, e))
    && forall i, j :: 0 <= i < j < |s.executed| ==> s.executed[i].id != s.executed[j].id
  }

  ghost predicate AllExecuted(executes: bool, s: Store) {
    if executes
    then forall id :: id in s.proposals && s.proposals[id].status == Applied ==> WasExecuted(s, id)
    else s.executed == []
  }

  ghost predicate WasExecuted(s: Store, id: string) {
    exists e :: e in s.executed && e.id == id
  }

  ghost predicate Legal(executes: bool, s: Store) {
    Indexed(s) && OnPath(s) && ExecutedOnce(s) && AllExecuted(executes, s)
  }

  lemma TrailSnoc(history: seq<Change>, c: Change, id: string)
    ensures Trail(history + [c], id) == if c.id == id then Trail(history, id) + [c.status] else Trail(history, id)
  {
    assert (history + [c])[..|history|] == history;
    assert Trail(history, id) + [] == Trail(history, id);
  }

  lemma {:induction false} TrailRecords(history: seq<Change>, id: string, status: Status)
    requires status in Trail(history, id)
    ensures exists j :: 0 <= j < |history| && history[j] == Change(id, status)
  {
    var c := history[|history| - 1];
    if c != Change(id, status) {
      TrailRecords(history[..|history| - 1], id, status);
      var j :| 0 <= j < |history| - 1 && history[..|history| - 1][j] == Change(id, status);
      assert history[j] == Change(id, status);
    } else {
      assert history[|history| - 1] == Change(id, status);
    }
  }

  lemma JustifiedPersists(s: Store, r: Store, e: Execution)
    requires Justified(s, e) && s.history <= r.history
    requires e.id in r.proposals && r.proposals[e.id].status == Applied && r.proposals[e.id].patch == e.patch
    ensures Justified(r, e)
  {
    var j :| 0 <= j < e.at && s.history[j] == Change(e.id, Approved);
    assert r.history[j] == Change(e.id, Approved);
  }

  predicate SameContent(p: PatchProposal, q: PatchProposal) {
    q.patch == p.patch && q.proposedBy == p.proposedBy && q.reason == p.reason && q.createdAt == p.createdAt
  }

  predicate LegalMove(from: Status, to: Status) {
    (from.Pending? && (to.Approved? || to.Rejected?)) || (from.Approved? && to.Applied?)
  }

  lemma MoveExtendsPath(from: Status, to: Status)
    requires LegalMove(from, to)
    ensures PathTo(to) == PathTo(from) + [to]
  {
  }

  /** From s to r, exactly one proposal moved one legal status further, or joined the store as pending; becoming applied
      is what executes a patch. */
  ghost predicate MovedOn(executes: bool, s: Store, r: Store, id: string) {
    id in r.proposals
    && (var q := r.proposals[id];
        q.id == id
        && r.proposals == s.proposals[id := q]
        && r.order == (if id in s.proposals then s.order else s.order + [id])
        && r.history == s.history + [Change(id, q.status)]
        && (if id in s.proposals
            then SameContent(s.proposals[id], q) && LegalMove(s.proposals[id].status, q.status)
            else q.status == Pending)
        && r.executed == (if executes && q.status == Applied
                          then s.executed + [Execution(id, q.patch, |s.history|)] else s.executed))
  }

  /** A call either changes nothing or moves its own proposal on. */
  lemma PerformMoves(executes: bool, s: Store, op: Op)
    requires Indexed(s) && (op.DoPropose? ==> op.id !in s.proposals)
    ensures var r := Perform(executes, s, op);
            if r.result.Success? then MovedOn(executes, s, r.store, op.id) else r.store == s
  {
  }

  lemma MovedKeepsIndexed(executes: bool, s: Store, r: Store, id: string)
    requires Indexed(s) && MovedOn(executes, s, r, id)
    ensures Indexed(r)
  {
    if id !in s.proposals {
      assert id !in s.order;
    }
  }

  lemma MovedKeepsOnPath(executes: bool, s: Store, r: Store, id: string)
    requires OnPath(s) && MovedOn(executes, s, r, id)
    ensures OnPath(r)
  {
    forall i ensures Trail(r.history, i) == if i in r.proposals then PathTo(r.proposals[i].status) else [] {
      TrailSnoc(s.history, Change(id, r.proposals[id].status), i);
      if i == id && id in s.proposals {
        MoveExtendsPath(s.proposals[id].status, r.proposals[id].status);
      }
    }
  }

  lemma ExecutionsPersist(executes: bool, s: Store, r: Store, id: string)
    requires OnPath(s) && MovedOn(executes, s, r, id)
    requires forall e :: e in s.executed ==> Justified(s, e)
    ensures forall e :: e in s.executed ==> Justified(r, e)
  {
    forall e | e in s.executed ensures Justified(r, e) {
      assert Justified(s, e);
      assert e.id != id;
      JustifiedPersists(s, r, e);
    }
  }

  /** The execution a move to applied adds comes after the approval, and is the first of its proposal. */
  lemma NewExecution(s: Store, r: Store, id: string)
    requires OnPath(s) && ExecutedOnce(s) && MovedOn(true, s, r, id) && r.proposals[id].status == Applied
    ensures Justified(r, Execution(id, r.proposals[id].patch, |s.history|))
    ensures forall e :: e in s.executed ==> e.id != id
  {
    assert s.proposals[id].status == Approved && Trail(s.history, id) == [Pending, Approved];
    TrailRecords(s.history, id, Approved);
    var j :| 0 <= j < |s.history| && s.history[j] == Change(id, Approved);
    assert r.history[j] == Change(id, Approved);
    forall e | e in s.executed ensures e.id != id {
      assert Justified(s, e);
    }
  }

  lemma MovedKeepsExecutedOnce(executes: bool, s: Store, r: Store, id: string)
    requires OnPath(s) && ExecutedOnce(s) && MovedOn(executes, s, r, id)
    ensures ExecutedOnce(r)
  {
    ExecutionsPersist(executes, s, r, id);
    if executes && r.proposals[id].status == Applied {
      NewExecution(s, r, id);
      assert forall i :: 0 <= i < |s.executed| ==> s.executed[i] in s.executed;
    }
  }

  lemma MovedKeepsAllExecuted(executes: bool, s: Store, r: Store, id: string)
    requires AllExecuted(executes, s) && MovedOn(executes, s, r, id)
    ensures AllExecuted(executes, r)
  {
    if executes {
      forall i | i in r.proposals && r.proposals[i].status == Applied ensures WasExecuted(r, i) {
        if i == id {
          assert r.executed[|s.executed|].id == i;
        } else {
          assert WasExecuted(s, i);
          var e :| e in s.executed && e.id == i;
          assert e in r.executed;
        }
      }
    }
  }

  lemma MovedKeepsContent(executes: bool, s: Store, r: Store, id: string)
    requires MovedOn(executes, s, r, id)
    ensures SameProposals(s, r)
  {
  }

  lemma MovedKeepsLegal(executes: bool, s: Store, r: Store, id: string)
    requires Legal(executes, s) && MovedOn(executes, s, r, id)
    ensures Legal(executes, r)
  {
    MovedKeepsIndexed(executes, s, r, id);
    MovedKeepsOnPath(executes, s, r, id);
    MovedKeepsExecutedOnce(executes, s, r, id);
    MovedKeepsAllExecuted(executes, s, r, id);
  }

  lemma SameAsItself(s: Store)
    ensures SameProposals(s, s)
  {
  }

  /** Every call keeps the lifecycle legal; a failing call changes nothing; what was proposed never changes. */
  lemma PerformKeepsLegal(executes: bool, s: Store, op: Op)
    requires Legal(executes, s) && (op.DoPropose? ==> op.id !in s.proposals)
    ensures var r := Perform(executes, s, op);
            Legal(executes, r.store) && (r.result.Failure? ==> r.store == s) && SameProposals(s, r.store)
  {
    PerformMoves(executes, s, op);
    var r := Perform(executes, s, op);
    if r.result.Success? {
      MovedKeepsLegal(executes, s, r.store, op.id);
      MovedKeepsContent(executes, s, r.store, op.id);
    } else {
      SameAsItself(s);
    }
  }

  lemma PerformKeepsIndexed(executes: bool, s: Store, op: Op)
    requires Indexed(s) && (op.DoPropose? ==> op.id !in s.proposals)
    ensures Indexed(Perform(executes, s, op).store)
  {
    PerformMoves(executes, s, op);
    if Perform(executes, s, op).result.Success? {
      MovedKeepsIndexed(executes, s, Perform(executes, s, op).store, op.id);
    }
  }

  /** Known proposals stay known, with the patch, proposer, reason and creation time they were proposed with,
      and statuses only ever extend. */
  ghost predicate SameProposals(s: Store, r: Store) {
    s.history <= r.history
    && forall id :: id in s.proposals ==>
         id in r.proposals && SameContent(s.proposals[id], r.proposals[id])
  }

  /** The store after a run of calls. */
  ghost function Run(executes: bool, s: Store, ops: seq<Op>): Store {
    if ops == [] then s
    else
      var before := Run(executes, s, ops[..|ops| - 1]);
      var op := ops[|ops| - 1];
      if op.DoPropose? && op.id in before.proposals then before else Perform(executes, before, op).store
  }

  lemma {:induction false} RunKeepsLegal(executes: bool, s: Store, ops: seq<Op>)
    requires Legal(executes, s)
    ensures Legal(executes, Run(executes, s, ops)) && SameProposals(s, Run(executes, s, ops))
  {
    if ops != [] {
      RunKeepsLegal(executes, s, ops[..|ops| - 1]);
      var before, op := Run(executes, s, ops[..|ops| - 1]), ops[|ops| - 1];
      if !(op.DoPropose? && op.id in before.proposals) {
        PerformKeepsLegal(executes, before, op);
      }
    }
  }

  /** Over any run from an empty store, the patches executed are exactly those of the applied proposals, each once and
      after an approval, and every proposal's statuses are the one legal path to its present one. */
  lemma ExecutedAreApplied(ops: seq<Op>)
    ensures var s := Run(true, EMPTY_STORE, ops);
            (forall i, j :: 0 <= i < j < |s.executed| ==> s.executed[i].id != s.executed[j].id)
            && (forall e :: e in s.executed ==> Justified(s, e))
            && (forall id :: id in s.proposals && s.proposals[id].status == Applied ==> WasExecuted(s, id))
            && (forall id :: id in s.proposals ==> Trail(s.history, id) == PathTo(s.proposals[id].status))
  {
    RunKeepsLegal(true, EMPTY_STORE, ops);
  }

  // ---- Each call, field by field ----

  /** The proposal with this status, reviewer and review reason, and everything else as proposed. */
  predicate ReviewedAs(q: PatchProposal, p: PatchProposal, status: Status, reviewedBy: string, reviewReason: string) {
    q.id == p.id && q.proposedBy == p.proposedBy && q.patch == p.patch && q.reason == p.reason
    && q.createdAt == p.createdAt && q.status == status && q.reviewedBy == reviewedBy && q.reviewReason == reviewReason
  }

  /** From s to r, exactly this proposal was replaced. */
  predicate Replaces(s: Store, r: Store, id: string, q: PatchProposal) {
    r.order == s.order && r.proposals == s.proposals[id := q]
  }

  /** Proposing adds a pending proposal of what was proposed, at the end, and nothing is executed. */
  lemma ProposeMeans(
    executes: bool, s: Store, id: string, proposedBy: string, patch: Payload, reason: string, now: string)
    requires id !in s.proposals
    ensures var r := Perform(executes, s, DoPropose(id, proposedBy, patch, reason, now));
            var p := PatchProposal(id, proposedBy, patch, reason, now, Pending, "", "");
            r.result == Success(p) && r.store.order == s.order + [id] && r.store.proposals == s.proposals[id := p]
            && r.store.executed == s.executed
  {
  }

  /** Approving succeeds on pending proposals only: those become approved, in the reviewer's name and words. */
  lemma ApproveMeans(executes: bool, s: Store, id: string, reviewer: string, why: string)
    ensures var r := Perform(executes, s, DoApprove(id, reviewer, why));
            if id !in s.proposals then r == Reply(s, Failure(ProposalNotFound))
            else if s.proposals[id].status != Pending then r == Reply(s, Failure(WrongStatus))
            else r.result.Success? && ReviewedAs(r.result.value, s.proposals[id], Approved, reviewer, why)
                 && Replaces(s, r.store, id, r.result.value) && r.store.executed == s.executed
  {
  }

  /** Rejecting succeeds on pending proposals only: those become rejected, in the reviewer's name and words. */
  lemma RejectMeans(executes: bool, s: Store, id: string, reviewer: string, why: string)
    ensures var r := Perform(executes, s, DoReject(id, reviewer, why));
            if id !in s.proposals then r == Reply(s, Failure(ProposalNotFound))
            else if s.proposals[id].status != Pending then r == Reply(s, Failure(WrongStatus))
            else r.result.Success? && ReviewedAs(r.result.value, s.proposals[id], Rejected, reviewer, why)
                 && Replaces(s, r.store, id, r.result.value) && r.store.executed == s.executed
  {
  }

  /** Applying succeeds on approved proposals only: those become applied, keep their review, and their patch is executed
      once if there is a patch function. */
  lemma ApplyMeans(executes: bool, s: Store, id: string)
    ensures var r := Perform(executes, s, DoApply(id));
            if id !in s.proposals then r == Reply(s, Failure(ProposalNotFound))
            else if s.proposals[id].status != Approved then r == Reply(s, Failure(WrongStatus))
            else
              var p := s.proposals[id];
              r.result.Success? && ReviewedAs(r.result.value, p, Applied, p.reviewedBy, p.reviewReason)
              && Replaces(s, r.store, id, r.result.value)
              && (if executes then |r.store.executed| == |s.executed| + 1 && s.executed <= r.store.executed
                                   && r.store.executed[|s.executed|].id == id
                                   && r.store.executed[|s.executed|].patch == p.patch
                  else r.store.executed == s.executed)
  {
  }

  predicate IsPendingIn(proposals: map<string, PatchProposal>, id: string) {
    id in proposals && proposals[id].status == Pending
  }

  function ArePending(proposals: map<string, PatchProposal>): string -> bool {
    (id: string) => IsPendingIn(proposals, id)
  }

  /** The pending proposals are listed in the order they were proposed in. */
  lemma {:induction false} PendingInOrder(ids: seq<string>, proposals: map<string, PatchProposal>)
    ensures var (ps, kept) := (PendingFrom(ids, proposals), Filter(ids, ArePending(proposals)));
            |ps| == |kept|
            && forall i :: 0 <= i < |ps| ==> IsPendingIn(proposals, kept[i]) && ps[i] == proposals[kept[i]]
  {
    if ids != [] {
      PendingInOrder(ids[..|ids| - 1], proposals);
    }
  }
}
