/** Branching a run: the prefix through the fork point is re-appended under a new run id. */
module ForkEngine {
  import opened Prelude
  import opened Json
  import opened StableSort
  import opened EventLog
  import opened EventStore
  import opened RunDiffs

  datatype ForkRecord = ForkRecord(parentRunId: string, forkRunId: string, atEventId: string, configOverrides: Payload)

  /** The events through the first one with this id; all of them when none has it. */
  function PrefixThrough(es: seq<GraphEvent>, at: string): seq<GraphEvent> {
    if es == [] then []
    else if es[0].id == at then [es[0]]
    else [es[0]] + PrefixThrough(es[1..], at)
  }

  /** The fork's copy of an event; `causedBy` keeps naming the parent's event. */
  function Renamed(e: GraphEvent, forkRunId: string): GraphEvent {
    e.(id := forkRunId + "/" + e.id, runId := forkRunId)
  }

  function RenamedAll(es: seq<GraphEvent>, forkRunId: string): seq<GraphEvent> {
    seq(|es|, i requires 0 <= i < |es| => Renamed(es[i], forkRunId))
  }

  function AppendAll(c: Codec, rows: seq<Row>, es: seq<GraphEvent>): seq<Row> {
    if es == [] then rows
    else Appended(AppendAll(c, rows, es[..|es| - 1]), EventToRow(c, es[|es| - 1]))
  }

  function ParentPrefix(c: Codec, rows: seq<Row>, parent: string, at: string): seq<GraphEvent> {
    PrefixThrough(Events(c, rows, Some(parent)), at)
  }

  /** The log after forking. */
  function Forked(c: Codec, rows: seq<Row>, parent: string, at: string, f: string): seq<Row> {
    AppendAll(c, rows, RenamedAll(ParentPrefix(c, rows, parent, at), f))
  }

  class NativeForkEngine {
    const store: EventStoreImpl

    constructor (store: EventStoreImpl)
      ensures this.store == store
    {
      this.store := store;
    }

    /** `forkRunId` stands for the id drawn from uuid4. */
    method Fork(parentRunId: string, atEventId: string, forkRunId: string, configOverrides: Payload)
      returns (fork: ForkRecord)
      requires store.backend.Valid()
      modifies store.backend
      ensures store.backend.Valid()
      ensures store.backend.rows == Forked(store.codec, old(store.backend.rows), parentRunId, atEventId, forkRunId)
      ensures fork == ForkRecord(parentRunId, forkRunId, atEventId, configOverrides)
    {
      var prefixEvents := CollectPrefix(parentRunId, atEventId);
      AppendCopies(prefixEvents, forkRunId);
      fork := ForkRecord(parentRunId, forkRunId, atEventId, configOverrides);
    }

    method CollectPrefix(parentRunId: string, atEventId: string) returns (prefix: seq<GraphEvent>)
      requires store.backend.Valid()
      ensures prefix == ParentPrefix(store.codec, store.backend.rows, parentRunId, atEventId)
    {
      var events := store.IterEvents(Some(parentRunId));
      prefix := [];
      for i := 0 to |events|
        invariant prefix == events[..i]
        invariant forall j :: 0 <= j < i ==> events[j].id != atEventId
      {
        prefix := prefix + [events[i]];
        if events[i].id == atEventId {
          PrefixIs(events, atEventId, i + 1);
          return;
        }
      }
      PrefixIs(events, atEventId, |events|);
    }

    method AppendCopies(prefix: seq<GraphEvent>, forkRunId: string)
      requires store.backend.Valid()
      modifies store.backend
      ensures store.backend.Valid()
      ensures store.backend.rows == AppendAll(store.codec, old(store.backend.rows), RenamedAll(prefix, forkRunId))
    {
      ghost var copies := RenamedAll(prefix, forkRunId);
      for i := 0 to |prefix|
        invariant store.backend.Valid()
        invariant store.backend.rows == AppendAll(store.codec, old(store.backend.rows), copies[..i])
      {
        var event := prefix[i];
        var forked := GraphEvent(
          forkRunId + "/" + event.id, event.eventType, event.payload,
          event.actor, forkRunId, event.causedBy, event.timestampNs);
        assert copies[..i + 1][..i] == copies[..i] && copies[i] == forked;
        store.Append(forked);
      }
      assert copies[..|copies|] == copies;
    }

    /** Ids are non-empty because every stored event is a GraphEvent. */
    method Diff(parentRunId: string, forkRunId: string) returns (d: RunDiff)
      requires store.backend.Valid()
      requires NonEmptyIds(Events(store.codec, store.backend.rows, Some(parentRunId)))
      ensures d == DiffOf(
                parentRunId, Events(store.codec, store.backend.rows, Some(parentRunId)),
                forkRunId, Events(store.codec, store.backend.rows, Some(forkRunId)))
    {
      var parentEvents := store.IterEvents(Some(parentRunId));
      var forkEvents := store.IterEvents(Some(forkRunId));
      var splitEventId := FindSplit(parentEvents, forkEvents);
      var parentPayloads, forkPayloads := PayloadMap(parentEvents), PayloadMap(forkEvents);
      var objects := CollectObjects(parentPayloads, forkPayloads);
      d := RunDiff(parentRunId, forkRunId, objects, splitEventId);
    }

    method FindSplit(ps: seq<GraphEvent>, fs: seq<GraphEvent>) returns (split: string)
      requires NonEmptyIds(ps)
      ensures split == SplitEventId(ps, fs)
    {
      split := "";
      var minLen := if |ps| < |fs| then |ps| else |fs|;
      for i := 0 to minLen
        invariant split == "" && forall j :: 0 <= j < i ==> SameTrace(ps[j], fs[j])
      {
        if !SameTrace(ps[i], fs[i]) {
          FirstDifferenceIs(ps, fs, i);
          split := ps[i].id;
          assert ps[i] in ps;
          return;
        }
      }
      FirstDifferenceIs(ps, fs, minLen);
      if split == "" && |ps| != |fs| {
        if minLen < |ps| {
          split := ps[minLen].id;
        } else if minLen < |fs| {
          split := fs[minLen].id;
        }
      }
    }

    method CollectObjects(parent: map<string, Payload>, fork: map<string, Payload>)
      returns (objects: seq<DivergentObject>)
      ensures objects == Objects(parent, fork)
    {
      var added := SortIds(fork.Keys - parent.Keys);
      var removed := SortIds(parent.Keys - fork.Keys);
      var common := SortIds(parent.Keys * fork.Keys);
      SortedIdsLists(fork.Keys - parent.Keys);
      SortedIdsLists(parent.Keys - fork.Keys);
      SortedIdsLists(parent.Keys * fork.Keys);
      var addedObjects := CollectAdded(added, fork);
      var removedObjects := CollectRemoved(removed, parent);
      var changedObjects := CollectChanged(common, parent, fork);
      objects := addedObjects + removedObjects + changedObjects;
    }

    method CollectAdded(ids: seq<string>, fork: map<string, Payload>) returns (objects: seq<DivergentObject>)
      requires forall x :: x in ids ==> x in fork
      ensures objects == AddedOf(ids, fork)
    {
      objects := [];
      for i := 0 to |ids|
        invariant objects == AddedOf(ids, fork)[..i]
      {
        objects := objects + [DivergentObject(ids[i], Added, None, Some(fork[ids[i]]))];
      }
    }

    method CollectRemoved(ids: seq<string>, parent: map<string, Payload>) returns (objects: seq<DivergentObject>)
      requires forall x :: x in ids ==> x in parent
      ensures objects == RemovedOf(ids, parent)
    {
      objects := [];
      for i := 0 to |ids|
        invariant objects == RemovedOf(ids, parent)[..i]
      {
        objects := objects + [DivergentObject(ids[i], Removed, Some(parent[ids[i]]), None)];
      }
    }

    method CollectChanged(ids: seq<string>, parent: map<string, Payload>, fork: map<string, Payload>)
      returns (objects: seq<DivergentObject>)
      requires forall x :: x in ids ==> x in parent && x in fork
      ensures objects == ChangedOf(ids, parent, fork)
    {
      objects := [];
      for i := 0 to |ids|
        invariant objects == ChangedOf(ids[..i], parent, fork)
      {
        assert ids[..i + 1][..i] == ids[..i];
        if parent[ids[i]] != fork[ids[i]] {
          objects := objects + [DivergentObject(ids[i], Changed, Some(parent[ids[i]]), Some(fork[ids[i]]))];
        }
      }
      assert ids[..|ids|] == ids;
    }
  }

  lemma {:induction false} PrefixIs(es: seq<GraphEvent>, at: string, k: nat)
    requires k <= |es| && forall j :: 0 <= j < k - 1 ==> es[j].id != at
    requires k == 0 ==> es == []
    requires 0 < k ==> es[k - 1].id == at || k == |es|
    ensures PrefixThrough(es, at) == es[..k]
  {
    if k > 1 {
      assert es[1..][k - 2] == es[k - 1];
      PrefixIs(es[1..], at, k - 1);
    } else if k == 1 && es[0].id != at {
      assert es[1..] == [];
    }
  }

  // ---- What the fork reads back as ----

  function NotIn(ids: set<string>): Row -> bool {
    (r: Row) => r.id !in ids
  }

  function IdNotIn(ids: set<string>): GraphEvent -> bool {
    (e: GraphEvent) => e.id !in ids
  }

  ghost predicate UnusedRun(rows: seq<Row>, f: string) {
    forall r :: r in rows ==> r.runId != f
  }

  /** No stored id has the shape a copied event would get. */
  ghost predicate UnusedIds(rows: seq<Row>, es: seq<GraphEvent>, f: string) {
    forall e :: e in es ==> f + "/" + e.id !in IdsOf(rows)
  }

  ghost predicate UniqueEventIds(es: seq<GraphEvent>) {
    forall i, j :: 0 <= i < j < |es| ==> es[i].id != es[j].id
  }

  lemma {:induction false} PrefixLength(es: seq<GraphEvent>, at: string) returns (k: nat)
    ensures k <= |es| && PrefixThrough(es, at) == es[..k]
    ensures forall j :: 0 <= j < k - 1 ==> es[j].id != at
    ensures k < |es| ==> k > 0 && es[k - 1].id == at
  {
    k := 0;
    while k < |es| && (k == 0 || es[k - 1].id != at)
      invariant k <= |es| && forall j :: 0 <= j < k - 1 ==> es[j].id != at
    {
      k := k + 1;
    }
    PrefixIs(es, at, k);
  }

  lemma PrefixIsPrefix(es: seq<GraphEvent>, at: string)
    ensures PrefixThrough(es, at) <= es
  {
    var k := PrefixLength(es, at);
  }

  lemma IdsOfConcat(a: seq<Row>, b: seq<Row>)
    ensures IdsOf(a + b) == IdsOf(a) + IdsOf(b)
  {
  }

  function NewPart(rows: seq<Row>, x: Row): seq<Row> {
    if x.id in IdsOf(rows) then [] else [x]
  }

  /** Appending a row none of the kept ones shares its id with: only the ids stored before can hold it back. */
  lemma AppendBesideKept(rows: seq<Row>, kept: seq<Row>, x: Row)
    requires UniqueIds(rows + kept) && x.id !in IdsOf(kept)
    ensures Appended(rows + kept, x) == rows + (kept + NewPart(rows, x))
    ensures UniqueIds(rows + (kept + NewPart(rows, x)))
  {
    IdsOfConcat(rows, kept);
    AppendKeepsUnique(rows + kept, x);
    assert rows + kept + NewPart(rows, x) == rows + (kept + NewPart(rows, x));
  }

  lemma KeptSnoc(rows: seq<Row>, copies: seq<Row>, x: Row)
    ensures Filter(copies + [x], NotIn(IdsOf(rows))) == Filter(copies, NotIn(IdsOf(rows))) + NewPart(rows, x)
  {
    FilterSnoc(copies, x, NotIn(IdsOf(rows)));
  }

  lemma FilteredIdsAbsent(s: seq<Row>, p: Row -> bool, id: string)
    requires forall r :: r in s ==> r.id != id
    ensures id !in IdsOf(Filter(s, p))
  {
    FilterMembers(s, p);
  }

  lemma AppendStep(rows: seq<Row>, copies: seq<Row>, x: Row)
    requires UniqueIds(rows + Filter(copies, NotIn(IdsOf(rows))))
    requires forall r :: r in copies ==> r.id != x.id
    ensures Appended(rows + Filter(copies, NotIn(IdsOf(rows))), x) == rows + Filter(copies + [x], NotIn(IdsOf(rows)))
    ensures UniqueIds(rows + Filter(copies + [x], NotIn(IdsOf(rows))))
  {
    FilteredIdsAbsent(copies, NotIn(IdsOf(rows)), x.id);
    AppendBesideKept(rows, Filter(copies, NotIn(IdsOf(rows))), x);
    KeptSnoc(rows, copies, x);
  }

  lemma {:induction false} AppendAllKeepsNewIds(c: Codec, rows: seq<Row>, es: seq<GraphEvent>)
    requires UniqueIds(rows) && UniqueEventIds(es)
    ensures AppendAll(c, rows, es) == rows + Filter(RowsOf(c, es), NotIn(IdsOf(rows)))
    ensures UniqueIds(AppendAll(c, rows, es))
  {
    if es == [] {
      assert RowsOf(c, es) == [];
    } else {
      var es0, x := es[..|es| - 1], EventToRow(c, es[|es| - 1]);
      AppendAllKeepsNewIds(c, rows, es0);
      assert RowsOf(c, es) == RowsOf(c, es0) + [x];
      AppendStep(rows, RowsOf(c, es0), x);
    }
  }

  lemma RenamingIsInjective(f: string, a: string, b: string)
    ensures f + "/" + a == f + "/" + b ==> a == b
  {
    assert (f + "/" + a)[|f| + 1..] == a;
    assert (f + "/" + b)[|f| + 1..] == b;
  }

  lemma RenamedIdsUnique(es: seq<GraphEvent>, f: string)
    requires UniqueEventIds(es)
    ensures UniqueEventIds(RenamedAll(es, f))
  {
    forall i, j | 0 <= i < j < |es| ensures RenamedAll(es, f)[i].id != RenamedAll(es, f)[j].id {
      RenamingIsInjective(f, es[i].id, es[j].id);
    }
  }

  /** Every run's events come back in timestamp order with unique ids. */
  lemma EventsAreOrdered(c: Codec, rows: seq<Row>, runId: Option<string>)
    requires UniqueIds(rows)
    ensures UniqueEventIds(Events(c, rows, runId))
    ensures forall i, j :: 0 <= i < j < |Events(c, rows, runId)| ==>
              Events(c, rows, runId)[i].timestampNs <= Events(c, rows, runId)[j].timestampNs
  {
    ReadKeepsIdsUnique(rows, runId);
    ReadIsLocal(rows, runId);
    SortOrdered(Filter(rows, InRun(runId)), Timestamp);
    var s := Read(rows, runId);
    forall i, j | 0 <= i < j < |s| ensures s[i].timestampNs <= s[j].timestampNs {
      assert Timestamp(s[i]) <= Timestamp(s[j]);
    }
  }

  lemma {:induction false} FilterKeepsOrder(s: seq<Row>, p: Row -> bool)
    requires Ordered(s, Timestamp)
    ensures Ordered(Filter(s, p), Timestamp)
  {
    SortOfOrdered(s, Timestamp);
    FilterSort(s, Timestamp, p);
    SortOrdered(Filter(s, p), Timestamp);
  }

  /** The event comes back from the store unchanged. */
  predicate Survives(c: Codec, e: GraphEvent) {
    RowToEvent(c, EventToRow(c, e)) == e
  }

  lemma DecodeOneMore(c: Codec, kept: seq<Row>, e: GraphEvent)
    requires Survives(c, e)
    ensures EventsOf(c, kept + [EventToRow(c, e)]) == EventsOf(c, kept) + [e]
  {
  }

  lemma RowsSnoc(c: Codec, es: seq<GraphEvent>, e: GraphEvent)
    ensures RowsOf(c, es + [e]) == RowsOf(c, es) + [EventToRow(c, e)]
  {
  }

  lemma {:induction false} DecodeKept(c: Codec, es: seq<GraphEvent>, ids: set<string>)
    requires forall i :: 0 <= i < |es| ==> Survives(c, es[i])
    ensures EventsOf(c, Filter(RowsOf(c, es), NotIn(ids))) == Filter(es, IdNotIn(ids))
  {
    if es == [] {
      assert RowsOf(c, es) == [];
    } else {
      var es0, e := es[..|es| - 1], es[|es| - 1];
      assert es == es0 + [e];
      DecodeKept(c, es0, ids);
      RowsSnoc(c, es0, e);
      FilterSnoc(RowsOf(c, es0), EventToRow(c, e), NotIn(ids));
      var kept := Filter(RowsOf(c, es0), NotIn(ids));
      assert kept + [] == kept;
      DecodeOneMore(c, kept, e);
      FilterSnoc(es0, e, IdNotIn(ids));
      assert Filter(es0, IdNotIn(ids)) + [] == Filter(es0, IdNotIn(ids));
    }
  }

  /** The copies are in timestamp order, have distinct ids and all belong to the new run. */
  lemma CopiesAreOrdered(c: Codec, rows: seq<Row>, parent: string, at: string, f: string)
    requires UniqueIds(rows)
    ensures var copies := RenamedAll(ParentPrefix(c, rows, parent, at), f);
            UniqueEventIds(copies) && Ordered(RowsOf(c, copies), Timestamp)
            && forall r :: r in RowsOf(c, copies) ==> r.runId == f
  {
    var events := Events(c, rows, Some(parent));
    var k := PrefixLength(events, at);
    EventsAreOrdered(c, rows, Some(parent));
    CopiesOf(c, events, k, f);
  }

  lemma CopiesOf(c: Codec, es: seq<GraphEvent>, k: nat, f: string)
    requires k <= |es| && UniqueEventIds(es)
    requires forall i, j :: 0 <= i < j < |es| ==> es[i].timestampNs <= es[j].timestampNs
    ensures var copies := RenamedAll(es[..k], f);
            UniqueEventIds(copies) && Ordered(RowsOf(c, copies), Timestamp)
            && forall r :: r in RowsOf(c, copies) ==> r.runId == f
  {
    RenamedIdsUnique(es[..k], f);
  }

  /** The rows the fork adds. */
  ghost function Kept(c: Codec, rows: seq<Row>, parent: string, at: string, f: string): seq<Row> {
    Filter(RowsOf(c, RenamedAll(ParentPrefix(c, rows, parent, at), f)), NotIn(IdsOf(rows)))
  }

  lemma ForkRows(c: Codec, rows: seq<Row>, parent: string, at: string, f: string)
    requires UniqueIds(rows)
    ensures Forked(c, rows, parent, at, f) == rows + Kept(c, rows, parent, at, f)
    ensures UniqueIds(Forked(c, rows, parent, at, f))
    ensures Ordered(Kept(c, rows, parent, at, f), Timestamp)
    ensures forall i :: 0 <= i < |Kept(c, rows, parent, at, f)| ==> Kept(c, rows, parent, at, f)[i].runId == f
  {
    var copies := RenamedAll(ParentPrefix(c, rows, parent, at), f);
    CopiesAreOrdered(c, rows, parent, at, f);
    AppendAllKeepsNewIds(c, rows, copies);
    FilterKeepsOrder(RowsOf(c, copies), NotIn(IdsOf(rows)));
    FilterMembers(RowsOf(c, copies), NotIn(IdsOf(rows)));
    var kept := Kept(c, rows, parent, at, f);
    forall i | 0 <= i < |kept| ensures kept[i].runId == f {
      assert kept[i] in kept;
    }
  }

  /** Forking disturbs no other run, whatever the timestamps and however the runs interleave. */
  lemma ForkLeavesOtherRunsAlone(c: Codec, rows: seq<Row>, parent: string, at: string, f: string, other: string)
    requires UniqueIds(rows) && other != f
    ensures Read(Forked(c, rows, parent, at, f), Some(other)) == Read(rows, Some(other))
  {
    ForkRows(c, rows, parent, at, f);
    var kept := Kept(c, rows, parent, at, f);
    FilterConcat(rows, kept, InRun(Some(other)));
    FilterNone(kept, InRun(Some(other)));
    ReadIsLocal(rows + kept, Some(other));
    ReadIsLocal(rows, Some(other));
    assert Filter(rows, InRun(Some(other))) + [] == Filter(rows, InRun(Some(other)));
  }

  /** The new run reads back as the renamed prefix, minus the copies whose id was already taken. */
  lemma ForkReadsBack(c: Codec, rows: seq<Row>, parent: string, at: string, f: string)
    requires UniqueIds(rows) && SpeaksJson(c) && UnusedRun(rows, f)
    ensures UniqueIds(Forked(c, rows, parent, at, f))
    ensures Events(c, Forked(c, rows, parent, at, f), Some(f))
         == Filter(RenamedAll(ParentPrefix(c, rows, parent, at), f), IdNotIn(IdsOf(rows)))
  {
    ForkRows(c, rows, parent, at, f);
    var kept := Kept(c, rows, parent, at, f);
    FilterConcat(rows, kept, InRun(Some(f)));
    FilterNone(rows, InRun(Some(f)));
    FilterAll(kept, InRun(Some(f)));
    ReadIsLocal(rows + kept, Some(f));
    assert [] + kept == kept;
    SortOfOrdered(kept, Timestamp);
    CopiesSurvive(c, rows, parent, at, f);
    DecodeKept(c, RenamedAll(ParentPrefix(c, rows, parent, at), f), IdsOf(rows));
  }

  lemma CopiesSurvive(c: Codec, rows: seq<Row>, parent: string, at: string, f: string)
    requires SpeaksJson(c)
    ensures var copies := RenamedAll(ParentPrefix(c, rows, parent, at), f);
            forall i :: 0 <= i < |copies| ==> Survives(c, copies[i])
  {
    var events, prefix := Events(c, rows, Some(parent)), ParentPrefix(c, rows, parent, at);
    ReadEventsAreJson(c, rows, Some(parent));
    PrefixIsPrefix(events, at);
    forall i | 0 <= i < |prefix| ensures Survives(c, Renamed(prefix[i], f)) {
      assert prefix[i] == events[i] && events[i] in events;
      RowRoundTripIff(c, Renamed(prefix[i], f));
    }
  }

  lemma {:induction false} FilterLosesRejected<T>(s: seq<T>, p: T -> bool, i: nat)
    requires i < |s| && !p(s[i])
    ensures |Filter(s, p)| < |s|
  {
    FilterShrinks(s[..|s| - 1], p);
    if i < |s| - 1 {
      FilterLosesRejected(s[..|s| - 1], p, i);
    }
  }

  lemma {:induction false} FilterShrinks<T>(s: seq<T>, p: T -> bool)
    ensures |Filter(s, p)| <= |s|
  {
    if s != [] {
      FilterShrinks(s[..|s| - 1], p);
    }
  }

  /** The fork is a faithful copy of the prefix exactly when none of the ids it needs is taken. */
  lemma ForkIsPrefixIff(c: Codec, rows: seq<Row>, parent: string, at: string, f: string)
    requires UniqueIds(rows) && SpeaksJson(c) && UnusedRun(rows, f)
    ensures var prefix := ParentPrefix(c, rows, parent, at);
            Events(c, Forked(c, rows, parent, at, f), Some(f)) == RenamedAll(prefix, f)
            <==> UnusedIds(rows, prefix, f)
  {
    var prefix := ParentPrefix(c, rows, parent, at);
    var copies := RenamedAll(prefix, f);
    ForkReadsBack(c, rows, parent, at, f);
    if UnusedIds(rows, prefix, f) {
      forall i | 0 <= i < |copies| ensures IdNotIn(IdsOf(rows))(copies[i]) {
        assert prefix[i] in prefix;
      }
      FilterAll(copies, IdNotIn(IdsOf(rows)));
    } else {
      var e :| e in prefix && f + "/" + e.id in IdsOf(rows);
      var i :| 0 <= i < |prefix| && prefix[i] == e;
      FilterLosesRejected(copies, IdNotIn(IdsOf(rows)), i);
    }
  }

  /** Forking at one of the parent's events copies exactly the events through it; at an unknown id, all of them. */
  lemma ForkPoint(c: Codec, rows: seq<Row>, parent: string, at: string)
    requires UniqueIds(rows)
    ensures var events := Events(c, rows, Some(parent));
            (forall i {:trigger events[i]} :: 0 <= i < |events| && events[i].id == at
               ==> ParentPrefix(c, rows, parent, at) == events[..i + 1])
            && ((forall i :: 0 <= i < |events| ==> events[i].id != at) ==> ParentPrefix(c, rows, parent, at) == events)
  {
    EventsAreOrdered(c, rows, Some(parent));
    PrefixAtEach(Events(c, rows, Some(parent)), at);
  }

  lemma PrefixAtEach(es: seq<GraphEvent>, at: string)
    requires UniqueEventIds(es)
    ensures forall i {:trigger es[i]} :: 0 <= i < |es| && es[i].id == at ==> PrefixThrough(es, at) == es[..i + 1]
    ensures (forall i :: 0 <= i < |es| ==> es[i].id != at) ==> PrefixThrough(es, at) == es
  {
    forall i {:trigger es[i]} | 0 <= i < |es| && es[i].id == at ensures PrefixThrough(es, at) == es[..i + 1] {
      PrefixIs(es, at, i + 1);
    }
    if forall i :: 0 <= i < |es| ==> es[i].id != at {
      PrefixIs(es, at, |es|);
    }
  }

  // ---- What a copy holds ----

  /** The event has the new run's id and name; everything else is the parent's event's, its cause and time included. */
  predicate IsCopy(copy: GraphEvent, e: GraphEvent, f: string) {
    copy.id == f + "/" + e.id && copy.runId == f
    && copy.eventType == e.eventType && copy.payload == e.payload && copy.actor == e.actor
    && copy.causedBy == e.causedBy && copy.timestampNs == e.timestampNs
  }

  /** The first k events end with the one of this id, or k is their number and none has it. */
  predicate EndsAt(es: seq<GraphEvent>, at: string, k: nat) {
    k <= |es|
    && ((k > 0 && es[k - 1].id == at) || (k == |es| && forall j :: 0 <= j < k ==> es[j].id != at))
  }

  lemma PrefixOfFirst(es: seq<GraphEvent>, at: string, k: nat)
    requires UniqueEventIds(es) && EndsAt(es, at, k)
    ensures PrefixThrough(es, at) == es[..k]
  {
    PrefixAtEach(es, at);
    assert es[..|es|] == es;
  }

  lemma FirstIdsUnused(rows: seq<Row>, es: seq<GraphEvent>, k: nat, f: string)
    requires k <= |es| && forall j :: 0 <= j < k ==> f + "/" + es[j].id !in IdsOf(rows)
    ensures UnusedIds(rows, es[..k], f)
  {
    forall e | e in es[..k] ensures f + "/" + e.id !in IdsOf(rows) {
      var j :| 0 <= j < k && es[..k][j] == e;
      assert es[j] == e;
    }
  }

  lemma RenamedAreCopies(es: seq<GraphEvent>, f: string)
    ensures |RenamedAll(es, f)| == |es| && forall j :: 0 <= j < |es| ==> IsCopy(RenamedAll(es, f)[j], es[j], f)
  {
  }

  /** Forking a run at its k-th event, or with an unknown id at its end, with a fresh run id and free ids: the new run
      reads back as the first k events, each copied field by field. */
  lemma ForkCopiesTheFirst(c: Codec, rows: seq<Row>, parent: string, at: string, f: string, k: nat)
    requires UniqueIds(rows) && SpeaksJson(c) && UnusedRun(rows, f)
    requires EndsAt(Events(c, rows, Some(parent)), at, k)
    requires forall j :: 0 <= j < k ==> f + "/" + Events(c, rows, Some(parent))[j].id !in IdsOf(rows)
    ensures var events := Events(c, rows, Some(parent));
            var copies := Events(c, Forked(c, rows, parent, at, f), Some(f));
            |copies| == k && forall j :: 0 <= j < k ==> IsCopy(copies[j], events[j], f)
  {
    var events := Events(c, rows, Some(parent));
    EventsAreOrdered(c, rows, Some(parent));
    PrefixOfFirst(events, at, k);
    FirstIdsUnused(rows, events, k, f);
    ForkIsPrefixIff(c, rows, parent, at, f);
    RenamedAreCopies(events[..k], f);
  }

  // ---- A taken id ----

  lemma RunReadsItself(rows: seq<Row>, run: string)
    requires Ordered(rows, Timestamp) && forall i :: 0 <= i < |rows| ==> rows[i].runId == run
    ensures Read(rows, Some(run)) == rows
  {
    SortOfOrdered(rows, Timestamp);
    FilterAll(rows, InRun(Some(run)));
  }

  lemma PrefixedDiffers(f: string, at: string)
    ensures f + "/" + at != at
  {
    assert |f + "/" + at| == |f| + 1 + |at|;
  }

  /** Forking at the first event when the id of its copy is taken copies nothing. */
  lemma ForkOfTakenCopy(c: Codec, rows: seq<Row>, parent: string, f: string)
    requires SpeaksJson(c) && UniqueIds(rows) && UnusedRun(rows, f)
    requires Read(rows, Some(parent)) == rows != [] && f + "/" + rows[0].id in IdsOf(rows)
    ensures |ParentPrefix(c, rows, parent, rows[0].id)| == 1
    ensures Events(c, Forked(c, rows, parent, rows[0].id, f), Some(f)) == []
  {
    var events, at := Events(c, rows, Some(parent)), rows[0].id;
    assert events[0] == RowToEvent(c, rows[0]);
    PrefixIs(events, at, 1);
    ForkReadsBack(c, rows, parent, at, f);
    OneTakenCopy(RenamedAll(events[..1], f), IdsOf(rows));
  }

  /** Two rows of one run; the second has the id that the copy of the first would get. */
  predicate TakesCopyId(rows: seq<Row>, f: string) {
    |rows| == 2 && rows[1].id == f + "/" + rows[0].id
    && rows[0].runId == rows[1].runId != f && rows[0].timestampNs <= rows[1].timestampNs
  }

  lemma TakenRows(rows: seq<Row>, f: string)
    requires TakesCopyId(rows, f)
    ensures UniqueIds(rows) && UnusedRun(rows, f) && f + "/" + rows[0].id in IdsOf(rows)
    ensures Read(rows, Some(rows[0].runId)) == rows
  {
    PrefixedDiffers(f, rows[0].id);
    assert rows[1] in rows;
    RunReadsItself(rows, rows[0].runId);
  }

  /** A fresh run id alone does not make the fork faithful: whichever is drawn, on a log of two rows of a run, of which
      the second has the id that the copy of the first would get, forking at the first copies nothing. */
  lemma TakenIdBreaksTheFork(c: Codec, rows: seq<Row>, f: string)
    requires SpeaksJson(c) && TakesCopyId(rows, f)
    ensures UniqueIds(rows) && UnusedRun(rows, f)
    ensures |ParentPrefix(c, rows, rows[0].runId, rows[0].id)| == 1
    ensures Events(c, Forked(c, rows, rows[0].runId, rows[0].id, f), Some(f)) == []
  {
    TakenRows(rows, f);
    ForkOfTakenCopy(c, rows, rows[0].runId, f);
  }

  lemma OneTakenCopy(copies: seq<GraphEvent>, ids: set<string>)
    requires |copies| == 1 && copies[0].id in ids
    ensures Filter(copies, IdNotIn(ids)) == []
  {
    FilterNone(copies, IdNotIn(ids));
  }

  // ---- Causes ----

  /** The event's cause, if it has one, is an event of the list. */
  predicate CauseIsIn(e: GraphEvent, es: seq<GraphEvent>) {
    e.causedBy == "" || exists d :: d in es && d.id == e.causedBy
  }

  /** Copies keep naming the parent's events as their causes: in a faithful fork of events whose causes are stored,
      every cause names an event of the fork's own run exactly when no copied event has a cause at all. */
  lemma ForkClosesCausesIff(c: Codec, rows: seq<Row>, parent: string, at: string, f: string)
    requires UniqueIds(rows) && SpeaksJson(c) && UnusedRun(rows, f)
    requires UnusedIds(rows, ParentPrefix(c, rows, parent, at), f)
    requires forall e :: e in ParentPrefix(c, rows, parent, at) ==> e.causedBy == "" || e.causedBy in IdsOf(rows)
    ensures var copies := Events(c, Forked(c, rows, parent, at, f), Some(f));
            (forall e :: e in copies ==> CauseIsIn(e, copies))
            <==> forall e :: e in ParentPrefix(c, rows, parent, at) ==> e.causedBy == ""
  {
    ForkIsPrefixIff(c, rows, parent, at, f);
    CopiedCausesIff(ParentPrefix(c, rows, parent, at), f, IdsOf(rows));
  }

  lemma CopiedCausesIff(es: seq<GraphEvent>, f: string, stored: set<string>)
    requires forall e :: e in es ==> e.causedBy == "" || e.causedBy in stored
    requires forall e :: e in es ==> f + "/" + e.id !in stored
    ensures var copies := RenamedAll(es, f);
            (forall e :: e in copies ==> CauseIsIn(e, copies)) <==> forall e :: e in es ==> e.causedBy == ""
  {
    var copies := RenamedAll(es, f);
    forall d | d in copies ensures d.id !in stored {
      var i :| 0 <= i < |copies| && copies[i] == d;
      assert es[i] in es;
    }
    forall i | 0 <= i < |es| ensures CauseIsIn(copies[i], copies) <==> es[i].causedBy == "" {
      assert es[i] in es;
    }
    assert forall i :: 0 <= i < |es| ==> copies[i] in copies;
  }
}
