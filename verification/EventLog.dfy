/** The append-only event log: idempotent on the event id, read in (timestamp, insertion) order. */
module EventLog {
  import opened Prelude
  import opened StableSort

  datatype Row = Row(
    id: string, runId: string, eventType: string, payloadJson: string,
    actor: string, causedBy: string, timestampNs: int)

  function Timestamp(r: Row): int { r.timestampNs }

  function InRun(runId: Option<string>): Row -> bool {
    (r: Row) => runId.None? || r.runId == runId.value
  }

  function IdsOf(rows: seq<Row>): set<string> {
    set r | r in rows :: r.id
  }

  ghost predicate UniqueIds(rows: seq<Row>) {
    forall i, j :: 0 <= i < j < |rows| ==> rows[i].id != rows[j].id
  }

  function Appended(rows: seq<Row>, row: Row): seq<Row> {
    if row.id in IdsOf(rows) then rows else rows + [row]
  }

  /** What a read of one run (or of the whole log) yields. */
  function Read(rows: seq<Row>, runId: Option<string>): seq<Row> {
    Filter(Sort(rows, Timestamp), InRun(runId))
  }

  /** Index of the first row with this id; the length when there is none. */
  function Position(s: seq<Row>, eventId: string): nat {
    if s == [] || s[0].id == eventId then 0 else 1 + Position(s[1..], eventId)
  }

  lemma {:induction false} PositionIs(s: seq<Row>, eventId: string, i: nat)
    requires i <= |s| && forall j :: 0 <= j < i ==> s[j].id != eventId
    requires i < |s| ==> s[i].id == eventId
    ensures Position(s, eventId) == i
  {
    if i > 0 {
      PositionIs(s[1..], eventId, i - 1);
    }
  }

  /** Rows strictly after the event; nothing when the event is unknown. */
  function Since(s: seq<Row>, eventId: string): seq<Row> {
    var p := Position(s, eventId);
    if p < |s| then s[p + 1..] else []
  }

  /** Rows up to and including the event; nothing when the event is unknown. */
  function Until(s: seq<Row>, eventId: string): seq<Row> {
    var p := Position(s, eventId);
    if p < |s| then s[..p + 1] else []
  }

  class InMemoryEventLog {
    var rows: seq<Row>
    var ids: set<string>

    ghost predicate Valid()
      reads this
    {
      ids == IdsOf(rows) && UniqueIds(rows)
    }

    constructor ()
      ensures Valid() && rows == []
    {
      rows, ids := [], {};
    }

    method AppendRow(row: Row)
      requires Valid()
      modifies this
      ensures Valid()
      ensures rows == Appended(old(rows), row)
    {
      if row.id in ids {
        return;
      }
      rows := rows + [row];
      ids := ids + {row.id};
    }

    method IterRows(runId: Option<string>) returns (out: seq<Row>)
      requires Valid()
      ensures out == Read(rows, runId)
    {
      var ordered := Sort(rows, Timestamp);
      out := [];
      for i := 0 to |ordered|
        invariant out == Filter(ordered[..i], InRun(runId))
      {
        var r := ordered[i];
        FilterSnoc(ordered[..i], r, InRun(runId));
        assert ordered[..i + 1] == ordered[..i] + [r];
        if runId.None? || r.runId == runId.value {
          out := out + [r];
        }
      }
      assert ordered[..|ordered|] == ordered;
    }

    method RowsSince(eventId: string) returns (out: seq<Row>)
      requires Valid()
      ensures out == Since(Read(rows, None), eventId)
    {
      var ordered := IterRows(None);
      for i := 0 to |ordered|
        invariant forall j :: 0 <= j < i ==> ordered[j].id != eventId
      {
        if ordered[i].id == eventId {
          PositionIs(ordered, eventId, i);
          return ordered[i + 1..];
        }
      }
      PositionIs(ordered, eventId, |ordered|);
      out := [];
    }

    method RowsUntil(eventId: string) returns (out: seq<Row>)
      requires Valid()
      ensures out == Until(Read(rows, None), eventId)
    {
      var ordered := IterRows(None);
      for i := 0 to |ordered|
        invariant forall j :: 0 <= j < i ==> ordered[j].id != eventId
      {
        if ordered[i].id == eventId {
          PositionIs(ordered, eventId, i);
          return ordered[..i + 1];
        }
      }
      PositionIs(ordered, eventId, |ordered|);
      out := [];
    }

    method CountRows() returns (n: nat)
      requires Valid()
      ensures n == |Read(rows, None)| == |ids|
    {
      n := |rows|;
      ReadIsPermutation(rows);
      CountIds(rows);
    }
  }

  // ---- Properties of reads ----

  lemma AppendKeepsUnique(rows: seq<Row>, row: Row)
    requires UniqueIds(rows)
    ensures UniqueIds(Appended(rows, row))
    ensures IdsOf(Appended(rows, row)) == IdsOf(rows) + {row.id}
  {
  }

  /** Appending a row whose id is known changes no read. */
  lemma AppendIsIdempotent(rows: seq<Row>, row: Row, again: Row)
    requires again.id == row.id
    ensures Appended(Appended(rows, row), again) == Appended(rows, row)
  {
    if row.id !in IdsOf(rows) {
      assert row in rows + [row];
    }
  }

  /** A whole-log read is the (timestamp, insertion) order of exactly the stored rows. */
  lemma ReadIsPermutation(rows: seq<Row>)
    ensures Read(rows, None) == Sort(rows, Timestamp)
    ensures multiset(Read(rows, None)) == multiset(rows)
    ensures |Read(rows, None)| == |rows|
    ensures forall r :: r in Read(rows, None) <==> r in rows
    ensures Ordered(Read(rows, None), Timestamp)
    ensures forall k :: Filter(Read(rows, None), HasKey(Timestamp, k)) == Filter(rows, HasKey(Timestamp, k))
  {
    SortIsOrderedPermutation(rows, Timestamp);
    FilterAll(Sort(rows, Timestamp), InRun(None));
    forall k ensures Filter(Sort(rows, Timestamp), HasKey(Timestamp, k)) == Filter(rows, HasKey(Timestamp, k)) {
      SortIsStable(rows, Timestamp, k);
    }
  }

  /** Reading a run is ordering that run's own rows: rows of other runs cannot influence it. */
  lemma ReadIsLocal(rows: seq<Row>, runId: Option<string>)
    ensures Read(rows, runId) == Sort(Filter(rows, InRun(runId)), Timestamp)
  {
    FilterSort(rows, Timestamp, InRun(runId));
  }

  lemma ReadKeepsIdsUnique(rows: seq<Row>, runId: Option<string>)
    requires UniqueIds(rows)
    ensures UniqueIds(Read(rows, runId))
  {
    SortKeepsIdsUnique(rows);
    FilterKeepsIdsUnique(Sort(rows, Timestamp), InRun(runId));
  }

  lemma UniqueSnocIff(s: seq<Row>, x: Row)
    ensures UniqueIds(s + [x]) <==> UniqueIds(s) && x.id !in IdsOf(s)
  {
    if UniqueIds(s + [x]) {
      assert (s + [x])[|s|] == x;
      assert forall i :: 0 <= i < |s| ==> (s + [x])[i] == s[i];
    }
  }

  lemma InsertedIds(s: seq<Row>, x: Row)
    ensures IdsOf(Insert(s, x, Timestamp)) == IdsOf(s) + {x.id}
  {
    var t := Insert(s, x, Timestamp);
    forall r ensures r in t <==> r in s + [x] {
      InsertHas(s, x, Timestamp, r);
    }
    SameMembersSameIds(t, s + [x]);
    assert IdsOf(s + [x]) == IdsOf(s) + {x.id};
  }

  lemma SameMembersSameIds(s: seq<Row>, t: seq<Row>)
    requires forall r :: r in s <==> r in t
    ensures IdsOf(s) == IdsOf(t)
  {
  }

  lemma {:induction false} InsertKeepsIdsUnique(s: seq<Row>, x: Row)
    requires UniqueIds(s) && x.id !in IdsOf(s)
    ensures UniqueIds(Insert(s, x, Timestamp))
  {
    if s == [] || s[|s| - 1].timestampNs <= x.timestampNs {
      UniqueSnocIff(s, x);
    } else {
      var s0, last := s[..|s| - 1], s[|s| - 1];
      assert s == s0 + [last];
      UniqueSnocIff(s0, last);
      InsertKeepsIdsUnique(s0, x);
      InsertedIds(s0, x);
      assert last in s;
      UniqueSnocIff(Insert(s0, x, Timestamp), last);
    }
  }

  lemma SortedIds(rows: seq<Row>)
    ensures IdsOf(Sort(rows, Timestamp)) == IdsOf(rows)
  {
    SortIsOrderedPermutation(rows, Timestamp);
    SameMembersSameIds(Sort(rows, Timestamp), rows);
  }

  lemma {:induction false} SortKeepsIdsUnique(rows: seq<Row>)
    requires UniqueIds(rows)
    ensures UniqueIds(Sort(rows, Timestamp))
  {
    if rows != [] {
      var rows0, x := rows[..|rows| - 1], rows[|rows| - 1];
      assert rows == rows0 + [x];
      UniqueSnocIff(rows0, x);
      SortKeepsIdsUnique(rows0);
      SortedIds(rows0);
      InsertKeepsIdsUnique(Sort(rows0, Timestamp), x);
    }
  }

  lemma {:induction false} FilterKeepsIdsUnique(s: seq<Row>, p: Row -> bool)
    requires UniqueIds(s)
    ensures UniqueIds(Filter(s, p))
  {
    if s != [] {
      var s0 := s[..|s| - 1];
      FilterKeepsIdsUnique(s0, p);
      FilterMembers(s0, p);
      var f := Filter(s0, p);
      forall i | 0 <= i < |f| ensures f[i].id != s[|s| - 1].id {
        assert f[i] in s0;
      }
    }
  }

  lemma {:induction false} CountIds(rows: seq<Row>)
    requires UniqueIds(rows)
    ensures |IdsOf(rows)| == |rows|
  {
    if rows != [] {
      var rows0, x := rows[..|rows| - 1], rows[|rows| - 1];
      CountIds(rows0);
      assert rows == rows0 + [x];
      assert IdsOf(rows) == IdsOf(rows0) + {x.id};
      assert x.id !in IdsOf(rows0);
    }
  }

  lemma {:induction false} PositionIsFirst(s: seq<Row>, eventId: string)
    ensures Position(s, eventId) <= |s|
    ensures Position(s, eventId) < |s| ==> s[Position(s, eventId)].id == eventId
    ensures forall j :: 0 <= j < Position(s, eventId) ==> s[j].id != eventId
  {
    if s != [] && s[0].id != eventId {
      PositionIsFirst(s[1..], eventId);
      assert forall j :: 1 <= j < |s| ==> s[j] == s[1..][j - 1];
    }
  }

  lemma SplitAtPosition(s: seq<Row>, eventId: string)
    ensures var (until, since, p) := (Until(s, eventId), Since(s, eventId), Position(s, eventId));
            if p < |s| then until + since == s && until != [] && until[|until| - 1].id == eventId
            else until == since == []
  {
    PositionIsFirst(s, eventId);
    var p := Position(s, eventId);
    if p < |s| {
      assert s[..p + 1] + s[p + 1..] == s;
    }
  }

  /** Splitting the log at any stored event loses nothing, repeats nothing and ends the first part there. */
  lemma SplitAtEvent(rows: seq<Row>, eventId: string)
    ensures var (until, since) := (Until(Read(rows, None), eventId), Since(Read(rows, None), eventId));
            if eventId in IdsOf(rows)
            then until + since == Read(rows, None) && until != [] && until[|until| - 1].id == eventId
            else until == since == []
  {
    SplitAtPosition(Read(rows, None), eventId);
    PositionIsFirst(Read(rows, None), eventId);
    StoredIffRead(rows, eventId, Position(Read(rows, None), eventId));
  }

  lemma StoredIffRead(rows: seq<Row>, eventId: string, p: nat)
    requires p <= |Read(rows, None)|
    requires p < |Read(rows, None)| ==> Read(rows, None)[p].id == eventId
    requires forall j :: 0 <= j < p ==> Read(rows, None)[j].id != eventId
    ensures eventId in IdsOf(rows) <==> p < |Read(rows, None)|
  {
    var ordered := Read(rows, None);
    SortIsOrderedPermutation(rows, Timestamp);
    FilterAll(Sort(rows, Timestamp), InRun(None));
    if p < |ordered| {
      assert ordered[p] in rows;
    }
    forall r | r in rows && r.id == eventId ensures p < |ordered| {
      assert r in ordered;
    }
  }

  ghost predicate DistinctTimestamps(rows: seq<Row>) {
    forall i, j :: 0 <= i < j < |rows| ==> rows[i].timestampNs != rows[j].timestampNs
  }

  lemma DistinctFront(rows: seq<Row>, x: Row)
    requires DistinctTimestamps(rows + [x])
    ensures DistinctTimestamps(rows) && forall i :: 0 <= i < |rows| ==> rows[i].timestampNs != x.timestampNs
  {
    var all := rows + [x];
    assert all[|rows|] == x;
    assert forall i :: 0 <= i < |rows| ==> all[i] == rows[i];
  }

  lemma {:induction false} SoleTimestamp(rows: seq<Row>, r: Row)
    requires DistinctTimestamps(rows) && r in rows
    ensures Filter(rows, HasKey(Timestamp, r.timestampNs)) == [r]
  {
    var rows0, x := rows[..|rows| - 1], rows[|rows| - 1];
    var p := HasKey(Timestamp, r.timestampNs);
    assert rows == rows0 + [x];
    DistinctFront(rows0, x);
    FilterSnoc(rows0, x, p);
    if r == x {
      AbsentTimestamp(rows0, r.timestampNs);
    } else {
      SoleTimestamp(rows0, r);
      assert r in rows0 && !p(x);
    }
  }

  lemma AbsentTimestamp(rows: seq<Row>, k: int)
    requires forall i :: 0 <= i < |rows| ==> rows[i].timestampNs != k
    ensures Filter(rows, HasKey(Timestamp, k)) == []
  {
    FilterNone(rows, HasKey(Timestamp, k));
  }

  /** With distinct timestamps the append order is invisible to every reader. */
  lemma ReadIgnoresAppendOrder(a: seq<Row>, b: seq<Row>, runId: Option<string>)
    requires multiset(a) == multiset(b) && DistinctTimestamps(a) && DistinctTimestamps(b)
    ensures Read(a, runId) == Read(b, runId)
  {
    SortOrdered(a, Timestamp);
    forall k ensures Filter(Sort(a, Timestamp), HasKey(Timestamp, k)) == Filter(b, HasKey(Timestamp, k)) {
      SortIsStable(a, Timestamp, k);
      if i :| 0 <= i < |a| && a[i].timestampNs == k {
        assert a[i] in multiset(b);
        SoleTimestamp(a, a[i]);
        SoleTimestamp(b, a[i]);
      } else {
        AbsentTimestamp(a, k);
        forall i | 0 <= i < |b| ensures b[i].timestampNs != k {
          assert b[i] in multiset(a);
        }
        AbsentTimestamp(b, k);
      }
    }
    StableSortUnique(b, Sort(a, Timestamp), Timestamp);
  }
}
