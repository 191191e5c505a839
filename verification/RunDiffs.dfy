/** The structural diff of two runs: divergent objects by event id, and where the traces split. */
module RunDiffs {
  import opened Prelude
  import opened Json
  import opened EventLog
  import opened EventStore

  datatype ChangeType = Added | Removed | Changed

  datatype DivergentObject = DivergentObject(
    vertexId: string, changeType: ChangeType, parentData: Option<Payload>, forkData: Option<Payload>)

  /** Relations are never reported by this engine, so the record carries objects only. */
  datatype RunDiff = RunDiff(
    parentRunId: string, forkRunId: string, divergentObjects: seq<DivergentObject>, splitEventId: string)
  {
    predicate IsIdentical() { divergentObjects == [] }
  }

  // ---- `sorted` on a set of ids ----

  predicate StrLeq(a: string, b: string) {
    a == [] || (b != [] && (a[0] < b[0] || (a[0] == b[0] && StrLeq(a[1..], b[1..]))))
  }

  lemma {:induction false} StrLeqTotal(a: string, b: string)
    ensures StrLeq(a, b) || StrLeq(b, a)
    ensures StrLeq(a, b) && StrLeq(b, a) ==> a == b
  {
    if a != [] && b != [] && a[0] == b[0] {
      StrLeqTotal(a[1..], b[1..]);
      assert a == [a[0]] + a[1..] && b == [b[0]] + b[1..];
    }
  }

  lemma {:induction false} StrLeqTransitive(a: string, b: string, c: string)
    requires StrLeq(a, b) && StrLeq(b, c)
    ensures StrLeq(a, c)
  {
    if a != [] && a[0] == b[0] == c[0] {
      StrLeqTransitive(a[1..], b[1..], c[1..]);
    }
  }

  /** A text comes first if it is a beginning of the other, or smaller where the two first differ. */
  predicate ComesFirst(a: string, b: string) {
    a <= b || exists i :: 0 <= i < |a| && i < |b| && a[..i] == b[..i] && a[i] < b[i]
  }

  lemma {:induction false} StrLeqIff(a: string, b: string)
    ensures StrLeq(a, b) <==> ComesFirst(a, b)
  {
    if a != [] && b != [] && a[0] == b[0] {
      StrLeqIff(a[1..], b[1..]);
      ComesFirstTail(a, b);
    } else if a != [] && b != [] {
      assert a[..0] == b[..0];
    }
  }

  lemma ComesFirstTail(a: string, b: string)
    requires a != [] && b != [] && a[0] == b[0]
    ensures ComesFirst(a, b) <==> ComesFirst(a[1..], b[1..])
  {
    assert a == [a[0]] + a[1..] && b == [b[0]] + b[1..];
    if i :| 0 <= i < |a[1..]| && i < |b[1..]| && a[1..][..i] == b[1..][..i] && a[1..][i] < b[1..][i] {
      assert a[..i + 1] == [a[0]] + a[1..][..i] && b[..i + 1] == [b[0]] + b[1..][..i];
    }
    if i :| 0 <= i < |a| && i < |b| && a[..i] == b[..i] && a[i] < b[i] {
      assert a[1..][..i - 1] == a[..i][1..] == b[..i][1..] == b[1..][..i - 1];
      assert a[1..][i - 1] < b[1..][i - 1];
    }
  }

  ghost predicate IsLeast(x: string, ids: set<string>) {
    x in ids && forall y :: y in ids ==> StrLeq(x, y)
  }

  lemma {:induction false} LeastExists(ids: set<string>)
    requires ids != {}
    ensures exists x :: IsLeast(x, ids)
  {
    var x :| x in ids;
    StrLeqTotal(x, x);
    if ids == {x} {
      assert IsLeast(x, ids);
    } else {
      LeastExists(ids - {x});
      var least :| IsLeast(least, ids - {x});
      StrLeqTotal(x, least);
      if StrLeq(x, least) {
        forall y | y in ids ensures StrLeq(x, y) {
          if y != x { StrLeqTransitive(x, least, y); }
        }
        assert IsLeast(x, ids);
      } else {
        assert IsLeast(least, ids);
      }
    }
  }

  ghost function SortedIds(ids: set<string>): seq<string> {
    if ids == {} then []
    else
      LeastExists(ids);
      var x :| IsLeast(x, ids);
      [x] + SortedIds(ids - {x})
  }

  lemma LeastInFront(x: string, rest: seq<string>)
    requires x !in rest && forall y :: y in rest ==> StrLeq(x, y)
    requires forall i, j :: 0 <= i < j < |rest| ==> rest[i] != rest[j] && StrLeq(rest[i], rest[j])
    ensures var all := [x] + rest;
            (forall y :: y in all <==> y == x || y in rest)
            && forall i, j :: 0 <= i < j < |all| ==> all[i] != all[j] && StrLeq(all[i], all[j])
  {
    assert forall j :: 0 <= j < |rest| ==> rest[j] in rest;
  }

  lemma {:induction false} SortedIdsLists(ids: set<string>)
    ensures forall x :: x in SortedIds(ids) <==> x in ids
    ensures forall i, j :: 0 <= i < j < |SortedIds(ids)| ==>
              SortedIds(ids)[i] != SortedIds(ids)[j] && StrLeq(SortedIds(ids)[i], SortedIds(ids)[j])
  {
    if ids != {} {
      LeastExists(ids);
      var x :| IsLeast(x, ids);
      HeadIsLeast(ids, x);
      SortedIdsLists(ids - {x});
      LeastInFront(x, SortedIds(ids - {x}));
    }
  }

  /** Any increasing listing of the ids is the sorted one. */
  method SortIds(ids: set<string>) returns (out: seq<string>)
    ensures out == SortedIds(ids)
  {
    out := [];
    var todo := ids;
    while todo != {}
      invariant SortedIds(ids) == out + SortedIds(todo)
      decreases |todo|
    {
      LeastExists(todo);
      var x :| x in todo && forall y :: y in todo ==> StrLeq(x, y);
      HeadIsLeast(todo, x);
      out := out + [x];
      todo := todo - {x};
    }
  }

  lemma HeadIsLeast(ids: set<string>, x: string)
    requires IsLeast(x, ids)
    ensures SortedIds(ids) == [x] + SortedIds(ids - {x})
  {
    var h := SortedIds(ids)[0];
    StrLeqTotal(h, x);
  }

  // ---- Divergent objects ----

  /** `{e.id: e.payload for e in events}` */
  function PayloadMap(es: seq<GraphEvent>): map<string, Payload> {
    if es == [] then map[]
    else PayloadMap(es[..|es| - 1])[es[|es| - 1].id := es[|es| - 1].payload]
  }

  function AddedOf(ids: seq<string>, fork: map<string, Payload>): seq<DivergentObject>
    requires forall x :: x in ids ==> x in fork
  {
    seq(|ids|, i requires 0 <= i < |ids| => DivergentObject(ids[i], Added, None, Some(fork[ids[i]])))
  }

  function RemovedOf(ids: seq<string>, parent: map<string, Payload>): seq<DivergentObject>
    requires forall x :: x in ids ==> x in parent
  {
    seq(|ids|, i requires 0 <= i < |ids| => DivergentObject(ids[i], Removed, Some(parent[ids[i]]), None))
  }

  function ChangedOf(ids: seq<string>, parent: map<string, Payload>, fork: map<string, Payload>)
    : seq<DivergentObject>
    requires forall x :: x in ids ==> x in parent && x in fork
  {
    if ids == [] then []
    else
      var x := ids[|ids| - 1];
      ChangedOf(ids[..|ids| - 1], parent, fork) +
      (if parent[x] != fork[x] then [DivergentObject(x, Changed, Some(parent[x]), Some(fork[x]))] else [])
  }

  ghost function Objects(parent: map<string, Payload>, fork: map<string, Payload>): seq<DivergentObject> {
    SortedIdsLists(fork.Keys - parent.Keys);
    SortedIdsLists(parent.Keys - fork.Keys);
    SortedIdsLists(parent.Keys * fork.Keys);
    AddedOf(SortedIds(fork.Keys - parent.Keys), fork)
    + RemovedOf(SortedIds(parent.Keys - fork.Keys), parent)
    + ChangedOf(SortedIds(parent.Keys * fork.Keys), parent, fork)
  }

  // ---- Split point ----

  predicate SameTrace(p: GraphEvent, f: GraphEvent) {
    p.eventType == f.eventType && p.payload == f.payload && p.id == f.id
  }

  /** The first position, below both lengths, where the traces differ. */
  function FirstDifference(ps: seq<GraphEvent>, fs: seq<GraphEvent>): Option<nat> {
    if ps == [] || fs == [] then None
    else if !SameTrace(ps[0], fs[0]) then Some(0)
    else match FirstDifference(ps[1..], fs[1..])
      case None => None
      case Some(i) => Some(i + 1)
  }

  function AtShorterEnd(ps: seq<GraphEvent>, fs: seq<GraphEvent>): string {
    if |fs| < |ps| then ps[|fs|].id else if |ps| < |fs| then fs[|ps|].id else ""
  }

  lemma {:induction false} FirstDifferenceIs(ps: seq<GraphEvent>, fs: seq<GraphEvent>, i: nat)
    requires i <= |ps| && i <= |fs|
    requires forall j :: 0 <= j < i ==> SameTrace(ps[j], fs[j])
    requires i < |ps| && i < |fs| ==> !SameTrace(ps[i], fs[i])
    ensures FirstDifference(ps, fs) == if i < |ps| && i < |fs| then Some(i) else None
  {
    if i > 0 {
      FirstDifferenceIs(ps[1..], fs[1..], i - 1);
    }
  }

  lemma {:induction false} FirstDifferenceMeans(ps: seq<GraphEvent>, fs: seq<GraphEvent>)
    ensures match FirstDifference(ps, fs)
            case Some(i) => i < |ps| && i < |fs| && !SameTrace(ps[i], fs[i])
                            && forall j :: 0 <= j < i ==> SameTrace(ps[j], fs[j])
            case None => forall j :: 0 <= j < |ps| && j < |fs| ==> SameTrace(ps[j], fs[j])
  {
    if ps != [] && fs != [] && SameTrace(ps[0], fs[0]) {
      FirstDifferenceMeans(ps[1..], fs[1..]);
      assert forall j :: 0 < j < |ps| ==> ps[j] == ps[1..][j - 1];
      assert forall j :: 0 < j < |fs| ==> fs[j] == fs[1..][j - 1];
    }
  }

  function SplitEventId(ps: seq<GraphEvent>, fs: seq<GraphEvent>): string {
    match FirstDifference(ps, fs)
    case Some(i) => FirstDifferenceMeans(ps, fs); ps[i].id
    case None => AtShorterEnd(ps, fs)
  }

  ghost function DiffOf(parentRunId: string, ps: seq<GraphEvent>, forkRunId: string, fs: seq<GraphEvent>): RunDiff {
    RunDiff(parentRunId, forkRunId, Objects(PayloadMap(ps), PayloadMap(fs)), SplitEventId(ps, fs))
  }

  /** Event ids are never empty, so an empty split id always means that none was found. */
  ghost predicate NonEmptyIds(es: seq<GraphEvent>) {
    forall e :: e in es ==> e.id != ""
  }

  // ---- Properties ----

  /** The first n events of both runs have the same types, payloads and ids. */
  predicate AgreeUpTo(ps: seq<GraphEvent>, fs: seq<GraphEvent>, n: nat)
    requires n <= |ps| && n <= |fs|
  {
    forall j :: 0 <= j < n ==>
      ps[j].eventType == fs[j].eventType && ps[j].payload == fs[j].payload && ps[j].id == fs[j].id
  }

  /** The split id names the first position where the traces part; it is empty exactly when they agree throughout. */
  lemma SplitMarksFirstDifference(ps: seq<GraphEvent>, fs: seq<GraphEvent>)
    requires NonEmptyIds(ps) && NonEmptyIds(fs)
    ensures SplitEventId(ps, fs) == "" <==> |ps| == |fs| && AgreeUpTo(ps, fs, |ps|)
    ensures forall i {:trigger ps[i]} {:trigger fs[i]} ::
              0 <= i <= |ps| && i <= |fs| && (i < |ps| || i < |fs|)
              && AgreeUpTo(ps, fs, i) && (i < |ps| && i < |fs| ==> !AgreeUpTo(ps, fs, i + 1))
              ==> SplitEventId(ps, fs) == if i < |ps| then ps[i].id else fs[i].id
  {
    FirstDifferenceMeans(ps, fs);
    forall i {:trigger ps[i]} {:trigger fs[i]} |
      0 <= i <= |ps| && i <= |fs| && (i < |ps| || i < |fs|)
      && AgreeUpTo(ps, fs, i) && (i < |ps| && i < |fs| ==> !AgreeUpTo(ps, fs, i + 1))
      ensures SplitEventId(ps, fs) == if i < |ps| then ps[i].id else fs[i].id
    {
      FirstDifferenceIs(ps, fs, i);
    }
  }

  lemma {:induction false} ChangedMembers(ids: seq<string>, parent: map<string, Payload>, fork: map<string, Payload>)
    requires forall x :: x in ids ==> x in parent && x in fork
    requires Distinct(ids)
    ensures var objs := ChangedOf(ids, parent, fork);
            (forall o :: o in objs <==>
               (o.vertexId in ids && parent[o.vertexId] != fork[o.vertexId]
                && o == DivergentObject(o.vertexId, Changed, Some(parent[o.vertexId]), Some(fork[o.vertexId]))))
            && forall i, j :: 0 <= i < j < |objs| ==> objs[i].vertexId != objs[j].vertexId
  {
    if ids != [] {
      var ids0, x := ids[..|ids| - 1], ids[|ids| - 1];
      ChangedMembers(ids0, parent, fork);
      assert ids == ids0 + [x];
      var objs0 := ChangedOf(ids0, parent, fork);
      forall i | 0 <= i < |objs0| ensures objs0[i].vertexId != x {
        assert objs0[i] in objs0;
      }
    }
  }

  /** The one entry the diff must hold for an id, if any. */
  function Verdict(x: string, parent: map<string, Payload>, fork: map<string, Payload>): Option<DivergentObject> {
    if x in fork && x !in parent then Some(DivergentObject(x, Added, None, Some(fork[x])))
    else if x in parent && x !in fork then Some(DivergentObject(x, Removed, Some(parent[x]), None))
    else if x in parent && parent[x] != fork[x] then Some(DivergentObject(x, Changed, Some(parent[x]), Some(fork[x])))
    else None
  }

  lemma AddedMembers(ids: seq<string>, parent: map<string, Payload>, fork: map<string, Payload>)
    requires Distinct(ids) && forall x :: x in ids <==> x in fork && x !in parent
    ensures var objs := AddedOf(ids, fork);
            (forall o :: o in objs <==> o.changeType.Added? && Verdict(o.vertexId, parent, fork) == Some(o))
            && forall i, j :: 0 <= i < j < |objs| ==> objs[i].vertexId != objs[j].vertexId
  {
    var objs := AddedOf(ids, fork);
    forall o ensures o in objs <==> o.changeType.Added? && Verdict(o.vertexId, parent, fork) == Some(o) {
      if o.vertexId in ids {
        var i :| 0 <= i < |ids| && ids[i] == o.vertexId;
        assert objs[i] in objs;
      }
    }
  }

  /** Added objects come before removed ones, those before changed ones, and ids ascend within each kind. */
  predicate InReportOrder(a: DivergentObject, b: DivergentObject) {
    (a.changeType.Added? && !b.changeType.Added?) || (a.changeType.Removed? && b.changeType.Changed?)
    || (a.changeType == b.changeType && ComesFirst(a.vertexId, b.vertexId))
  }

  /** All of one kind, by ascending id. */
  predicate Ascends(objs: seq<DivergentObject>, kind: ChangeType) {
    (forall i :: 0 <= i < |objs| ==> objs[i].changeType == kind)
    && forall i, j :: 0 <= i < j < |objs| ==> StrLeq(objs[i].vertexId, objs[j].vertexId)
  }

  predicate AllFrom(objs: seq<DivergentObject>, ids: seq<string>) {
    forall i :: 0 <= i < |objs| ==> objs[i].vertexId in ids
  }

  lemma {:induction false} ChangedAscends(ids: seq<string>, parent: map<string, Payload>, fork: map<string, Payload>)
    requires forall x :: x in ids ==> x in parent && x in fork
    requires forall i, j :: 0 <= i < j < |ids| ==> StrLeq(ids[i], ids[j])
    ensures Ascends(ChangedOf(ids, parent, fork), Changed) && AllFrom(ChangedOf(ids, parent, fork), ids)
  {
    if ids != [] {
      var ids0, x := ids[..|ids| - 1], ids[|ids| - 1];
      ChangedAscends(ids0, parent, fork);
      assert forall y :: y in ids0 ==> y in ids;
      assert forall y :: y in ids0 ==> StrLeq(y, x) by {
        assert forall i :: 0 <= i < |ids0| ==> ids0[i] == ids[i];
      }
    }
  }

  lemma JoinInOrder(added: seq<DivergentObject>, removed: seq<DivergentObject>, changed: seq<DivergentObject>)
    requires Ascends(added, Added) && Ascends(removed, Removed) && Ascends(changed, Changed)
    ensures var objs := added + removed + changed;
            forall i, j :: 0 <= i < j < |objs| ==> InReportOrder(objs[i], objs[j])
  {
    var objs := added + removed + changed;
    forall i, j | 0 <= i < j < |objs| ensures InReportOrder(objs[i], objs[j]) {
      StrLeqIff(objs[i].vertexId, objs[j].vertexId);
    }
  }

  /** The diff lists its objects in this order. */
  lemma ObjectsInOrder(parent: map<string, Payload>, fork: map<string, Payload>)
    ensures var objs := Objects(parent, fork);
            forall i, j :: 0 <= i < j < |objs| ==> InReportOrder(objs[i], objs[j])
  {
    var onlyFork, onlyParent, both := fork.Keys - parent.Keys, parent.Keys - fork.Keys, parent.Keys * fork.Keys;
    SortedIdsLists(onlyFork);
    SortedIdsLists(onlyParent);
    SortedIdsLists(both);
    ChangedAscends(SortedIds(both), parent, fork);
    JoinInOrder(AddedOf(SortedIds(onlyFork), fork), RemovedOf(SortedIds(onlyParent), parent),
                ChangedOf(SortedIds(both), parent, fork));
  }

  lemma RemovedMembers(ids: seq<string>, parent: map<string, Payload>, fork: map<string, Payload>)
    requires Distinct(ids) && forall x :: x in ids <==> x in parent && x !in fork
    ensures var objs := RemovedOf(ids, parent);
            (forall o :: o in objs <==> o.changeType.Removed? && Verdict(o.vertexId, parent, fork) == Some(o))
            && forall i, j :: 0 <= i < j < |objs| ==> objs[i].vertexId != objs[j].vertexId
  {
    var objs := RemovedOf(ids, parent);
    forall o ensures o in objs <==> o.changeType.Removed? && Verdict(o.vertexId, parent, fork) == Some(o) {
      if o.vertexId in ids {
        var i :| 0 <= i < |ids| && ids[i] == o.vertexId;
        assert objs[i] in objs;
      }
    }
  }

  /** An entry appears exactly when the two payload maps disagree on its id, with the right label and data. */
  lemma ObjectsAreDisagreements(parent: map<string, Payload>, fork: map<string, Payload>)
    ensures Lists(Objects(parent, fork), parent, fork)
  {
    var ids1, ids2, ids3 := fork.Keys - parent.Keys, parent.Keys - fork.Keys, parent.Keys * fork.Keys;
    SortedIdsLists(ids1);
    SortedIdsLists(ids2);
    SortedIdsLists(ids3);
    AddedMembers(SortedIds(ids1), parent, fork);
    RemovedMembers(SortedIds(ids2), parent, fork);
    ChangedMembers(SortedIds(ids3), parent, fork);
  }

  /** No id is reported twice. */
  lemma ObjectsListIdsOnce(parent: map<string, Payload>, fork: map<string, Payload>)
    ensures forall i, j :: 0 <= i < j < |Objects(parent, fork)| ==>
              Objects(parent, fork)[i].vertexId != Objects(parent, fork)[j].vertexId
  {
    var ids1, ids2, ids3 := fork.Keys - parent.Keys, parent.Keys - fork.Keys, parent.Keys * fork.Keys;
    SortedIdsLists(ids1);
    SortedIdsLists(ids2);
    SortedIdsLists(ids3);
    AddedMembers(SortedIds(ids1), parent, fork);
    RemovedMembers(SortedIds(ids2), parent, fork);
    ChangedMembers(SortedIds(ids3), parent, fork);
    var a, r := AddedOf(SortedIds(ids1), fork), RemovedOf(SortedIds(ids2), parent);
    LabelsKeepApart(a, r, ChangedOf(SortedIds(ids3), parent, fork), parent, fork);
  }

  /** An id has only one verdict, so entries under different labels carry different ids. */
  lemma LabelsKeepApart(
    a: seq<DivergentObject>, r: seq<DivergentObject>, c: seq<DivergentObject>,
    parent: map<string, Payload>, fork: map<string, Payload>)
    requires forall o :: o in a ==> o.changeType.Added? && Verdict(o.vertexId, parent, fork) == Some(o)
    requires forall o :: o in r ==> o.changeType.Removed? && Verdict(o.vertexId, parent, fork) == Some(o)
    requires forall o :: o in c ==> o.changeType.Changed? && Verdict(o.vertexId, parent, fork) == Some(o)
    requires forall i, j :: 0 <= i < j < |a| ==> a[i].vertexId != a[j].vertexId
    requires forall i, j :: 0 <= i < j < |r| ==> r[i].vertexId != r[j].vertexId
    requires forall i, j :: 0 <= i < j < |c| ==> c[i].vertexId != c[j].vertexId
    ensures var all := a + r + c; forall i, j :: 0 <= i < j < |all| ==> all[i].vertexId != all[j].vertexId
  {
    TwoLabels(a, r);
    TwoLabels(a + r, c);
  }

  lemma TwoLabels(s: seq<DivergentObject>, t: seq<DivergentObject>)
    requires forall o, p :: o in s && p in t ==> o.vertexId != p.vertexId
    requires forall i, j :: 0 <= i < j < |s| ==> s[i].vertexId != s[j].vertexId
    requires forall i, j :: 0 <= i < j < |t| ==> t[i].vertexId != t[j].vertexId
    ensures var all := s + t; forall i, j :: 0 <= i < j < |all| ==> all[i].vertexId != all[j].vertexId
  {
    assert forall i :: 0 <= i < |s| ==> s[i] in s;
    assert forall i :: 0 <= i < |t| ==> t[i] in t;
  }

  function Flip(o: DivergentObject): DivergentObject {
    DivergentObject(
      o.vertexId,
      match o.changeType case Added => Removed case Removed => Added case Changed => Changed,
      o.forkData, o.parentData)
  }

  ghost predicate Lists(objs: seq<DivergentObject>, parent: map<string, Payload>, fork: map<string, Payload>) {
    forall o :: o in objs <==> Verdict(o.vertexId, parent, fork) == Some(o)
  }

  lemma FlippedLists(
    objs: seq<DivergentObject>, back: seq<DivergentObject>, parent: map<string, Payload>, fork: map<string, Payload>)
    requires Lists(objs, parent, fork) && Lists(back, fork, parent)
    ensures forall o :: o in objs <==> Flip(o) in back
  {
    forall o ensures o in objs <==> Flip(o) in back {
      assert Flip(Flip(o)) == o;
    }
  }

  lemma ListedDisagree(objs: seq<DivergentObject>, parent: map<string, Payload>, fork: map<string, Payload>)
    requires Lists(objs, parent, fork) && objs != []
    ensures parent != fork
  {
    assert objs[0] in objs;
  }

  lemma DisagreementListed(objs: seq<DivergentObject>, parent: map<string, Payload>, fork: map<string, Payload>)
    requires Lists(objs, parent, fork) && parent != fork
    ensures objs != []
  {
    var x :| x in parent.Keys + fork.Keys && Verdict(x, parent, fork).Some?;
    assert Verdict(x, parent, fork).value in objs;
  }

  lemma EmptyLists(objs: seq<DivergentObject>, parent: map<string, Payload>, fork: map<string, Payload>)
    requires Lists(objs, parent, fork)
    ensures objs == [] <==> parent == fork
  {
    if objs != [] {
      ListedDisagree(objs, parent, fork);
    }
    if parent != fork {
      DisagreementListed(objs, parent, fork);
    }
  }

  /** Swapping the two runs exchanges added with removed and parent data with fork data, and nothing else. */
  lemma DiffIsAntisymmetric(parent: map<string, Payload>, fork: map<string, Payload>)
    ensures forall o :: o in Objects(parent, fork) <==> Flip(o) in Objects(fork, parent)
  {
    ObjectsAreDisagreements(parent, fork);
    ObjectsAreDisagreements(fork, parent);
    FlippedLists(Objects(parent, fork), Objects(fork, parent), parent, fork);
  }

  lemma NoObjectsIffSamePayloads(parent: map<string, Payload>, fork: map<string, Payload>)
    ensures Objects(parent, fork) == [] <==> parent == fork
  {
    ObjectsAreDisagreements(parent, fork);
    EmptyLists(Objects(parent, fork), parent, fork);
  }

  /** A diff is identical exactly when the two runs' payload maps agree. */
  lemma IdenticalIffSamePayloads(parentRunId: string, ps: seq<GraphEvent>, forkRunId: string, fs: seq<GraphEvent>)
    ensures DiffOf(parentRunId, ps, forkRunId, fs).IsIdentical() <==> PayloadMap(ps) == PayloadMap(fs)
  {
    NoObjectsIffSamePayloads(PayloadMap(ps), PayloadMap(fs));
  }

  lemma {:induction false} PayloadMapKeys(es: seq<GraphEvent>)
    ensures forall x :: x in PayloadMap(es) <==> exists e :: e in es && e.id == x
  {
    if es != [] {
      var es0, e := es[..|es| - 1], es[|es| - 1];
      PayloadMapKeys(es0);
      assert es == es0 + [e];
      forall x ensures x in PayloadMap(es) <==> exists e :: e in es && e.id == x {
        if e.id == x {
          assert e in es;
        }
      }
    }
  }

  /** With unique ids, the map holds each event's own payload. */
  lemma {:induction false} PayloadMapHolds(es: seq<GraphEvent>, i: nat)
    requires forall i, j :: 0 <= i < j < |es| ==> es[i].id != es[j].id
    requires i < |es|
    ensures es[i].id in PayloadMap(es) && PayloadMap(es)[es[i].id] == es[i].payload
  {
    if i < |es| - 1 {
      PayloadMapHolds(es[..|es| - 1], i);
    }
  }

  lemma DistinctRunsShareNoId(c: Codec, rows: seq<Row>, p: string, f: string)
    requires UniqueIds(rows) && p != f
    ensures forall a, b :: a in Events(c, rows, Some(p)) && b in Events(c, rows, Some(f)) ==> a.id != b.id
  {
    forall a, b | a in Events(c, rows, Some(p)) && b in Events(c, rows, Some(f)) ensures a.id != b.id {
      var i :| 0 <= i < |Read(rows, Some(p))| && RowToEvent(c, Read(rows, Some(p))[i]) == a;
      var j :| 0 <= j < |Read(rows, Some(f))| && RowToEvent(c, Read(rows, Some(f))[j]) == b;
      var r, s := Read(rows, Some(p))[i], Read(rows, Some(f))[j];
      ReadRowsBelong(rows, p, r);
      ReadRowsBelong(rows, f, s);
      var m :| 0 <= m < |rows| && rows[m] == r;
      var n :| 0 <= n < |rows| && rows[n] == s;
      assert m != n;
    }
  }

  lemma ReadRowsBelong(rows: seq<Row>, run: string, r: Row)
    requires r in Read(rows, Some(run))
    ensures r in rows && r.runId == run
  {
    ReadIsPermutation(rows);
    FilterMembers(Read(rows, None), InRun(Some(run)));
  }

  lemma NothingChanges(objs: seq<DivergentObject>, parent: map<string, Payload>, fork: map<string, Payload>)
    requires Lists(objs, parent, fork) && parent.Keys !! fork.Keys
    ensures forall o :: o in objs ==> !o.changeType.Changed?
  {
  }

  lemma DisjointKeys(ps: seq<GraphEvent>, fs: seq<GraphEvent>)
    requires forall a, b :: a in ps && b in fs ==> a.id != b.id
    ensures PayloadMap(ps).Keys !! PayloadMap(fs).Keys
    ensures PayloadMap(ps) == PayloadMap(fs) <==> ps == [] && fs == []
  {
    PayloadMapKeys(ps);
    PayloadMapKeys(fs);
    if ps != [] {
      assert ps[0] in ps;
      assert ps[0].id in PayloadMap(ps) && ps[0].id !in PayloadMap(fs);
    } else if fs != [] {
      assert fs[0] in fs;
      assert fs[0].id in PayloadMap(fs) && fs[0].id !in PayloadMap(ps);
    }
  }

  lemma SplitOfDisjoint(ps: seq<GraphEvent>, fs: seq<GraphEvent>)
    requires forall a, b :: a in ps && b in fs ==> a.id != b.id
    ensures SplitEventId(ps, fs) == if ps != [] then ps[0].id else if fs != [] then fs[0].id else ""
  {
    if ps != [] && fs != [] {
      assert ps[0] in ps && fs[0] in fs;
      FirstDifferenceIs(ps, fs, 0);
    }
  }

  /** Two different runs of one log, such as a run and its fork, never share an event id: the split is
      always at the very first event, nothing is ever reported as changed, and only two empty runs are identical. */
  lemma DistinctRunsAlwaysSplitAtOnce(c: Codec, rows: seq<Row>, p: string, f: string)
    requires UniqueIds(rows) && p != f
    ensures var (ps, fs) := (Events(c, rows, Some(p)), Events(c, rows, Some(f)));
            var d := DiffOf(p, ps, f, fs);
            d.splitEventId == (if ps != [] then ps[0].id else if fs != [] then fs[0].id else "")
            && (forall o :: o in d.divergentObjects ==> !o.changeType.Changed?)
            && (d.IsIdentical() <==> ps == [] && fs == [])
  {
    var ps, fs := Events(c, rows, Some(p)), Events(c, rows, Some(f));
    DistinctRunsShareNoId(c, rows, p, f);
    SplitOfDisjoint(ps, fs);
    DisjointKeys(ps, fs);
    IdenticalIffSamePayloads(p, ps, f, fs);
    ObjectsAreDisagreements(PayloadMap(ps), PayloadMap(fs));
    NothingChanges(Objects(PayloadMap(ps), PayloadMap(fs)), PayloadMap(ps), PayloadMap(fs));
  }
}
