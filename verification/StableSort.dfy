/** Python's `sorted(xs, key=...)` and `list.sort`: key order, ties in input order. */
module StableSort {
  import opened Prelude

  ghost predicate Ordered<T>(s: seq<T>, key: T -> int) {
    forall i, j :: 0 <= i < j < |s| ==> key(s[i]) <= key(s[j])
  }

  /** Puts x behind every element whose key does not exceed its own. */
  function Insert<T>(s: seq<T>, x: T, key: T -> int): seq<T> {
    if s == [] || key(s[|s| - 1]) <= key(x) then s + [x]
    else Insert(s[..|s| - 1], x, key) + [s[|s| - 1]]
  }

  function Sort<T>(s: seq<T>, key: T -> int): seq<T> {
    if s == [] then [] else Insert(Sort(s[..|s| - 1], key), s[|s| - 1], key)
  }

  function HasKey<T>(key: T -> int, k: int): T -> bool {
    x => key(x) == k
  }

  lemma {:induction false} InsertMembers<T>(s: seq<T>, x: T, key: T -> int)
    ensures multiset(Insert(s, x, key)) == multiset(s) + multiset{x}
  {
    if !(s == [] || key(s[|s| - 1]) <= key(x)) {
      InsertMembers(s[..|s| - 1], x, key);
      assert s == s[..|s| - 1] + [s[|s| - 1]];
    }
  }

  lemma OrderedSnoc<T>(s: seq<T>, x: T, key: T -> int)
    requires Ordered(s, key) && forall y :: y in s ==> key(y) <= key(x)
    ensures Ordered(s + [x], key)
  {
    assert forall i :: 0 <= i < |s| ==> s[i] in s;
  }

  lemma OrderedFront<T>(s: seq<T>, key: T -> int)
    requires s != [] && Ordered(s, key)
    ensures Ordered(s[..|s| - 1], key) && forall y :: y in s ==> key(y) <= key(s[|s| - 1])
  {
    forall y | y in s ensures key(y) <= key(s[|s| - 1]) {
      var i :| 0 <= i < |s| && s[i] == y;
    }
  }

  lemma {:induction false} InsertHas<T>(s: seq<T>, x: T, key: T -> int, y: T)
    ensures y in Insert(s, x, key) <==> y == x || y in s
  {
    if !(s == [] || key(s[|s| - 1]) <= key(x)) {
      InsertHas(s[..|s| - 1], x, key, y);
      assert s == s[..|s| - 1] + [s[|s| - 1]];
    }
  }

  lemma {:induction false} InsertOrdered<T>(s: seq<T>, x: T, key: T -> int)
    requires Ordered(s, key)
    ensures Ordered(Insert(s, x, key), key)
  {
    if s == [] {
    } else if key(s[|s| - 1]) <= key(x) {
      OrderedFront(s, key);
      OrderedSnoc(s, x, key);
    } else {
      var s0, last := s[..|s| - 1], s[|s| - 1];
      OrderedFront(s, key);
      InsertOrdered(s0, x, key);
      forall y | y in Insert(s0, x, key) ensures key(y) <= key(last) {
        InsertHas(s0, x, key, y);
      }
      OrderedSnoc(Insert(s0, x, key), last, key);
    }
  }

  lemma {:induction false} SortOrdered<T>(s: seq<T>, key: T -> int)
    ensures Ordered(Sort(s, key), key)
  {
    if s != [] {
      SortOrdered(s[..|s| - 1], key);
      InsertOrdered(Sort(s[..|s| - 1], key), s[|s| - 1], key);
    }
  }

  /** The output is a rearrangement of the input in key order. */
  lemma {:induction false} SortIsOrderedPermutation<T(!new)>(s: seq<T>, key: T -> int)
    ensures Ordered(Sort(s, key), key)
    ensures multiset(Sort(s, key)) == multiset(s)
    ensures |Sort(s, key)| == |s|
    ensures forall x :: x in Sort(s, key) <==> x in s
  {
    if s != [] {
      var s0, x := s[..|s| - 1], s[|s| - 1];
      SortIsOrderedPermutation(s0, key);
      InsertOrdered(Sort(s0, key), x, key);
      InsertMembers(Sort(s0, key), x, key);
      assert s == s0 + [x];
    }
    assert |multiset(Sort(s, key))| == |multiset(s)|;
    forall x ensures x in Sort(s, key) <==> x in s {
      assert x in multiset(Sort(s, key)) <==> x in multiset(s);
    }
  }

  lemma {:induction false} FilterKeysAtMost<T>(s: seq<T>, key: T -> int, p: T -> bool, k: int)
    requires forall i :: 0 <= i < |s| ==> key(s[i]) <= k
    ensures forall i :: 0 <= i < |Filter(s, p)| ==> key(Filter(s, p)[i]) <= k
  {
    if s != [] {
      FilterKeysAtMost(s[..|s| - 1], key, p, k);
    }
  }

  lemma {:induction false} FilterInsert<T>(s: seq<T>, x: T, key: T -> int, p: T -> bool)
    requires Ordered(s, key)
    ensures Filter(Insert(s, x, key), p) == if p(x) then Insert(Filter(s, p), x, key) else Filter(s, p)
  {
    if s == [] || key(s[|s| - 1]) <= key(x) {
      FilterSnoc(s, x, p);
      FilterKeysAtMost(s, key, p, key(x));
    } else {
      var s0, last := s[..|s| - 1], s[|s| - 1];
      FilterInsert(s0, x, key, p);
      FilterSnoc(Insert(s0, x, key), last, p);
      InsertBefore(Filter(s0, p), last, x, key);
      if !p(last) {
        assert Filter(s0, p) + [] == Filter(s0, p);
      }
    }
  }

  lemma InsertBefore<T>(s: seq<T>, last: T, x: T, key: T -> int)
    requires key(x) < key(last)
    ensures Insert(s + [last], x, key) == Insert(s, x, key) + [last]
  {
    assert (s + [last])[..|s|] == s;
  }

  /** Sorting commutes with filtering: a filtered read never depends on the rows filtered out. */
  lemma {:induction false} FilterSort<T>(s: seq<T>, key: T -> int, p: T -> bool)
    ensures Filter(Sort(s, key), p) == Sort(Filter(s, p), key)
  {
    if s != [] {
      var s0, x := s[..|s| - 1], s[|s| - 1];
      FilterSort(s0, key, p);
      SortOrdered(s0, key);
      FilterInsert(Sort(s0, key), x, key, p);
      SortSnoc(Filter(s0, p), x, key);
      if !p(x) {
        assert Filter(s0, p) + [] == Filter(s0, p);
      }
    }
  }

  lemma SortSnoc<T>(s: seq<T>, x: T, key: T -> int)
    ensures Sort(s + [x], key) == Insert(Sort(s, key), x, key)
  {
    assert (s + [x])[..|s|] == s;
  }

  lemma {:induction false} SortOfOrdered<T>(s: seq<T>, key: T -> int)
    requires Ordered(s, key)
    ensures Sort(s, key) == s
  {
    if s != [] {
      SortOfOrdered(s[..|s| - 1], key);
    }
  }

  /** Elements with equal keys keep their input order. */
  lemma SortIsStable<T(!new)>(s: seq<T>, key: T -> int, k: int)
    ensures Filter(Sort(s, key), HasKey(key, k)) == Filter(s, HasKey(key, k))
  {
    FilterSort(s, key, HasKey(key, k));
    var f := Filter(s, HasKey(key, k));
    FilterMembers(s, HasKey(key, k));
    forall i | 0 <= i < |f| ensures key(f[i]) == k {
      assert HasKey(key, k)(f[i]);
    }
    SortOfOrdered(f, key);
  }

  /** Key order and per-key order determine the whole sequence. */
  lemma {:induction false} OrderedByKeyClasses<T(!new)>(s: seq<T>, t: seq<T>, key: T -> int)
    requires Ordered(s, key) && Ordered(t, key)
    requires forall k :: Filter(s, HasKey(key, k)) == Filter(t, HasKey(key, k))
    ensures s == t
  {
    if s == [] {
      if t != [] { FirstKeyClass(t, key); }
    } else if t == [] {
      FirstKeyClass(s, key);
    } else {
      var s0, a, t0, b := s[..|s| - 1], s[|s| - 1], t[..|t| - 1], t[|t| - 1];
      SharedClassMember(s, t, key, a);
      SharedClassMember(t, s, key, b);
      OrderedFront(s, key);
      OrderedFront(t, key);
      LastOfClass(s, key);
      LastOfClass(t, key);
      forall k ensures Filter(s0, HasKey(key, k)) == Filter(t0, HasKey(key, k)) {
        assert Filter(s, HasKey(key, k)) == Filter(t, HasKey(key, k));
        DropLast(Filter(s0, HasKey(key, k)), Filter(t0, HasKey(key, k)), if key(a) == k then [a] else []);
      }
      OrderedByKeyClasses(s0, t0, key);
    }
  }

  /** The last element is the last of its key. */
  lemma LastOfClass<T(!new)>(s: seq<T>, key: T -> int)
    requires s != []
    ensures var f := Filter(s, HasKey(key, key(s[|s| - 1]))); f != [] && f[|f| - 1] == s[|s| - 1]
  {
  }

  lemma FirstKeyClass<T(!new)>(s: seq<T>, key: T -> int)
    requires s != []
    ensures Filter(s, HasKey(key, key(s[0]))) != []
  {
    FilterMembers(s, HasKey(key, key(s[0])));
    assert s[0] in Filter(s, HasKey(key, key(s[0])));
  }

  lemma DropLast<T>(s: seq<T>, t: seq<T>, u: seq<T>)
    requires s + u == t + u
    ensures s == t
  {
    assert |s| == |t|;
    assert s == (s + u)[..|s|] == (t + u)[..|t|] == t;
  }

  lemma SharedClassMember<T(!new)>(s: seq<T>, t: seq<T>, key: T -> int, a: T)
    requires a in s && Filter(s, HasKey(key, key(a))) == Filter(t, HasKey(key, key(a)))
    ensures a in t
  {
    FilterMembers(s, HasKey(key, key(a)));
    FilterMembers(t, HasKey(key, key(a)));
    assert a in Filter(s, HasKey(key, key(a)));
  }

  /** Any ordered sequence with the input's per-key order is the sorted one: `sorted` has no other result. */
  lemma StableSortUnique<T(!new)>(s: seq<T>, t: seq<T>, key: T -> int)
    requires Ordered(t, key)
    requires forall k :: Filter(t, HasKey(key, k)) == Filter(s, HasKey(key, k))
    ensures t == Sort(s, key)
  {
    SortIsOrderedPermutation(s, key);
    forall k ensures Filter(Sort(s, key), HasKey(key, k)) == Filter(t, HasKey(key, k)) {
      SortIsStable(s, key, k);
    }
    OrderedByKeyClasses(t, Sort(s, key), key);
  }

  /** Re-sorting after each append gives the stable order of everything appended so far. */
  lemma SortAfterAppend<T>(s: seq<T>, x: T, key: T -> int)
    ensures Sort(Sort(s, key) + [x], key) == Sort(s + [x], key)
  {
    SortOrdered(s, key);
    SortOfOrdered(Sort(s, key), key);
    SortSnoc(s, x, key);
    SortSnoc(Sort(s, key), x, key);
  }

  // ---- `min(xs, key=...)` ----

  /** The element a left-to-right scan keeps when it moves only to strictly smaller keys. */
  function Min<T>(s: seq<T>, key: T -> int): T
    requires s != []
  {
    if |s| == 1 then s[0]
    else
      var m := Min(s[..|s| - 1], key);
      if key(s[|s| - 1]) < key(m) then s[|s| - 1] else m
  }

  /** It is the first of the elements with the least key. */
  lemma {:induction false} MinIsFirstLeast<T>(s: seq<T>, key: T -> int) returns (i: nat)
    requires s != []
    ensures i < |s| && s[i] == Min(s, key)
    ensures forall j :: 0 <= j < |s| ==> key(s[i]) <= key(s[j])
    ensures forall j :: 0 <= j < i ==> key(s[i]) < key(s[j])
  {
    i := 0;
    if |s| > 1 {
      i := MinIsFirstLeast(s[..|s| - 1], key);
      if key(s[|s| - 1]) < key(s[i]) {
        i := |s| - 1;
      }
    }
  }

  lemma {:induction false} InsertHead<T>(s: seq<T>, x: T, key: T -> int)
    requires s != [] && Ordered(s, key)
    ensures Insert(s, x, key) != []
    ensures Insert(s, x, key)[0] == if key(x) < key(s[0]) then x else s[0]
  {
    if key(s[|s| - 1]) > key(x) {
      if |s| > 1 {
        InsertHead(s[..|s| - 1], x, key);
      } else {
        assert Insert(s[..0], x, key) == [x];
      }
    }
  }

  /** The head of the sorted sequence is what `min` returns, ties included. */
  lemma {:induction false} SortHeadIsMin<T>(s: seq<T>, key: T -> int)
    requires s != []
    ensures Sort(s, key) != [] && Sort(s, key)[0] == Min(s, key)
  {
    var s0, x := s[..|s| - 1], s[|s| - 1];
    if s0 == [] {
      assert Sort(s0, key) == [];
    } else {
      SortHeadIsMin(s0, key);
      SortOrdered(s0, key);
      InsertHead(Sort(s0, key), x, key);
    }
  }
}
