/** The bulk constructor of PathMap: a check, and then a stable sort and std::unique when the check
    fails.  It must equal inserting the entries one by one. */
module PathMapBuild {
  import opened PathOrder
  import opened PathMap

  /** The range constructor: insert() for each entry in turn. */
  function InsertAll<V>(v: seq<Entry<V>>, cs: CaseSensitivity): (r: seq<Entry<V>>)
    ensures Sorted(r, cs)
  {
    if v == [] then []
    else
      var rest := InsertAll(v[..|v| - 1], cs);
      InsertedIs(rest, v[|v| - 1], cs);
      Inserted(rest, v[|v| - 1], cs)
  }

  /** The entries whose name folds to f, in order. */
  ghost function WithKey<V>(v: seq<Entry<V>>, f: seq<bv8>, cs: CaseSensitivity): seq<Entry<V>> {
    if v == [] then []
    else (if Fold(v[0].key, cs) == f then [v[0]] else []) + WithKey(v[1..], f, cs)
  }

  predicate WeaklySorted<V>(v: seq<Entry<V>>, cs: CaseSensitivity) {
    forall i, j :: 0 <= i < j < |v| ==> !Less(v[j].key, v[i].key, cs)
  }

  /** What std::stable_sort promises: ascending, and entries with equal names keep their order. */
  ghost predicate IsStableSortOf<V>(v: seq<Entry<V>>, r: seq<Entry<V>>, cs: CaseSensitivity) {
    WeaklySorted(r, cs) && forall f :: WithKey(r, f, cs) == WithKey(v, f, cs)
  }

  /** std::unique: each entry is compared with the last one kept. */
  function Unique<V>(v: seq<Entry<V>>, cs: CaseSensitivity): seq<Entry<V>>
    decreases |v|
  {
    if |v| < 2 then v
    else if Equal(v[0].key, v[1].key, cs) then Unique([v[0]] + v[2..], cs)
    else [v[0]] + Unique(v[1..], cs)
  }

  // ----- a stable sort exists -----

  function Placed<V>(e: Entry<V>, v: seq<Entry<V>>, cs: CaseSensitivity): seq<Entry<V>> {
    if v == [] || !Less(v[0].key, e.key, cs) then [e] + v else [v[0]] + Placed(e, v[1..], cs)
  }

  function StableSort<V>(v: seq<Entry<V>>, cs: CaseSensitivity): seq<Entry<V>> {
    if v == [] then [] else Placed(v[0], StableSort(v[1..], cs), cs)
  }

  lemma {:induction false} PlacedEntries<V>(e: Entry<V>, v: seq<Entry<V>>, cs: CaseSensitivity, d: Entry<V>)
    requires d in Placed(e, v, cs)
    ensures d == e || d in v
  {
    hide Less;
    if v != [] && Less(v[0].key, e.key, cs) && d != v[0] {
      PlacedEntries(e, v[1..], cs, d);
    }
  }

  lemma WeaklyConsed<V>(e: Entry<V>, v: seq<Entry<V>>, cs: CaseSensitivity)
    requires WeaklySorted(v, cs) && forall d :: d in v ==> !Less(d.key, e.key, cs)
    ensures WeaklySorted([e] + v, cs)
  {
    hide Less;
  }

  lemma {:induction false} PlacedSorted<V>(e: Entry<V>, v: seq<Entry<V>>, cs: CaseSensitivity)
    requires WeaklySorted(v, cs)
    ensures WeaklySorted(Placed(e, v, cs), cs)
  {
    hide Less, Fold;
    if v == [] || !Less(v[0].key, e.key, cs) {
      forall d | d in v ensures !Less(d.key, e.key, cs) {
        var i :| 0 <= i < |v| && v[i] == d;
        StrictWeakOrder(v[0].key, d.key, e.key, cs);
      }
      WeaklyConsed(e, v, cs);
    } else {
      PlacedSorted(e, v[1..], cs);
      forall d | d in Placed(e, v[1..], cs) ensures !Less(d.key, v[0].key, cs) {
        PlacedEntries(e, v[1..], cs, d);
        EqualIffIncomparable(v[0].key, e.key, cs);
      }
      WeaklyConsed(v[0], Placed(e, v[1..], cs), cs);
    }
  }

  lemma WithKeyConsed<V>(e: Entry<V>, v: seq<Entry<V>>, f: seq<bv8>, cs: CaseSensitivity)
    ensures WithKey([e] + v, f, cs) == One(e, f, cs) + WithKey(v, f, cs)
  {
    assert ([e] + v)[1..] == v;
  }

  lemma {:induction false} PlacedStable<V>(e: Entry<V>, v: seq<Entry<V>>, f: seq<bv8>, cs: CaseSensitivity)
    ensures WithKey(Placed(e, v, cs), f, cs) == WithKey([e] + v, f, cs)
  {
    hide Less, Fold, WithKey, One;
    if v != [] && Less(v[0].key, e.key, cs) {
      var rest := v[1..];
      PlacedStable(e, rest, f, cs);
      WithKeyConsed(v[0], Placed(e, rest, cs), f, cs);
      WithKeyConsed(e, rest, f, cs);
      WithKeyConsed(e, v, f, cs);
      WithKeyConsed(v[0], rest, f, cs);
      assert v == [v[0]] + rest;
      LessFold(v[0].key, e.key, cs);
      OneOfTwo(v[0], e, f, cs);
    }
  }

  /** Entries with different names do not both have the name f. */
  lemma OneOfTwo<V>(a: Entry<V>, b: Entry<V>, f: seq<bv8>, cs: CaseSensitivity)
    requires Fold(a.key, cs) != Fold(b.key, cs)
    ensures One(a, f, cs) == [] || One(b, f, cs) == []
  {
    hide Fold;
  }

  lemma {:induction false} StableSortWorks<V>(v: seq<Entry<V>>, cs: CaseSensitivity)
    ensures IsStableSortOf(v, StableSort(v, cs), cs)
  {
    if v != [] {
      var rest := StableSort(v[1..], cs);
      StableSortWorks(v[1..], cs);
      PlacedSorted(v[0], rest, cs);
      forall f ensures WithKey(Placed(v[0], rest, cs), f, cs) == WithKey(v, f, cs) {
        PlacedStable(v[0], rest, f, cs);
        WithKeyConsed(v[0], rest, f, cs);
      }
    }
  }

  // ----- the winner of each name -----

  /** v, strictly sorted, holds for each name the entry that comes first in w. */
  ghost predicate HoldsFirst<V>(v: seq<Entry<V>>, w: seq<Entry<V>>, cs: CaseSensitivity) {
    && Sorted(v, cs)
    && (forall e :: e in v ==> WithKey(w, Fold(e.key, cs), cs) != [] && WithKey(w, Fold(e.key, cs), cs)[0] == e)
    && (forall f :: WithKey(w, f, cs) != [] ==> WithKey(w, f, cs)[0] in v)
  }

  function One<V>(e: Entry<V>, f: seq<bv8>, cs: CaseSensitivity): seq<Entry<V>> {
    if Fold(e.key, cs) == f then [e] else []
  }

  lemma {:induction false} WithKeyAppend<V>(v: seq<Entry<V>>, e: Entry<V>, f: seq<bv8>, cs: CaseSensitivity)
    ensures WithKey(v + [e], f, cs) == WithKey(v, f, cs) + One(e, f, cs)
  {
    hide Fold, WithKey, One;
    if v == [] {
      assert v + [e] == [e] + v;
      WithKeyConsed(e, v, f, cs);
      NothingWithKey<V>(cs);
      assert One(e, f, cs) + [] == [] + One(e, f, cs);
    } else {
      var rest := v[1..];
      WithKeyAppend(rest, e, f, cs);
      assert v == [v[0]] + rest && v + [e] == [v[0]] + (rest + [e]);
      WithKeyConsed(v[0], rest, f, cs);
      WithKeyConsed(v[0], rest + [e], f, cs);
    }
  }

  lemma {:induction false} WithKeyEmpty<V>(v: seq<Entry<V>>, f: seq<bv8>, cs: CaseSensitivity)
    ensures WithKey(v, f, cs) != [] ==> Fold(WithKey(v, f, cs)[0].key, cs) == f && WithKey(v, f, cs)[0] in v
    ensures WithKey(v, f, cs) == [] <==> forall e :: e in v ==> Fold(e.key, cs) != f
  {
    hide Fold;
    if v != [] {
      WithKeyEmpty(v[1..], f, cs);
      assert v == [v[0]] + v[1..];
    }
  }

  lemma {:induction false} InsertAllHoldsFirst<V>(v: seq<Entry<V>>, cs: CaseSensitivity)
    ensures HoldsFirst(InsertAll(v, cs), v, cs)
  {
    hide Less, Fold, WithKey, Contents, Sorted, Inserted;
    if v == [] {
      NothingWithKey<V>(cs);
    } else {
      var front, e := v[..|v| - 1], v[|v| - 1];
      assert v == front + [e];
      InsertAllHoldsFirst(front, cs);
      var r := InsertAll(front, cs);
      InsertedIs(r, e, cs);
      ContentsAre(r, cs);
      ContentsAre(Inserted(r, e, cs), cs);
      forall f ensures WithKey(v, f, cs) == WithKey(front, f, cs) + if Fold(e.key, cs) == f then [e] else [] {
        WithKeyAppend(front, e, f, cs);
      }
      FirstAfterInsert(front, v, e, r, Inserted(r, e, cs), cs);
    }
  }

  lemma NothingWithKey<V>(cs: CaseSensitivity)
    ensures forall f :: WithKey<V>([], f, cs) == []
  {
  }

  lemma FirstAfterInsert<V>(front: seq<Entry<V>>, v: seq<Entry<V>>, e: Entry<V>, r: seq<Entry<V>>, r': seq<Entry<V>>, cs: CaseSensitivity)
    requires HoldsFirst(r, front, cs) && Sorted(r', cs)
    requires Contents(r', cs) == if Fold(e.key, cs) in Contents(r, cs) then Contents(r, cs) else Contents(r, cs)[Fold(e.key, cs) := e]
    requires forall f :: WithKey(v, f, cs) == WithKey(front, f, cs) + if Fold(e.key, cs) == f then [e] else []
    ensures HoldsFirst(r', v, cs)
  {
    hide Less, Fold, WithKey, Contents, Sorted;
    ContentsAre(r, cs);
    ContentsAre(r', cs);
    var g := Fold(e.key, cs);
    WithKeyEmpty(front, g, cs);
    if WithKey(front, g, cs) != [] {
      assert WithKey(front, g, cs)[0] in r;
    }
    forall f | WithKey(v, f, cs) != [] ensures WithKey(v, f, cs)[0] in r' {
      WithKeyEmpty(front, f, cs);
    }
  }

  // ----- unique -----

  lemma {:induction false} UniqueHoldsFirst<V>(v: seq<Entry<V>>, cs: CaseSensitivity)
    requires WeaklySorted(v, cs)
    ensures HoldsFirst(Unique(v, cs), v, cs)
    ensures v != [] ==> Unique(v, cs) != [] && Unique(v, cs)[0] == v[0]
    decreases |v|
  {
    hide Less, Fold, Equal;
    if |v| == 0 {
      assert Unique(v, cs) == [];
    } else if |v| == 1 {
      SingleHoldsFirst(v[0], cs);
      assert v == [v[0]];
    } else {
      EqualIffIncomparable(v[0].key, v[1].key, cs);
      if Equal(v[0].key, v[1].key, cs) {
        var w := [v[0]] + v[2..];
        assert forall i :: 1 <= i < |w| ==> w[i] == v[i + 1];
        UniqueHoldsFirst(w, cs);
        SecondDropped(v, cs);
        SameFirst(Unique(w, cs), w, v, cs);
      } else {
        UniqueHoldsFirst(v[1..], cs);
        FirstPrepended(v, Unique(v[1..], cs), cs);
      }
    }
  }

  lemma SingleHoldsFirst<V>(e: Entry<V>, cs: CaseSensitivity)
    ensures HoldsFirst([e], [e], cs)
  {
    hide Fold, Less;
    assert [e] == [e] + [];
    forall f ensures WithKey([e], f, cs) == if Fold(e.key, cs) == f then [e] else [] {
      WithKeyConsed(e, [], f, cs);
    }
  }

  lemma SameFirst<V>(r: seq<Entry<V>>, w: seq<Entry<V>>, v: seq<Entry<V>>, cs: CaseSensitivity)
    requires HoldsFirst(r, w, cs)
    requires forall f :: WithKey(v, f, cs) == [] <==> WithKey(w, f, cs) == []
    requires forall f :: WithKey(w, f, cs) != [] ==> WithKey(v, f, cs) != [] && WithKey(v, f, cs)[0] == WithKey(w, f, cs)[0]
    ensures HoldsFirst(r, v, cs)
  {
    hide Fold, Less, WithKey, Sorted;
  }

  lemma SecondDropped<V>(v: seq<Entry<V>>, cs: CaseSensitivity)
    requires |v| >= 2 && Fold(v[0].key, cs) == Fold(v[1].key, cs)
    ensures var w := [v[0]] + v[2..];
      forall f ::
        && (WithKey(v, f, cs) == [] <==> WithKey(w, f, cs) == [])
        && (WithKey(w, f, cs) != [] ==> WithKey(v, f, cs) != [] && WithKey(v, f, cs)[0] == WithKey(w, f, cs)[0])
  {
    hide Fold;
    var w := [v[0]] + v[2..];
    assert v == [v[0]] + ([v[1]] + v[2..]);
    forall f
      ensures WithKey(v, f, cs) == [] <==> WithKey(w, f, cs) == []
      ensures WithKey(w, f, cs) != [] ==> WithKey(v, f, cs) != [] && WithKey(v, f, cs)[0] == WithKey(w, f, cs)[0]
    {
      WithKeyConsed(v[0], v[2..], f, cs);
      WithKeyConsed(v[0], [v[1]] + v[2..], f, cs);
      WithKeyConsed(v[1], v[2..], f, cs);
    }
  }

  lemma FirstPrepended<V>(v: seq<Entry<V>>, r: seq<Entry<V>>, cs: CaseSensitivity)
    requires |v| >= 2 && WeaklySorted(v, cs) && Less(v[0].key, v[1].key, cs)
    requires HoldsFirst(r, v[1..], cs)
    ensures HoldsFirst([v[0]] + r, v, cs)
  {
    hide Less, Fold, WithKey;
    forall e | e in v[1..] ensures Less(v[0].key, e.key, cs) && Fold(v[0].key, cs) != Fold(e.key, cs) {
      var i :| 0 <= i < |v[1..]| && v[1..][i] == e;
      assert v[i + 1] == e;
      StrictWeakOrder(v[0].key, v[1].key, e.key, cs);
      LessFold(v[0].key, e.key, cs);
    }
    assert v == [v[0]] + v[1..];
    forall e | e in r ensures e in v[1..] {
      WithKeyEmpty(v[1..], Fold(e.key, cs), cs);
    }
    WithKeyEmpty(v[1..], Fold(v[0].key, cs), cs);
    forall f ensures WithKey(v, f, cs) == (if Fold(v[0].key, cs) == f then [v[0]] else []) + WithKey(v[1..], f, cs) {
      WithKeyConsed(v[0], v[1..], f, cs);
    }
    assert Sorted([v[0]] + r, cs);
    forall f | WithKey(v, f, cs) != [] ensures WithKey(v, f, cs)[0] in [v[0]] + r {
      if Fold(v[0].key, cs) != f {
        assert WithKey(v[1..], f, cs)[0] in r;
      }
    }
  }

  // ----- the theorem -----

  lemma FirstDetermines<V>(a: seq<Entry<V>>, b: seq<Entry<V>>, v: seq<Entry<V>>, cs: CaseSensitivity)
    requires HoldsFirst(a, v, cs) && HoldsFirst(b, v, cs)
    ensures a == b
  {
    hide Less, Fold, WithKey, Sorted;
    SameEntriesSameVector(a, b, cs);
  }

  /** Whatever stable sort is used, sorting and dropping repeated names is inserting one by one. */
  lemma SortUniqueIsInsertAll<V>(v: seq<Entry<V>>, r: seq<Entry<V>>, cs: CaseSensitivity)
    requires IsStableSortOf(v, r, cs)
    ensures Unique(r, cs) == InsertAll(v, cs)
  {
    hide Less, Fold, WithKey;
    UniqueHoldsFirst(r, cs);
    InsertAllHoldsFirst(v, cs);
    SameFirst(Unique(r, cs), r, v, cs);
    FirstDetermines(Unique(r, cs), InsertAll(v, cs), v, cs);
  }

  /** A vector already strictly sorted is what inserting its entries one by one gives. */
  lemma {:induction false} SortedIsInsertAll<V>(v: seq<Entry<V>>, cs: CaseSensitivity)
    requires Sorted(v, cs)
    ensures InsertAll(v, cs) == v
  {
    hide Less, Fold, Inserted;
    if v != [] {
      SortedIsInsertAll(v[..|v| - 1], cs);
      InsertedLast(v, cs);
    }
  }

  lemma InsertedLast<V>(v: seq<Entry<V>>, cs: CaseSensitivity)
    requires Sorted(v, cs) && v != []
    ensures Inserted(v[..|v| - 1], v[|v| - 1], cs) == v
  {
    hide Less, Fold, Search;
    var front, e := v[..|v| - 1], v[|v| - 1];
    SearchFinds(front, 0, |front|, e.key, cs);
    var (i, found) := Search(front, 0, |front|, e.key, cs);
    forall k | 0 <= k < |front| ensures !Less(e.key, front[k].key, cs) && Fold(front[k].key, cs) != Fold(e.key, cs) {
      LessFold(v[k].key, e.key, cs);
    }
    if front != [] {
      var last := front[|front| - 1];
      LessFold(last.key, e.key, cs);
      assert i > |front| - 1;
    }
    assert front + [e] + [] == v;
  }

  /** A strict comparison of neighbours is enough: the order is transitive. */
  lemma {:induction false} NeighboursSorted<V>(v: seq<Entry<V>>, cs: CaseSensitivity, i: nat, j: nat)
    requires i < j < |v| && forall k :: 0 < k < |v| ==> Less(v[k - 1].key, v[k].key, cs)
    ensures Less(v[i].key, v[j].key, cs)
  {
    hide Less, Fold;
    if i + 1 < j {
      NeighboursSorted(v, cs, i, j - 1);
      StrictWeakOrder(v[i].key, v[j - 1].key, v[j].key, cs);
    }
  }

  /** The vector constructor. */
  method Build<V>(entries: seq<Entry<V>>, cs: CaseSensitivity) returns (vec: seq<Entry<V>>)
    ensures vec == InsertAll(entries, cs)
  {
    hide Less, Fold, Unique, InsertAll, StableSort, Sorted, IsStableSortOf;
    vec := entries;
    var needsSortOrDedupe := false;
    var idx: nat := 0;
    while idx < |vec|
      invariant idx <= |vec|
      invariant forall k :: 0 < k < idx ==> Less(vec[k - 1].key, vec[k].key, cs)
    {
      if idx > 0 && !Less(vec[idx - 1].key, vec[idx].key, cs) {
        needsSortOrDedupe := true;
        break;
      }
      idx := idx + 1;
    }
    if needsSortOrDedupe {
      StableSortWorks(vec, cs);
      SortUniqueIsInsertAll(vec, StableSort(vec, cs), cs);
      vec := Unique(StableSort(vec, cs), cs);
    } else {
      NeighboursAll(vec, cs);
      SortedIsInsertAll(vec, cs);
    }
  }

  lemma NeighboursAll<V>(v: seq<Entry<V>>, cs: CaseSensitivity)
    requires forall k :: 0 < k < |v| ==> Less(v[k - 1].key, v[k].key, cs)
    ensures Sorted(v, cs)
  {
    hide Less;
    forall i, j | 0 <= i < j < |v| ensures Less(v[i].key, v[j].key, cs) {
      NeighboursSorted(v, cs, i, j);
    }
  }
}
