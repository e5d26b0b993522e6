/** PathMap (eden/common/utils/PathMap.h): a map kept as a vector sorted by path name. */
module PathMap {
  import opened PathOrder

  datatype Entry<V> = Entry(key: Name, value: V)

  /** Strictly sorted on the positions lo..hi. */
  predicate SortedRange<V>(v: seq<Entry<V>>, lo: nat, hi: nat, cs: CaseSensitivity)
    requires hi <= |v|
  {
    forall i, j :: lo <= i < j < hi ==> Less(v[i].key, v[j].key, cs)
  }

  predicate Sorted<V>(v: seq<Entry<V>>, cs: CaseSensitivity) {
    SortedRange(v, 0, |v|, cs)
  }

  predicate DistinctKeys<V>(v: seq<Entry<V>>, cs: CaseSensitivity) {
    forall i, j :: 0 <= i < j < |v| ==> Fold(v[i].key, cs) != Fold(v[j].key, cs)
  }

  /** The plain map that a vector stands for: from folded name to entry, without the erased positions. */
  ghost function Live<V>(v: seq<Entry<V>>, erased: set<nat>, cs: CaseSensitivity): map<seq<bv8>, Entry<V>> {
    if v == [] then map[]
    else
      var last := |v| - 1;
      var before := Live(v[..last], erased, cs);
      if last in erased then before else before[Fold(v[last].key, cs) := v[last]]
  }

  lemma LessFold(a: Name, b: Name, cs: CaseSensitivity)
    requires Less(a, b, cs)
    ensures Fold(a, cs) != Fold(b, cs) && !Less(b, a, cs)
  {
    EqualIffIncomparable(a, b, cs);
  }

  lemma SortedDistinct<V>(v: seq<Entry<V>>, cs: CaseSensitivity)
    requires Sorted(v, cs)
    ensures DistinctKeys(v, cs)
  {
    hide Less, Fold;
    forall i, j | 0 <= i < j < |v| ensures Fold(v[i].key, cs) != Fold(v[j].key, cs) {
      LessFold(v[i].key, v[j].key, cs);
    }
  }

  lemma {:induction false} LiveFrom<V>(v: seq<Entry<V>>, erased: set<nat>, f: seq<bv8>, cs: CaseSensitivity) returns (i: nat)
    requires f in Live(v, erased, cs)
    ensures i < |v| && i !in erased && Fold(v[i].key, cs) == f && Live(v, erased, cs)[f] == v[i]
  {
    hide Fold;
    var last := |v| - 1;
    if last !in erased && Fold(v[last].key, cs) == f {
      i := last;
    } else {
      i := LiveFrom(v[..last], erased, f, cs);
    }
  }

  lemma {:induction false} LiveAt<V>(v: seq<Entry<V>>, erased: set<nat>, i: nat, cs: CaseSensitivity)
    requires DistinctKeys(v, cs) && i < |v|
    ensures Fold(v[i].key, cs) in Live(v, erased, cs) <==> i !in erased
    ensures i !in erased ==> Live(v, erased, cs)[Fold(v[i].key, cs)] == v[i]
  {
    hide Fold;
    var f := Fold(v[i].key, cs);
    if i in erased {
      if f in Live(v, erased, cs) {
        var k := LiveFrom(v, erased, f, cs);
      }
    } else if i < |v| - 1 {
      LiveAt(v[..|v| - 1], erased, i, cs);
    }
  }

  ghost function Contents<V>(v: seq<Entry<V>>, cs: CaseSensitivity): map<seq<bv8>, Entry<V>> {
    Live(v, {}, cs)
  }

  // ----- searching -----

  lemma BelowMiddle<V>(v: seq<Entry<V>>, lo: nat, mid: nat, hi: nat, key: Name, cs: CaseSensitivity)
    requires lo <= mid < hi <= |v| && SortedRange(v, lo, hi, cs)
    ensures Less(v[mid].key, key, cs) ==> forall i :: lo <= i <= mid ==> Less(v[i].key, key, cs)
    ensures !Less(v[mid].key, key, cs) ==> forall i :: mid <= i < hi ==> !Less(v[i].key, key, cs)
  {
    hide Less, Fold;
    forall i | lo <= i < hi
      ensures i <= mid && Less(v[mid].key, key, cs) ==> Less(v[i].key, key, cs)
      ensures mid <= i && !Less(v[mid].key, key, cs) ==> !Less(v[i].key, key, cs)
    {
      StrictWeakOrder(v[i].key, v[mid].key, key, cs);
      StrictWeakOrder(v[mid].key, v[i].key, key, cs);
    }
  }

  /** std::lower_bound on part of a vector. */
  function LowerBound<V>(v: seq<Entry<V>>, lo: nat, hi: nat, key: Name, cs: CaseSensitivity): (r: nat)
    requires lo <= hi <= |v| && SortedRange(v, lo, hi, cs)
    ensures lo <= r <= hi
    ensures forall i :: lo <= i < r ==> Less(v[i].key, key, cs)
    ensures forall i :: r <= i < hi ==> !Less(v[i].key, key, cs)
    decreases hi - lo
  {
    if lo == hi then lo
    else
      var mid := lo + (hi - lo) / 2;
      BelowMiddle(v, lo, mid, hi, key, cs);
      if Less(v[mid].key, key, cs) then LowerBound(v, mid + 1, hi, key, cs) else LowerBound(v, lo, mid, key, cs)
  }

  /** lower_bound() followed by the test that every caller makes: the position found and whether it holds the key. */
  function Search<V>(v: seq<Entry<V>>, lo: nat, hi: nat, key: Name, cs: CaseSensitivity): (r: (nat, bool))
    requires lo <= hi <= |v| && SortedRange(v, lo, hi, cs)
  {
    var i := LowerBound(v, lo, hi, key, cs);
    (i, i < hi && !Less(key, v[i].key, cs))
  }

  lemma SearchFinds<V>(v: seq<Entry<V>>, lo: nat, hi: nat, key: Name, cs: CaseSensitivity)
    requires lo <= hi <= |v| && SortedRange(v, lo, hi, cs)
    ensures var (i, found) := Search(v, lo, hi, key, cs);
      && lo <= i <= hi
      && (found ==> i < hi && Fold(v[i].key, cs) == Fold(key, cs))
      && (!found ==>
            && (forall k :: lo <= k < hi ==> Fold(v[k].key, cs) != Fold(key, cs))
            && (forall k :: lo <= k < i ==> Less(v[k].key, key, cs))
            && (forall k :: i <= k < hi ==> Less(key, v[k].key, cs)))
  {
    hide Less, Fold;
    var (i, found) := Search(v, lo, hi, key, cs);
    if found {
      EqualIffIncomparable(v[i].key, key, cs);
    } else {
      forall k | lo <= k < hi
        ensures Fold(v[k].key, cs) != Fold(key, cs)
        ensures if k < i then Less(v[k].key, key, cs) else Less(key, v[k].key, cs)
      {
        EqualIffIncomparable(v[k].key, key, cs);
        if i < k {
          StrictWeakOrder(key, v[i].key, v[k].key, cs);
        }
      }
    }
  }

  // ----- a sorted vector is determined by its entries -----

  /** For a strictly sorted vector, what the map holds is what occurs in the vector. */
  lemma ContentsAre<V>(v: seq<Entry<V>>, cs: CaseSensitivity)
    requires Sorted(v, cs)
    ensures forall e :: e in v <==> Fold(e.key, cs) in Contents(v, cs) && Contents(v, cs)[Fold(e.key, cs)] == e
    ensures forall f :: f in Contents(v, cs) ==> Contents(v, cs)[f] in v && Fold(Contents(v, cs)[f].key, cs) == f
  {
    hide Less, Fold, Sorted, DistinctKeys, Live;
    SortedDistinct(v, cs);
    var c := Contents(v, cs);
    forall e | e in v ensures Fold(e.key, cs) in c && c[Fold(e.key, cs)] == e {
      var i :| 0 <= i < |v| && v[i] == e;
      ContentsAt(v, i, cs);
    }
    forall f | f in c ensures c[f] in v && Fold(c[f].key, cs) == f {
      var i := LiveFrom(v, {}, f, cs);
    }
  }

  lemma ContentsAt<V>(v: seq<Entry<V>>, i: nat, cs: CaseSensitivity)
    requires Sorted(v, cs) && i < |v|
    ensures Fold(v[i].key, cs) in Contents(v, cs) && Contents(v, cs)[Fold(v[i].key, cs)] == v[i]
  {
    hide Less, Fold, Sorted, Live;
    SortedDistinct(v, cs);
    LiveAt(v, {}, i, cs);
  }

  /** The map is given by the entries alone. */
  lemma ContentsFrom<V>(v: seq<Entry<V>>, m: map<seq<bv8>, Entry<V>>, cs: CaseSensitivity)
    requires Sorted(v, cs)
    requires forall e :: e in v ==> Fold(e.key, cs) in m && m[Fold(e.key, cs)] == e
    requires forall f :: f in m ==> m[f] in v && Fold(m[f].key, cs) == f
    ensures Contents(v, cs) == m
  {
    hide Less, Fold;
    ContentsAre(v, cs);
    var c := Contents(v, cs);
    forall f ensures f in c <==> f in m {
      if f in c { assert c[f] in v; }
      if f in m { assert m[f] in v; }
    }
  }

  lemma SameHead<V>(a: seq<Entry<V>>, b: seq<Entry<V>>, cs: CaseSensitivity)
    requires Sorted(a, cs) && Sorted(b, cs) && a != [] && b != []
    requires a[0] in b && b[0] in a
    ensures a[0] == b[0]
  {
    hide Less, Fold;
    var j :| 0 <= j < |b| && b[j] == a[0];
    var i :| 0 <= i < |a| && a[i] == b[0];
    if i != 0 && j != 0 {
      LessFold(a[0].key, a[i].key, cs);
    }
  }

  lemma {:induction false} SameEntriesSameVector<V>(a: seq<Entry<V>>, b: seq<Entry<V>>, cs: CaseSensitivity)
    requires Sorted(a, cs) && Sorted(b, cs)
    requires forall e :: e in a <==> e in b
    ensures a == b
  {
    hide Less, Fold;
    assert (a != [] ==> a[0] in a) && (b != [] ==> b[0] in b);
    if a != [] && b != [] {
      assert a[0] in b && b[0] in a;
      SameHead(a, b, cs);
      TailEntries(a, cs);
      TailEntries(b, cs);
      SameEntriesSameVector(a[1..], b[1..], cs);
      assert a == [a[0]] + a[1..] && b == [b[0]] + b[1..];
    }
  }

  lemma TailEntries<V>(a: seq<Entry<V>>, cs: CaseSensitivity)
    requires Sorted(a, cs) && a != []
    ensures Sorted(a[1..], cs)
    ensures forall e :: e in a[1..] <==> e in a && e != a[0]
  {
    hide Less, Fold;
    SortedDistinct(a, cs);
    assert a == [a[0]] + a[1..];
    forall i | 1 <= i < |a| ensures a[i] != a[0] {
      assert Fold(a[0].key, cs) != Fold(a[i].key, cs);
    }
  }

  /** Two maps with the same contents are the same vector. */
  lemma Canonical<V>(a: seq<Entry<V>>, b: seq<Entry<V>>, cs: CaseSensitivity)
    requires Sorted(a, cs) && Sorted(b, cs) && Contents(a, cs) == Contents(b, cs)
    ensures a == b
  {
    hide Less, Fold, Contents;
    ContentsAre(a, cs);
    ContentsAre(b, cs);
    SameEntriesSameVector(a, b, cs);
  }

  // ----- insert() and erase() -----

  function Inserted<V>(v: seq<Entry<V>>, e: Entry<V>, cs: CaseSensitivity): (r: seq<Entry<V>>)
    requires Sorted(v, cs)
  {
    var (i, found) := Search(v, 0, |v|, e.key, cs);
    SearchFinds(v, 0, |v|, e.key, cs);
    if found then v else v[..i] + [e] + v[i..]
  }

  lemma InsertedSorted<V>(v: seq<Entry<V>>, e: Entry<V>, i: nat, cs: CaseSensitivity)
    requires Sorted(v, cs) && i <= |v|
    requires forall k :: 0 <= k < i ==> Less(v[k].key, e.key, cs)
    requires forall k :: i <= k < |v| ==> Less(e.key, v[k].key, cs)
    ensures Sorted(v[..i] + [e] + v[i..], cs)
  {
    hide Less, Fold;
  }

  lemma InsertedIs<V>(v: seq<Entry<V>>, e: Entry<V>, cs: CaseSensitivity)
    requires Sorted(v, cs)
    ensures Sorted(Inserted(v, e, cs), cs)
    ensures Contents(Inserted(v, e, cs), cs) ==
      if Fold(e.key, cs) in Contents(v, cs) then Contents(v, cs) else Contents(v, cs)[Fold(e.key, cs) := e]
    ensures Search(v, 0, |v|, e.key, cs).1 <==> Fold(e.key, cs) in Contents(v, cs)
  {
    hide Less, Fold, Search, Contents;
    var (i, found) := Search(v, 0, |v|, e.key, cs);
    SearchFinds(v, 0, |v|, e.key, cs);
    ContentsAre(v, cs);
    if found {
      assert v[i] in v;
    } else {
      InsertedSorted(v, e, i, cs);
      var r := v[..i] + [e] + v[i..];
      assert forall d :: d in r <==> d in v || d == e by {
        assert v == v[..i] + v[i..];
      }
      ContentsFrom(r, Contents(v, cs)[Fold(e.key, cs) := e], cs);
    }
  }

  function Removed<V>(v: seq<Entry<V>>, key: Name, cs: CaseSensitivity): (r: seq<Entry<V>>)
    requires Sorted(v, cs)
  {
    var (i, found) := Search(v, 0, |v|, key, cs);
    SearchFinds(v, 0, |v|, key, cs);
    if found then v[..i] + v[i + 1..] else v
  }

  lemma RemovedAt<V>(v: seq<Entry<V>>, i: nat, cs: CaseSensitivity)
    requires Sorted(v, cs) && i < |v|
    ensures Sorted(v[..i] + v[i + 1..], cs)
    ensures forall e :: e in v[..i] + v[i + 1..] <==> e in v && Fold(e.key, cs) != Fold(v[i].key, cs)
  {
    hide Less, Fold;
    SortedDistinct(v, cs);
    assert v == v[..i] + [v[i]] + v[i + 1..];
    forall k | 0 <= k < |v| && k != i ensures Fold(v[k].key, cs) != Fold(v[i].key, cs) {
    }
  }

  lemma RemovedIs<V>(v: seq<Entry<V>>, key: Name, cs: CaseSensitivity)
    requires Sorted(v, cs)
    ensures Sorted(Removed(v, key, cs), cs)
    ensures Contents(Removed(v, key, cs), cs) == Contents(v, cs) - {Fold(key, cs)}
    ensures Search(v, 0, |v|, key, cs).1 <==> Fold(key, cs) in Contents(v, cs)
  {
    hide Less, Fold, Search, Contents;
    var (i, found) := Search(v, 0, |v|, key, cs);
    SearchFinds(v, 0, |v|, key, cs);
    ContentsAre(v, cs);
    if found {
      assert v[i] in v;
      RemovedAt(v, i, cs);
      ContentsFrom(v[..i] + v[i + 1..], Contents(v, cs) - {Fold(key, cs)}, cs);
    } else {
      assert Contents(v, cs) - {Fold(key, cs)} == Contents(v, cs);
    }
  }
}
