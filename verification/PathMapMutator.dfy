/** PathMapMutator (eden/common/utils/PathMapMutator.h): batch edits of a PathMap.  New entries go to a
    sorted suffix of the same vector, erased entries are only marked, and compact() restores one
    sorted vector.  It must be indistinguishable from a plain map. */
module PathMapMutator {
  import opened PathOrder
  import opened PathMap

  datatype State<V> = State(vec: seq<Entry<V>>, suffixStart: nat, erased: set<nat>)

  ghost predicate Valid<V>(s: State<V>, cs: CaseSensitivity) {
    && s.suffixStart <= |s.vec|
    && SortedRange(s.vec, 0, s.suffixStart, cs)
    && SortedRange(s.vec, s.suffixStart, |s.vec|, cs)
    && DistinctKeys(s.vec, cs)
    && forall i :: i in s.erased ==> i < |s.vec|
  }

  ghost function Model<V>(s: State<V>, cs: CaseSensitivity): map<seq<bv8>, Entry<V>> {
    Live(s.vec, s.erased, cs)
  }

  // ----- findImpl -----

  /** The slot of the key, in the prefix or else in the suffix, and whether it is marked erased; `|vec|` is end(). */
  function FindImpl<V>(s: State<V>, key: Name, cs: CaseSensitivity): (r: (nat, bool))
    requires Valid(s, cs)
  {
    var (i, found) := Search(s.vec, 0, s.suffixStart, key, cs);
    if found then (i, i in s.erased)
    else if |s.vec| > s.suffixStart then
      var (j, foundSuffix) := Search(s.vec, s.suffixStart, |s.vec|, key, cs);
      if foundSuffix then (j, j in s.erased) else (|s.vec|, false)
    else (|s.vec|, false)
  }

  lemma FindImplFinds<V>(s: State<V>, key: Name, cs: CaseSensitivity)
    requires Valid(s, cs)
    ensures var (i, erased) := FindImpl(s, key, cs);
      && i <= |s.vec|
      && (i < |s.vec| ==> Fold(s.vec[i].key, cs) == Fold(key, cs) && (erased <==> i in s.erased))
      && (i == |s.vec| ==> !erased && forall k :: 0 <= k < |s.vec| ==> Fold(s.vec[k].key, cs) != Fold(key, cs))
      && (Fold(key, cs) in Model(s, cs) <==> i < |s.vec| && !erased)
      && (Fold(key, cs) in Model(s, cs) ==> Model(s, cs)[Fold(key, cs)] == s.vec[i])
  {
    hide Less, Fold, Search, Live;
    SearchFinds(s.vec, 0, s.suffixStart, key, cs);
    SearchFinds(s.vec, s.suffixStart, |s.vec|, key, cs);
    var (i, erased) := FindImpl(s, key, cs);
    if i < |s.vec| {
      LiveAt(s.vec, s.erased, i, cs);
    } else if Fold(key, cs) in Model(s, cs) {
      var k := LiveFrom(s.vec, s.erased, Fold(key, cs), cs);
    }
  }

  // ----- the edits of one slot -----

  /** The live entries determine the map. */
  lemma LiveIs<V>(v: seq<Entry<V>>, erased: set<nat>, m: map<seq<bv8>, Entry<V>>, cs: CaseSensitivity)
    requires DistinctKeys(v, cs)
    requires forall i :: 0 <= i < |v| && i !in erased ==> Fold(v[i].key, cs) in m && m[Fold(v[i].key, cs)] == v[i]
    requires forall f :: f in m ==> exists i :: 0 <= i < |v| && i !in erased && Fold(v[i].key, cs) == f
    ensures Live(v, erased, cs) == m
  {
    hide Fold, Live;
    var c := Live(v, erased, cs);
    forall f | f in c ensures f in m && m[f] == c[f] {
      var i := LiveFrom(v, erased, f, cs);
    }
    forall f | f in m ensures f in c {
      var i :| 0 <= i < |v| && i !in erased && Fold(v[i].key, cs) == f;
      LiveAt(v, erased, i, cs);
    }
  }

  lemma MarkErased<V>(s: State<V>, i: nat, cs: CaseSensitivity)
    requires Valid(s, cs) && i < |s.vec|
    ensures Valid(s.(erased := s.erased + {i}), cs)
    ensures Model(s.(erased := s.erased + {i}), cs) == Model(s, cs) - {Fold(s.vec[i].key, cs)}
  {
    hide Less, Fold, Live;
    var m := Model(s, cs) - {Fold(s.vec[i].key, cs)};
    forall k: nat | k < |s.vec| && k !in s.erased + {i} ensures Fold(s.vec[k].key, cs) in m && m[Fold(s.vec[k].key, cs)] == s.vec[k] {
      LiveAt(s.vec, s.erased, k, cs);
    }
    forall f | f in m ensures exists k :: 0 <= k < |s.vec| && k !in s.erased + {i} && Fold(s.vec[k].key, cs) == f {
      var k := LiveFrom(s.vec, s.erased, f, cs);
    }
    LiveIs(s.vec, s.erased + {i}, m, cs);
  }

  /** A slot is given an entry with an equal name, spelled as before or not, and is live from now on. */
  function Refilled<V>(s: State<V>, i: nat, e: Entry<V>): State<V>
    requires i < |s.vec|
  {
    s.(vec := s.vec[i := e], erased := s.erased - {i})
  }

  lemma RefilledRange<V>(v: seq<Entry<V>>, lo: nat, hi: nat, i: nat, e: Entry<V>, cs: CaseSensitivity)
    requires i < |v| && hi <= |v| && SortedRange(v, lo, hi, cs) && Fold(e.key, cs) == Fold(v[i].key, cs)
    ensures SortedRange(v[i := e], lo, hi, cs)
  {
    hide Less, Fold;
    EqualIffIncomparable(v[i].key, e.key, cs);
    var w := v[i := e];
    forall j, k | lo <= j < k < hi ensures Less(w[j].key, w[k].key, cs) {
      StrictWeakOrder(v[i].key, e.key, v[k].key, cs);
      StrictWeakOrder(v[i].key, e.key, v[j].key, cs);
    }
  }

  lemma Refill<V>(s: State<V>, i: nat, e: Entry<V>, cs: CaseSensitivity)
    requires Valid(s, cs) && i < |s.vec| && Fold(e.key, cs) == Fold(s.vec[i].key, cs)
    ensures Valid(Refilled(s, i, e), cs)
    ensures Model(Refilled(s, i, e), cs) == Model(s, cs)[Fold(e.key, cs) := e]
  {
    hide Less, Fold, Live;
    var v, gone, m := s.vec[i := e], s.erased - {i}, Model(s, cs)[Fold(e.key, cs) := e];
    RefilledRange(s.vec, 0, s.suffixStart, i, e, cs);
    RefilledRange(s.vec, s.suffixStart, |s.vec|, i, e, cs);
    forall k: nat | k < |v| && k !in gone ensures Fold(v[k].key, cs) in m && m[Fold(v[k].key, cs)] == v[k] {
      LiveAt(s.vec, s.erased, k, cs);
    }
    forall f | f in m ensures exists k :: 0 <= k < |v| && k !in gone && Fold(v[k].key, cs) == f {
      if f == Fold(e.key, cs) {
        assert i !in gone && Fold(v[i].key, cs) == f;
      } else {
        var k := LiveFrom(s.vec, s.erased, f, cs);
        assert k !in gone && Fold(v[k].key, cs) == f;
      }
    }
    LiveIs(v, gone, m, cs);
  }

  lemma AppendEntry<V>(s: State<V>, e: Entry<V>, cs: CaseSensitivity)
    requires Valid(s, cs)
    requires forall k :: 0 <= k < |s.vec| ==> Fold(s.vec[k].key, cs) != Fold(e.key, cs)
    requires |s.vec| > s.suffixStart ==> Less(s.vec[|s.vec| - 1].key, e.key, cs)
    ensures Valid(s.(vec := s.vec + [e]), cs)
    ensures Model(s.(vec := s.vec + [e]), cs) == Model(s, cs)[Fold(e.key, cs) := e]
  {
    hide Less, Fold;
    var v := s.vec + [e];
    assert v[..|s.vec|] == s.vec;
    forall i | s.suffixStart <= i < |s.vec| ensures Less(s.vec[i].key, e.key, cs) {
      StrictWeakOrder(s.vec[i].key, s.vec[|s.vec| - 1].key, e.key, cs);
    }
    assert SortedRange(v, 0, s.suffixStart, cs) && SortedRange(v, s.suffixStart, |v|, cs);
  }

  // ----- compact -----

  /** What std::remove_if leaves of the positions lo..hi. */
  function Kept<V>(v: seq<Entry<V>>, erased: set<nat>, lo: nat, hi: nat): seq<Entry<V>>
    requires lo <= hi <= |v|
  {
    if lo == hi then [] else Kept(v, erased, lo, hi - 1) + if hi - 1 in erased then [] else [v[hi - 1]]
  }

  /** std::inplace_merge: an entry of the second part goes first only if it is less. */
  function Merged<V>(a: seq<Entry<V>>, b: seq<Entry<V>>, cs: CaseSensitivity): seq<Entry<V>>
    decreases |a| + |b|
  {
    if a == [] then b
    else if b == [] then a
    else if Less(b[0].key, a[0].key, cs) then [b[0]] + Merged(a, b[1..], cs)
    else [a[0]] + Merged(a[1..], b, cs)
  }

  function Compacted<V>(s: State<V>, cs: CaseSensitivity): State<V>
    requires s.suffixStart <= |s.vec|
  {
    var vec := Merged(Kept(s.vec, s.erased, 0, s.suffixStart), Kept(s.vec, s.erased, s.suffixStart, |s.vec|), cs);
    State(vec, |vec|, {})
  }

  lemma {:induction false} KeptEntries<V>(v: seq<Entry<V>>, erased: set<nat>, lo: nat, hi: nat, e: Entry<V>)
    requires lo <= hi <= |v|
    ensures e in Kept(v, erased, lo, hi) <==> exists i :: lo <= i < hi && i !in erased && v[i] == e
  {
    if lo < hi {
      KeptEntries(v, erased, lo, hi - 1, e);
    }
  }

  lemma {:induction false} KeptSorted<V>(v: seq<Entry<V>>, erased: set<nat>, lo: nat, hi: nat, cs: CaseSensitivity)
    requires lo <= hi <= |v| && SortedRange(v, lo, hi, cs)
    ensures Sorted(Kept(v, erased, lo, hi), cs)
  {
    hide Less;
    if lo < hi {
      KeptSorted(v, erased, lo, hi - 1, cs);
      forall e | e in Kept(v, erased, lo, hi - 1) ensures Less(e.key, v[hi - 1].key, cs) {
        KeptEntries(v, erased, lo, hi - 1, e);
      }
    }
  }

  lemma {:induction false} KeptSplit<V>(v: seq<Entry<V>>, erased: set<nat>, mid: nat, hi: nat)
    requires mid <= hi <= |v|
    ensures Kept(v, erased, 0, hi) == Kept(v, erased, 0, mid) + Kept(v, erased, mid, hi)
  {
    if mid < hi {
      KeptSplit(v, erased, mid, hi - 1);
    }
  }

  lemma {:induction false} MergedEntries<V>(a: seq<Entry<V>>, b: seq<Entry<V>>, cs: CaseSensitivity, e: Entry<V>)
    ensures e in Merged(a, b, cs) <==> e in a || e in b
    decreases |a| + |b|
  {
    hide Less;
    if a != [] && b != [] {
      if Less(b[0].key, a[0].key, cs) {
        MergedEntries(a, b[1..], cs, e);
        assert b == [b[0]] + b[1..];
      } else {
        MergedEntries(a[1..], b, cs, e);
        assert a == [a[0]] + a[1..];
      }
    }
  }

  predicate Apart<V>(a: seq<Entry<V>>, b: seq<Entry<V>>, cs: CaseSensitivity) {
    forall i, j :: 0 <= i < |a| && 0 <= j < |b| ==> Fold(a[i].key, cs) != Fold(b[j].key, cs)
  }

  lemma SortedConsed<V>(e: Entry<V>, v: seq<Entry<V>>, cs: CaseSensitivity)
    requires Sorted(v, cs) && forall d :: d in v ==> Less(e.key, d.key, cs)
    ensures Sorted([e] + v, cs)
  {
    hide Less;
  }

  /** The head of a, when it is not after the head of b, is before everything else. */
  lemma HeadFirst<V>(a: seq<Entry<V>>, b: seq<Entry<V>>, cs: CaseSensitivity, d: Entry<V>)
    requires Sorted(a, cs) && Sorted(b, cs) && a != [] && (b != [] ==> Less(a[0].key, b[0].key, cs))
    requires d in a[1..] || d in b
    ensures Less(a[0].key, d.key, cs)
  {
    hide Less, Fold;
    if d in a[1..] {
      var i :| 0 <= i < |a[1..]| && a[1..][i] == d;
      assert a[i + 1] == d;
    } else {
      var j :| 0 <= j < |b| && b[j] == d;
      StrictWeakOrder(a[0].key, b[0].key, d.key, cs);
    }
  }

  lemma {:induction false} MergedSorted<V>(a: seq<Entry<V>>, b: seq<Entry<V>>, cs: CaseSensitivity)
    requires Sorted(a, cs) && Sorted(b, cs) && Apart(a, b, cs)
    ensures Sorted(Merged(a, b, cs), cs)
    decreases |a| + |b|
  {
    hide Less, Fold;
    if a != [] && b != [] {
      EqualIffIncomparable(a[0].key, b[0].key, cs);
      if Less(b[0].key, a[0].key, cs) {
        MergedSorted(a, b[1..], cs);
        forall d | d in Merged(a, b[1..], cs) ensures Less(b[0].key, d.key, cs) {
          MergedEntries(a, b[1..], cs, d);
          HeadFirst(b, a, cs, d);
        }
        SortedConsed(b[0], Merged(a, b[1..], cs), cs);
      } else {
        MergedSorted(a[1..], b, cs);
        forall d | d in Merged(a[1..], b, cs) ensures Less(a[0].key, d.key, cs) {
          MergedEntries(a[1..], b, cs, d);
          HeadFirst(a, b, cs, d);
        }
        SortedConsed(a[0], Merged(a[1..], b, cs), cs);
      }
    }
  }

  lemma KeptApart<V>(s: State<V>, cs: CaseSensitivity)
    requires Valid(s, cs)
    ensures Apart(Kept(s.vec, s.erased, 0, s.suffixStart), Kept(s.vec, s.erased, s.suffixStart, |s.vec|), cs)
  {
    hide Less, Fold, Kept;
    var a, b := Kept(s.vec, s.erased, 0, s.suffixStart), Kept(s.vec, s.erased, s.suffixStart, |s.vec|);
    forall i, j | 0 <= i < |a| && 0 <= j < |b| ensures Fold(a[i].key, cs) != Fold(b[j].key, cs) {
      assert a[i] in a && b[j] in b;
      KeptEntries(s.vec, s.erased, 0, s.suffixStart, a[i]);
      KeptEntries(s.vec, s.erased, s.suffixStart, |s.vec|, b[j]);
    }
  }

  lemma CompactedEntries<V>(s: State<V>, cs: CaseSensitivity, e: Entry<V>)
    requires Valid(s, cs)
    ensures e in Compacted(s, cs).vec <==> exists i :: 0 <= i < |s.vec| && i !in s.erased && s.vec[i] == e
  {
    hide Less, Fold, Kept, Merged, SortedRange, DistinctKeys;
    KeptEntries(s.vec, s.erased, 0, s.suffixStart, e);
    KeptEntries(s.vec, s.erased, s.suffixStart, |s.vec|, e);
    MergedEntries(Kept(s.vec, s.erased, 0, s.suffixStart), Kept(s.vec, s.erased, s.suffixStart, |s.vec|), cs, e);
  }

  lemma CompactKeeps<V>(s: State<V>, cs: CaseSensitivity)
    requires Valid(s, cs)
    ensures Sorted(Compacted(s, cs).vec, cs) && Valid(Compacted(s, cs), cs)
    ensures Model(Compacted(s, cs), cs) == Model(s, cs)
  {
    hide Less, Fold, Kept, Merged, Live;
    var v := Compacted(s, cs).vec;
    KeptSorted(s.vec, s.erased, 0, s.suffixStart, cs);
    KeptSorted(s.vec, s.erased, s.suffixStart, |s.vec|, cs);
    KeptApart(s, cs);
    MergedSorted(Kept(s.vec, s.erased, 0, s.suffixStart), Kept(s.vec, s.erased, s.suffixStart, |s.vec|), cs);
    SortedDistinct(v, cs);
    var m := Model(s, cs);
    forall e | e in v ensures Fold(e.key, cs) in m && m[Fold(e.key, cs)] == e {
      CompactedEntries(s, cs, e);
      var i: nat :| i < |s.vec| && i !in s.erased && s.vec[i] == e;
      LiveAt(s.vec, s.erased, i, cs);
    }
    forall f | f in m ensures m[f] in v && Fold(m[f].key, cs) == f {
      var i := LiveFrom(s.vec, s.erased, f, cs);
      CompactedEntries(s, cs, m[f]);
    }
    ContentsFrom(v, m, cs);
  }
}
