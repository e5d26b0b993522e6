/** The PathMap object and collatePathMaps(). */
module PathMapObject {
  import opened Numbering
  import opened PathOrder
  import opened PathMap
  import opened PathMapBuild

  class Map<V> {
    var vec: seq<Entry<V>>
    const caseSensitive: CaseSensitivity

    ghost predicate Valid()
      reads this
    {
      Sorted(vec, caseSensitive)
    }

    ghost function Model(): map<seq<bv8>, Entry<V>>
      reads this
    {
      Contents(vec, caseSensitive)
    }

    /** The constructor from a vector of entries: the earliest of the entries with equal names wins. */
    constructor (entries: seq<Entry<V>>, cs: CaseSensitivity)
      ensures Valid() && caseSensitive == cs
      ensures vec == InsertAll(entries, cs) && HoldsFirst(vec, entries, cs)
    {
      caseSensitive := cs;
      var v := Build(entries, cs);
      InsertAllHoldsFirst(entries, cs);
      vec := v;
    }

    /** find(): `i == |vec|` is end(). */
    method Find(key: Name) returns (i: nat)
      requires Valid()
      ensures Fold(key, caseSensitive) in Model() ==> i < |vec| && vec[i] == Model()[Fold(key, caseSensitive)]
      ensures Fold(key, caseSensitive) !in Model() ==> i == |vec|
    {
      hide Less, Fold, Contents;
      var (k, found) := Search(vec, 0, |vec|, key, caseSensitive);
      SearchFinds(vec, 0, |vec|, key, caseSensitive);
      RemovedIs(vec, key, caseSensitive);
      if found {
        ContentsAt(vec, k, caseSensitive);
      }
      i := if found then k else |vec|;
    }

    /** insert() and emplace(): an existing entry, its stored name included, is left alone. */
    method Emplace(e: Entry<V>) returns (i: nat, inserted: bool)
      requires Valid()
      modifies this
      ensures Valid()
      ensures inserted <==> Fold(e.key, caseSensitive) !in old(Model())
      ensures Model() == if inserted then old(Model())[Fold(e.key, caseSensitive) := e] else old(Model())
      ensures i < |vec| && vec[i] == Model()[Fold(e.key, caseSensitive)]
    {
      hide Less, Fold, Contents;
      var (k, found) := Search(vec, 0, |vec|, e.key, caseSensitive);
      SearchFinds(vec, 0, |vec|, e.key, caseSensitive);
      InsertedIs(vec, e, caseSensitive);
      i, inserted := k, !found;
      if inserted {
        vec := vec[..k] + [e] + vec[k..];
      }
      ContentsAt(vec, k, caseSensitive);
    }

    /** erase(key). */
    method Erase(key: Name) returns (n: nat)
      requires Valid()
      modifies this
      ensures Valid()
      ensures n == if Fold(key, caseSensitive) in old(Model()) then 1 else 0
      ensures Model() == old(Model()) - {Fold(key, caseSensitive)}
    {
      hide Less, Fold, Contents;
      RemovedIs(vec, key, caseSensitive);
      var i := Find(key);
      ghost var (k, found) := Search(vec, 0, |vec|, key, caseSensitive);
      if i == |vec| {
        n := 0;
        assert Model() - {Fold(key, caseSensitive)} == Model();
      } else {
        SamePosition(vec, i, k, key, caseSensitive);
        vec := vec[..i] + vec[i + 1..];
        n := 1;
      }
    }
  }

  lemma SamePosition<V>(v: seq<Entry<V>>, i: nat, k: nat, key: Name, cs: CaseSensitivity)
    requires Sorted(v, cs) && i < |v| && Search(v, 0, |v|, key, cs) == (k, true)
    requires Fold(key, cs) in Contents(v, cs) && v[i] == Contents(v, cs)[Fold(key, cs)]
    ensures i == k < |v|
  {
    hide Less, Fold, Contents;
    SearchFinds(v, 0, |v|, key, cs);
    ContentsAre(v, cs);
    SortedDistinct(v, cs);
    assert v[k] in v;
  }

  // ----- collatePathMaps -----

  type Both<A, B> = (Option<A>, Option<B>)

  /** The key-wise full outer join of two plain maps; a name found in both is spelled as in the first. */
  ghost function Join<A, B>(a: map<seq<bv8>, Entry<A>>, b: map<seq<bv8>, Entry<B>>): map<seq<bv8>, Entry<Both<A, B>>> {
    map f | f in a.Keys + b.Keys ::
      Entry(if f in a then a[f].key else b[f].key,
            (if f in a then Some(a[f].value) else None, if f in b then Some(b[f].value) else None))
  }

  /** Everything before position i of v comes before position j of w, if there is such a position. */
  predicate Passed<A, B>(v: seq<Entry<A>>, i: nat, w: seq<Entry<B>>, j: nat, cs: CaseSensitivity)
    requires i <= |v|
  {
    j < |w| ==> forall k :: 0 <= k < i ==> Less(v[k].key, w[j].key, cs)
  }

  lemma PassedAbsent<A, B>(v: seq<Entry<A>>, i: nat, w: seq<Entry<B>>, j: nat, cs: CaseSensitivity)
    requires i <= |v| && Passed(v, i, w, j, cs) && j < |w|
    ensures Fold(w[j].key, cs) !in Live(v[..i], {}, cs)
  {
    hide Less, Fold, Live;
    if Fold(w[j].key, cs) in Live(v[..i], {}, cs) {
      var k := LiveFrom(v[..i], {}, Fold(w[j].key, cs), cs);
      LessFold(v[k].key, w[j].key, cs);
    }
  }

  lemma PassNext<A, B>(v: seq<Entry<A>>, i: nat, w: seq<Entry<B>>, j: nat, cs: CaseSensitivity)
    requires i < |v| && j <= |w| && Sorted(w, cs)
    ensures Passed(v, i, w, j, cs) && (j < |w| ==> Less(v[i].key, w[j].key, cs)) ==> Passed(v, i + 1, w, j, cs)
    ensures Passed(v, i, w, j, cs) && j < |w| && Equal(v[i].key, w[j].key, cs) ==> Passed(v, i + 1, w, j + 1, cs)
    ensures Passed(v, i, w, j, cs) && j < |w| ==> Passed(v, i, w, j + 1, cs)
  {
    hide Less, Fold, Equal;
    if j + 1 < |w| {
      StrictWeakOrder(v[i].key, w[j].key, w[j + 1].key, cs);
      if Passed(v, i, w, j, cs) {
        forall k | 0 <= k < i ensures Less(v[k].key, w[j + 1].key, cs) {
          StrictWeakOrder(v[k].key, w[j].key, w[j + 1].key, cs);
        }
      }
    }
  }

  lemma LiveNext<V>(v: seq<Entry<V>>, i: nat, cs: CaseSensitivity)
    requires i < |v|
    ensures Live(v[..i + 1], {}, cs) == Live(v[..i], {}, cs)[Fold(v[i].key, cs) := v[i]]
  {
    assert v[..i + 1][..i] == v[..i];
  }

  lemma JoinFirst<A, B>(a: map<seq<bv8>, Entry<A>>, b: map<seq<bv8>, Entry<B>>, f: seq<bv8>, e: Entry<A>)
    requires f !in a && f !in b
    ensures Join(a[f := e], b) == Join(a, b)[f := Entry(e.key, (Some(e.value), None))]
    ensures f !in Join(a, b)
  {
  }

  lemma JoinSecond<A, B>(a: map<seq<bv8>, Entry<A>>, b: map<seq<bv8>, Entry<B>>, f: seq<bv8>, e: Entry<B>)
    requires f !in a && f !in b
    ensures Join(a, b[f := e]) == Join(a, b)[f := Entry(e.key, (None, Some(e.value)))]
    ensures f !in Join(a, b)
  {
  }

  lemma JoinBoth<A, B>(a: map<seq<bv8>, Entry<A>>, b: map<seq<bv8>, Entry<B>>, f: seq<bv8>, e: Entry<A>, d: Entry<B>)
    requires f !in a && f !in b
    ensures Join(a[f := e], b[f := d]) == Join(a, b)[f := Entry(e.key, (Some(e.value), Some(d.value)))]
    ensures f !in Join(a, b)
  {
  }

  /** How far the two cursors have come, and what the result holds by then. */
  ghost predicate Collated<A, B>(a: seq<Entry<A>>, i: nat, b: seq<Entry<B>>, j: nat, r: seq<Entry<Both<A, B>>>, cs: CaseSensitivity) {
    && i <= |a| && j <= |b|
    && Passed(a, i, b, j, cs) && Passed(b, j, a, i, cs)
    && Contents(r, cs) == Join(Live(a[..i], {}, cs), Live(b[..j], {}, cs))
  }

  lemma PassedSelf<V>(v: seq<Entry<V>>, i: nat, cs: CaseSensitivity)
    requires Sorted(v, cs) && i <= |v|
    ensures Passed(v, i, v, i, cs)
  {
  }

  lemma CollateFirst<A, B>(a: seq<Entry<A>>, i: nat, b: seq<Entry<B>>, j: nat, r: seq<Entry<Both<A, B>>>, cs: CaseSensitivity)
    requires Sorted(a, cs) && Sorted(b, cs) && Sorted(r, cs) && Collated(a, i, b, j, r, cs)
    requires i < |a| && (j < |b| ==> Less(a[i].key, b[j].key, cs))
    ensures var r' := Inserted(r, Entry(a[i].key, (Some(a[i].value), None)), cs); Collated(a, i + 1, b, j, r', cs)
  {
    hide Less, Fold, Contents, Join, Inserted, Sorted, Live;
    InsertedIs(r, Entry(a[i].key, (Some(a[i].value), None)), cs);
    PassedSelf(a, i, cs);
    PassedAbsent(a, i, a, i, cs);
    PassedAbsent(b, j, a, i, cs);
    LiveNext(a, i, cs);
    JoinFirst(Live(a[..i], {}, cs), Live(b[..j], {}, cs), Fold(a[i].key, cs), a[i]);
    PassNext(a, i, b, j, cs);
    AdvanceOther(b, j, a, i, cs);
  }

  lemma AdvanceOther<A, B>(v: seq<Entry<A>>, i: nat, w: seq<Entry<B>>, j: nat, cs: CaseSensitivity)
    requires i <= |v| && j < |w| && Sorted(w, cs) && Passed(v, i, w, j, cs)
    ensures Passed(v, i, w, j + 1, cs)
  {
    hide Less, Fold;
    if j + 1 < |w| {
      forall k | 0 <= k < i ensures Less(v[k].key, w[j + 1].key, cs) {
        StrictWeakOrder(v[k].key, w[j].key, w[j + 1].key, cs);
      }
    }
  }

  lemma CollateSecond<A, B>(a: seq<Entry<A>>, i: nat, b: seq<Entry<B>>, j: nat, r: seq<Entry<Both<A, B>>>, cs: CaseSensitivity)
    requires Sorted(a, cs) && Sorted(b, cs) && Sorted(r, cs) && Collated(a, i, b, j, r, cs)
    requires j < |b| && (i < |a| ==> Less(b[j].key, a[i].key, cs))
    ensures var r' := Inserted(r, Entry(b[j].key, (None, Some(b[j].value))), cs); Collated(a, i, b, j + 1, r', cs)
  {
    hide Less, Fold, Contents, Join, Inserted, Sorted, Live;
    InsertedIs(r, Entry(b[j].key, (None, Some(b[j].value))), cs);
    PassedSelf(b, j, cs);
    PassedAbsent(b, j, b, j, cs);
    PassedAbsent(a, i, b, j, cs);
    LiveNext(b, j, cs);
    JoinSecond(Live(a[..i], {}, cs), Live(b[..j], {}, cs), Fold(b[j].key, cs), b[j]);
    PassNext(b, j, a, i, cs);
    AdvanceOther(a, i, b, j, cs);
  }

  lemma CollateBoth<A, B>(a: seq<Entry<A>>, i: nat, b: seq<Entry<B>>, j: nat, r: seq<Entry<Both<A, B>>>, cs: CaseSensitivity)
    requires Sorted(a, cs) && Sorted(b, cs) && Sorted(r, cs) && Collated(a, i, b, j, r, cs)
    requires i < |a| && j < |b| && Equal(a[i].key, b[j].key, cs)
    ensures var r' := Inserted(r, Entry(a[i].key, (Some(a[i].value), Some(b[j].value))), cs); Collated(a, i + 1, b, j + 1, r', cs)
  {
    hide Less, Fold, Contents, Join, Inserted, Sorted, Live, Equal;
    InsertedIs(r, Entry(a[i].key, (Some(a[i].value), Some(b[j].value))), cs);
    EqualIffIncomparable(a[i].key, b[j].key, cs);
    EqualIffIncomparable(b[j].key, a[i].key, cs);
    PassedSelf(a, i, cs);
    PassedAbsent(a, i, a, i, cs);
    PassedAbsent(b, j, a, i, cs);
    LiveNext(a, i, cs);
    LiveNext(b, j, cs);
    JoinBoth(Live(a[..i], {}, cs), Live(b[..j], {}, cs), Fold(a[i].key, cs), a[i], b[j]);
    PassNext(a, i, b, j, cs);
    PassNext(b, j, a, i, cs);
  }

  /** Whatever the two orders are, one emplace adds the name it was given. */
  lemma InsertedKeys<V>(r: seq<Entry<V>>, e: Entry<V>, cs: CaseSensitivity)
    requires Sorted(r, cs)
    ensures Sorted(Inserted(r, e, cs), cs)
    ensures Contents(Inserted(r, e, cs), cs).Keys == Contents(r, cs).Keys + {Fold(e.key, cs)}
  {
    hide Less, Fold, Contents, Inserted, Sorted;
    InsertedIs(r, e, cs);
  }

  lemma LiveKeysNext<V>(v: seq<Entry<V>>, i: nat, cs: CaseSensitivity)
    requires i < |v|
    ensures Live(v[..i + 1], {}, cs).Keys == Live(v[..i], {}, cs).Keys + {Fold(v[i].key, cs)}
  {
    hide Fold, Live;
    LiveNext(v, i, cs);
  }

  /** collatePathMaps().  For maps of one case sensitivity the result is the full outer join.  For maps
      of two it is compared without case, and still has exactly the names of both. */
  method Collate<A, B>(a: seq<Entry<A>>, csA: CaseSensitivity, b: seq<Entry<B>>, csB: CaseSensitivity)
    returns (r: seq<Entry<Both<A, B>>>, cs: CaseSensitivity)
    requires Sorted(a, csA) && Sorted(b, csB)
    ensures cs == if csA == csB then csA else Insensitive
    ensures Sorted(r, cs)
    ensures Contents(r, cs).Keys == Live(a, {}, cs).Keys + Live(b, {}, cs).Keys
    ensures csA == csB ==> Contents(r, cs) == Join(Contents(a, cs), Contents(b, cs))
  {
    hide Less, Fold, Contents, Inserted, Sorted, Live, Equal, Join, Collated;
    cs := if csA == csB then csA else Insensitive;
    r := [];
    CollateStart<A, B>(a, b, cs);
    var i: nat, j: nat := 0, 0;
    while i < |a| && j < |b|
      invariant i <= |a| && j <= |b| && Sorted(r, cs)
      invariant Contents(r, cs).Keys == Live(a[..i], {}, cs).Keys + Live(b[..j], {}, cs).Keys
      invariant csA == csB ==> Collated(a, i, b, j, r, cs)
    {
      EqualIffIncomparable(a[i].key, b[j].key, cs);
      LiveKeysNext(a, i, cs);
      LiveKeysNext(b, j, cs);
      if Equal(a[i].key, b[j].key, cs) {
        if csA == csB { CollateBoth(a, i, b, j, r, cs); }
        InsertedKeys(r, Entry(a[i].key, (Some(a[i].value), Some(b[j].value))), cs);
        r := Inserted(r, Entry(a[i].key, (Some(a[i].value), Some(b[j].value))), cs);
        i, j := i + 1, j + 1;
      } else if Less(a[i].key, b[j].key, cs) {
        if csA == csB { CollateFirst(a, i, b, j, r, cs); }
        InsertedKeys(r, Entry(a[i].key, (Some(a[i].value), None)), cs);
        r := Inserted(r, Entry(a[i].key, (Some(a[i].value), None)), cs);
        i := i + 1;
      } else {
        if csA == csB { CollateSecond(a, i, b, j, r, cs); }
        InsertedKeys(r, Entry(b[j].key, (None, Some(b[j].value))), cs);
        r := Inserted(r, Entry(b[j].key, (None, Some(b[j].value))), cs);
        j := j + 1;
      }
    }
    while i < |a|
      invariant i <= |a| && j <= |b| && (i < |a| ==> j == |b|) && Sorted(r, cs)
      invariant Contents(r, cs).Keys == Live(a[..i], {}, cs).Keys + Live(b[..j], {}, cs).Keys
      invariant csA == csB ==> Collated(a, i, b, j, r, cs)
    {
      LiveKeysNext(a, i, cs);
      if csA == csB { CollateFirst(a, i, b, j, r, cs); }
      InsertedKeys(r, Entry(a[i].key, (Some(a[i].value), None)), cs);
      r := Inserted(r, Entry(a[i].key, (Some(a[i].value), None)), cs);
      i := i + 1;
    }
    while j < |b|
      invariant i == |a| && j <= |b| && Sorted(r, cs)
      invariant Contents(r, cs).Keys == Live(a[..i], {}, cs).Keys + Live(b[..j], {}, cs).Keys
      invariant csA == csB ==> Collated(a, i, b, j, r, cs)
    {
      LiveKeysNext(b, j, cs);
      if csA == csB { CollateSecond(a, i, b, j, r, cs); }
      InsertedKeys(r, Entry(b[j].key, (None, Some(b[j].value))), cs);
      r := Inserted(r, Entry(b[j].key, (None, Some(b[j].value))), cs);
      j := j + 1;
    }
    assert a[..i] == a && b[..j] == b;
    if csA == csB { CollateEnd(a, b, r, cs); }
  }

  lemma CollateStart<A, B>(a: seq<Entry<A>>, b: seq<Entry<B>>, cs: CaseSensitivity)
    ensures Sorted<Both<A, B>>([], cs) && Contents<Both<A, B>>([], cs) == map[]
    ensures Live(a[..0], {}, cs) == map[] && Live(b[..0], {}, cs) == map[]
    ensures Collated(a, 0, b, 0, [], cs)
  {
    hide Less, Fold;
  }

  lemma CollateEnd<A, B>(a: seq<Entry<A>>, b: seq<Entry<B>>, r: seq<Entry<Both<A, B>>>, cs: CaseSensitivity)
    requires Collated(a, |a|, b, |b|, r, cs)
    ensures Contents(r, cs) == Join(Contents(a, cs), Contents(b, cs))
  {
    assert a[..|a|] == a && b[..|b|] == b;
  }
}
