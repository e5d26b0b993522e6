/** The operations of PathMapMutator, one by one as an object and over whole runs against a plain map. */
module PathMapEditing {
  import opened Numbering
  import opened PathOrder
  import opened PathMap
  import opened PathMapMutator

  // ----- emplace() and insert_or_assign() -----

  /** The common tail of both: compact first if the key would break the order of the suffix, then append. */
  function Appended<V>(s: State<V>, e: Entry<V>, cs: CaseSensitivity): State<V>
    requires s.suffixStart <= |s.vec|
  {
    var t := if |s.vec| > s.suffixStart && !Less(s.vec[|s.vec| - 1].key, e.key, cs) then Compacted(s, cs) else s;
    t.(vec := t.vec + [e])
  }

  lemma AppendedIs<V>(s: State<V>, e: Entry<V>, cs: CaseSensitivity)
    requires Valid(s, cs)
    requires forall k :: 0 <= k < |s.vec| ==> Fold(s.vec[k].key, cs) != Fold(e.key, cs)
    ensures Valid(Appended(s, e, cs), cs)
    ensures Model(Appended(s, e, cs), cs) == Model(s, cs)[Fold(e.key, cs) := e]
  {
    hide Less, Fold, Compacted, Model;
    if |s.vec| > s.suffixStart && !Less(s.vec[|s.vec| - 1].key, e.key, cs) {
      var t := Compacted(s, cs);
      CompactKeeps(s, cs);
      CompactedSize(s, cs);
      forall k | 0 <= k < |t.vec| ensures Fold(t.vec[k].key, cs) != Fold(e.key, cs) {
        assert t.vec[k] in t.vec;
        CompactedEntries(s, cs, t.vec[k]);
      }
      AppendEntry(t, e, cs);
    } else {
      AppendEntry(s, e, cs);
    }
  }

  lemma CompactedSize<V>(s: State<V>, cs: CaseSensitivity)
    requires s.suffixStart <= |s.vec|
    ensures Compacted(s, cs).suffixStart == |Compacted(s, cs).vec| && Compacted(s, cs).erased == {}
  {
  }

  /** The new state, the slot that the returned iterator points to, and the returned flag. */
  datatype Outcome<V> = Outcome(state: State<V>, slot: nat, inserted: bool)

  function Emplaced<V>(s: State<V>, e: Entry<V>, cs: CaseSensitivity): Outcome<V>
    requires Valid(s, cs)
  {
    FindImplFinds(s, e.key, cs);
    var (i, erased) := FindImpl(s, e.key, cs);
    if i < |s.vec| then
      if erased then Outcome(Refilled(s, i, e), i, true) else Outcome(s, i, false)
    else
      var t := Appended(s, e, cs);
      Outcome(t, |t.vec| - 1, true)
  }

  function Assigned<V>(s: State<V>, e: Entry<V>, cs: CaseSensitivity): Outcome<V>
    requires Valid(s, cs)
  {
    FindImplFinds(s, e.key, cs);
    var (i, erased) := FindImpl(s, e.key, cs);
    if i < |s.vec| then
      if erased then Outcome(Refilled(s, i, e), i, true)
      else Outcome(s.(vec := s.vec[i := s.vec[i].(value := e.value)]), i, false)
    else
      var t := Appended(s, e, cs);
      Outcome(t, |t.vec| - 1, true)
  }

  lemma EmplacedIs<V>(s: State<V>, e: Entry<V>, cs: CaseSensitivity)
    requires Valid(s, cs)
    ensures var r, m, f := Emplaced(s, e, cs), Model(s, cs), Fold(e.key, cs);
      && Valid(r.state, cs)
      && (r.inserted <==> f !in m)
      && Model(r.state, cs) == (if r.inserted then m[f := e] else m)
      && r.slot < |r.state.vec| && r.state.vec[r.slot] == Model(r.state, cs)[f]
  {
    hide Less, Fold, FindImpl, Model, Appended;
    FindImplFinds(s, e.key, cs);
    var (i, erased) := FindImpl(s, e.key, cs);
    if i < |s.vec| {
      if erased {
        Refill(s, i, e, cs);
      }
    } else {
      AppendedIs(s, e, cs);
      AppendedLast(s, e, cs);
    }
  }

  lemma AppendedLast<V>(s: State<V>, e: Entry<V>, cs: CaseSensitivity)
    requires s.suffixStart <= |s.vec|
    ensures var v := Appended(s, e, cs).vec; v != [] && v[|v| - 1] == e
  {
  }

  /** A live entry keeps its stored name and gets the new value. */
  lemma AssignedIs<V>(s: State<V>, e: Entry<V>, cs: CaseSensitivity)
    requires Valid(s, cs)
    ensures var r, m, f := Assigned(s, e, cs), Model(s, cs), Fold(e.key, cs);
      && Valid(r.state, cs)
      && (r.inserted <==> f !in m)
      && Model(r.state, cs) == m[f := if f in m then m[f].(value := e.value) else e]
      && r.slot < |r.state.vec| && r.state.vec[r.slot] == Model(r.state, cs)[f]
  {
    hide Less, Fold, FindImpl, Model, Appended;
    FindImplFinds(s, e.key, cs);
    var (i, erased) := FindImpl(s, e.key, cs);
    if i < |s.vec| {
      if erased {
        Refill(s, i, e, cs);
      } else {
        Refill(s, i, s.vec[i].(value := e.value), cs);
        assert s.erased - {i} == s.erased;
      }
    } else {
      AppendedIs(s, e, cs);
      AppendedLast(s, e, cs);
    }
  }

  function Unmapped<V>(s: State<V>, key: Name, cs: CaseSensitivity): State<V>
    requires Valid(s, cs)
  {
    var (i, erased) := FindImpl(s, key, cs);
    if erased || i == |s.vec| then s else s.(erased := s.erased + {i})
  }

  lemma UnmappedIs<V>(s: State<V>, key: Name, cs: CaseSensitivity)
    requires Valid(s, cs)
    ensures Valid(Unmapped(s, key, cs), cs)
    ensures Model(Unmapped(s, key, cs), cs) == Model(s, cs) - {Fold(key, cs)}
  {
    hide Less, Fold, FindImpl, Model;
    FindImplFinds(s, key, cs);
    var (i, erased) := FindImpl(s, key, cs);
    if erased || i == |s.vec| {
      assert Model(s, cs) - {Fold(key, cs)} == Model(s, cs);
    } else {
      MarkErased(s, i, cs);
    }
  }

  // ----- the object -----

  class Mutator<V> {
    var vec: seq<Entry<V>>
    var suffixStart: nat
    var erased: set<nat>
    const caseSensitive: CaseSensitivity

    function Now(): State<V>
      reads this
    {
      State(vec, suffixStart, erased)
    }

    ghost predicate IsValid()
      reads this
    {
      Valid(Now(), caseSensitive)
    }

    /** The plain map that the mutator stands for. */
    ghost function Mapping(): map<seq<bv8>, Entry<V>>
      reads this
    {
      Model(Now(), caseSensitive)
    }

    constructor (sorted: seq<Entry<V>>, cs: CaseSensitivity)
      requires Sorted(sorted, cs)
      ensures IsValid() && caseSensitive == cs && Mapping() == Contents(sorted, cs)
    {
      vec, suffixStart, erased, caseSensitive := sorted, |sorted|, {}, cs;
      SortedDistinct(sorted, cs);
    }

    /** find(): `|vec|` is end(). */
    method Find(key: Name) returns (i: nat)
      requires IsValid()
      ensures var (slot, isErased) := FindImpl(Now(), key, caseSensitive); i == if isErased then |vec| else slot
      ensures Fold(key, caseSensitive) in Mapping() ==> i < |vec| && i !in erased && vec[i] == Mapping()[Fold(key, caseSensitive)]
      ensures Fold(key, caseSensitive) !in Mapping() ==> i == |vec|
    {
      hide Less, Fold, FindImpl, Model;
      FindImplFinds(Now(), key, caseSensitive);
      var (slot, isErased) := FindImpl(Now(), key, caseSensitive);
      i := if isErased then |vec| else slot;
    }

    /** erase(iterator). */
    method EraseAt(i: nat)
      requires IsValid() && i < |vec|
      modifies this`erased
      ensures erased == old(erased) + {i}
      ensures IsValid() && Mapping() == old(Mapping()) - {Fold(vec[i].key, caseSensitive)}
    {
      hide Less, Fold, Model;
      MarkErased(Now(), i, caseSensitive);
      erased := erased + {i};
    }

    /** erase(key). */
    method Erase(key: Name) returns (n: nat)
      requires IsValid()
      modifies this`erased
      ensures IsValid() && Now() == Unmapped(old(Now()), key, caseSensitive)
      ensures n == if Fold(key, caseSensitive) in old(Mapping()) then 1 else 0
      ensures Mapping() == old(Mapping()) - {Fold(key, caseSensitive)}
    {
      hide Less, Fold, FindImpl, Model;
      UnmappedIs(Now(), key, caseSensitive);
      FindImplFinds(Now(), key, caseSensitive);
      var i := Find(key);
      if i == |vec| {
        return 0;
      }
      EraseAt(i);
      return 1;
    }

    method Emplace(e: Entry<V>) returns (i: nat, inserted: bool)
      requires IsValid()
      modifies this
      ensures IsValid() && Outcome(Now(), i, inserted) == Emplaced(old(Now()), e, caseSensitive)
      ensures inserted <==> Fold(e.key, caseSensitive) !in old(Mapping())
      ensures Mapping() == if inserted then old(Mapping())[Fold(e.key, caseSensitive) := e] else old(Mapping())
      ensures i < |vec| && vec[i] == Mapping()[Fold(e.key, caseSensitive)]
    {
      hide Less, Fold, FindImpl, Model, Compacted;
      EmplacedIs(Now(), e, caseSensitive);
      FindImplFinds(Now(), e.key, caseSensitive);
      var (slot, isErased) := FindImpl(Now(), e.key, caseSensitive);
      if slot != |vec| {
        i, inserted := slot, isErased;
        if isErased {
          erased := erased - {slot};
          vec := vec[slot := e];
        }
        return;
      }
      Append(e);
      i, inserted := |vec| - 1, true;
    }

    method InsertOrAssign(e: Entry<V>) returns (i: nat, inserted: bool)
      requires IsValid()
      modifies this
      ensures IsValid() && Outcome(Now(), i, inserted) == Assigned(old(Now()), e, caseSensitive)
      ensures inserted <==> Fold(e.key, caseSensitive) !in old(Mapping())
      ensures Mapping() == old(Mapping())[Fold(e.key, caseSensitive) :=
        if inserted then e else old(Mapping())[Fold(e.key, caseSensitive)].(value := e.value)]
      ensures i < |vec| && vec[i] == Mapping()[Fold(e.key, caseSensitive)]
    {
      hide Less, Fold, FindImpl, Model, Compacted;
      AssignedIs(Now(), e, caseSensitive);
      FindImplFinds(Now(), e.key, caseSensitive);
      var (slot, isErased) := FindImpl(Now(), e.key, caseSensitive);
      if slot != |vec| {
        i, inserted := slot, isErased;
        if isErased {
          erased := erased - {slot};
          vec := vec[slot := e];
        } else {
          vec := vec[slot := vec[slot].(value := e.value)];
        }
        return;
      }
      Append(e);
      i, inserted := |vec| - 1, true;
    }

    /** The common tail of the two insertions. */
    method Append(e: Entry<V>)
      requires suffixStart <= |vec|
      modifies this
      ensures Now() == Appended(old(Now()), e, caseSensitive)
    {
      hide Less, Fold, Compacted;
      if |vec| > suffixStart && !Less(vec[|vec| - 1].key, e.key, caseSensitive) {
        Compact();
      }
      vec := vec + [e];
    }

    /** One pass drops the marked entries and counts those of the prefix; then the two parts are merged. */
    method Compact()
      requires suffixStart <= |vec|
      modifies this
      ensures Now() == Compacted(old(Now()), caseSensitive)
    {
      hide Less, Fold, Merged;
      var idx: nat, prefixErased: nat := 0, 0;
      var kept: seq<Entry<V>> := [];
      while idx < |vec|
        invariant idx <= |vec| && Now() == old(Now())
        invariant kept == Kept(vec, erased, 0, idx)
        invariant prefixErased <= suffixStart
        invariant var n := if idx < suffixStart then idx else suffixStart;
          n - prefixErased == |Kept(vec, erased, 0, n)|
      {
        var removed := idx in erased;
        if removed && idx < suffixStart {
          prefixErased := prefixErased + 1;
        }
        if !removed {
          kept := kept + [vec[idx]];
        }
        idx := idx + 1;
      }
      KeptSplit(vec, erased, suffixStart, |vec|);
      var middle := suffixStart - prefixErased;
      vec := Merged(kept[..middle], kept[middle..], caseSensitive);
      erased := {};
      suffixStart := |vec|;
    }

    /** The one map with the mutator's contents. */
    method Finalize() returns (sorted: seq<Entry<V>>)
      requires IsValid()
      modifies this
      ensures Sorted(sorted, caseSensitive) && Contents(sorted, caseSensitive) == old(Mapping())
    {
      hide Less, Fold, Compacted, Live;
      CompactKeeps(Now(), caseSensitive);
      CompactedSize(Now(), caseSensitive);
      Compact();
      sorted := vec;
    }
  }

  // ----- whole runs -----

  datatype Edit<V> = Lookup(key: Name) | EraseKey(key: Name) | Emplace(entry: Entry<V>) | InsertOrAssign(entry: Entry<V>)

  /** What the caller sees: what find() points to; the count; the flag and what the iterator points to. */
  datatype Answer<V> = Found(entry: Option<Entry<V>>) | Count(n: nat) | Flag(inserted: bool, at: Entry<V>)

  function EditMutator<V>(s: State<V>, edit: Edit<V>, cs: CaseSensitivity): (State<V>, Answer<V>)
    requires Valid(s, cs)
  {
    match edit
    case Lookup(key) =>
      FindImplFinds(s, key, cs);
      var (i, erased) := FindImpl(s, key, cs);
      (s, Found(if erased || i == |s.vec| then None else Some(s.vec[i])))
    case EraseKey(key) =>
      var (i, erased) := FindImpl(s, key, cs);
      (Unmapped(s, key, cs), Count(if erased || i == |s.vec| then 0 else 1))
    case Emplace(e) =>
      EmplacedIs(s, e, cs);
      var r := Emplaced(s, e, cs);
      (r.state, Flag(r.inserted, r.state.vec[r.slot]))
    case InsertOrAssign(e) =>
      AssignedIs(s, e, cs);
      var r := Assigned(s, e, cs);
      (r.state, Flag(r.inserted, r.state.vec[r.slot]))
  }

  function EditMap<V>(m: map<seq<bv8>, Entry<V>>, edit: Edit<V>, cs: CaseSensitivity): (map<seq<bv8>, Entry<V>>, Answer<V>) {
    match edit
    case Lookup(key) =>
      var f := Fold(key, cs);
      (m, Found(if f in m then Some(m[f]) else None))
    case EraseKey(key) =>
      var f := Fold(key, cs);
      (m - {f}, Count(if f in m then 1 else 0))
    case Emplace(e) =>
      var f := Fold(e.key, cs);
      if f in m then (m, Flag(false, m[f])) else (m[f := e], Flag(true, e))
    case InsertOrAssign(e) =>
      var f := Fold(e.key, cs);
      var d := if f in m then m[f].(value := e.value) else e;
      (m[f := d], Flag(f !in m, d))
  }

  lemma EditRefines<V>(s: State<V>, edit: Edit<V>, cs: CaseSensitivity)
    requires Valid(s, cs)
    ensures var (s', a) := EditMutator(s, edit, cs);
      Valid(s', cs) && (Model(s', cs), a) == EditMap(Model(s, cs), edit, cs)
  {
    hide Less, Fold, FindImpl, Model, Unmapped, Emplaced, Assigned;
    match edit
    case Lookup(key) => FindImplFinds(s, key, cs);
    case EraseKey(key) =>
      FindImplFinds(s, key, cs);
      UnmappedIs(s, key, cs);
    case Emplace(e) => EmplacedIs(s, e, cs);
    case InsertOrAssign(e) => AssignedIs(s, e, cs);
  }

  /** The answers of a run of edits, and the vector that finalize() returns at its end. */
  function RunMutator<V>(s: State<V>, edits: seq<Edit<V>>, cs: CaseSensitivity): (seq<Answer<V>>, seq<Entry<V>>)
    requires Valid(s, cs)
    decreases |edits|
  {
    if edits == [] then ([], Compacted(s, cs).vec)
    else
      EditRefines(s, edits[0], cs);
      var (s', a) := EditMutator(s, edits[0], cs);
      var (rest, final) := RunMutator(s', edits[1..], cs);
      ([a] + rest, final)
  }

  ghost function RunMap<V>(m: map<seq<bv8>, Entry<V>>, edits: seq<Edit<V>>, cs: CaseSensitivity): (seq<Answer<V>>, map<seq<bv8>, Entry<V>>)
    decreases |edits|
  {
    if edits == [] then ([], m)
    else
      var (m', a) := EditMap(m, edits[0], cs);
      var (rest, final) := RunMap(m', edits[1..], cs);
      ([a] + rest, final)
  }

  lemma {:induction false} RunFrom<V>(s: State<V>, edits: seq<Edit<V>>, cs: CaseSensitivity)
    requires Valid(s, cs)
    ensures var (answers, final) := RunMutator(s, edits, cs);
      Sorted(final, cs) && (answers, Contents(final, cs)) == RunMap(Model(s, cs), edits, cs)
    decreases |edits|
  {
    hide Less, Fold, Live, EditMutator, EditMap, Compacted, SortedRange, DistinctKeys;
    if edits == [] {
      CompactKeeps(s, cs);
      CompactedSize(s, cs);
    } else {
      EditRefines(s, edits[0], cs);
      RunFrom(EditMutator(s, edits[0], cs).0, edits[1..], cs);
    }
  }

  /** Started on any PathMap, any run of edits is answered as a plain map would answer it, and
      finalize() returns the strictly sorted vector with exactly that map's contents; there is only
      one such vector. */
  lemma MutatorRefinesMap<V>(sorted: seq<Entry<V>>, edits: seq<Edit<V>>, cs: CaseSensitivity)
    requires Sorted(sorted, cs)
    ensures Valid(State(sorted, |sorted|, {}), cs)
    ensures var (answers, final) := RunMutator(State(sorted, |sorted|, {}), edits, cs);
      && Sorted(final, cs)
      && (answers, Contents(final, cs)) == RunMap(Contents(sorted, cs), edits, cs)
      && forall other :: Sorted(other, cs) && Contents(other, cs) == Contents(final, cs) ==> other == final
  {
    hide Less, Fold, RunMutator, RunMap, Live;
    var s := State(sorted, |sorted|, {});
    SortedDistinct(sorted, cs);
    RunFrom(s, edits, cs);
    var (answers, final) := RunMutator(s, edits, cs);
    forall other | Sorted(other, cs) && Contents(other, cs) == Contents(final, cs) ensures other == final {
      Canonical(other, final, cs);
    }
  }
}
