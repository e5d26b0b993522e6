/** MappedDiskVector's migration of a file of an older record type: every record is converted into a
    temporary file, which then takes the place of the old one in a single rename. */
module MappedVectorMigration {
  import opened Numbering
  import opened MappedVector
  import opened MappedVectorRuns

  /** `construct(j, x)`: the constructor of type j from a record of type j + 1, where 0 is the current
      type and j is old type number j - 1. */
  type Constructors = (nat, Record) -> Record

  /** The function objects that Migrator passes down: the constructor of the current type, or an older
      type's constructor put in front of another object. */
  datatype Convert = Current | InFront(outer: Convert, layer: nat)

  function Apply(c: Convert, construct: Constructors, x: Record): Record {
    match c
    case Current => construct(0, x)
    case InFront(outer, j) => Apply(outer, construct, construct(j, x))
  }

  /** The recursion of Migrator over the old types from `position` on. */
  function Chosen(position: nat, index: nat, convert: Convert): Convert
    decreases index
  {
    if index == 0 then convert else Chosen(position + 1, index - 1, InFront(convert, position + 1))
  }

  /** T{O0{...{O(k-1){x}}}} */
  function Through(construct: Constructors, k: nat, x: Record): Record {
    if k == 0 then construct(0, x) else Through(construct, k - 1, construct(k, x))
  }

  lemma {:induction false} ChosenFrom(construct: Constructors, position: nat, index: nat, convert: Convert)
    requires forall y :: Apply(convert, construct, y) == Through(construct, position, y)
    ensures forall x :: Apply(Chosen(position, index, convert), construct, x) == Through(construct, position + index, x)
    decreases index
  {
    if index > 0 {
      ChosenFrom(construct, position + 1, index - 1, InFront(convert, position + 1));
    }
  }

  /** A file of old type number k is converted by the constructors of all the types since, in order. */
  lemma ChosenIsThrough(construct: Constructors, k: nat, x: Record)
    ensures Apply(Chosen(0, k, Current), construct, x) == Through(construct, k, x)
  {
    ChosenFrom(construct, 0, k, Current);
  }

  // ----- migration -----

  /** The directory: the vector's path and the temporary path beside it. */
  datatype Disk = Disk(main: File, tmp: Option<File>)

  /** What fails, if anything: opening the old file, creating the temporary one, a conversion, an
      append, or the rename. */
  datatype Faults = Faults(original: OpenFault, createFails: bool, newFile: OpenFault,
                           convertThrows: nat -> bool, append: nat -> Fault, renameFails: bool)

  function Converted(construct: Constructors, k: nat, records: seq<Record>): (r: seq<Record>)
    ensures |r| == |records| && forall i :: 0 <= i < |records| ==> r[i] == Through(construct, k, records[i])
  {
    seq(|records|, i requires 0 <= i < |records| => Through(construct, k, records[i]))
  }

  lemma ConvertedNext(construct: Constructors, k: nat, records: seq<Record>, i: nat)
    requires i < |records|
    ensures Converted(construct, k, records[..i + 1]) == Converted(construct, k, records[..i]) + [Through(construct, k, records[i])]
  {
    assert records[..i + 1] == records[..i] + [records[i]];
  }

  lemma ConvertedEnds(construct: Constructors, k: nat, records: seq<Record>)
    ensures Converted(construct, k, records[..0]) == [] && records[..|records|] == records
  {
  }

  predicate Holds(f: File, t: Layout, records: seq<Record>) {
    Decodable(f, t) && Decoded(f, t) == records
  }

  /** How far the new file is mapped before record number i is appended to it, when nothing fails. */
  function MappedFor(size: nat, i: nat): nat {
    if i == 0 then GROWTH_BYTES
    else
      var before := MappedFor(size, i - 1);
      if HEADER_SIZE + Offset(size, i - 1) + size <= before then before else before + GROWTH_BYTES
  }

  /** The i-th conversion and append get through. */
  predicate ConvertsAt(t: Layout, faults: Faults, i: nat) {
    && !faults.convertThrows(i)
    && GetsThrough(faults.append(i), HEADER_SIZE + Offset(t.size, i) + t.size <= MappedFor(t.size, i))
  }

  predicate AllConvert(t: Layout, faults: Faults, n: nat) {
    forall i :: 0 <= i < n ==> ConvertsAt(t, faults, i)
  }

  lemma ConvertsNext(t: Layout, faults: Faults, i: nat, n: nat)
    requires AllConvert(t, faults, i) && i < n
    ensures AllConvert(t, faults, i + 1) <==> ConvertsAt(t, faults, i)
    ensures !ConvertsAt(t, faults, i) ==> !AllConvert(t, faults, n)
  {
  }

  lemma NoneToConvert(t: Layout, faults: Faults)
    ensures AllConvert(t, faults, 0)
  {
  }

  /** The new file comes to be: the old one opens, the new one is created, and it opens. */
  predicate Starts(f: File, faults: Faults) {
    Opens(f, faults.original) && !faults.createFails && faults.newFile.NoOpenFault?
  }

  lemma {:induction false} ThroughSize(construct: Constructors, k: nat, x: Record, t: Layout)
    requires forall y :: |construct(0, y)| == t.size
    ensures |Through(construct, k, x)| == t.size
  {
    if k > 0 {
      ThroughSize(construct, k - 1, construct(k, x), t);
    }
  }

  /** migrateFrom() for a file of type `o`, which is old type number k.  `trail` is every state of the
      directory on the way, the last one included. */
  method Migrate(disk: Disk, t: Layout, o: Layout, construct: Constructors, k: nat, faults: Faults)
    returns (disk': Disk, migrated: bool, ghost trail: seq<Disk>)
    requires GoodLayout(t) && GoodLayout(o) && Decodable(disk.main, o)
    requires forall y :: |construct(0, y)| == t.size
    ensures trail != [] && trail[|trail| - 1] == disk'
    ensures forall i :: 0 <= i < |trail| - 1 ==> Holds(trail[i].main, o, Decoded(disk.main, o))
    ensures !migrated ==> Holds(disk'.main, o, Decoded(disk.main, o))
    ensures migrated ==> Holds(disk'.main, t, Converted(construct, k, Decoded(disk.main, o)))
    ensures migrated <==> Starts(disk.main, faults) && AllConvert(t, faults, |Decoded(disk.main, o)|) && !faults.renameFails
    ensures Starts(disk.main, faults) ==> disk'.tmp == None
  {
    hide Decoded, Decodable, Mapped, Initialized, Valid, EmplaceBack, Through, Opens, GetsThrough, Offset, Holds, AllConvert, Converted;
    HoldsIs(disk.main, o);
    NoneToConvert(t, faults);
    ghost var before := Decoded(disk.main, o);
    ConvertedEnds(construct, k, before);
    disk', migrated, trail := disk, false, [];
    DecodableIs(disk'.main, o);
    var original := Mapped(disk'.main, faults.original);
    MappedIs(disk'.main, o, faults.original);
    HoldsIs(FileOf(original), o);
    disk' := disk'.(main := FileOf(original));
    trail := [disk'];
    if original.Closed? || faults.createFails {
      return;
    }
    // createOrOverwrite() truncates whatever an earlier attempt has left
    disk' := disk'.(tmp := Some(Short(0)));
    trail := trail + [disk'];
    var created := Initialized(t, faults.newFile);
    FreshIsEmpty(t, [], faults.newFile);
    InitializedIs(t, faults.newFile);
    disk' := disk'.(tmp := Some(FileOf(created)));
    trail := trail + [disk'];
    if created.Closed? {
      return;
    }
    var newVector := created.vector;
    ValidIs(original.vector, o);
    var i: nat := 0;
    while i < original.vector.count
      invariant i <= |before| == original.vector.count
      invariant AllConvert(t, faults, i)
      invariant newVector.mapSize == MappedFor(t.size, i)
      invariant Valid(newVector, t) && Contents(newVector, t) == Converted(construct, k, before[..i])
      invariant trail != [] && trail[|trail| - 1] == disk'
      invariant disk' == Disk(FileOf(original), Some(newVector.file))
      invariant forall j :: 0 <= j < |trail| ==> Holds(trail[j].main, o, before)
    {
      ConvertsNext(t, faults, i, |before|);
      if faults.convertThrows(i) {
        disk' := disk'.(tmp := None);
        trail := trail + [disk'];
        return;
      }
      ChosenIsThrough(construct, k, before[i]);
      ThroughSize(construct, k, before[i], t);
      RecordIs(original.vector, o, i);
      var size := o.size;
      var record := original.vector.file.body[Offset(size, i)..Offset(size, i) + size];
      var r := Apply(Chosen(0, k, Current), construct, record);
      EmplaceBackIs(newVector, t, r, faults.append(i));
      assert newVector.count == i by {
        ValidIs(newVector, t);
      }
      var (next, ok) := EmplaceBack(newVector, t, r, faults.append(i));
      newVector := next;
      disk' := disk'.(tmp := Some(newVector.file));
      trail := trail + [disk'];
      if !ok {
        disk' := disk'.(tmp := None);
        trail := trail + [disk'];
        return;
      }
      ConvertedNext(construct, k, before, i);
      i := i + 1;
    }
    if faults.renameFails {
      disk' := disk'.(tmp := None);
      trail := trail + [disk'];
      return;
    }
    ValidIs(newVector, t);
    HoldsIs(newVector.file, t);
    disk', migrated := Disk(newVector.file, None), true;
    trail := trail + [disk'];
  }

  lemma HoldsIs(f: File, t: Layout)
    requires Decodable(f, t)
    ensures Holds(f, t, Decoded(f, t))
  {
  }

  lemma DecodableIs(f: File, t: Layout)
    requires Decodable(f, t)
    ensures f.Full?
  {
  }

  lemma ValidIs(v: Vector, t: Layout)
    requires Valid(v, t)
    ensures v.file.Full? && Decodable(v.file, t) && |Decoded(v.file, t)| == v.count && Contents(v, t) == Decoded(v.file, t)
  {
  }

  lemma InitializedIs(t: Layout, fault: OpenFault)
    ensures Initialized(t, fault) == OpenFile(Short(0), t, [], fault)
  {
  }

  lemma RecordIs(v: Vector, t: Layout, i: nat)
    requires Valid(v, t) && i < v.count
    ensures v.file.Full? && |Decoded(v.file, t)| == v.count && Offset(t.size, i) + t.size <= |v.file.body|
    ensures Decoded(v.file, t)[i] == v.file.body[Offset(t.size, i)..Offset(t.size, i) + t.size]
  {
    hide Offset;
    RecordsAt(v.file.body, t.size, v.count, i);
  }

  /** Whatever state a migration is stopped in, the next open() takes it up again from the complete old
      file, or uses the complete new one. */
  lemma NextOpen(f: File, t: Layout, earlier: seq<Layout>, k: nat)
    requires t.size > 0 && k < |earlier| && forall i :: 0 <= i < |earlier| ==> earlier[i].size > 0
    requires !HasDuplicates([t] + earlier)
    ensures Decodable(f, earlier[k]) ==> Decide(f, t, earlier) == Decision.Migrate(k) && !Decodable(f, t)
    ensures Decodable(f, t) ==> Decide(f, t, earlier) == Use
  {
    hide Decide;
    DecideMeansDecodable(f, t, earlier);
    var all := [t] + earlier;
    assert all[0] == t && forall i :: 0 <= i < |earlier| ==> all[i + 1] == earlier[i];
  }
}
