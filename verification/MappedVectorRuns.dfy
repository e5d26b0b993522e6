/** The operations of MappedDiskVector, with the system failing at any point, one by one and over whole runs. */
module MappedVectorRuns {
  import opened Buffers
  import opened MappedVector

  /** An open vector: the file, the size of the mapping, and end() - begin(). */
  datatype Vector = Vector(file: File, mapSize: nat, count: nat)

  /** Where emplace_back() fails, if it does.  A failing constructor leaves some bytes in its slot; all
      of them are there when the process stops between the record and the count.  A failing
      extension may have grown the file. */
  datatype Fault =
    | NoFault
    | ExtendFails(grown: nat)
    | RemapFails
    | PopulateGrowthFails
    | PopulateSlotFails
    | ConstructorThrows(garbage: seq<Byte>)

  predicate Valid(v: Vector, t: Layout) {
    && GoodLayout(t)
    && Decodable(v.file, t)
    && v.file.header.entryCount == v.count
    && v.mapSize > 0 && v.mapSize % PAGE_SIZE == 0
    && HEADER_SIZE + Offset(t.size, v.count) <= v.mapSize <= Length(v.file)
  }

  function Contents(v: Vector, t: Layout): seq<Record>
    requires Valid(v, t)
  {
    Decoded(v.file, t)
  }

  predicate HasRoom(v: Vector, t: Layout) {
    HEADER_SIZE + Offset(t.size, v.count) + t.size <= v.mapSize
  }

  /** The append gets through: nothing fails, or only what growing needs, while there is room. */
  predicate GetsThrough(fault: Fault, hasRoom: bool) {
    fault.NoFault? || (hasRoom && !fault.PopulateSlotFails? && !fault.ConstructorThrows?)
  }

  /** The growing part of emplace_back(). */
  function Grown(v: Vector, fault: Fault): (r: (Vector, bool))
    requires v.file.Full?
  {
    var size := v.mapSize + GROWTH_BYTES;
    match fault
    case ExtendFails(grown) => (v.(file := Extended(v.file, if grown < size then grown else size)), false)
    case RemapFails => (v.(file := Extended(v.file, size)), false)
    case PopulateGrowthFails => (v.(file := Extended(v.file, size), mapSize := size), false)
    case _ => (v.(file := Extended(v.file, size), mapSize := size), true)
  }

  /** The record is constructed in the slot at end(), and then counted. */
  function Placed(v: Vector, t: Layout, r: Record, fault: Fault): (Vector, bool)
    requires Valid(v, t) && HasRoom(v, t) && |r| == t.size
  {
    var at := Offset(t.size, v.count);
    match fault
    case PopulateSlotFails => (v, false)
    case ConstructorThrows(garbage) =>
      var g := if |garbage| <= t.size then garbage else garbage[..t.size];
      (v.(file := v.file.(body := Written(v.file.body, at, g))), false)
    case _ =>
      (v.(file := Full(v.file.header.(entryCount := v.count + 1), Written(v.file.body, at, r)), count := v.count + 1), true)
  }

  function EmplaceBack(v: Vector, t: Layout, r: Record, fault: Fault): (Vector, bool)
    requires Valid(v, t) && |r| == t.size
  {
    if HasRoom(v, t) then Placed(v, t, r, fault)
    else
      GrownKeeps(v, t, fault);
      var (w, ok) := Grown(v, fault);
      if ok then Placed(w, t, r, fault) else (w, false)
  }

  function PopBack(v: Vector): Vector
    requires v.count > 0 && v.file.Full?
  {
    v.(file := v.file.(header := v.file.header.(entryCount := v.count - 1)), count := v.count - 1)
  }

  // ----- one operation -----

  lemma GrownKeeps(v: Vector, t: Layout, fault: Fault)
    requires Valid(v, t)
    ensures var (w, ok) := Grown(v, fault);
      && Valid(w, t) && Contents(w, t) == Contents(v, t) && w.count == v.count
      && (ok ==> HasRoom(w, t))
  {
    hide Records, Offset;
    var (w, ok) := Grown(v, fault);
    RecordsExtended(v.file.body, w.file.body, t.size, v.count);
  }

  lemma PlacedIs(v: Vector, t: Layout, r: Record, fault: Fault)
    requires Valid(v, t) && HasRoom(v, t) && |r| == t.size
    ensures var (w, ok) := Placed(v, t, r, fault);
      Valid(w, t) && Contents(w, t) == if ok then Contents(v, t) + [r] else Contents(v, t)
  {
    hide Records, Written, Offset;
    match fault
    case PopulateSlotFails =>
    case ConstructorThrows(garbage) =>
      WrittenBehind(v.file.body, t.size, v.count, if |garbage| <= t.size then garbage else garbage[..t.size]);
    case _ =>
      WrittenNext(v.file.body, t.size, v.count, r);
      OffsetNext(t.size, v.count);
  }

  /** emplace_back() appends the record, or fails and leaves the contents alone; it fails exactly when
      something that it needs does. */
  lemma EmplaceBackIs(v: Vector, t: Layout, r: Record, fault: Fault)
    requires Valid(v, t) && |r| == t.size
    ensures var (w, ok) := EmplaceBack(v, t, r, fault);
      && Valid(w, t) && Contents(w, t) == (if ok then Contents(v, t) + [r] else Contents(v, t))
      && (ok <==> GetsThrough(fault, HasRoom(v, t)))
      && (ok ==> w.mapSize == if HasRoom(v, t) then v.mapSize else v.mapSize + GROWTH_BYTES)
  {
    hide Records, Placed, Offset, Grown;
    if HasRoom(v, t) {
      PlacedIs(v, t, r, fault);
    } else {
      GrownKeeps(v, t, fault);
      var (w, ok) := Grown(v, fault);
      if ok {
        PlacedIs(w, t, r, fault);
      }
    }
    PlacedSucceeds(v, t, r, fault);
  }

  lemma PlacedSucceeds(v: Vector, t: Layout, r: Record, fault: Fault)
    requires Valid(v, t) && |r| == t.size
    ensures var (w, ok) := EmplaceBack(v, t, r, fault);
      && (ok <==> GetsThrough(fault, HasRoom(v, t)))
      && (ok ==> w.mapSize == if HasRoom(v, t) then v.mapSize else v.mapSize + GROWTH_BYTES)
  {
    hide Records, Offset, Written;
  }

  lemma PopBackIs(v: Vector, t: Layout)
    requires Valid(v, t) && v.count > 0
    ensures Valid(PopBack(v), t) && Contents(PopBack(v), t) == Contents(v, t)[..v.count - 1]
  {
    hide Offset;
    SlotFits(t.size, v.count - 1, v.count);
  }

  // ----- open() -----

  /** Where open() fails, if it does.  The write of the header may stop after some of its bytes. */
  datatype OpenFault = NoOpenFault | OpenExtendFails(grown: nat) | HeaderWriteFails(written: nat) | MapFails | PopulateFails

  /** Between runs of the process there is only the file. */
  datatype State = Closed(file: File) | Open(vector: Vector)

  function FileOf(s: State): File {
    if s.Closed? then s.file else s.vector.file
  }

  function FileOfZeros(length: nat): File {
    if length < HEADER_SIZE then Short(length)
    else Full(Header(0, 0, 0, 0, 0, 0), Zeros(length - HEADER_SIZE))
  }

  /** What is there of a 32-bit field when its first k bytes, of little-endian order, replace zeros. */
  function FirstBytes(x: nat, k: int): nat {
    if k <= 0 then 0
    else if k == 1 then x % 0x100
    else if k == 2 then x % 0x1_0000
    else if k == 3 then x % 0x100_0000
    else x
  }

  /** A new file of which the first n bytes of the header were written; its last two fields are zero. */
  function Created(t: Layout, n: nat): File {
    Full(Header(FirstBytes(MAGIC, n), FirstBytes(1, n - 4), FirstBytes(t.version, n - 8), FirstBytes(t.size, n - 12), 0, 0),
         Zeros(GROWTH_BYTES - HEADER_SIZE))
  }

  /** The constructor: the file and the mapping are kept a whole number of pages. */
  function Mapped(f: File, fault: OpenFault): State
    requires f.Full?
  {
    var size := RoundUpToNonzeroPageSize(Length(f));
    if Length(f) != size && fault.OpenExtendFails? then
      Closed(Extended(f, if fault.grown < size then fault.grown else size))
    else if fault.MapFails? || fault.PopulateFails? then Closed(Extended(f, size))
    else Open(Vector(Extended(f, size), size, f.header.entryCount))
  }

  /** initializeFromScratch(). */
  function Initialized(t: Layout, fault: OpenFault): State {
    match fault
    case OpenExtendFails(grown) => Closed(FileOfZeros(if grown < GROWTH_BYTES then grown else GROWTH_BYTES))
    case HeaderWriteFails(written) => Closed(Created(t, written))
    case _ => Mapped(Created(t, HEADER_SIZE), fault)
  }

  /** open() as far as migration, which MappedVectorMigration takes up. */
  function OpenFile(f: File, t: Layout, earlier: seq<Layout>, fault: OpenFault): State {
    match Decide(f, t, earlier)
    case Fresh => Initialized(t, fault)
    case Use => if f.Full? then Mapped(f, fault) else Closed(f)
    case _ => Closed(f)
  }

  /** Extending, mapping and populating are what opening needs; extending only for part of a page. */
  predicate Opens(f: File, fault: OpenFault) {
    !fault.MapFails? && !fault.PopulateFails? && (fault.OpenExtendFails? ==> Length(f) > 0 && Length(f) % PAGE_SIZE == 0)
  }

  /** The check at the end of the constructor always passes: the records lie inside the mapping. */
  lemma MappedIs(f: File, t: Layout, fault: OpenFault)
    requires GoodLayout(t) && Decodable(f, t)
    ensures var s := Mapped(f, fault);
      && Decodable(FileOf(s), t) && Decoded(FileOf(s), t) == Decoded(f, t)
      && (s.Open? ==> Valid(s.vector, t))
      && (s.Open? <==> Opens(f, fault))
      && (s.Open? ==> s.vector.mapSize == RoundUpToNonzeroPageSize(Length(f)))
  {
    hide Records, Offset;
    var s := Mapped(f, fault);
    RecordsExtended(f.body, FileOf(s).body, t.size, f.header.entryCount);
  }

  lemma FreshIsEmpty(t: Layout, earlier: seq<Layout>, fault: OpenFault)
    requires GoodLayout(t)
    ensures var s := OpenFile(Short(0), t, earlier, fault);
      && (s.Open? ==> Valid(s.vector, t) && Contents(s.vector, t) == [])
      && (s.Open? <==> fault.NoOpenFault?)
      && (s.Open? ==> s.vector.mapSize == GROWTH_BYTES)
  {
    PartialHeader(t, earlier, HEADER_SIZE);
    MappedIs(Created(t, HEADER_SIZE), t, fault);
  }

  /** Enough of the header was written: what it lacks is zero anyway. */
  predicate HeaderSurvives(t: Layout, n: nat) {
    n >= 14 || (n == 13 && t.size < 0x100)
  }

  /** A header that was written in part is as good as a whole one if all that is not zero was written;
      otherwise open() refuses the file. */
  lemma PartialHeader(t: Layout, earlier: seq<Layout>, n: nat)
    requires GoodLayout(t)
    ensures HeaderSurvives(t, n) ==> Created(t, n) == Created(t, HEADER_SIZE) && Decodable(Created(t, n), t) && Decoded(Created(t, n), t) == []
    ensures !HeaderSurvives(t, n) ==> Decide(Created(t, n), t, earlier).Refuse?
    ensures Decide(Created(t, n), t, earlier).Use? <==> HeaderSurvives(t, n) && !HasDuplicates([t] + earlier)
  {
    hide HasDuplicates, MatchOld, Zeros;
    OffsetNext(t.size, 0);
    assert t.size % 0x1_0000 == t.size;
  }

  /** A process that stops inside initializeFromScratch() before any of the header leaves a file that
      open() refuses if it had been extended, even if not enough for a header. */
  lemma InterruptedInitialization(t: Layout, earlier: seq<Layout>, length: nat)
    ensures Decide(FileOfZeros(length), t, earlier) ==
      if length == 0 then Fresh else if length < HEADER_SIZE then Refuse(IncompleteHeader) else Refuse(InvalidHeader)
  {
  }

  // ----- whole runs -----

  datatype Op =
    | Append(record: Record, fault: Fault)
    | RemoveLast
    | Reopen(openFault: OpenFault)   // after a clean close, or after the process stopped

  predicate Enabled(s: State, op: Op, t: Layout) {
    match op
    case Append(r, _) => s.Open? && Valid(s.vector, t) && |r| == t.size
    case RemoveLast => s.Open? && s.vector.count > 0 && s.vector.file.Full?
    case Reopen(_) => true
  }

  function Step(s: State, op: Op, t: Layout, earlier: seq<Layout>): (State, bool)
    requires Enabled(s, op, t)
  {
    match op
    case Append(r, fault) =>
      var (v, ok) := EmplaceBack(s.vector, t, r, fault);
      (Open(v), ok)
    case RemoveLast => (Open(PopBack(s.vector)), true)
    case Reopen(fault) =>
      var s' := OpenFile(FileOf(s), t, earlier, fault);
      (s', s'.Open?)
  }

  predicate Good(s: State, t: Layout) {
    GoodLayout(t) && Decodable(FileOf(s), t) && (s.Open? ==> Valid(s.vector, t))
  }

  /** What the operation does to the list that the file stands for, given whether it succeeded. */
  function StepList(list: seq<Record>, op: Op, ok: bool): seq<Record> {
    match op
    case Append(r, _) => if ok then list + [r] else list
    case RemoveLast => if list == [] then [] else list[..|list| - 1]
    case Reopen(_) => list
  }

  lemma StepIsList(s: State, op: Op, t: Layout, earlier: seq<Layout>)
    requires Good(s, t) && Enabled(s, op, t) && !HasDuplicates([t] + earlier)
    requires forall i :: 0 <= i < |earlier| ==> earlier[i].size > 0
    ensures var (s', ok) := Step(s, op, t, earlier);
      && Good(s', t)
      && Decoded(FileOf(s'), t) == StepList(Decoded(FileOf(s), t), op, ok)
  {
    hide Records, Offset, EmplaceBack, Decide, Mapped, HasDuplicates;
    match op
    case Append(r, fault) => EmplaceBackIs(s.vector, t, r, fault);
    case RemoveLast => PopBackIs(s.vector, t);
    case Reopen(fault) =>
      DecideMeansDecodable(FileOf(s), t, earlier);
      MappedIs(FileOf(s), t, fault);
  }

  predicate IsRun(states: seq<State>, ops: seq<Op>, flags: seq<bool>, t: Layout, earlier: seq<Layout>) {
    && |states| == |ops| + 1 && |flags| == |ops|
    && forall i :: 0 <= i < |ops| ==> Enabled(states[i], ops[i], t) && (states[i + 1], flags[i]) == Step(states[i], ops[i], t, earlier)
  }

  function RunList(list: seq<Record>, ops: seq<Op>, flags: seq<bool>, n: nat): seq<Record>
    requires n <= |ops| == |flags|
  {
    if n == 0 then list else StepList(RunList(list, ops, flags, n - 1), ops[n - 1], flags[n - 1])
  }

  /** Through any run of appends, removals and reopenings, each failing or stopped at any of its
      points, the file always decodes to the list that the successful operations describe; an open
      vector has it inside a whole number of pages, with its own count and the header's in agreement. */
  lemma {:induction false} RunIsList(states: seq<State>, ops: seq<Op>, flags: seq<bool>, t: Layout, earlier: seq<Layout>, n: nat)
    requires IsRun(states, ops, flags, t, earlier) && n <= |ops|
    requires Good(states[0], t) && !HasDuplicates([t] + earlier)
    requires forall i :: 0 <= i < |earlier| ==> earlier[i].size > 0
    ensures Good(states[n], t)
    ensures Decoded(FileOf(states[n]), t) == RunList(Decoded(FileOf(states[0]), t), ops, flags, n)
  {
    hide Good, Step, Enabled, Decoded, HasDuplicates;
    if n > 0 {
      RunIsList(states, ops, flags, t, earlier, n - 1);
      StepIsList(states[n - 1], ops[n - 1], t, earlier);
    }
  }

  /** Creation writes a header that serves unless extending the file or writing enough of the header fails. */
  predicate WritesHeader(t: Layout, fault: OpenFault) {
    !fault.OpenExtendFails? && (fault.HeaderWriteFails? ==> HeaderSurvives(t, fault.written))
  }

  predicate Refused(s: State, t: Layout, earlier: seq<Layout>) {
    s.Closed? && Decide(s.file, t, earlier).Refuse?
  }

  lemma CreationIs(t: Layout, earlier: seq<Layout>, fault: OpenFault)
    requires GoodLayout(t)
    ensures var s := Initialized(t, fault);
      && (WritesHeader(t, fault) ==> Good(s, t) && Decoded(FileOf(s), t) == [])
      && (fault == OpenExtendFails(0) ==> s == Closed(Short(0)))
      && (!WritesHeader(t, fault) && fault != OpenExtendFails(0) ==> Refused(s, t, earlier))
  {
    hide Decide, Decodable, Created, Mapped, Decoded;
    if fault.OpenExtendFails? {
      InterruptedInitialization(t, earlier, if fault.grown < GROWTH_BYTES then fault.grown else GROWTH_BYTES);
    } else if fault.HeaderWriteFails? {
      PartialHeader(t, earlier, fault.written);
    } else {
      PartialHeader(t, earlier, HEADER_SIZE);
      MappedIs(Created(t, HEADER_SIZE), t, fault);
    }
  }

  /** Attempts that do not even extend the file leave it empty. */
  lemma {:induction false} NothingYet(states: seq<State>, ops: seq<Op>, flags: seq<bool>, t: Layout, earlier: seq<Layout>, j: nat)
    requires IsRun(states, ops, flags, t, earlier) && j <= |ops| && states[0] == Closed(Short(0))
    requires forall i :: 0 <= i < j ==> ops[i] == Reopen(OpenExtendFails(0))
    ensures states[j] == Closed(Short(0)) && RunList([], ops, flags, j) == []
  {
    if j > 0 {
      NothingYet(states, ops, flags, t, earlier, j - 1);
    }
  }

  /** A run that starts with the file not there.  The first attempt to open it that changes it decides,
      `ops[j]`: if enough of the header is written, the file decodes from then on to the list, empty at
      first, that the successful operations describe; otherwise every open() refuses it for ever. */
  lemma RunFromNothing(states: seq<State>, ops: seq<Op>, flags: seq<bool>, t: Layout, earlier: seq<Layout>, j: nat, n: nat)
    requires IsRun(states, ops, flags, t, earlier) && j < n <= |ops|
    requires states[0] == Closed(Short(0)) && GoodLayout(t) && !HasDuplicates([t] + earlier)
    requires forall i :: 0 <= i < |earlier| ==> earlier[i].size > 0
    requires forall i :: 0 <= i < j ==> ops[i] == Reopen(OpenExtendFails(0))
    requires ops[j] != Reopen(OpenExtendFails(0))
    ensures ops[j].Reopen?
    ensures WritesHeader(t, ops[j].openFault) ==>
      Good(states[n], t) && Decoded(FileOf(states[n]), t) == RunList([], ops, flags, n)
    ensures !WritesHeader(t, ops[j].openFault) ==> Refused(states[n], t, earlier) && states[n] == states[j + 1]
  {
    hide Decoded, HasDuplicates, Decodable, Initialized, EmplaceBack, WritesHeader, Refused, Good;
    NothingYet(states, ops, flags, t, earlier, j);
    assert Enabled(states[j], ops[j], t);
    CreationIs(t, earlier, ops[j].openFault);
    assert states[j + 1] == Initialized(t, ops[j].openFault);
    if WritesHeader(t, ops[j].openFault) {
      RunFromCreated(states, ops, flags, t, earlier, j, n);
    } else {
      RefusedStays(states, ops, flags, t, earlier, j + 1, n);
    }
  }

  lemma {:induction false} RunFromCreated(states: seq<State>, ops: seq<Op>, flags: seq<bool>, t: Layout, earlier: seq<Layout>, j: nat, n: nat)
    requires IsRun(states, ops, flags, t, earlier) && j < n <= |ops| && ops[j].Reopen? && RunList([], ops, flags, j) == []
    requires Good(states[j + 1], t) && Decoded(FileOf(states[j + 1]), t) == [] && !HasDuplicates([t] + earlier)
    requires forall i :: 0 <= i < |earlier| ==> earlier[i].size > 0
    ensures Good(states[n], t)
    ensures Decoded(FileOf(states[n]), t) == RunList([], ops, flags, n)
  {
    hide Good, Step, Enabled, Decoded, HasDuplicates;
    if n > j + 1 {
      RunFromCreated(states, ops, flags, t, earlier, j, n - 1);
      StepIsList(states[n - 1], ops[n - 1], t, earlier);
    }
  }

  /** A file that open() refuses stays as it is. */
  lemma {:induction false} RefusedStays(states: seq<State>, ops: seq<Op>, flags: seq<bool>, t: Layout, earlier: seq<Layout>, j: nat, n: nat)
    requires IsRun(states, ops, flags, t, earlier) && j <= n <= |ops| && Refused(states[j], t, earlier)
    ensures states[n] == states[j]
  {
    hide EmplaceBack, Decide;
    if j < n {
      RefusedStays(states, ops, flags, t, earlier, j, n - 1);
      assert Enabled(states[n - 1], ops[n - 1], t);
    }
  }

  /** And so do zeros: every later open() is refused, unless not even the file was extended. */
  lemma ZerosStay(states: seq<State>, ops: seq<Op>, flags: seq<bool>, t: Layout, earlier: seq<Layout>, length: nat, n: nat)
    requires IsRun(states, ops, flags, t, earlier) && n <= |ops|
    requires length > 0 && states[0] == Closed(FileOfZeros(length))
    ensures states[n] == states[0]
  {
    hide FileOfZeros, Decide, Step, Enabled;
    InterruptedInitialization(t, earlier, length);
    RefusedStays(states, ops, flags, t, earlier, 0, n);
  }

  // ----- the object -----

  class MappedDiskVector {
    const layout: Layout
    var file: File
    var mapSize: nat
    var count: nat

    function Now(): Vector
      reads this
    {
      Vector(file, mapSize, count)
    }

    ghost predicate IsValid()
      reads this
    {
      Valid(Now(), layout)
    }

    /** The vector as the caller sees it. */
    ghost function View(): seq<Record>
      requires IsValid()
      reads this
    {
      Contents(Now(), layout)
    }

    /** From what open() has made of the file. */
    constructor (v: Vector, layout: Layout)
      requires Valid(v, layout)
      ensures IsValid() && Now() == v && this.layout == layout
    {
      this.layout, file, mapSize, count := layout, v.file, v.mapSize, v.count;
    }

    /** emplace_back(); not ok means that it threw. */
    method Emplace(r: Record, fault: Fault) returns (ok: bool)
      requires IsValid() && |r| == layout.size
      modifies this
      ensures (Now(), ok) == EmplaceBack(old(Now()), layout, r, fault)
      ensures IsValid() && View() == if ok then old(View()) + [r] else old(View())
    {
      hide Records, Decodable, Offset, Written, Extended;
      EmplaceBackIs(Now(), layout, r, fault);
      if !(HEADER_SIZE + Offset(layout.size, count) + layout.size <= mapSize) {
        GrownKeeps(Now(), layout, fault);
        DecodableFull(file, layout);
        var newFileSize := mapSize + GROWTH_BYTES;
        assert newFileSize % PAGE_SIZE == 0;
        file := Extended(file, if fault.ExtendFails? && fault.grown < newFileSize then fault.grown else newFileSize);
        if fault.ExtendFails? || fault.RemapFails? {
          return false;
        }
        mapSize := newFileSize;
        if fault.PopulateGrowthFails? {
          return false;
        }
      }
      var out := Offset(layout.size, count);
      DecodableFull(file, layout);
      if fault.PopulateSlotFails? {
        return false;
      }
      if fault.ConstructorThrows? {
        file := file.(body := Written(file.body, out, if |fault.garbage| <= layout.size then fault.garbage else fault.garbage[..layout.size]));
        return false;
      }
      file := file.(body := Written(file.body, out, r));
      count := count + 1;
      file := file.(header := file.header.(entryCount := file.header.entryCount + 1));
      return true;
    }

    method Pop()
      requires IsValid() && count > 0
      modifies this
      ensures Now() == PopBack(old(Now()))
      ensures IsValid() && View() == old(View())[..|old(View())| - 1]
    {
      hide Records, Offset;
      PopBackIs(Now(), layout);
      count := count - 1;
      file := file.(header := file.header.(entryCount := file.header.entryCount - 1));
    }
  }

  lemma DecodableFull(f: File, t: Layout)
    requires Decodable(f, t)
    ensures f.Full?
  {
  }
}
