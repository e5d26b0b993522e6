/** MappedDiskVector (eden/common/utils/MappedDiskVector.h): a vector of fixed-size records in a memory
    mapped file.  The mapping is shared, so a write to it is a write to the file, and whatever the
    file holds when the process stops is what the next open() finds. */
module MappedVector {

  import opened Buffers

  type Record = seq<Byte>

  const HEADER_SIZE := 32
  const PAGE_SIZE := 4096
  const GROWTH_BYTES := 256 * PAGE_SIZE
  const MAX_RECORD_SIZE := 8 * PAGE_SIZE   // what the static assertion on T allows
  const MAGIC := 0x0056444d

  datatype Header = Header(magic: nat, version: nat, recordVersion: nat, recordSize: nat, entryCount: nat, unused: nat)

  /** A file too short for a header, or a header and the bytes behind it. */
  datatype File = Short(length: nat) | Full(header: Header, body: seq<Byte>)

  function Length(f: File): nat {
    if f.Short? then f.length else HEADER_SIZE + |f.body|
  }

  /** A record type: its VERSION and its size. */
  datatype Layout = Layout(version: nat, size: nat)

  predicate GoodLayout(t: Layout) {
    0 < t.size <= MAX_RECORD_SIZE
  }

  // ----- what a file means -----

  /** Where record number n begins. */
  function Offset(size: nat, n: nat): nat {
    n * size
  }

  lemma OffsetNext(size: nat, n: nat)
    ensures Offset(size, 0) == 0 && Offset(size, n + 1) == Offset(size, n) + size
  {
  }

  lemma SlotFits(size: nat, i: nat, n: nat)
    requires i < n
    ensures Offset(size, i) + size <= Offset(size, n)
  {
    assert (n - (i + 1)) * size >= 0;
    assert (n - (i + 1)) * size == n * size - (i * size + size);
  }

  /** The first n records of the body. */
  function Records(body: seq<Byte>, size: nat, n: nat): (r: seq<Record>)
    requires Offset(size, n) <= |body|
    ensures |r| == n
  {
    if n == 0 then []
    else
      SlotFits(size, n - 1, n);
      var at := Offset(size, n - 1);
      Records(body, size, n - 1) + [body[at..at + size]]
  }

  lemma {:induction false} RecordsAt(body: seq<Byte>, size: nat, n: nat, i: nat)
    requires Offset(size, n) <= |body| && i < n
    ensures Offset(size, i) + size <= |body|
    ensures Records(body, size, n)[i] == body[Offset(size, i)..Offset(size, i) + size]
  {
    hide Offset;
    SlotFits(size, i, n);
    SlotFits(size, n - 1, n);
    if i < n - 1 {
      RecordsAt(body, size, n - 1, i);
    }
  }

  predicate Decodable(f: File, t: Layout) {
    && f.Full?
    && f.header == Header(MAGIC, 1, t.version, t.size, f.header.entryCount, 0)
    && Offset(t.size, f.header.entryCount) <= |f.body|
  }

  /** The vector that the file holds. */
  function Decoded(f: File, t: Layout): seq<Record>
    requires Decodable(f, t)
  {
    Records(f.body, t.size, f.header.entryCount)
  }

  // ----- writing -----

  function Zeros(n: nat): (r: seq<Byte>)
    ensures |r| == n
  {
    seq(n, i => 0)
  }

  /** extendFile(): the new bytes are zero; a file already that long keeps its length. */
  function Extended(f: File, length: nat): (r: File)
    requires f.Full?
    ensures r.Full? && r.header == f.header && f.body <= r.body
    ensures Length(r) == if Length(f) < length then length else Length(f)
  {
    if Length(f) < length then f.(body := f.body + Zeros(length - Length(f))) else f
  }

  function Written(body: seq<Byte>, at: nat, bytes: seq<Byte>): (r: seq<Byte>)
    requires at + |bytes| <= |body|
    ensures |r| == |body|
  {
    body[..at] + bytes + body[at + |bytes|..]
  }

  /** Records do not see what lies behind them. */
  lemma {:induction false} RecordsLocal(a: seq<Byte>, b: seq<Byte>, size: nat, n: nat)
    requires var end := Offset(size, n); end <= |a| && end <= |b| && a[..end] == b[..end]
    ensures Records(a, size, n) == Records(b, size, n)
  {
    hide Offset;
    if n > 0 {
      SlotFits(size, n - 1, n);
      SamePrefix(a, b, Offset(size, n - 1), size, Offset(size, n));
      RecordsLocal(a, b, size, n - 1);
    }
  }

  lemma SamePrefix(a: seq<Byte>, b: seq<Byte>, k: nat, size: nat, end: nat)
    requires k + size <= end <= |a| && end <= |b| && a[..end] == b[..end]
    ensures a[..k] == b[..k] && a[k..k + size] == b[k..k + size]
  {
    assert a[..k] == a[..end][..k] && b[..k] == b[..end][..k];
    assert a[k..k + size] == a[..end][k..k + size] && b[k..k + size] == b[..end][k..k + size];
  }

  lemma RecordsExtended(a: seq<Byte>, b: seq<Byte>, size: nat, n: nat)
    requires Offset(size, n) <= |a| && a <= b
    ensures Records(b, size, n) == Records(a, size, n)
  {
    hide Offset;
    RecordsLocal(a, b, size, n);
  }

  lemma WrittenIs(body: seq<Byte>, at: nat, bytes: seq<Byte>)
    requires at + |bytes| <= |body|
    ensures var w := Written(body, at, bytes); w[..at] == body[..at] && w[at..at + |bytes|] == bytes
  {
  }

  lemma WrittenBehind(body: seq<Byte>, size: nat, n: nat, bytes: seq<Byte>)
    requires Offset(size, n) + |bytes| <= |body|
    ensures Records(Written(body, Offset(size, n), bytes), size, n) == Records(body, size, n)
  {
    hide Offset, Written, Records;
    WrittenIs(body, Offset(size, n), bytes);
    RecordsLocal(Written(body, Offset(size, n), bytes), body, size, n);
  }

  lemma WrittenNext(body: seq<Byte>, size: nat, n: nat, r: Record)
    requires |r| == size && Offset(size, n) + size <= |body|
    ensures Offset(size, n + 1) <= |body|
    ensures Records(Written(body, Offset(size, n), r), size, n + 1) == Records(body, size, n) + [r]
  {
    hide Offset, Written;
    OffsetNext(size, n);
    WrittenIs(body, Offset(size, n), r);
    WrittenBehind(body, size, n, r);
  }

  // ----- page sizes -----

  /** The source masks the low bits; PAGE_SIZE is a power of two. */
  function RoundUpToNonzeroPageSize(s: nat): (r: nat)
    ensures r >= s && r > 0 && r % PAGE_SIZE == 0
    ensures r == PAGE_SIZE || r - PAGE_SIZE < s
  {
    var up := (s + PAGE_SIZE - 1) / PAGE_SIZE * PAGE_SIZE;
    if up < PAGE_SIZE then PAGE_SIZE else up
  }

  // ----- open() -----

  datatype OpenError =
    IncompleteHeader | InvalidHeader | DuplicateVersion | WrongRecordSize | WrongOldRecordSize | UnknownVersion

  /** What open() decides from the file: start afresh, use it as it is, migrate it from the k-th earlier type, or refuse. */
  datatype Decision = Fresh | Use | Migrate(k: nat) | Refuse(error: OpenError)

  predicate HeaderOk(f: File)
    requires f.Full?
  {
    var h := f.header;
    && h.magic == MAGIC && h.version == 1 && h.recordSize != 0 && h.unused == 0
    && h.entryCount <= (Length(f) - HEADER_SIZE) / h.recordSize
  }

  predicate HasDuplicates(types: seq<Layout>) {
    exists i, j :: 0 <= i < j < |types| && types[i].version == types[j].version
  }

  /** The loop over the earlier types: the first whose VERSION matches decides. */
  function MatchOld(h: Header, earlier: seq<Layout>, i: nat): Decision
    requires i <= |earlier|
    decreases |earlier| - i
  {
    if i == |earlier| then Refuse(UnknownVersion)
    else if earlier[i].version == h.recordVersion then
      if earlier[i].size != h.recordSize then Refuse(WrongOldRecordSize) else Migrate(i)
    else MatchOld(h, earlier, i + 1)
  }

  function Decide(f: File, t: Layout, earlier: seq<Layout>): Decision {
    if Length(f) == 0 then Fresh
    else if f.Short? then Refuse(IncompleteHeader)
    else if !HeaderOk(f) then Refuse(InvalidHeader)
    else if HasDuplicates([t] + earlier) then Refuse(DuplicateVersion)
    else if t.version == f.header.recordVersion then
      if t.size != f.header.recordSize then Refuse(WrongRecordSize) else Use
    else MatchOld(f.header, earlier, 0)
  }

  lemma {:induction false} MatchOldFinds(h: Header, earlier: seq<Layout>, i: nat)
    requires i <= |earlier|
    ensures var d := MatchOld(h, earlier, i);
      && (d.Migrate? <==> exists j :: i <= j < |earlier| && earlier[j].version == h.recordVersion && earlier[j].size == h.recordSize
                                      && forall m :: i <= m < j ==> earlier[m].version != h.recordVersion)
      && (d.Migrate? ==> i <= d.k < |earlier| && earlier[d.k].version == h.recordVersion && earlier[d.k].size == h.recordSize)
      && (d.Migrate? || d.Refuse?)
    decreases |earlier| - i
  {
    if i < |earlier| {
      MatchOldFinds(h, earlier, i + 1);
    }
  }

  /** The check divides where the meaning multiplies. */
  lemma CountFits(count: nat, size: nat, bytes: nat)
    requires size > 0
    ensures count <= bytes / size <==> Offset(size, count) <= bytes
  {
    var q := bytes / size;
    assert bytes == Offset(size, q) + bytes % size;
    hide Offset;
    if count < q {
      SlotFits(size, count, q);
    } else if q < count {
      SlotFits(size, q, count);
    }
  }

  /** open() uses a file exactly when it decodes as the current type and no VERSION is repeated; it
      migrates it from the k-th earlier type only when it decodes as that one, and there is no other. */
  lemma DecideMeansDecodable(f: File, t: Layout, earlier: seq<Layout>)
    requires t.size > 0 && forall i :: 0 <= i < |earlier| ==> earlier[i].size > 0
    ensures Decide(f, t, earlier).Use? <==> Decodable(f, t) && !HasDuplicates([t] + earlier)
    ensures var d := Decide(f, t, earlier);
      d.Migrate? ==> d.k < |earlier| && Decodable(f, earlier[d.k]) && !HasDuplicates([t] + earlier)
    ensures (exists k :: 0 <= k < |earlier| && Decodable(f, earlier[k])) && !HasDuplicates([t] + earlier) ==> Decide(f, t, earlier).Migrate?
  {
    if f.Full? && f.header.recordSize > 0 {
      CountFits(f.header.entryCount, f.header.recordSize, |f.body|);
      MatchOldFinds(f.header, earlier, 0);
    }
    if !HasDuplicates([t] + earlier) {
      forall k | 0 <= k < |earlier| && Decodable(f, earlier[k]) ensures Decide(f, t, earlier).Migrate? {
        var all := [t] + earlier;
        assert all[0] == t && all[k + 1] == earlier[k];
        forall m | 0 <= m < k ensures earlier[m].version != earlier[k].version {
          assert all[m + 1] == earlier[m];
        }
      }
    }
  }

  /** The header is one that some vector could have. */
  predicate GoodHeader(f: File) {
    && f.Full? && f.header.magic == MAGIC && f.header.version == 1 && f.header.recordSize > 0 && f.header.unused == 0
    && Offset(f.header.recordSize, f.header.entryCount) <= |f.body|
  }

  predicate NoneMatches(h: Header, earlier: seq<Layout>) {
    forall m :: 0 <= m < |earlier| ==> earlier[m].version != h.recordVersion
  }

  /** The first earlier type with the VERSION of the header has another size. */
  predicate FirstMatchDiffers(h: Header, earlier: seq<Layout>) {
    exists k :: 0 <= k < |earlier| && earlier[k].version == h.recordVersion && earlier[k].size != h.recordSize
                && NoneMatches(h, earlier[..k])
  }

  lemma MatchIsLast(h: Header, earlier: seq<Layout>, k: nat, n: nat)
    requires k < |earlier| && n <= |earlier| && earlier[k].version == h.recordVersion
    ensures NoneMatches(h, earlier[..n]) ==> n <= k
  {
    assert k < n ==> earlier[..n][k] == earlier[k];
  }

  lemma {:induction false} OldReasons(h: Header, earlier: seq<Layout>, i: nat)
    requires i <= |earlier| && NoneMatches(h, earlier[..i])
    ensures MatchOld(h, earlier, i) == Refuse(UnknownVersion) <==> NoneMatches(h, earlier)
    ensures MatchOld(h, earlier, i) == Refuse(WrongOldRecordSize) <==> FirstMatchDiffers(h, earlier)
    ensures MatchOld(h, earlier, i).Refuse? ==>
      MatchOld(h, earlier, i).error.UnknownVersion? || MatchOld(h, earlier, i).error.WrongOldRecordSize?
    decreases |earlier| - i
  {
    if i < |earlier| && earlier[i].version != h.recordVersion {
      assert earlier[..i + 1] == earlier[..i] + [earlier[i]];
      OldReasons(h, earlier, i + 1);
    } else if i < |earlier| {
      forall k | 0 <= k < |earlier| && earlier[k].version == h.recordVersion && NoneMatches(h, earlier[..k])
        ensures k == i
      {
        MatchIsLast(h, earlier, k, i);
        MatchIsLast(h, earlier, i, k);
      }
    } else {
      assert earlier[..i] == earlier;
    }
  }

  lemma GoodMeansOk(f: File)
    requires f.Full?
    ensures HeaderOk(f) <==> GoodHeader(f)
  {
    hide Offset;
    if f.header.recordSize > 0 {
      CountFits(f.header.entryCount, f.header.recordSize, |f.body|);
    }
  }

  /** What each refusal of open() means. */
  lemma RefusedBecause(f: File, t: Layout, earlier: seq<Layout>)
    ensures var d := Decide(f, t, earlier);
      && (d == Fresh <==> Length(f) == 0)
      && (d == Refuse(IncompleteHeader) <==> f.Short? && f.length > 0)
      && (d == Refuse(InvalidHeader) <==> f.Full? && !GoodHeader(f))
      && (d == Refuse(DuplicateVersion) <==> GoodHeader(f) && HasDuplicates([t] + earlier))
    ensures GoodHeader(f) && !HasDuplicates([t] + earlier) ==>
      var d, h := Decide(f, t, earlier), f.header;
      && (d == Refuse(WrongRecordSize) <==> h.recordVersion == t.version && h.recordSize != t.size)
      && (d == Refuse(UnknownVersion) <==> h.recordVersion != t.version && NoneMatches(h, earlier))
      && (d == Refuse(WrongOldRecordSize) <==> h.recordVersion != t.version && FirstMatchDiffers(h, earlier))
  {
    hide HasDuplicates, HeaderOk, GoodHeader, NoneMatches, FirstMatchDiffers, MatchOld;
    if f.Full? {
      GoodMeansOk(f);
      NothingBefore(f.header, earlier);
      OldReasons(f.header, earlier, 0);
      MatchOldFinds(f.header, earlier, 0);
    } else {
      assert !GoodHeader(f) by {
        ShortIsNotGood(f);
      }
    }
  }

  lemma NothingBefore(h: Header, earlier: seq<Layout>)
    ensures NoneMatches(h, earlier[..0])
  {
  }

  lemma ShortIsNotGood(f: File)
    requires f.Short?
    ensures !GoodHeader(f)
  {
  }
}
