/** The wire format of UnixSocket (eden/common/utils/UnixSocket.cpp): a 16 byte big-endian header,
    the body, and then one zero byte for every batch of at most 253 file descriptors that did not
    fit with the first byte.  A socket is seen as a stream of cells: a byte, and the group of
    descriptors that an SCM_RIGHTS control message attached to that byte (empty if none). */
module SocketWire {
  import opened Numbering
  import opened Buffers

  type Fd = int

  const MAX_FDS: nat := 253
  const HEADER_LENGTH: nat := 16
  const PROTOCOL_ID: nat := 0xfaceb00c12345678
  const U32: nat := 0x1_0000_0000

  /** A message as given to send(): the chunks of its IOBuf chain, and its files. */
  datatype Message = Message(chunks: seq<seq<Byte>>, files: seq<Fd>)

  /** A message as given to messageReceived(): one contiguous body, and its files. */
  datatype Packet = Packet(data: seq<Byte>, files: seq<Fd>)

  datatype Cell = Cell(b: Byte, fds: seq<Fd>)

  datatype Header = Header(protocolId: nat, dataSize: nat, numFiles: nat)

  function Body(m: Message): seq<Byte> {
    Flatten(m.chunks)
  }

  function PacketOf(m: Message): Packet {
    Packet(Body(m), m.files)
  }

  /** The sizes that the two 32 bit header fields can carry. */
  predicate FitsHeader(m: Message) {
    |Body(m)| < U32 && |m.files| < U32
  }

  // ----- header -----

  /** writeBE<uint32_t>. */
  function BigEndian32(v: nat): (bytes: seq<Byte>)
    ensures |bytes| == 4
  {
    var a := v / 256;
    var b := a / 256;
    var c := b / 256;
    [c % 256, b % 256, a % 256, v % 256]
  }

  /** readBE<uint32_t>. */
  function Number32(bytes: seq<Byte>): nat
    requires |bytes| == 4
  {
    (((bytes[0] as int) * 256 + bytes[1] as int) * 256 + bytes[2] as int) * 256 + bytes[3] as int
  }

  lemma RoundTrip32(v: nat)
    requires v < U32
    ensures Number32(BigEndian32(v)) == v
  {
    var a := v / 256;
    var b := a / 256;
    var c := b / 256;
    assert c < 256;
    assert v == a * 256 + v % 256 && a == b * 256 + a % 256 && b == c * 256 + b % 256;
  }

  function SerializeHeader(dataSize: nat, numFiles: nat): (bytes: seq<Byte>)
    ensures |bytes| == HEADER_LENGTH
  {
    BigEndian32(PROTOCOL_ID / U32) + BigEndian32(PROTOCOL_ID % U32)
    + BigEndian32(dataSize % U32) + BigEndian32(numFiles % U32)
  }

  function DeserializeHeader(bytes: seq<Byte>): Header
    requires |bytes| == HEADER_LENGTH
  {
    Header(Number32(bytes[..4]) * U32 + Number32(bytes[4..8]), Number32(bytes[8..12]), Number32(bytes[12..]))
  }

  lemma FourWords(a: seq<Byte>, b: seq<Byte>, c: seq<Byte>, d: seq<Byte>)
    requires |a| == |b| == |c| == |d| == 4
    ensures var w := a + b + c + d; w[..4] == a && w[4..8] == b && w[8..12] == c && w[12..] == d
  {
  }

  lemma ProtocolWords()
    ensures PROTOCOL_ID / U32 < U32 && (PROTOCOL_ID / U32) * U32 + PROTOCOL_ID % U32 == PROTOCOL_ID
  {
  }

  lemma MostSignificantFirst(v: nat)
    requires v < U32
    ensures BigEndian32(v) == [v / 0x100_0000, v / 0x1_0000 % 0x100, v / 0x100 % 0x100, v % 0x100]
  {
    assert v / 0x100 / 0x100 == v / 0x1_0000 && v / 0x1_0000 / 0x100 == v / 0x100_0000;
  }

  /** The 16 bytes on the wire: the protocol id, then both sizes, the most significant byte first. */
  lemma HeaderLayout(dataSize: nat, numFiles: nat)
    requires dataSize < U32 && numFiles < U32
    ensures SerializeHeader(dataSize, numFiles) ==
      [0xfa, 0xce, 0xb0, 0x0c, 0x12, 0x34, 0x56, 0x78]
      + [dataSize / 0x100_0000, dataSize / 0x1_0000 % 0x100, dataSize / 0x100 % 0x100, dataSize % 0x100]
      + [numFiles / 0x100_0000, numFiles / 0x1_0000 % 0x100, numFiles / 0x100 % 0x100, numFiles % 0x100]
  {
    hide BigEndian32;
    MostSignificantFirst(0xfaceb00c);
    MostSignificantFirst(0x12345678);
    MostSignificantFirst(dataSize);
    MostSignificantFirst(numFiles);
    assert PROTOCOL_ID / U32 == 0xfaceb00c && PROTOCOL_ID % U32 == 0x12345678;
  }

  /** The receiver reads back the protocol id and both sizes modulo 2^32; so the sizes themselves
      come back exactly when they fit in 32 bits (serializeHeader narrows them silently). */
  lemma HeaderRoundTrip(dataSize: nat, numFiles: nat)
    ensures DeserializeHeader(SerializeHeader(dataSize, numFiles))
         == Header(PROTOCOL_ID, dataSize % U32, numFiles % U32)
    ensures DeserializeHeader(SerializeHeader(dataSize, numFiles)) == Header(PROTOCOL_ID, dataSize, numFiles)
       <==> dataSize < U32 && numFiles < U32
  {
    hide BigEndian32, Number32;
    ProtocolWords();
    var hi, lo := BigEndian32(PROTOCOL_ID / U32), BigEndian32(PROTOCOL_ID % U32);
    var size, files := BigEndian32(dataSize % U32), BigEndian32(numFiles % U32);
    FourWords(hi, lo, size, files);
    RoundTrip32(PROTOCOL_ID / U32);
    RoundTrip32(PROTOCOL_ID % U32);
    RoundTrip32(dataSize % U32);
    RoundTrip32(numFiles % U32);
  }

  function HeaderOf(m: Message): (bytes: seq<Byte>)
    ensures |bytes| == HEADER_LENGTH
  {
    SerializeHeader(|Body(m)|, |m.files|)
  }

  // ----- the cells of one message -----

  /** Bytes with a group of descriptors attached to the first one, as one sendmsg() delivers them. */
  function Attach(bytes: seq<Byte>, fds: seq<Fd>): (cells: seq<Cell>)
    ensures |cells| == |bytes|
    ensures forall i :: 0 <= i < |bytes| ==> cells[i] == Cell(bytes[i], if i == 0 then fds else [])
  {
    seq(|bytes|, i requires 0 <= i < |bytes| => Cell(bytes[i], if i == 0 then fds else []))
  }

  /** The zero bytes that carry the descriptors beyond the first batch. */
  function Extra(fds: seq<Fd>): seq<Cell> {
    if fds == [] then []
    else [Cell(0, fds[..Min(MAX_FDS, |fds|)])] + Extra(fds[Min(MAX_FDS, |fds|)..])
  }

  function FirstBatch(files: seq<Fd>): nat {
    Min(MAX_FDS, |files|)
  }

  /** Everything that one message puts on the socket. */
  function Wire(m: Message): (cells: seq<Cell>)
    ensures |cells| >= HEADER_LENGTH
  {
    Attach(HeaderOf(m) + Body(m), m.files[..FirstBatch(m.files)]) + Extra(m.files[FirstBatch(m.files)..])
  }

  function WireAll(ms: seq<Message>): seq<Cell> {
    if ms == [] then [] else Wire(ms[0]) + WireAll(ms[1..])
  }

  lemma {:induction false} WireAllConcat(a: seq<Message>, b: seq<Message>)
    ensures WireAll(a + b) == WireAll(a) + WireAll(b)
  {
    if a == [] {
      assert a + b == b;
    } else {
      assert (a + b)[1..] == a[1..] + b;
      WireAllConcat(a[1..], b);
      Assoc(Wire(a[0]), WireAll(a[1..]), WireAll(b));
    }
  }

  /** Descriptors with index 253*e up to 253*(e+1), or fewer at the end. */
  function Batch(fds: seq<Fd>, e: nat): seq<Fd> {
    fds[Min(|fds|, MAX_FDS * e)..Min(|fds|, MAX_FDS * (e + 1))]
  }

  lemma DropSlice<T>(s: seq<T>, k: nat, a: nat, b: nat)
    requires k <= |s| && a <= b <= |s| - k
    ensures s[k..][a..b] == s[k + a..k + b]
  {
  }

  /** Dropping the first batch renumbers the others. */
  lemma BatchShift(fds: seq<Fd>, e: nat)
    ensures Batch(fds[FirstBatch(fds)..], e) == Batch(fds, e + 1)
  {
    var k := FirstBatch(fds);
    var rest := |fds| - k;
    var a, b := Min(rest, MAX_FDS * e), Min(rest, MAX_FDS * (e + 1));
    assert k + a == Min(|fds|, MAX_FDS * (e + 1));
    assert k + b == Min(|fds|, MAX_FDS * (e + 2));
    DropSlice(fds, k, a, b);
  }

  lemma {:induction false} ExtraAt(fds: seq<Fd>, e: nat)
    ensures e < |Extra(fds)| <==> MAX_FDS * e < |fds|
    ensures e < |Extra(fds)| ==> Extra(fds)[e] == Cell(0, Batch(fds, e))
    decreases e
  {
    hide Batch;
    if fds != [] {
      var k := FirstBatch(fds);
      assert Extra(fds) == [Cell(0, fds[..k])] + Extra(fds[k..]);
      if e > 0 {
        ExtraAt(fds[k..], e - 1);
        BatchShift(fds, e - 1);
      } else {
        FirstBatchIs(fds);
      }
    }
  }

  lemma FirstBatchIs(fds: seq<Fd>)
    ensures Batch(fds, 0) == fds[..FirstBatch(fds)]
  {
  }

  lemma WireBack(m: Message, i: nat)
    requires i >= HEADER_LENGTH + |Body(m)|
    ensures i < |Wire(m)| <==> MAX_FDS * (i - HEADER_LENGTH - |Body(m)| + 1) < |m.files|
    ensures i < |Wire(m)| ==> Wire(m)[i] == Cell(0, Batch(m.files, i - HEADER_LENGTH - |Body(m)| + 1))
  {
    hide Batch, HeaderOf, Extra;
    var k, e := FirstBatch(m.files), i - HEADER_LENGTH - |Body(m)|;
    ExtraAt(m.files[k..], e);
    BatchShift(m.files, e);
  }

  /** The cell at every position of a message, without recursion. */
  lemma WireAt(m: Message, i: nat)
    ensures i < |Wire(m)| <==> i < HEADER_LENGTH + |Body(m)| || MAX_FDS * (i - HEADER_LENGTH - |Body(m)| + 1) < |m.files|
    ensures i < |Wire(m)| && i < HEADER_LENGTH + |Body(m)| ==>
              Wire(m)[i] == Cell((HeaderOf(m) + Body(m))[i], if i == 0 then Batch(m.files, 0) else [])
    ensures HEADER_LENGTH + |Body(m)| <= i < |Wire(m)| ==>
              Wire(m)[i] == Cell(0, Batch(m.files, i - HEADER_LENGTH - |Body(m)| + 1))
  {
    if i >= HEADER_LENGTH + |Body(m)| {
      WireBack(m, i);
    }
  }
}
