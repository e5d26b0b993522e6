/** UnixSocket's receive side: what one recvmsg() adds to the message being assembled. */
module SocketReceiver {
  import opened Numbering
  import opened Buffers
  import opened SocketWire

  /** setMaxRecvDataLength() and setMaxRecvFiles(). */
  datatype Limits = Limits(maxData: nat, maxFiles: nat)

  /** recvHeaderBuffer_[..headerBytesReceived_], recvHeader_ and recvMessage_. */
  datatype Partial = Partial(headerBytes: seq<Byte>, header: Header, data: seq<Byte>, files: seq<Fd>)

  const EMPTY := Partial([], Header(0, 0, 0), [], [])

  datatype AbortReason =
    | UnknownProtocol | TooMuchData | TooManyFiles | MoreFilesThanAnnounced | ControlTruncated | EofInsideMessage

  /** tryReceiveOne() after one recvmsg(): keep reading, hand the message to messageReceived(), or throw. */
  datatype Outcome = More(partial: Partial) | Complete(packet: Packet) | Abort(reason: AbortReason)

  predicate InHeader(p: Partial) {
    |p.headerBytes| < HEADER_LENGTH
  }

  /** How many bytes the next recvmsg() asks for. */
  function Wanted(p: Partial): (n: nat)
    ensures n >= 1
  {
    if InHeader(p) then HEADER_LENGTH - |p.headerBytes|
    else if |p.data| < p.header.dataSize then p.header.dataSize - |p.data|
    else 1
  }

  function Bytes(cells: seq<Cell>): (bytes: seq<Byte>)
    ensures |bytes| == |cells|
    ensures forall i :: 0 <= i < |cells| ==> bytes[i] == cells[i].b
  {
    seq(|cells|, i requires 0 <= i < |cells| => cells[i].b)
  }

  /** The descriptors that come with a stretch of the stream. */
  function Fds(cells: seq<Cell>): seq<Fd> {
    if cells == [] then [] else cells[0].fds + Fds(cells[1..])
  }

  /** In how many groups they come. */
  function Groups(cells: seq<Cell>): nat {
    if cells == [] then 0 else (if cells[0].fds == [] then 0 else 1) + Groups(cells[1..])
  }

  function CheckHeader(header: Header, limits: Limits): (reason: seq<AbortReason>)
  {
    if header.protocolId != PROTOCOL_ID then [UnknownProtocol]
    else if header.dataSize > limits.maxData then [TooMuchData]
    else if header.numFiles > limits.maxFiles then [TooManyFiles]
    else []
  }

  function CompleteIfWhole(p: Partial): Outcome {
    if |p.data| >= p.header.dataSize && |p.files| >= p.header.numFiles then Complete(Packet(p.data, p.files))
    else More(p)
  }

  /** The checks made once the header is complete. */
  function AfterHeader(headerBytes: seq<Byte>, header: Header, files: seq<Fd>, limits: Limits): Outcome {
    var failed := CheckHeader(header, limits);
    if failed != [] then Abort(failed[0]) else CompleteIfWhole(Partial(headerBytes, header, [], files))
  }

  /** One recvmsg() that returned `cells`. */
  function Absorb(p: Partial, cells: seq<Cell>, limits: Limits): Outcome
    requires 1 <= |cells| <= Wanted(p)
  {
    var fds := Fds(cells);
    if |fds| > MAX_FDS then Abort(ControlTruncated)
    else
      var files := p.files + fds;
      if InHeader(p) then
        var headerBytes := p.headerBytes + Bytes(cells);
        if |headerBytes| < HEADER_LENGTH then More(p.(headerBytes := headerBytes, files := files))
        else AfterHeader(headerBytes, DeserializeHeader(headerBytes), files, limits)
      else if |p.data| < p.header.dataSize then
        CompleteIfWhole(p.(data := p.data + Bytes(cells), files := files))
      else if |files| > p.header.numFiles then Abort(MoreFilesThanAnnounced)
      else CompleteIfWhole(p.(files := files))
  }

  // ----- what makes it abort -----

  /** The read that completes the header. */
  predicate CompletesHeader(p: Partial, cells: seq<Cell>) {
    InHeader(p) && |p.headerBytes| + |cells| == HEADER_LENGTH
  }

  /** Each reason, exactly: more descriptors than one control message can hold; in the read that completes
      the header, another protocol or a size over the limits, in this order; and behind the body, more
      descriptors than the header has announced. */
  lemma AbortsExactly(p: Partial, cells: seq<Cell>, limits: Limits)
    requires 1 <= |cells| <= Wanted(p)
    ensures var r, fds := Absorb(p, cells, limits), |Fds(cells)|;
      && (r == Abort(ControlTruncated) <==> fds > MAX_FDS)
      && (r == Abort(MoreFilesThanAnnounced) <==>
          fds <= MAX_FDS && !InHeader(p) && |p.data| >= p.header.dataSize && |p.files| + fds > p.header.numFiles)
      && r != Abort(EofInsideMessage)
      && (!CompletesHeader(p, cells) ==> r != Abort(UnknownProtocol) && r != Abort(TooMuchData) && r != Abort(TooManyFiles))
    ensures CompletesHeader(p, cells) && |Fds(cells)| <= MAX_FDS ==>
      var r, h := Absorb(p, cells, limits), DeserializeHeader(p.headerBytes + Bytes(cells));
      && (r == Abort(UnknownProtocol) <==> h.protocolId != PROTOCOL_ID)
      && (r == Abort(TooMuchData) <==> h.protocolId == PROTOCOL_ID && h.dataSize > limits.maxData)
      && (r == Abort(TooManyFiles) <==> h.protocolId == PROTOCOL_ID && h.dataSize <= limits.maxData && h.numFiles > limits.maxFiles)
  {
    hide DeserializeHeader, Fds;
  }

  /** The outcome of one read after the other, as long as more is wanted. */
  function AbsorbAll(p: Partial, pieces: seq<seq<Cell>>, limits: Limits): Outcome
    decreases pieces
  {
    if pieces == [] || !(1 <= |pieces[0]| <= Wanted(p)) then More(p)
    else
      var r := Absorb(p, pieces[0], limits);
      if r.More? then AbsorbAll(r.partial, pieces[1..], limits) else r
  }

  /** Whatever comes in place of a header, from whomever and in whatever pieces: once its 16 bytes have
      been read the message goes on exactly if they name this protocol and sizes within the limits. */
  lemma {:induction false} HeaderDecides(p: Partial, pieces: seq<seq<Cell>>, limits: Limits)
    requires InHeader(p) && p.data == []
    requires |p.headerBytes| + |Flatten(pieces)| == HEADER_LENGTH
    requires forall i :: 0 <= i < |pieces| ==> pieces[i] != [] && Fds(pieces[i]) == []
    ensures var h := DeserializeHeader(p.headerBytes + Bytes(Flatten(pieces)));
      AbsorbAll(p, pieces, limits).Abort? <==>
        h.protocolId != PROTOCOL_ID || h.dataSize > limits.maxData || h.numFiles > limits.maxFiles
    decreases pieces
  {
    hide DeserializeHeader, Fds, Flatten;
    FirstPiece(pieces);
    var r := Absorb(p, pieces[0], limits);
    AbortsExactly(p, pieces[0], limits);
    BytesConcat(pieces[0], Flatten(pieces[1..]));
    var bytes, rest := Bytes(pieces[0]), Bytes(Flatten(pieces[1..]));
    assert p.headerBytes + (bytes + rest) == p.headerBytes + bytes + rest;
    if r.More? && InHeader(r.partial) {
      HeaderDecides(r.partial, pieces[1..], limits);
    } else {
      assert rest == [] && p.headerBytes + bytes + rest == p.headerBytes + bytes;
      NothingMore(pieces[1..]);
    }
  }

  lemma NothingMore(pieces: seq<seq<Cell>>)
    requires Flatten(pieces) == [] && forall i :: 0 <= i < |pieces| ==> pieces[i] != []
    ensures pieces == []
  {
  }

  lemma FirstPiece(pieces: seq<seq<Cell>>)
    requires Flatten(pieces) != []
    ensures pieces != [] && Flatten(pieces) == pieces[0] + Flatten(pieces[1..])
  {
  }

  lemma BytesConcat(a: seq<Cell>, b: seq<Cell>)
    ensures Bytes(a + b) == Bytes(a) + Bytes(b)
  {
  }

  // ----- what the receiver knows after c cells of a message -----

  /** A message in parts: its header bytes, body and files. */
  datatype Parts = Parts(header: seq<Byte>, body: seq<Byte>, files: seq<Fd>)

  function PartsOf(m: Message): Parts {
    Parts(HeaderOf(m), Body(m), m.files)
  }

  /** The number of descriptor groups among the first c cells. */
  function GroupsBefore(m: Parts, c: nat): nat {
    if c == 0 then 0
    else if c <= HEADER_LENGTH + |m.body| then 1
    else 1 + (c - HEADER_LENGTH - |m.body|)
  }

  function FilesBefore(m: Parts, c: nat): seq<Fd> {
    m.files[..Min(|m.files|, MAX_FDS * GroupsBefore(m, c))]
  }

  predicate Accepts(limits: Limits, m: Parts) {
    |m.body| <= limits.maxData && |m.files| <= limits.maxFiles
  }

  /** p is the receiver's state after reading the first c cells of m and nothing else. */
  predicate Matches(p: Partial, m: Parts, c: nat) {
    && |m.header| == HEADER_LENGTH
    && p.headerBytes == m.header[..Min(c, HEADER_LENGTH)]
    && (if c < HEADER_LENGTH then p.data == []
        else p.header == Header(PROTOCOL_ID, |m.body|, |m.files|) && p.data == m.body[..Min(c - HEADER_LENGTH, |m.body|)])
    && p.files == FilesBefore(m, c)
  }

  /** Nothing is left to read after c cells. */
  predicate Whole(m: Parts, c: nat) {
    c >= HEADER_LENGTH + |m.body| && |FilesBefore(m, c)| == |m.files|
  }

  /** What a read at position c can bring. */
  predicate IsRead(m: Parts, c: nat, cells: seq<Cell>) {
    && |m.header| == HEADER_LENGTH
    && cells != []
    && if c < HEADER_LENGTH + |m.body| then
         && c + |cells| <= HEADER_LENGTH + |m.body|
         && Bytes(cells) == (m.header + m.body)[c..c + |cells|]
         && Fds(cells) == if c == 0 then Batch(m.files, 0) else []
       else
         && |cells| == 1
         && Fds(cells) == Batch(m.files, c - HEADER_LENGTH - |m.body| + 1)
  }

  /** Reassembly: the receiver's state is the one for the longer prefix, the message comes out at
      its last cell and not before, unchanged, and the only way to fail is a header that exceeds
      the receiver's limits. */
  predicate Reassembles(p: Partial, m: Parts, c: nat, cells: seq<Cell>, limits: Limits)
    requires 1 <= |cells| <= Wanted(p)
  {
    var r := Absorb(p, cells, limits);
    if c < HEADER_LENGTH == c + |cells| && !Accepts(limits, m) then
      r == Abort(if |m.body| > limits.maxData then TooMuchData else TooManyFiles)
    else if Whole(m, c + |cells|) then r == Complete(Packet(m.body, m.files))
    else r.More? && Matches(r.partial, m, c + |cells|)
  }

  lemma BatchExtends(files: seq<Fd>, g: nat)
    ensures files[..Min(|files|, MAX_FDS * g)] + Batch(files, g) == files[..Min(|files|, MAX_FDS * (g + 1))]
    ensures |Batch(files, g)| <= MAX_FDS
  {
  }

  lemma HeaderComplete(m: Parts, limits: Limits)
    requires |m.header| == HEADER_LENGTH
    ensures var r := AfterHeader(m.header, Header(PROTOCOL_ID, |m.body|, |m.files|), FilesBefore(m, HEADER_LENGTH), limits);
      if !Accepts(limits, m) then r == Abort(if |m.body| > limits.maxData then TooMuchData else TooManyFiles)
      else if Whole(m, HEADER_LENGTH) then r == Complete(Packet(m.body, m.files))
      else r.More? && Matches(r.partial, m, HEADER_LENGTH)
  {
    assert m.header[..HEADER_LENGTH] == m.header;
    assert m.files[..|m.files|] == m.files;
  }

  /** The descriptors read so far, whatever part of the message the read is in. */
  lemma FilesRead(m: Parts, c: nat, cells: seq<Cell>)
    requires IsRead(m, c, cells)
    ensures FilesBefore(m, c) + Fds(cells) == FilesBefore(m, c + |cells|)
    ensures |Fds(cells)| <= MAX_FDS
  {
    hide Batch, Bytes, Fds;
    BatchExtends(m.files, GroupsBefore(m, c));
    assert FilesBefore(m, c) + [] == FilesBefore(m, c);
  }

  lemma HeaderRead(m: Parts, c: nat, cells: seq<Cell>)
    requires IsRead(m, c, cells) && c + |cells| <= HEADER_LENGTH
    ensures m.header[..c] + Bytes(cells) == m.header[..c + |cells|]
  {
    hide Batch, Fds, Bytes;
    assert (m.header + m.body)[c..c + |cells|] == m.header[c..c + |cells|];
  }

  lemma AbsorbHeader(p: Partial, m: Parts, c: nat, cells: seq<Cell>, limits: Limits)
    requires IsRead(m, c, cells) && Matches(p, m, c) && c < HEADER_LENGTH && |cells| <= Wanted(p)
    requires DeserializeHeader(m.header) == Header(PROTOCOL_ID, |m.body|, |m.files|)
    ensures Reassembles(p, m, c, cells, limits)
  {
    hide DeserializeHeader, AfterHeader, Bytes, Fds, Batch, FilesBefore, IsRead, Whole;
    FilesRead(m, c, cells);
    HeaderRead(m, c, cells);
    if c + |cells| == HEADER_LENGTH {
      assert m.header[..HEADER_LENGTH] == m.header;
      HeaderComplete(m, limits);
    } else {
      NotWhole(m, c + |cells|);
    }
  }

  lemma NotWhole(m: Parts, c: nat)
    requires c < HEADER_LENGTH
    ensures !Whole(m, c)
  {
  }

  lemma BodyRead(m: Parts, c: nat, cells: seq<Cell>)
    requires IsRead(m, c, cells) && HEADER_LENGTH <= c < HEADER_LENGTH + |m.body|
    ensures var b := c - HEADER_LENGTH;
      b + |cells| <= |m.body| && m.body[..b] + Bytes(cells) == m.body[..b + |cells|]
  {
    hide Batch, Fds, Bytes;
    var b := c - HEADER_LENGTH;
    assert (m.header + m.body)[c..c + |cells|] == m.body[b..b + |cells|];
  }

  lemma AbsorbBody(p: Partial, m: Parts, c: nat, cells: seq<Cell>, limits: Limits)
    requires IsRead(m, c, cells) && Matches(p, m, c) && |cells| <= Wanted(p)
    requires HEADER_LENGTH <= c < HEADER_LENGTH + |m.body|
    ensures Reassembles(p, m, c, cells, limits)
  {
    hide Bytes, Fds, Batch, IsRead, AfterHeader, GroupsBefore, DeserializeHeader;
    FilesRead(m, c, cells);
    BodyRead(m, c, cells);
    assert m.body[..|m.body|] == m.body;
    assert m.files[..|m.files|] == m.files;
  }

  lemma AbsorbExtra(p: Partial, m: Parts, c: nat, cells: seq<Cell>, limits: Limits)
    requires IsRead(m, c, cells) && Matches(p, m, c) && |cells| <= Wanted(p)
    requires c >= HEADER_LENGTH + |m.body|
    ensures Reassembles(p, m, c, cells, limits)
  {
    hide Bytes, Fds, Batch, AfterHeader, GroupsBefore, DeserializeHeader;
    FilesRead(m, c, cells);
    assert m.body[..|m.body|] == m.body;
    assert m.files[..|m.files|] == m.files;
  }

  // ----- reading from the cells of a message -----

  lemma {:induction false} OneGroup(cells: seq<Cell>)
    requires cells != []
    requires forall i :: 1 <= i < |cells| ==> cells[i].fds == []
    ensures Fds(cells) == cells[0].fds
    ensures Groups(cells) == if cells[0].fds == [] then 0 else 1
  {
    if |cells| > 1 {
      OneGroup(cells[1..]);
    } else {
      assert cells[1..] == [];
    }
  }

  /** Header or body: only byte 0 brings descriptors. */
  lemma FrontRead(m: Message, c: nat, n: nat)
    requires n >= 1 && c + n <= HEADER_LENGTH + |Body(m)|
    ensures c + n <= |Wire(m)| && IsRead(PartsOf(m), c, Wire(m)[c..c + n])
    ensures Groups(Wire(m)[c..c + n]) <= 1
  {
    var front, fds := HeaderOf(m) + Body(m), m.files[..FirstBatch(m.files)];
    var cells := Wire(m)[c..c + n];
    AttachSlice(front, fds, c, n);
    assert cells == Attach(front, fds)[c..c + n];
    OneGroup(cells);
    assert fds == Batch(m.files, 0);
  }

  lemma AttachSlice(bytes: seq<Byte>, fds: seq<Fd>, c: nat, n: nat)
    requires n >= 1 && c + n <= |bytes|
    ensures var cells := Attach(bytes, fds)[c..c + n];
      && Bytes(cells) == bytes[c..c + n]
      && cells[0].fds == (if c == 0 then fds else [])
      && forall i :: 1 <= i < n ==> cells[i].fds == []
  {
  }

  /** Past the body: one zero byte with the next batch of descriptors. */
  lemma BackRead(m: Message, c: nat)
    requires HEADER_LENGTH + |Body(m)| <= c < |Wire(m)|
    ensures IsRead(PartsOf(m), c, Wire(m)[c..c + 1])
    ensures Groups(Wire(m)[c..c + 1]) <= 1
  {
    WireAt(m, c);
    OneGroup(Wire(m)[c..c + 1]);
  }

  lemma WholeAtEnd(m: Message, c: nat)
    requires HEADER_LENGTH <= c <= |Wire(m)|
    ensures c == |Wire(m)| <==> Whole(PartsOf(m), c)
  {
    WireAt(m, c);
  }

  lemma ReadCells(p: Partial, m: Message, c: nat, n: nat) returns (cells: seq<Cell>)
    requires Matches(p, PartsOf(m), c) && c < |Wire(m)| && 1 <= n <= Wanted(p)
    ensures c + n <= |Wire(m)| && cells == Wire(m)[c..c + n]
    ensures IsRead(PartsOf(m), c, cells) && Groups(cells) <= 1
  {
    if c < HEADER_LENGTH + |Body(m)| {
      FrontRead(m, c, n);
    } else {
      BackRead(m, c);
    }
    cells := Wire(m)[c..c + n];
  }

  /** A read that asks for no more than tryReceiveOne() wants stays inside the message, meets at
      most one group of descriptors, and reassembles. */
  lemma ReassemblyStep(p: Partial, m: Message, c: nat, n: nat, limits: Limits)
    requires FitsHeader(m) && Matches(p, PartsOf(m), c) && c < |Wire(m)| && 1 <= n <= Wanted(p)
    ensures c + n <= |Wire(m)| && Groups(Wire(m)[c..c + n]) <= 1
    ensures Reassembles(p, PartsOf(m), c, Wire(m)[c..c + n], limits)
    ensures Whole(PartsOf(m), c + n) <==> c + n == |Wire(m)|
  {
    var parts := PartsOf(m);
    var cells := ReadCells(p, m, c, n);
    if c < HEADER_LENGTH {
      HeaderRoundTrip(|Body(m)|, |m.files|);
      AbsorbHeader(p, parts, c, cells, limits);
    } else if c < HEADER_LENGTH + |Body(m)| {
      AbsorbBody(p, parts, c, cells, limits);
    } else {
      AbsorbExtra(p, parts, c, cells, limits);
    }
    if c + n >= HEADER_LENGTH {
      WholeAtEnd(m, c + n);
    }
  }

  // ----- the code itself -----

  /** What recvmsg() and the look at its control data come to: cells, EAGAIN, the end of the stream,
      another error, or an SCM_RIGHTS message too short for a descriptor. */
  datatype Received = Got(cells: seq<Cell>) | WouldBlock | EndOfStream | Failed | ShortControl

  /** What tryReceiveOne() makes of it: progress or an abort, false for now, eofReceived(), or a system error. */
  datatype Attempt = Progress(outcome: Outcome) | TryLater | EofReceived | Throws

  class MessageReceiver {
    const limits: Limits
    var headerBytes: seq<Byte>
    var header: Header
    var data: seq<Byte>
    var files: seq<Fd>

    function View(): Partial
      reads this
    {
      Partial(headerBytes, header, data, files)
    }

    constructor (limits: Limits)
      ensures View() == EMPTY && this.limits == limits
    {
      this.limits := limits;
      headerBytes, header, data, files := [], Header(0, 0, 0), [], [];
    }

    /** processReceivedControlData(): every descriptor of every group, in order. */
    method ProcessReceivedFiles(cells: seq<Cell>)
      modifies this`files
      ensures files == old(files) + Fds(cells)
    {
      var rest := cells;
      while rest != []
        invariant files + Fds(rest) == old(files) + Fds(cells)
        decreases |rest|
      {
        Assoc(files, rest[0].fds, Fds(rest[1..]));
        files := files + rest[0].fds;
        rest := rest[1..];
      }
    }

    /** tryReceiveOne() for one recvmsg(). */
    method TryReceiveOne(received: Received) returns (r: Attempt)
      requires received.Got? ==> 1 <= |received.cells| <= Wanted(View())
      modifies this
      ensures received.Got? ==> r == Progress(Absorb(old(View()), received.cells, limits))
      ensures r.Progress? && r.outcome.More? ==> View() == r.outcome.partial
      ensures r.Progress? && r.outcome.Complete? ==> View() == EMPTY.(header := header)
      ensures received.WouldBlock? ==> r == TryLater
      ensures received.EndOfStream? ==> r == if old(headerBytes) == [] then EofReceived else Progress(Abort(EofInsideMessage))
      ensures received.Failed? || received.ShortControl? ==> r == Throws
      ensures !received.Got? ==> View() == old(View())
    {
      match received
      case WouldBlock => return TryLater;
      case Failed => return Throws;
      case ShortControl => return Throws;
      case EndOfStream =>
        if headerBytes == [] {
          return EofReceived;
        }
        return Progress(Abort(EofInsideMessage));
      case Got(cells) =>
        var outcome := Take(cells);
        return Progress(outcome);
    }

    /** The same for a recvmsg() that returned `cells`. */
    method Take(cells: seq<Cell>) returns (r: Outcome)
      requires 1 <= |cells| <= Wanted(View())
      modifies this
      ensures r == Absorb(old(View()), cells, limits)
      ensures r.More? ==> View() == r.partial
      ensures r.Complete? ==> View() == EMPTY.(header := header)
    {
      if |Fds(cells)| > MAX_FDS {
        return Abort(ControlTruncated);
      }
      ProcessReceivedFiles(cells);
      if |headerBytes| < HEADER_LENGTH {
        headerBytes := headerBytes + Bytes(cells);
        if |headerBytes| < HEADER_LENGTH {
          return More(View());
        }
        header := DeserializeHeader(headerBytes);
        data := [];
        var failed := CheckHeader(header, limits);
        if failed != [] {
          return Abort(failed[0]);
        }
      } else if |data| < header.dataSize {
        data := data + Bytes(cells);
      } else if |files| > header.numFiles {
        return Abort(MoreFilesThanAnnounced);
      }
      if |data| < header.dataSize || |files| < header.numFiles {
        return More(View());
      }
      r := Complete(Packet(data, files));
      headerBytes, data, files := [], [], [];
    }
  }
}
