/** UnixSocket's send side: one queue entry, the iovecs it offers to sendmsg(), and how it advances
    when the kernel takes only part of them. */
module SocketSender {
  import opened Numbering
  import opened Buffers
  import opened SocketWire

  /** SendQueueEntry.  `headerMoved` says that iov[0] no longer points at the start of the header,
      which is how trySendMessage() recognises that it is not the first send. */
  datatype Entry = Entry(msg: Message, iov: seq<seq<Byte>>, iovIndex: nat, filesSent: nat, headerMoved: bool)

  /** enumerateIovecs() skips the empty buffers of the chain. */
  function NonEmpty(chunks: seq<seq<Byte>>): (r: seq<seq<Byte>>)
    ensures forall i :: 0 <= i < |r| ==> r[i] != []
    ensures Flatten(r) == Flatten(chunks)
  {
    if chunks == [] then []
    else if chunks[0] == [] then NonEmpty(chunks[1..])
    else
      var r := [chunks[0]] + NonEmpty(chunks[1..]);
      assert r[1..] == NonEmpty(chunks[1..]);
      r
  }

  function NewEntry(m: Message): Entry {
    Entry(m, [HeaderOf(m)] + NonEmpty(m.chunks), 0, 0, false)
  }

  predicate IsFirstSend(e: Entry) {
    e.iovIndex == 0 && !e.headerMoved
  }

  predicate Done(e: Entry) {
    e.iovIndex == |e.iov| && e.filesSent == |e.msg.files|
  }

  predicate Valid(e: Entry) {
    && 0 < |e.iov|
    && e.iovIndex <= |e.iov|
    && (forall i :: e.iovIndex <= i < |e.iov| ==> e.iov[i] != [])
    && e.filesSent <= |e.msg.files|
    && (if IsFirstSend(e) then e.filesSent == 0 else e.filesSent >= FirstBatch(e.msg.files))
    && (e.iovIndex < |e.iov| && !IsFirstSend(e) ==> e.filesSent == FirstBatch(e.msg.files))
  }

  /** The cells of this message that the kernel has not taken yet. */
  function Remaining(e: Entry): seq<Cell>
    requires Valid(e)
  {
    var attached := if IsFirstSend(e) then FirstBatch(e.msg.files) else 0;
    var sent := if IsFirstSend(e) then FirstBatch(e.msg.files) else e.filesSent;
    Attach(Flatten(e.iov[e.iovIndex..]), e.msg.files[..attached]) + Extra(e.msg.files[sent..])
  }

  /** What one trySendMessage() passes to sendmsg(). */
  function OfferedBytes(e: Entry): seq<Byte>
    requires Valid(e)
  {
    if e.iovIndex < |e.iov| then Flatten(e.iov[e.iovIndex..Min(|e.iov|, e.iovIndex + IOV_MAX)]) else [0]
  }

  function OfferedFiles(e: Entry): (fds: seq<Fd>)
    requires Valid(e)
    ensures |fds| <= MAX_FDS
  {
    if e.iovIndex < |e.iov| then
      if IsFirstSend(e) then e.msg.files[..FirstBatch(e.msg.files)] else []
    else
      e.msg.files[e.filesSent..Min(|e.msg.files|, e.filesSent + MAX_FDS)]
  }

  datatype IovPosition = IovPosition(iov: seq<seq<Byte>>, index: nat)

  /** Drops n bytes from the iovecs, starting at index. */
  function AdvanceIov(iov: seq<seq<Byte>>, index: nat, n: nat): IovPosition
    requires index <= |iov| && n <= |Flatten(iov[index..])|
    decreases |iov| - index
  {
    if n == 0 then IovPosition(iov, index)
    else
      assert iov[index..][1..] == iov[index + 1..];
      if n >= |iov[index]| then AdvanceIov(iov, index + 1, n - |iov[index]|)
      else IovPosition(iov[index := iov[index][n..]], index)
  }

  lemma {:induction false} AdvanceIovDrops(iov: seq<seq<Byte>>, index: nat, n: nat)
    requires index <= |iov| && n <= |Flatten(iov[index..])|
    requires forall i :: index <= i < |iov| ==> iov[i] != []
    ensures var p := AdvanceIov(iov, index, n);
      && index <= p.index <= |p.iov| == |iov|
      && (forall i :: p.index <= i < |iov| ==> p.iov[i] != [])
      && Flatten(p.iov[p.index..]) == Flatten(iov[index..])[n..]
    decreases |iov| - index
  {
    if n > 0 {
      assert iov[index..][1..] == iov[index + 1..];
      if n >= |iov[index]| {
        AdvanceIovDrops(iov, index + 1, n - |iov[index]|);
      } else {
        var rest := iov[index := iov[index][n..]][index..];
        assert rest[1..] == iov[index + 1..];
      }
    }
  }

  lemma OfferIsPrefix(e: Entry)
    requires Valid(e) && !Done(e)
    ensures OfferedBytes(e) != []
    ensures e.iovIndex < |e.iov| ==> OfferedBytes(e) <= Flatten(e.iov[e.iovIndex..])
  {
    if e.iovIndex < |e.iov| {
      var hi := Min(|e.iov|, e.iovIndex + IOV_MAX);
      assert e.iov[e.iovIndex..] == e.iov[e.iovIndex..hi] + e.iov[hi..];
      FlattenConcat(e.iov[e.iovIndex..hi], e.iov[hi..]);
      assert e.iov[e.iovIndex..hi][0] == e.iov[e.iovIndex];
    }
  }

  /** The cells that the kernel takes when sendmsg() returns n. */
  function SentCells(e: Entry, n: nat): seq<Cell>
    requires Valid(e) && n <= |OfferedBytes(e)|
  {
    Attach(OfferedBytes(e)[..n], OfferedFiles(e))
  }

  /** The entry after sendmsg() returned n. */
  function AfterSend(e: Entry, n: nat): Entry
    requires Valid(e) && !Done(e) && 1 <= n <= |OfferedBytes(e)|
  {
    OfferIsPrefix(e);
    var filesSent := e.filesSent + |OfferedFiles(e)|;
    if e.iovIndex < |e.iov| then
      var p := AdvanceIov(e.iov, e.iovIndex, n);
      e.(iov := p.iov, iovIndex := p.index, filesSent := filesSent, headerMoved := e.headerMoved || p.index == 0)
    else
      e.(iov := e.iov[0 := [0]], filesSent := filesSent, headerMoved := true)
  }

  lemma NewEntryRemaining(m: Message)
    ensures Valid(NewEntry(m)) && !Done(NewEntry(m))
    ensures Remaining(NewEntry(m)) == Wire(m)
  {
    var e := NewEntry(m);
    assert e.iov[1..] == NonEmpty(m.chunks);
    assert e.iov[0..] == e.iov;
    assert Flatten(e.iov) == HeaderOf(m) + Body(m);
  }

  lemma AfterBodySend(e: Entry, n: nat)
    requires Valid(e) && e.iovIndex < |e.iov| && 1 <= n <= |OfferedBytes(e)|
    ensures var e' := AfterSend(e, n);
      && Valid(e')
      && !IsFirstSend(e')
      && e'.filesSent == FirstBatch(e.msg.files)
      && OfferedBytes(e)[..n] + Flatten(e'.iov[e'.iovIndex..]) == Flatten(e.iov[e.iovIndex..])
      && (e'.iovIndex == |e'.iov| <==> Flatten(e'.iov[e'.iovIndex..]) == [])
  {
    hide Flatten, AdvanceIov;
    OfferIsPrefix(e);
    AdvanceIovDrops(e.iov, e.iovIndex, n);
    var e' := AfterSend(e, n);
    FlattenFirst(e'.iov[e'.iovIndex..]);
    if e'.iovIndex < |e'.iov| {
      assert e'.iov[e'.iovIndex..][0] == e'.iov[e'.iovIndex];
    }
  }

  lemma FlattenFirst(chunks: seq<seq<Byte>>)
    ensures chunks == [] ==> Flatten(chunks) == []
    ensures chunks != [] && chunks[0] != [] ==> Flatten(chunks) != []
  {
  }

  lemma AttachSplit(a: seq<Byte>, b: seq<Byte>, fds: seq<Fd>)
    requires a != []
    ensures Attach(a + b, fds) == Attach(a, fds) + Attach(b, [])
  {
  }

  lemma ExtraEmpty(fds: seq<Fd>)
    ensures Extra(fds) == [] <==> fds == []
  {
  }

  /** Every sendmsg() that is not refused moves a nonempty prefix of the entry's cells to the
      socket and nothing else: no byte and no descriptor is repeated or lost, so the work left
      strictly shrinks, and it is finished exactly when trySendMessage() reports it. */
  lemma AfterSendCorrect(e: Entry, n: nat)
    requires Valid(e) && !Done(e) && 1 <= n <= |OfferedBytes(e)|
    ensures Valid(AfterSend(e, n))
    ensures Remaining(e) == SentCells(e, n) + Remaining(AfterSend(e, n))
    ensures |SentCells(e, n)| == n && |Remaining(AfterSend(e, n))| < |Remaining(e)|
    ensures Done(AfterSend(e, n)) <==> Remaining(AfterSend(e, n)) == []
  {
    var e' := AfterSend(e, n);
    var files := e.msg.files;
    if e.iovIndex < |e.iov| {
      AfterBodySend(e, n);
      var rest := Flatten(e'.iov[e'.iovIndex..]);
      AttachSplit(OfferedBytes(e)[..n], rest, OfferedFiles(e));
      Assoc(SentCells(e, n), Attach(rest, []), Extra(files[e'.filesSent..]));
      ExtraEmpty(files[e'.filesSent..]);
    } else {
      AfterExtraSend(e, n);
    }
  }

  /** The entry after sendmsg() was refused: the one byte that carries descriptors has been put in place by then. */
  function AfterRefusal(e: Entry): Entry
    requires Valid(e) && !Done(e)
  {
    if e.iovIndex < |e.iov| then e else e.(iov := e.iov[0 := [0]], headerMoved := true)
  }

  /** A refused sendmsg() leaves the same to send, and the same is offered and sent when it is repeated. */
  lemma RefusalKeeps(e: Entry, n: nat)
    requires Valid(e) && !Done(e) && 1 <= n <= |OfferedBytes(e)|
    ensures var r := AfterRefusal(e);
      && Valid(r) && !Done(r) && Remaining(r) == Remaining(e)
      && OfferedBytes(r) == OfferedBytes(e) && OfferedFiles(r) == OfferedFiles(e)
      && AfterSend(r, n) == AfterSend(e, n)
  {
    hide AdvanceIov, Extra, Attach, Flatten;
    if e.iovIndex == |e.iov| {
      var r := AfterRefusal(e);
      assert r.iov[0 := [0]] == r.iov;
      assert r.iov[r.iovIndex..] == e.iov[e.iovIndex..];
    }
  }

  lemma AfterExtraSend(e: Entry, n: nat)
    requires Valid(e) && !Done(e) && e.iovIndex == |e.iov| && 1 <= n <= |OfferedBytes(e)|
    ensures Valid(AfterSend(e, n))
    ensures Remaining(e) == SentCells(e, n) + Remaining(AfterSend(e, n))
    ensures |SentCells(e, n)| == 1
    ensures Done(AfterSend(e, n)) <==> Remaining(AfterSend(e, n)) == []
  {
    hide Valid, AfterSend, Remaining, SentCells, OfferedBytes, OfferedFiles, Extra, Attach;
    AfterExtraIs(e, n);
    var e' := AfterSend(e, n);
    var files := e.msg.files;
    ExtraStep(files, e.filesSent);
    ExtraOnly(e);
    ExtraOnly(e');
    ExtraEmpty(files[e'.filesSent..]);
  }

  lemma AfterExtraIs(e: Entry, n: nat)
    requires Valid(e) && !Done(e) && e.iovIndex == |e.iov| && 1 <= n <= |OfferedBytes(e)|
    ensures var e' := AfterSend(e, n);
      && Valid(e') && e'.iovIndex == |e'.iov| && e'.msg == e.msg
      && e.filesSent < e'.filesSent == Min(|e.msg.files|, e.filesSent + MAX_FDS)
      && SentCells(e, n) == [Cell(0, e.msg.files[e.filesSent..e'.filesSent])]
  {
    hide Flatten;
  }

  lemma ExtraOnly(e: Entry)
    requires Valid(e) && e.iovIndex == |e.iov|
    ensures Remaining(e) == Extra(e.msg.files[e.filesSent..])
  {
    hide Extra;
    assert e.iov[e.iovIndex..] == [];
    assert [] + Extra(e.msg.files[e.filesSent..]) == Extra(e.msg.files[e.filesSent..]);
  }

  lemma ExtraStep(files: seq<Fd>, sent: nat)
    requires sent < |files|
    ensures var to := Min(|files|, sent + MAX_FDS);
      Extra(files[sent..]) == [Cell(0, files[sent..to])] + Extra(files[to..])
  {
    var k := Min(MAX_FDS, |files[sent..]|);
    assert files[sent..][..k] == files[sent..sent + k];
    assert files[sent..][k..] == files[sent + k..];
  }

  // ----- the code itself -----

  /** The kernel's answer to sendmsg(): EAGAIN, n bytes taken, or another error. */
  datatype SendResult = WouldBlock | Sent(n: nat) | Error

  datatype Tried = Complete | Incomplete | Throws

  class SendQueueEntry {
    const message: Message
    var iov: seq<seq<Byte>>
    var iovIndex: nat
    var filesSent: nat
    var headerMoved: bool

    function View(): Entry
      reads this
    {
      Entry(message, iov, iovIndex, filesSent, headerMoved)
    }

    constructor (m: Message)
      ensures View() == NewEntry(m)
    {
      message := m;
      iov := [HeaderOf(m)] + NonEmpty(m.chunks);
      iovIndex, filesSent, headerMoved := 0, 0, false;
    }

    /** trySendMessage(): `result` is what sendmsg() answers. */
    method TrySendMessage(result: SendResult) returns (r: Tried)
      requires Valid(View()) && !Done(View())
      requires result.Sent? ==> 1 <= result.n <= |OfferedBytes(View())|
      modifies this
      ensures !result.Sent? ==> View() == AfterRefusal(old(View())) && r == if result.Error? then Throws else Incomplete
      ensures result.Sent? ==> View() == AfterSend(old(View()), result.n) && r == if Done(View()) then Complete else Incomplete
    {
      OfferIsPrefix(View());
      var filesToSend := |OfferedFiles(View())|;
      if iovIndex == |iov| {
        iov := iov[0 := [0]];
        headerMoved := true;
      }
      if result.WouldBlock? {
        return Incomplete;
      }
      if result.Error? {
        return Throws;
      }
      if iovIndex < |iov| {
        AdvanceSent(result.n);
      }
      filesSent := filesSent + filesToSend;
      r := if iovIndex == |iov| && filesSent == |message.files| then Complete else Incomplete;
    }

    /** The loop that accounts for the bytes that sendmsg() took. */
    method AdvanceSent(n: nat)
      requires iovIndex < |iov| && 1 <= n <= |Flatten(iov[iovIndex..])|
      modifies this`iov, this`iovIndex, this`headerMoved
      ensures IovPosition(iov, iovIndex) == AdvanceIov(old(iov), old(iovIndex), n)
      ensures headerMoved == (old(headerMoved) || iovIndex == 0)
    {
      ghost var iov0, index0 := iov, iovIndex;
      var bytesSent: nat := n;
      while bytesSent > 0
        invariant iovIndex <= |iov| == |iov0|
        invariant bytesSent > 0 ==> iov == iov0 && index0 <= iovIndex && bytesSent <= |Flatten(iov[iovIndex..])|
        invariant AdvanceIov(iov0, index0, n) ==
          if bytesSent > 0 then AdvanceIov(iov, iovIndex, bytesSent) else IovPosition(iov, iovIndex)
        invariant headerMoved == (old(headerMoved) || (bytesSent == 0 && iovIndex == 0))
        decreases bytesSent, |iov| - iovIndex
      {
        assert iov[iovIndex..][1..] == iov[iovIndex + 1..];
        if bytesSent >= |iov[iovIndex]| {
          bytesSent := bytesSent - |iov[iovIndex]|;
          iovIndex := iovIndex + 1;
        } else {
          headerMoved := headerMoved || iovIndex == 0;
          iov := iov[iovIndex := iov[iovIndex][bytesSent..]];
          bytesSent := 0;
        }
      }
    }
  }
}
