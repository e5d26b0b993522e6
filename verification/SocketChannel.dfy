/** Two UnixSockets joined by a kernel stream: a sender with its queue, a FIFO of cells, and a
    receiver.  The kernel takes any nonempty prefix of what sendmsg() offers, gives any nonempty
    prefix of what recvmsg() asks for, or refuses with EAGAIN, in any order. */
module SocketChannel {
  import opened Numbering
  import opened Buffers
  import opened SocketWire
  import opened SocketSender
  import opened SocketReceiver

  datatype Status = Running | AtEof | Aborted(reason: AbortReason)

  /** `handed` is everything the kernel ever took from the sender; `offset` counts the cells read
      since the last message boundary. */
  datatype System = System(
    accepted: seq<Message>,
    queue: seq<Entry>,
    handed: seq<Cell>,
    channel: seq<Cell>,
    senderClosed: bool,
    partial: Partial,
    offset: nat,
    delivered: seq<Packet>,
    status: Status)

  datatype Event =
    | Accept(m: Message)      // send() queues a message
    | Transmit(sent: nat)     // sendmsg() takes `sent` bytes of the first entry
    | Receive(got: nat)       // recvmsg() returns `got` bytes
    | CloseSender             // the sending endpoint goes away with whatever is still queued
    | ReceiveEof              // recvmsg() returns 0
    | WouldBlock              // EAGAIN on either side

  function Initial(): System {
    System([], [], [], [], false, EMPTY, 0, [], Running)
  }

  predicate Enabled(s: System, ev: Event) {
    match ev
    case Accept(_) => !s.senderClosed
    case Transmit(n) =>
      && s.queue != [] && !s.senderClosed
      && Valid(s.queue[0]) && !Done(s.queue[0]) && 1 <= n <= |OfferedBytes(s.queue[0])|
    case Receive(n) => s.status.Running? && 1 <= n <= Min(Wanted(s.partial), |s.channel|)
    case CloseSender => !s.senderClosed
    case ReceiveEof => s.status.Running? && s.senderClosed && s.channel == []
    case WouldBlock => true
  }

  /** trySend() drops the first entry once it is complete. */
  function QueueAfter(queue: seq<Entry>, n: nat): seq<Entry>
    requires queue != [] && Valid(queue[0]) && !Done(queue[0]) && 1 <= n <= |OfferedBytes(queue[0])|
  {
    var e := AfterSend(queue[0], n);
    if Done(e) then queue[1..] else [e] + queue[1..]
  }

  function Step(s: System, ev: Event, limits: Limits): System
    requires Enabled(s, ev)
  {
    match ev
    case Accept(m) => s.(accepted := s.accepted + [m], queue := s.queue + [NewEntry(m)])
    case Transmit(n) =>
      var cells := SentCells(s.queue[0], n);
      s.(queue := QueueAfter(s.queue, n), handed := s.handed + cells, channel := s.channel + cells)
    case Receive(n) =>
      var rest := s.(channel := s.channel[n..]);
      (match Absorb(s.partial, s.channel[..n], limits)
       case More(p) => rest.(partial := p, offset := s.offset + n)
       case Complete(packet) => rest.(partial := EMPTY, offset := 0, delivered := s.delivered + [packet])
       case Abort(reason) => rest.(status := Aborted(reason), offset := s.offset + n))
    case CloseSender => s.(senderClosed := true, queue := [])
    case ReceiveEof => s.(status := if s.partial.headerBytes == [] then AtEof else Aborted(EofInsideMessage))
    case WouldBlock => s
  }

  // ----- the invariant -----

  predicate QueueValid(queue: seq<Entry>) {
    forall i :: 0 <= i < |queue| ==> Valid(queue[i]) && !Done(queue[i])
  }

  function Pending(queue: seq<Entry>): seq<Cell>
    requires QueueValid(queue)
  {
    if queue == [] then [] else Remaining(queue[0]) + Pending(queue[1..])
  }

  predicate Fits(ms: seq<Message>) {
    forall i :: 0 <= i < |ms| ==> FitsHeader(ms[i])
  }

  /** The packets handed out are the first messages accepted, in order and unchanged. */
  predicate DeliveredPrefix(s: System) {
    && |s.delivered| <= |s.accepted|
    && forall i :: 0 <= i < |s.delivered| ==> s.delivered[i] == PacketOf(s.accepted[i])
  }

  /** Nothing is lost, repeated or reordered between the messages, the sender, the kernel and the
      receiver: k messages were handed out, and `offset` cells of the rest were read. */
  predicate Stream(accepted: seq<Message>, k: nat, offset: nat, handed: seq<Cell>, channel: seq<Cell>, queue: seq<Entry>, closed: bool) {
    && k <= |accepted|
    && QueueValid(queue)
    && var rest := WireAll(accepted[k..]);
    && offset <= |rest|
    && handed == WireAll(accepted[..k]) + rest[..offset] + channel
    && channel + Pending(queue) <= rest[offset..]
    && (!closed ==> channel + Pending(queue) == rest[offset..])
  }

  predicate Conserved(s: System) {
    Stream(s.accepted, |s.delivered|, s.offset, s.handed, s.channel, s.queue, s.senderClosed)
  }

  predicate ReceiverState(s: System, limits: Limits)
    requires |s.delivered| <= |s.accepted|
  {
    var k := |s.delivered|;
    match s.status
    case Running =>
      if k < |s.accepted| then
        s.offset < |Wire(s.accepted[k])| && Matches(s.partial, PartsOf(s.accepted[k]), s.offset)
      else s.partial.headerBytes == [] && s.partial.data == [] && s.partial.files == []
    case AtEof => s.senderClosed && s.channel == [] && s.offset == 0
    case Aborted(reason) =>
      && k < |s.accepted|
      && match reason
         case TooMuchData => |Body(s.accepted[k])| > limits.maxData
         case TooManyFiles => |Body(s.accepted[k])| <= limits.maxData && |s.accepted[k].files| > limits.maxFiles
         case EofInsideMessage => s.senderClosed && s.channel == [] && 0 < s.offset < |Wire(s.accepted[k])|
         case _ => false
  }

  predicate Inv(s: System, limits: Limits) {
    && Fits(s.accepted)
    && DeliveredPrefix(s)
    && Conserved(s)
    && ReceiverState(s, limits)
  }

  // ----- every step keeps it -----

  lemma {:induction false} PendingAppend(queue: seq<Entry>, e: Entry)
    requires QueueValid(queue) && Valid(e) && !Done(e)
    ensures QueueValid(queue + [e])
    ensures Pending(queue + [e]) == Pending(queue) + Remaining(e)
  {
    hide Remaining, Valid, Done;
    if queue == [] {
      assert (queue + [e])[1..] == [];
    } else {
      PendingAppend(queue[1..], e);
      assert (queue + [e])[1..] == queue[1..] + [e];
      Assoc(Remaining(queue[0]), Pending(queue[1..]), Remaining(e));
    }
  }

  lemma AcceptConserved(accepted: seq<Message>, k: nat, offset: nat, handed: seq<Cell>, channel: seq<Cell>, queue: seq<Entry>, m: Message)
    requires Stream(accepted, k, offset, handed, channel, queue, false)
    ensures Stream(accepted + [m], k, offset, handed, channel, queue + [NewEntry(m)], false)
  {
    hide Wire, WireAll, Remaining, Pending, QueueValid, NewEntry, Valid, Done;
    NewEntryRemaining(m);
    PendingAppend(queue, NewEntry(m));
    assert (accepted + [m])[k..] == accepted[k..] + [m];
    assert (accepted + [m])[..k] == accepted[..k];
    WireAllConcat(accepted[k..], [m]);
    WireOfOne(m);
    LongerRest(WireAll(accepted[k..]), Wire(m), offset);
    Assoc(channel, Pending(queue), Wire(m));
  }

  lemma LongerRest(rest: seq<Cell>, more: seq<Cell>, offset: nat)
    requires offset <= |rest|
    ensures (rest + more)[offset..] == rest[offset..] + more && (rest + more)[..offset] == rest[..offset]
  {
  }

  lemma WireOfOne(m: Message)
    ensures WireAll([m]) == Wire(m)
  {
    assert [m][1..] == [];
  }

  lemma AcceptKeeps(s: System, m: Message, limits: Limits)
    requires Inv(s, limits) && !s.senderClosed && FitsHeader(m)
    ensures Inv(Step(s, Accept(m), limits), limits)
  {
    hide Wire, Stream;
    AcceptConserved(s.accepted, |s.delivered|, s.offset, s.handed, s.channel, s.queue, m);
    if |s.delivered| == |s.accepted| {
      OffsetAtEnd(s);
      FreshMatches(m);
    }
  }

  lemma OffsetAtEnd(s: System)
    requires Conserved(s) && |s.delivered| == |s.accepted|
    ensures s.offset == 0 && s.channel == []
  {
    assert s.accepted[|s.delivered|..] == [];
  }

  lemma FreshMatches(m: Message)
    ensures forall p: Partial :: p.headerBytes == [] && p.data == [] && p.files == [] ==> Matches(p, PartsOf(m), 0)
  {
  }

  /** One transmission: what leaves the queue is what enters the kernel. */
  lemma TransmitMoves(queue: seq<Entry>, n: nat)
    requires QueueValid(queue) && queue != [] && 1 <= n <= |OfferedBytes(queue[0])|
    ensures QueueValid(QueueAfter(queue, n))
    ensures Pending(queue) == SentCells(queue[0], n) + Pending(QueueAfter(queue, n))
    ensures |Pending(QueueAfter(queue, n))| < |Pending(queue)|
  {
    hide Remaining, AfterSend, SentCells, Valid, Done, OfferedBytes, Pending, QueueValid;
    FirstPending(queue);
    var e, rest := AfterSend(queue[0], n), queue[1..];
    AfterSendCorrect(queue[0], n);
    if !Done(e) {
      PendingBehind(e, rest);
      Assoc(SentCells(queue[0], n), Remaining(e), Pending(rest));
    } else {
      assert SentCells(queue[0], n) + [] == SentCells(queue[0], n);
    }
  }

  lemma FirstPending(queue: seq<Entry>)
    requires QueueValid(queue) && queue != []
    ensures Valid(queue[0]) && !Done(queue[0]) && QueueValid(queue[1..])
    ensures Pending(queue) == Remaining(queue[0]) + Pending(queue[1..])
  {
  }

  lemma PendingBehind(e: Entry, rest: seq<Entry>)
    requires Valid(e) && !Done(e) && QueueValid(rest)
    ensures QueueValid([e] + rest) && Pending([e] + rest) == Remaining(e) + Pending(rest)
  {
    hide Remaining, Valid, Done;
    assert ([e] + rest)[1..] == rest;
  }

  lemma TransmitConserved(accepted: seq<Message>, k: nat, offset: nat, handed: seq<Cell>, channel: seq<Cell>, queue: seq<Entry>, n: nat)
    requires Stream(accepted, k, offset, handed, channel, queue, false)
    requires queue != [] && 1 <= n <= |OfferedBytes(queue[0])|
    ensures var cells := SentCells(queue[0], n);
      Stream(accepted, k, offset, handed + cells, channel + cells, QueueAfter(queue, n), false)
  {
    hide Wire, Remaining, AfterSend, SentCells, Valid;
    TransmitMoves(queue, n);
    var cells := SentCells(queue[0], n);
    Assoc(channel, cells, Pending(QueueAfter(queue, n)));
    Assoc(WireAll(accepted[..k]) + WireAll(accepted[k..])[..offset], channel, cells);
  }

  lemma TransmitKeeps(s: System, n: nat, limits: Limits)
    requires Inv(s, limits) && Enabled(s, Transmit(n))
    ensures Inv(Step(s, Transmit(n), limits), limits)
  {
    hide Wire, Stream;
    TransmitConserved(s.accepted, |s.delivered|, s.offset, s.handed, s.channel, s.queue, n);
  }

  lemma RestUnfold(accepted: seq<Message>, k: nat)
    requires k < |accepted|
    ensures WireAll(accepted[k..]) == Wire(accepted[k]) + WireAll(accepted[k + 1..])
  {
    hide Wire;
    assert accepted[k..][1..] == accepted[k + 1..];
  }

  /** While there is something to read, a message is being read and the receiver's state fits it. */
  lemma BeingRead(s: System, limits: Limits)
    requires Inv(s, limits) && s.status.Running? && s.channel != []
    ensures var k := |s.delivered|;
      && k < |s.accepted| && FitsHeader(s.accepted[k])
      && s.offset < |Wire(s.accepted[k])| && Matches(s.partial, PartsOf(s.accepted[k]), s.offset)
      && QueueValid(s.queue)
      && s.channel + Pending(s.queue) <= WireAll(s.accepted[k..])[s.offset..]
  {
    hide Wire, WireAll, Matches, Remaining, Pending, QueueValid;
    if |s.delivered| == |s.accepted| {
      OffsetAtEnd(s);
    }
  }

  /** What recvmsg() returns is a stretch of the message being read. */
  lemma ReceivedStretch(s: System, n: nat, limits: Limits)
    requires Inv(s, limits) && Enabled(s, Receive(n))
    ensures var k := |s.delivered|;
      && k < |s.accepted|
      && s.offset + n <= |Wire(s.accepted[k])|
      && Groups(s.channel[..n]) <= 1
      && Reassembles(s.partial, PartsOf(s.accepted[k]), s.offset, s.channel[..n], limits)
      && (Whole(PartsOf(s.accepted[k]), s.offset + n) <==> s.offset + n == |Wire(s.accepted[k])|)
  {
    hide Wire, WireAll, Reassembles, Matches, Remaining, Pending, QueueValid, Inv, Whole, FitsHeader, PartsOf, Wanted;
    BeingRead(s, limits);
    var k := |s.delivered|;
    RestUnfold(s.accepted, k);
    ReassemblyStep(s.partial, s.accepted[k], s.offset, n, limits);
    StretchOf(Wire(s.accepted[k]), WireAll(s.accepted[k + 1..]), s.offset, n, s.channel, Pending(s.queue));
  }

  lemma StretchOf(w: seq<Cell>, tail: seq<Cell>, offset: nat, n: nat, channel: seq<Cell>, pending: seq<Cell>)
    requires offset + n <= |w| && n <= |channel|
    requires channel + pending <= (w + tail)[offset..]
    ensures channel[..n] == w[offset..offset + n]
  {
    assert channel[..n] == (channel + pending)[..n] == (w + tail)[offset..][..n] == (w + tail)[offset..offset + n];
  }

  /** Reading n cells moves them from the channel to the part already read. */
  lemma CellsMove(done: seq<Cell>, rest: seq<Cell>, offset: nat, n: nat, channel: seq<Cell>, pending: seq<Cell>)
    requires offset <= |rest| && n <= |channel| && channel + pending <= rest[offset..]
    ensures offset + n <= |rest|
    ensures done + rest[..offset] + channel == done + rest[..offset + n] + channel[n..]
    ensures channel[n..] + pending <= rest[offset + n..]
    ensures channel + pending == rest[offset..] ==> channel[n..] + pending == rest[offset + n..]
  {
    var got := channel[..n];
    assert channel == got + channel[n..];
    assert got == (channel + pending)[..n] == rest[offset..][..n] == rest[offset..offset + n];
    assert rest[..offset + n] == rest[..offset] + got;
    assert channel[n..] + pending == (channel + pending)[n..];
    assert rest[offset + n..] == rest[offset..][n..];
  }

  lemma ReceiveConserved(accepted: seq<Message>, k: nat, offset: nat, handed: seq<Cell>, channel: seq<Cell>, queue: seq<Entry>, closed: bool, n: nat)
    requires Stream(accepted, k, offset, handed, channel, queue, closed) && n <= |channel|
    ensures Stream(accepted, k, offset + n, handed, channel[n..], queue, closed)
  {
    hide Wire, Remaining;
    CellsMove(WireAll(accepted[..k]), WireAll(accepted[k..]), offset, n, channel, Pending(queue));
  }

  /** At the last cell of message k the count of messages goes up and the offset starts again. */
  lemma BoundaryConserved(accepted: seq<Message>, k: nat, offset: nat, handed: seq<Cell>, channel: seq<Cell>, queue: seq<Entry>, closed: bool)
    requires Stream(accepted, k, offset, handed, channel, queue, closed)
    requires k < |accepted| && offset == |Wire(accepted[k])|
    ensures Stream(accepted, k + 1, 0, handed, channel, queue, closed)
  {
    hide Wire, Remaining;
    RestUnfold(accepted, k);
    assert accepted[..k + 1] == accepted[..k] + [accepted[k]];
    WireAllConcat(accepted[..k], [accepted[k]]);
    WireOfOne(accepted[k]);
    var tail := WireAll(accepted[k + 1..]);
    assert tail[..0] == [] && tail[0..] == tail;
    assert (Wire(accepted[k]) + tail)[..offset] == Wire(accepted[k]);
    assert (Wire(accepted[k]) + tail)[offset..] == tail;
    assert WireAll(accepted[..k + 1]) + [] == WireAll(accepted[..k + 1]);
  }

  lemma ReceiveKeeps(s: System, n: nat, limits: Limits)
    requires Inv(s, limits) && Enabled(s, Receive(n))
    ensures Inv(Step(s, Receive(n), limits), limits)
  {
    hide Wire, Stream, Absorb, Matches, Groups, Whole, PartsOf, Wanted, Accepts, FitsHeader, Valid, OfferedBytes;
    var k := |s.delivered|;
    ReceivedStretch(s, n, limits);
    PartsAre(s.accepted[k]);
    ReceiveConserved(s.accepted, k, s.offset, s.handed, s.channel, s.queue, s.senderClosed, n);
    if Absorb(s.partial, s.channel[..n], limits).Complete? {
      BoundaryConserved(s.accepted, k, s.offset + n, s.handed, s.channel[n..], s.queue, s.senderClosed);
      if k + 1 < |s.accepted| {
        FreshMatches(s.accepted[k + 1]);
      }
    } else if Absorb(s.partial, s.channel[..n], limits).Abort? {
      RefusedOnlyByLimits(limits, s.accepted[k]);
    }
  }

  lemma PartsAre(m: Message)
    ensures PartsOf(m).body == Body(m) && PartsOf(m).files == m.files
    ensures PacketOf(m) == Packet(Body(m), m.files)
  {
  }

  lemma RefusedOnlyByLimits(limits: Limits, m: Message)
    requires !Accepts(limits, PartsOf(m))
    ensures |Body(m)| > limits.maxData || |m.files| > limits.maxFiles
  {
  }

  lemma CloseKeeps(s: System, limits: Limits)
    requires Inv(s, limits) && !s.senderClosed
    ensures Inv(Step(s, CloseSender, limits), limits)
  {
    hide Wire, Remaining;
    assert s.channel + [] == s.channel;
  }

  lemma EofKeeps(s: System, limits: Limits)
    requires Inv(s, limits) && Enabled(s, ReceiveEof)
    ensures Inv(Step(s, ReceiveEof, limits), limits)
  {
    hide Wire, Stream;
    if |s.delivered| < |s.accepted| {
      assert s.partial.headerBytes == [] <==> s.offset == 0;
    } else {
      OffsetAtEnd(s);
    }
  }

  lemma StepKeeps(s: System, ev: Event, limits: Limits)
    requires Inv(s, limits) && Enabled(s, ev)
    requires ev.Accept? ==> FitsHeader(ev.m)
    ensures Inv(Step(s, ev, limits), limits)
  {
    match ev
    case Accept(m) => AcceptKeeps(s, m, limits);
    case Transmit(n) => TransmitKeeps(s, n, limits);
    case Receive(n) => ReceiveKeeps(s, n, limits);
    case CloseSender => CloseKeeps(s, limits);
    case ReceiveEof => EofKeeps(s, limits);
    case WouldBlock =>
  }

  // ----- runs -----

  /** A run: any schedule of events from the initial state, all messages sent having sizes that the header can carry. */
  predicate IsRun(states: seq<System>, events: seq<Event>, limits: Limits) {
    && |states| == |events| + 1
    && states[0] == Initial()
    && forall i :: 0 <= i < |events| ==>
         && Enabled(states[i], events[i])
         && states[i + 1] == Step(states[i], events[i], limits)
         && (events[i].Accept? ==> FitsHeader(events[i].m))
  }

  lemma {:induction false} RunKeeps(states: seq<System>, events: seq<Event>, limits: Limits, i: nat)
    requires IsRun(states, events, limits) && i < |states|
    ensures Inv(states[i], limits)
  {
    if i == 0 {
      assert WireAll([]) == [];
    } else {
      RunKeeps(states, events, limits, i - 1);
      StepKeeps(states[i - 1], events[i - 1], limits);
    }
  }

  /** Safety.  At every moment of every schedule the packets delivered are a prefix of the messages
      accepted, with the same bytes and descriptors. */
  lemma DeliveryIsPrefix(states: seq<System>, events: seq<Event>, limits: Limits, i: nat)
    requires IsRun(states, events, limits) && i < |states|
    ensures |states[i].delivered| <= |states[i].accepted|
    ensures forall j :: 0 <= j < |states[i].delivered| ==> states[i].delivered[j] == PacketOf(states[i].accepted[j])
  {
    RunKeeps(states, events, limits, i);
  }

  /** No recvmsg() ever meets two groups of descriptors, so none is ever truncated. */
  lemma OneGroupPerRead(states: seq<System>, events: seq<Event>, limits: Limits, i: nat)
    requires IsRun(states, events, limits) && i < |events| && events[i].Receive?
    ensures Groups(states[i].channel[..events[i].got]) <= 1
    ensures states[i + 1].status != Aborted(ControlTruncated)
  {
    hide Inv, Step, Enabled, Groups;
    RunKeeps(states, events, limits, i);
    ReceivedStretch(states[i], events[i].got, limits);
    RunKeeps(states, events, limits, i + 1);
    NeverTruncated(states[i + 1], limits);
  }

  lemma NeverTruncated(s: System, limits: Limits)
    requires Inv(s, limits)
    ensures s.status != Aborted(ControlTruncated)
  {
    hide Conserved, DeliveredPrefix, Matches, Fits;
  }

  /** Completeness.  When nothing is queued or in flight and no one has given up, everything
      accepted has been delivered: no part of a message can get stuck in the receiver. */
  lemma DrainedMeansDelivered(states: seq<System>, events: seq<Event>, limits: Limits, i: nat)
    requires IsRun(states, events, limits) && i < |states|
    requires states[i].status.Running? && !states[i].senderClosed
    ensures states[i].queue == [] && states[i].channel == [] ==> |states[i].delivered| == |states[i].accepted|
  {
    var s := states[i];
    RunKeeps(states, events, limits, i);
    if |s.delivered| < |s.accepted| {
      RestUnfold(s.accepted, |s.delivered|);
      assert s.channel + Pending(s.queue) != [];
    }
  }

  /** The messages that send() was called with. */
  function Calls(events: seq<Event>): seq<Message> {
    if events == [] then []
    else Calls(events[..|events| - 1]) + if events[|events| - 1].Accept? then [events[|events| - 1].m] else []
  }

  /** What is accepted is what send() was called with, in that order. */
  lemma {:induction false} AcceptedAreCalls(states: seq<System>, events: seq<Event>, limits: Limits, i: nat)
    requires IsRun(states, events, limits) && i <= |events|
    ensures states[i].accepted == Calls(events[..i])
  {
    hide Step, Enabled;
    if i > 0 {
      AcceptedAreCalls(states, events, limits, i - 1);
      AcceptedStep(states[i - 1], events[i - 1], limits);
      assert events[..i][..i - 1] == events[..i - 1];
    }
  }

  lemma AcceptedStep(s: System, ev: Event, limits: Limits)
    requires Enabled(s, ev)
    ensures Step(s, ev, limits).accepted == s.accepted + if ev.Accept? then [ev.m] else []
  {
    hide Absorb, QueueAfter;
  }

  /** Once the sending endpoint is gone it stays gone, nothing is left of its queue, and the receiver can
      read on until it reports the end or aborts. */
  lemma {:induction false} ClosedStreamEnds(states: seq<System>, events: seq<Event>, limits: Limits, i: nat, j: nat)
    requires IsRun(states, events, limits) && i < j <= |events| && events[i].CloseSender?
    ensures var s := states[j];
      && s.senderClosed && s.queue == [] && |s.channel| <= |states[i].channel|
      && (s.status.Running? ==> Enabled(s, Receive(1)) || Enabled(s, ReceiveEof))
  {
    hide Step, Enabled, Absorb;
    if j > i + 1 {
      ClosedStreamEnds(states, events, limits, i, j - 1);
    }
    ClosedStep(states[j - 1], events[j - 1], limits);
    ReadsOn(states[j]);
  }

  lemma ClosedStep(s: System, ev: Event, limits: Limits)
    requires Enabled(s, ev) && (ev.CloseSender? || (s.senderClosed && s.queue == []))
    ensures var s' := Step(s, ev, limits);
      && s'.senderClosed && s'.queue == [] && |s'.channel| <= |s.channel|
      && (ev.ReceiveEof? ==> !s'.status.Running?)
  {
    hide Absorb, QueueAfter;
  }

  lemma ReadsOn(s: System)
    requires s.senderClosed
    ensures s.status.Running? ==> Enabled(s, Receive(1)) || Enabled(s, ReceiveEof)
  {
  }

  /** Progress.  A transmission that the kernel does not refuse strictly shrinks the cells still to
      send, and a read strictly shrinks the channel. */
  lemma StepsMakeProgress(states: seq<System>, events: seq<Event>, limits: Limits, i: nat)
    requires IsRun(states, events, limits) && i < |events|
    ensures QueueValid(states[i].queue) && QueueValid(states[i + 1].queue)
    ensures events[i].Transmit? ==> |Pending(states[i + 1].queue)| < |Pending(states[i].queue)|
    ensures events[i].Receive? ==> |states[i + 1].channel| < |states[i].channel|
  {
    hide Inv, Step, Enabled, QueueValid, Pending;
    RunKeeps(states, events, limits, i);
    RunKeeps(states, events, limits, i + 1);
    InvQueue(states[i], limits);
    InvQueue(states[i + 1], limits);
    StepShrinks(states[i], events[i], limits);
  }

  lemma InvQueue(s: System, limits: Limits)
    requires Inv(s, limits)
    ensures QueueValid(s.queue)
  {
    hide Wire, WireAll, Remaining, Matches, QueueValid;
  }

  lemma StepShrinks(s: System, ev: Event, limits: Limits)
    requires Enabled(s, ev) && QueueValid(s.queue) && QueueValid(Step(s, ev, limits).queue)
    ensures ev.Transmit? ==> |Pending(Step(s, ev, limits).queue)| < |Pending(s.queue)|
    ensures ev.Receive? ==> |Step(s, ev, limits).channel| < |s.channel|
  {
    hide Wire, Remaining, AfterSend, Absorb, OfferedBytes, SentCells, QueueAfter, Pending, Valid, Done;
    if ev.Transmit? {
      TransmitMoves(s.queue, ev.sent);
    }
  }

  /** And one of the two is always possible while a message is on its way. */
  lemma NeverStuck(states: seq<System>, events: seq<Event>, limits: Limits, i: nat)
    requires IsRun(states, events, limits) && i < |states|
    requires states[i].status.Running? && !states[i].senderClosed
    requires |states[i].delivered| < |states[i].accepted|
    ensures Enabled(states[i], Transmit(1)) || Enabled(states[i], Receive(1))
  {
    var s := states[i];
    DrainedMeansDelivered(states, events, limits, i);
    RunKeeps(states, events, limits, i);
    if s.queue != [] {
      OfferIsPrefix(s.queue[0]);
    }
  }

  /** The receiver aborts only because of the next message's size, or because the sender went away
      in the middle of it; and a clean end of file means that everything the kernel took was delivered. */
  lemma AbortAndEof(states: seq<System>, events: seq<Event>, limits: Limits, i: nat)
    requires IsRun(states, events, limits) && i < |states|
    ensures var s := states[i];
      && |s.delivered| <= |s.accepted|
      && (s.status.Aborted? ==>
            && |s.delivered| < |s.accepted|
            && (s.status.reason == EofInsideMessage ==> s.senderClosed)
            && (s.status.reason != EofInsideMessage ==> !Accepts(limits, PartsOf(s.accepted[|s.delivered|]))))
      && (s.status.AtEof? ==> s.handed == WireAll(s.accepted[..|s.delivered|]))
  {
    var s := states[i];
    RunKeeps(states, events, limits, i);
    if s.status.AtEof? {
      assert WireAll(s.accepted[|s.delivered|..])[..0] == [];
      assert s.handed == WireAll(s.accepted[..|s.delivered|]) + [] + [];
    }
  }

  /** tryReceiveOne() asserts, in debug builds, that no files were received while the header is
      incomplete (UnixSocket.cpp:728).  On a later read of the header this holds exactly when the
      message carries no files, because the first read brings the first batch. */
  lemma DebugCheckOnShortHeader(states: seq<System>, events: seq<Event>, limits: Limits, i: nat)
    requires IsRun(states, events, limits) && i < |states|
    requires states[i].status.Running? && 0 < |states[i].partial.headerBytes| < HEADER_LENGTH
    ensures |states[i].delivered| < |states[i].accepted|
    ensures states[i].partial.files == [] <==> states[i].accepted[|states[i].delivered|].files == []
  {
    RunKeeps(states, events, limits, i);
  }

  /** The shortest schedule on which that check fails: one file, and one byte of the header. */
  lemma DebugCheckFails(limits: Limits) returns (states: seq<System>, events: seq<Event>)
    ensures IsRun(states, events, limits)
    ensures InHeader(states[|states| - 1].partial) && states[|states| - 1].partial.files != []
  {
    hide Step, Enabled, InHeader, FitsHeader;
    var m := Message([], [7]);
    SmallMessage(m);
    var s0 := Initial();
    AcceptIs(s0, m, limits);
    var s1 := Step(s0, Accept(m), limits);
    FirstByte(s1, m, limits);
    var s2 := Step(s1, Transmit(1), limits);
    FirstRead(s2, limits);
    var s3 := Step(s2, Receive(1), limits);
    states, events := [s0, s1, s2, s3], [Accept(m), Transmit(1), Receive(1)];
  }

  lemma SmallMessage(m: Message)
    requires m == Message([], [7])
    ensures FitsHeader(m)
  {
  }

  lemma AcceptIs(s: System, m: Message, limits: Limits)
    requires s == Initial()
    ensures Enabled(s, Accept(m)) && Step(s, Accept(m), limits) == s.(accepted := [m], queue := [NewEntry(m)])
  {
    hide NewEntry;
  }

  lemma FirstByte(s: System, m: Message, limits: Limits)
    requires m == Message([], [7]) && s == Initial().(accepted := [m], queue := [NewEntry(m)])
    ensures Enabled(s, Transmit(1))
    ensures var s' := Step(s, Transmit(1), limits);
      s'.partial == EMPTY && s'.status.Running? && |s'.channel| == 1 && s'.channel[0].fds == [7]
  {
    hide NewEntry, Wire, Remaining, AfterSend, QueueAfter;
    NewEntryRemaining(m);
    var e := NewEntry(m);
    OfferIsPrefix(e);
    OffersItsFile(m);
    assert [] + SentCells(e, 1) == SentCells(e, 1);
  }

  lemma OffersItsFile(m: Message)
    requires m == Message([], [7]) && Valid(NewEntry(m))
    ensures OfferedFiles(NewEntry(m)) == [7]
  {
  }

  lemma FirstRead(s: System, limits: Limits)
    requires s.partial == EMPTY && s.status.Running? && |s.channel| == 1 && s.channel[0].fds == [7]
    ensures Enabled(s, Receive(1))
    ensures var p := Step(s, Receive(1), limits).partial; InHeader(p) && p.files == [7]
  {
    hide DeserializeHeader, AfterHeader, AfterSend, Valid, Done, OfferedBytes;
    assert s.channel[..1] == s.channel;
    OneGroup(s.channel);
  }
}
