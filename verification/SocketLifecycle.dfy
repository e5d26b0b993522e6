/** The life of a UnixSocket (eden/common/utils/UnixSocket.cpp): send queue, receive callback, event
    registration and closing, with callbacks that may call back into the socket at any point.  The
    stack holds the socket's own activations and the callbacks they are running. */
module SocketLifecycle {

  datatype Frame =
    | UserCode(call: Callback)             // a callback is running
    | SendLoop(n: nat)                     // trySend(), about to test its loop for the n-th time
    | RecvLoop(n: nat, alsoWrite: bool)    // tryReceive() in handlerReady(), which may go on to trySend()
    | FailLoop(closeAfter: bool)           // failAllSends(), called by closeNow() or by socketError()
    | CloseTail                            // close(), about to shut down the receive side

  /** How a send ended: given to the kernel, failed in failAllSends(), or refused by send() itself. */
  datatype Outcome = Sent | Failed | Refused

  datatype End = End(id: nat, outcome: Outcome)

  /** sendSuccess() or sendError() of a send that ended so, or a method of the receive callback. */
  datatype Callback = SendEnded(end: End) | MessageReceived | EofReceived | SocketClosed | ReceiveError

  /** `sends[id]` says whether send number id has a callback; `accepted` and `log` are history: the sends
      that entered the queue and the sends that ended.  A send that ends runs its callback if it has one. */
  datatype Socket = Socket(
    open: bool,
    closeStarted: bool,
    queue: seq<nat>,
    receiver: bool,
    readEvents: bool,
    writeEvents: bool,
    timer: bool,
    stack: seq<Frame>,
    crashed: bool,
    sends: seq<bool>,
    accepted: seq<nat>,
    log: seq<End>)

  function Initial(): Socket {
    Socket(true, false, [], false, false, false, false, [], false, [], [], [])
  }

  datatype SendResult = Complete | Blocked | SendThrows
  datatype ReceiveResult = Message | NotYet | Eof | ReceiveThrows

  datatype Action =
    // calls made by the user, from the event loop or from a callback
    | Send(hasCallback: bool, allocOk: bool)
    | Close
    | CloseNow
    | SetReceiveCallback
    | ClearReceiveCallback
    | Return
    // calls made by the event loop
    | HandlerReady(read: bool, write: bool)
    | TimeoutExpired
    // what the socket does next
    | TrySendMessage(sent: SendResult)
    | EndSendLoop
    | TryReceiveOne(received: ReceiveResult)
    | EndRecvLoop
    | FailNext
    | Shutdown(ok: bool)

  const MAX_AT_ONCE := 10

  predicate Quiescent(s: Socket) {
    s.stack == []
  }

  function Top(s: Socket): Frame
    requires !Quiescent(s)
  {
    s.stack[|s.stack| - 1]
  }

  function Push(s: Socket, f: Frame): Socket {
    s.(stack := s.stack + [f])
  }

  function Pop(s: Socket): Socket
    requires !Quiescent(s)
  {
    s.(stack := s.stack[..|s.stack| - 1])
  }

  predicate UserMayCall(s: Socket) {
    Quiescent(s) || Top(s).UserCode?
  }

  predicate Enabled(s: Socket, a: Action) {
    && !s.crashed
    && match a
       case Send(_, _) => UserMayCall(s)
       case Close => UserMayCall(s)
       case CloseNow => UserMayCall(s)
       case SetReceiveCallback => UserMayCall(s)
       case ClearReceiveCallback => UserMayCall(s)
       case Return => !Quiescent(s) && Top(s).UserCode?
       case HandlerReady(read, write) => Quiescent(s) && (read || write) && (read ==> s.readEvents) && (write ==> s.writeEvents)
       case TimeoutExpired => Quiescent(s) && s.timer
       case TrySendMessage(_) => !Quiescent(s) && Top(s).SendLoop? && Top(s).n < MAX_AT_ONCE && s.queue != []
       case EndSendLoop => !Quiescent(s) && Top(s).SendLoop? && (Top(s).n == MAX_AT_ONCE || s.queue == [])
       case TryReceiveOne(_) => !Quiescent(s) && Top(s).RecvLoop? && Top(s).n < MAX_AT_ONCE && s.receiver
       case EndRecvLoop => !Quiescent(s) && Top(s).RecvLoop? && (Top(s).n == MAX_AT_ONCE || !s.receiver)
       case FailNext => !Quiescent(s) && Top(s).FailLoop?
       case Shutdown(_) => !Quiescent(s) && Top(s).CloseTail?
  }

  /** An activation that first runs the receive callback, if one is installed. */
  function Started(stack: seq<Frame>, f: Frame, callback: bool, call: Callback): seq<Frame> {
    if callback then stack + [f] + [UserCode(call)] else stack + [f]
  }

  /** closeNow(): the receive callback hears socketClosed() before the sends are failed. */
  function CloseNowCall(s: Socket): Socket {
    if !s.open then s
    else
      s.(closeStarted := true, readEvents := false, writeEvents := false, timer := false, receiver := false,
         stack := Started(s.stack, FailLoop(true), s.receiver, SocketClosed))
  }

  /** socketError(): the file descriptor is closed first. */
  function SocketErrorCall(s: Socket): Socket {
    if !s.open then s
    else
      s.(open := false, closeStarted := true, readEvents := false, writeEvents := false, timer := false, receiver := false,
         stack := Started(s.stack, FailLoop(false), s.receiver, ReceiveError))
  }

  function CloseCall(s: Socket): Socket {
    if s.closeStarted then s
    else if s.queue == [] then CloseNowCall(s)
    else
      s.(closeStarted := true, receiver := false, readEvents := s.readEvents && !s.receiver,
         stack := Started(s.stack, CloseTail, s.receiver, SocketClosed))
  }

  /** A null callback is not tested for when the send is refused. */
  function Refuse(s: Socket, hasCallback: bool): Socket {
    if hasCallback then
      var end := End(|s.sends|, Refused);
      Push(s.(sends := s.sends + [true], log := s.log + [end]), UserCode(SendEnded(end)))
    else s.(crashed := true)
  }

  function SendCall(s: Socket, hasCallback: bool, allocOk: bool): Socket {
    if s.closeStarted || !allocOk then Refuse(s, hasCallback)
    else
      var id := |s.sends|;
      var t := s.(sends := s.sends + [hasCallback], accepted := s.accepted + [id], queue := s.queue + [id]);
      if s.queue == [] then Push(t, SendLoop(0)) else t
  }

  /** The first send of the queue ends, and its callback runs if it has one. */
  function EndFirst(s: Socket, outcome: Outcome): Socket
    requires s.queue != []
  {
    var id := s.queue[0];
    s.(queue := s.queue[1..], log := s.log + [End(id, outcome)],
       stack := if id < |s.sends| && s.sends[id] then s.stack + [UserCode(SendEnded(End(id, outcome)))] else s.stack)
  }

  /** The end of trySend(), after its loop. */
  function SendTail(s: Socket): Socket {
    if s.queue == [] then
      var t := s.(timer := false, writeEvents := false);
      if s.closeStarted then CloseNowCall(t) else t
    else s.(timer := true, writeEvents := true)
  }

  function Step(s: Socket, a: Action): Socket
    requires Enabled(s, a)
  {
    match a
    case Send(hasCallback, allocOk) => SendCall(s, hasCallback, allocOk)
    case Close => CloseCall(s)
    case CloseNow => CloseNowCall(s)
    case SetReceiveCallback => if s.receiver || s.closeStarted then s else s.(receiver := true, readEvents := true)
    case ClearReceiveCallback => if s.receiver then s.(receiver := false, readEvents := false) else s
    case Return => Pop(s)
    case HandlerReady(read, write) => Push(s, if read then RecvLoop(0, write) else SendLoop(0))
    case TimeoutExpired => SocketErrorCall(s.(timer := false))
    case TrySendMessage(sent) =>
      (match sent
       case Complete => EndFirst(Push(Pop(s), SendLoop(Top(s).n + 1)), Sent)
       case Blocked => SendTail(Pop(s))
       case SendThrows => SocketErrorCall(Pop(s)))
    case EndSendLoop => SendTail(Pop(s))
    case TryReceiveOne(received) =>
      (match received
       case Message => Push(Push(Pop(s), RecvLoop(Top(s).n + 1, Top(s).alsoWrite)), UserCode(MessageReceived))
       case NotYet => Push(Pop(s), RecvLoop(MAX_AT_ONCE, Top(s).alsoWrite))
       case Eof => Push(Push(Pop(s), RecvLoop(MAX_AT_ONCE, Top(s).alsoWrite)), UserCode(EofReceived))
       case ReceiveThrows => SocketErrorCall(Pop(s)))
    case EndRecvLoop => if Top(s).alsoWrite then Push(Pop(s), SendLoop(0)) else Pop(s)
    case FailNext =>
      if s.queue != [] then EndFirst(s, Failed)
      else if Top(s).closeAfter then Pop(s).(open := false) else Pop(s)
    case Shutdown(_) => Pop(s)
  }

  /** The debug checks that closeNow() and socketError() make when the descriptor is already closed. */
  predicate ChecksHold(s: Socket) {
    s.closeStarted && !s.readEvents && !s.writeEvents && !s.timer && !s.receiver && s.queue == []
  }
}
