/** FutureUnixSocket (eden/common/utils/FutureUnixSocket.cpp): receive() hands out futures that later
    messages, errors and timeouts fulfil.  Fulfilling a future may run user code that calls back in. */
module FutureSocket {

  /** `socket_`: gone; held and open; or held although an error, or our destructor, has closed it underneath. */
  datatype Inner = Null | Live | Dead

  datatype Error = NotConnected | ClosedLocally | EndOfFile | SocketFailed | TimedOut

  /** The k-th message delivered, or an error. */
  datatype Result = Value(k: nat) | Failure(error: Error)

  datatype Fulfilment = Fulfilment(id: nat, result: Result)

  datatype Frame =
    | UserCode
    | FailLoop(ids: seq<nat>, error: Error)   // failReceiveQueue() with what is left of its list
    | SendFailures                            // the inner socket is failing its sends
    | FailPromises(error: Error)              // eofReceived() or socketClosed(), after socket_.reset()
    | DestructorTail                          // the destructor, about to make its checks

  /** `queue` are the pending receives and `installed` says whether the inner socket has our callback.
      History: the number of receives, those that entered the queue, and all fulfilments. */
  datatype Future = Future(
    socket: Inner,
    installed: bool,
    queue: seq<nat>,
    stack: seq<Frame>,
    delivered: nat,
    receives: nat,
    accepted: seq<nat>,
    log: seq<Fulfilment>)

  function Initial(): Future {
    Future(Live, false, [], [], 0, 0, [], [])
  }

  datatype Action =
    // calls by the user
    | Receive
    | CloseNow
    | Destroy
    | Return
    // what the inner socket and the event loop do
    | MessageReceived
    | EofReceived
    | SocketError
    | Timeout(id: nat)
    // what happens next
    | FailNext
    | SendFails
    | EndSendFailures
    | FinishPromises
    | FinishDestructor

  predicate Quiescent(s: Future) {
    s.stack == []
  }

  function Top(s: Future): Frame
    requires !Quiescent(s)
  {
    s.stack[|s.stack| - 1]
  }

  function Below(s: Future): seq<Frame>
    requires !Quiescent(s)
  {
    s.stack[..|s.stack| - 1]
  }

  predicate Enabled(s: Future, a: Action) {
    match a
    case Receive => Quiescent(s) || Top(s).UserCode?
    case CloseNow => Quiescent(s) || Top(s).UserCode?
    case Destroy => Quiescent(s)
    case Return => !Quiescent(s) && Top(s).UserCode?
    case MessageReceived => Quiescent(s) && s.installed
    case EofReceived => Quiescent(s) && s.installed
    case SocketError => (Quiescent(s) || Top(s).UserCode?) && s.socket.Live?   // in the event loop or in send()
    case Timeout(id) => Quiescent(s) && id in s.queue
    case FailNext => !Quiescent(s) && Top(s).FailLoop?
    case SendFails => !Quiescent(s) && Top(s).SendFailures?
    case EndSendFailures => !Quiescent(s) && Top(s).SendFailures?
    case FinishPromises => !Quiescent(s) && Top(s).FailPromises?
    case FinishDestructor => !Quiescent(s) && Top(s).DestructorTail?
  }

  /** receive() links its callback into the queue before it asks the inner socket, which refuses when it is dead. */
  function ReceiveCall(s: Future): Future {
    var id := s.receives;
    if s.socket.Null? then
      s.(receives := id + 1, log := s.log + [Fulfilment(id, Failure(NotConnected))])
    else
      s.(receives := id + 1, accepted := s.accepted + [id], queue := s.queue + [id],
         installed := s.installed || (s.queue == [] && s.socket.Live?))
  }

  /** receive() ends with the exception of setReceiveCallback(), and its caller gets no future. */
  predicate ReceiveThrows(s: Future) {
    s.socket.Dead? && s.queue == []
  }

  /** socket_.reset() with `below` still to do: the inner socket calls socketClosed() if our callback
      is installed, which fails the queue, and then fails its sends. */
  function Reset(s: Future, below: seq<Frame>): Future {
    if !s.socket.Live? then s.(socket := Null, stack := below)
    else if s.installed then
      s.(socket := Null, installed := false, queue := [], stack := below + [SendFailures, FailLoop(s.queue, ClosedLocally)])
    else s.(socket := Null, stack := below + [SendFailures])
  }

  function Step(s: Future, a: Action): Future
    requires Enabled(s, a)
  {
    match a
    case Receive => ReceiveCall(s)
    case CloseNow => Reset(s, s.stack)
    case Destroy =>
      if !s.socket.Live? then s.(socket := Null, stack := [DestructorTail])
      else if s.installed then
        // socketClosed() resets the socket, which fails its sends, before it fails the receives
        s.(socket := Null, installed := false, stack := [DestructorTail, FailPromises(ClosedLocally), SendFailures])
      else s.(socket := Dead, stack := [DestructorTail, SendFailures])
    case Return => s.(stack := Below(s))
    case MessageReceived =>
      if s.queue == [] then s
      else
        s.(queue := s.queue[1..], installed := s.queue[1..] != [], delivered := s.delivered + 1,
           log := s.log + [Fulfilment(s.queue[0], Value(s.delivered))], stack := [UserCode])
    case EofReceived => Reset(s, [FailPromises(EndOfFile)])
    case SocketError =>
      if s.installed then
        s.(socket := Null, installed := false, queue := [], stack := s.stack + [SendFailures, FailLoop(s.queue, SocketFailed)])
      else s.(socket := Dead, stack := s.stack + [SendFailures])
    case Timeout(_) => Reset(s.(queue := []), [FailLoop(s.queue, TimedOut)])
    case FailNext =>
      var f := Top(s);
      if f.ids == [] then s.(stack := Below(s))
      else s.(log := s.log + [Fulfilment(f.ids[0], Failure(f.error))],
              stack := Below(s) + [FailLoop(f.ids[1..], f.error), UserCode])
    case SendFails => s.(stack := s.stack + [UserCode])
    case EndSendFailures => s.(stack := Below(s))
    case FinishPromises => s.(queue := [], stack := Below(s) + [FailLoop(s.queue, Top(s).error)])
    case FinishDestructor => s.(stack := Below(s))
  }

  predicate IsRun(states: seq<Future>, actions: seq<Action>) {
    && |states| == |actions| + 1
    && states[0] == Initial()
    && forall i :: 0 <= i < |actions| ==> Enabled(states[i], actions[i]) && states[i + 1] == Step(states[i], actions[i])
  }

  lemma MessageIs(s: Future)
    requires s.stack == [] && s.installed && s.queue != []
    ensures Step(s, MessageReceived) ==
      s.(queue := s.queue[1..], installed := s.queue[1..] != [], delivered := s.delivered + 1,
         log := s.log + [Fulfilment(s.queue[0], Value(s.delivered))], stack := [UserCode])
  {
  }

  // ----- pending receives -----

  /** The receive callback is installed exactly when a receive is pending, except while the destructor
      fails the sends before it fails the pending receives. */
  predicate Watching(s: Future) {
    (s.installed <==> s.queue != []) || FailPromises(ClosedLocally) in s.stack
  }

  /** Only an open socket has our callback, and it has it while a receive is pending. */
  predicate Watched(s: Future) {
    && (s.installed ==> s.socket.Live? && s.queue != [])
    && (s.socket.Live? ==> (s.installed <==> s.queue != []))
  }

  predicate Tails(s: Future) {
    && (FailPromises(EndOfFile) in s.stack ==> s.queue == [])
    && (forall k :: 0 <= k < |s.stack| ==> Fits(s.stack[k], k, s.socket))
  }

  /** The frames that expect something of the socket below them. */
  predicate Fits(f: Frame, k: nat, socket: Inner) {
    && (f.FailPromises? ==> socket.Null? && (f.error.EndOfFile? || f.error.ClosedLocally?))
    && (f.DestructorTail? ==> k == 0 && !socket.Live?)
  }

  predicate NoEofFrame(stack: seq<Frame>) {
    forall k :: 0 <= k < |stack| && stack[k].FailLoop? && stack[k].error.EndOfFile? ==> stack[k].ids == []
  }

  predicate NoEofError(log: seq<Fulfilment>) {
    forall k :: 0 <= k < |log| ==> log[k].result != Failure(EndOfFile)
  }

  predicate Inv(s: Future) {
    Watched(s) && Tails(s) && NoEofFrame(s.stack) && NoEofError(s.log)
  }

  lemma StepWatched(s: Future, a: Action)
    requires Inv(s) && Enabled(s, a)
    ensures Watched(Step(s, a))
  {
    hide NoEofFrame, NoEofError;
  }

  lemma FitsKept(stack: seq<Frame>, socket: Inner, socket': Inner)
    requires forall k :: 0 <= k < |stack| ==> Fits(stack[k], k, socket)
    requires socket' == socket || socket'.Null? || socket.Live?
    ensures forall k :: 0 <= k < |stack| ==> Fits(stack[k], k, socket')
  {
  }

  predicate CalledFrom(a: Action) {
    a.Receive? || a.CloseNow? || a.Destroy? || a.MessageReceived? || a.EofReceived? || a.SocketError? || a.Timeout?
  }

  lemma CallTails(s: Future, a: Action)
    requires Watched(s) && Tails(s) && Enabled(s, a) && CalledFrom(a)
    ensures Tails(Step(s, a))
  {
    FitsKept(s.stack, s.socket, Step(s, a).socket);
  }

  lemma StepTails(s: Future, a: Action)
    requires Inv(s) && Enabled(s, a)
    ensures Tails(Step(s, a))
  {
    hide NoEofFrame, NoEofError;
    if CalledFrom(a) {
      CallTails(s, a);
    }
  }

  lemma StepEofFrame(s: Future, a: Action)
    requires Watched(s) && Tails(s) && NoEofFrame(s.stack) && Enabled(s, a)
    ensures NoEofFrame(Step(s, a).stack)
  {
    if a.FinishPromises? {
      assert Top(s) in s.stack;
    }
  }

  lemma StepEofError(s: Future, a: Action)
    requires NoEofFrame(s.stack) && NoEofError(s.log) && Enabled(s, a)
    ensures NoEofError(Step(s, a).log)
  {
    hide NoEofFrame;
    if a.FailNext? && Top(s).error.EndOfFile? {
      TopIsNotEof(s);
    }
  }

  lemma TopIsNotEof(s: Future)
    requires NoEofFrame(s.stack) && !Quiescent(s) && Top(s).FailLoop? && Top(s).error.EndOfFile?
    ensures Top(s).ids == []
  {
  }

  lemma StepKeeps(s: Future, a: Action)
    requires Inv(s) && Enabled(s, a)
    ensures Inv(Step(s, a))
  {
    hide Step, Enabled, Inv;
    StepWatched(s, a);
    StepTails(s, a);
    InvIs(s);
    StepEofFrame(s, a);
    StepEofError(s, a);
    assert Inv(Step(s, a)) by {
      InvIs(Step(s, a));
    }
  }

  lemma InvIs(s: Future)
    ensures Inv(s) <==> Watched(s) && Tails(s) && NoEofFrame(s.stack) && NoEofError(s.log)
  {
  }
}
