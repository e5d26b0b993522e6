/** What every run of the socket keeps, whatever its callbacks do. */
module SocketLifecycleSafety {
  import opened SocketLifecycle

  predicate HasFail(stack: seq<Frame>) {
    exists i :: 0 <= i < |stack| && stack[i].FailLoop?
  }

  predicate HasErrorFail(stack: seq<Frame>) {
    exists i :: 0 <= i < |stack| && stack[i] == FailLoop(false)
  }

  predicate HasSend(stack: seq<Frame>) {
    exists i :: 0 <= i < |stack| && stack[i].SendLoop?
  }

  /** While sends are being failed, the socket starts nothing but further failing. */
  predicate StackShape(stack: seq<Frame>) {
    && (forall i, j :: 0 <= i < j < |stack| && stack[i].FailLoop? ==> stack[j].UserCode? || stack[j].FailLoop?)
    && (forall i :: 0 <= i < |stack| && stack[i].RecvLoop? ==> i == 0)
    && (forall i :: 0 <= i < |stack| && (stack[i].SendLoop? || stack[i].RecvLoop?) ==> stack[i].n <= MAX_AT_ONCE)
  }

  /** The receive callback and the read registration go together; closing ends both for good. */
  predicate ReceiveSide(s: Socket) {
    && (s.receiver <==> s.readEvents)
    && (s.closeStarted ==> !s.receiver)
  }

  /** A closed descriptor has nothing registered; failing is the only reason to have sends on it. */
  predicate ClosedSide(s: Socket) {
    && (!s.open ==> s.closeStarted && !s.writeEvents && !s.timer)
    && (!s.open && s.queue != [] ==> HasErrorFail(s.stack))
    && (HasFail(s.stack) ==> s.closeStarted && !s.writeEvents && !s.timer)
    && (HasErrorFail(s.stack) ==> !s.open)
  }

  /** Sends wait in the queue only while writability and the timer are awaited, or a loop is at work;
      a socket that is closing waits for its sends only. */
  predicate SendSide(s: Socket) {
    && (s.queue != [] ==> (s.writeEvents && s.timer) || HasSend(s.stack) || HasFail(s.stack))
    && (s.writeEvents || s.timer ==> s.queue != [] || HasSend(s.stack))
    && (s.closeStarted && s.open ==> s.queue != [] || HasSend(s.stack) || HasFail(s.stack))
  }

  // ----- the stack -----

  lemma PushedHas(stack: seq<Frame>, f: Frame)
    ensures HasFail(stack + [f]) <==> HasFail(stack) || f.FailLoop?
    ensures HasSend(stack + [f]) <==> HasSend(stack) || f.SendLoop?
    ensures HasErrorFail(stack + [f]) <==> HasErrorFail(stack) || f == FailLoop(false)
    ensures HasErrorFail(stack) ==> HasFail(stack)
  {
    var t := stack + [f];
    assert t[|stack|] == f;
    assert forall i :: 0 <= i < |stack| ==> t[i] == stack[i];
  }

  lemma PoppedHas(stack: seq<Frame>)
    requires stack != []
    ensures var below, top := stack[..|stack| - 1], stack[|stack| - 1];
      && (HasFail(stack) <==> HasFail(below) || top.FailLoop?)
      && (HasSend(stack) <==> HasSend(below) || top.SendLoop?)
      && (HasErrorFail(stack) <==> HasErrorFail(below) || top == FailLoop(false))
      && (HasErrorFail(stack) ==> HasFail(stack))
  {
    var below, top := stack[..|stack| - 1], stack[|stack| - 1];
    assert stack == below + [top];
    PushedHas(below, top);
  }

  lemma ShapePushed(stack: seq<Frame>, f: Frame)
    requires StackShape(stack)
    requires HasFail(stack) ==> f.UserCode? || f.FailLoop?
    requires f.RecvLoop? ==> stack == []
    requires f.SendLoop? || f.RecvLoop? ==> f.n <= MAX_AT_ONCE
    ensures StackShape(stack + [f])
  {
  }

  lemma ShapePopped(stack: seq<Frame>)
    requires StackShape(stack) && stack != []
    ensures StackShape(stack[..|stack| - 1])
    ensures !stack[|stack| - 1].UserCode? && !stack[|stack| - 1].FailLoop? ==> !HasFail(stack)
    ensures stack[|stack| - 1].RecvLoop? ==> stack[..|stack| - 1] == []
  {
  }

  predicate Inv(s: Socket) {
    StackShape(s.stack) && ReceiveSide(s) && ClosedSide(s) && SendSide(s)
  }

  // ----- the calls -----

  lemma PushKeeps(s: Socket, f: Frame)
    requires Inv(s) && (f.UserCode? || (f.SendLoop? && f.n <= MAX_AT_ONCE && !HasFail(s.stack)) || (f.RecvLoop? && f.n <= MAX_AT_ONCE && s.stack == []))
    ensures Inv(Push(s, f))
  {
    hide StackShape, HasFail, HasSend, HasErrorFail;
    PushedHas(s.stack, f);
    assert s.stack == [] ==> !HasFail(s.stack) by { NothingOn(s.stack); }
    ShapePushed(s.stack, f);
  }

  lemma NothingOn(stack: seq<Frame>)
    ensures stack == [] ==> !HasFail(stack) && !HasSend(stack) && !HasErrorFail(stack)
  {
  }

  /** The frame below may be a loop that has just ended; what it was needed for is not asked here. */
  predicate Closable(s: Socket) {
    StackShape(s.stack) && ReceiveSide(s) && ClosedSide(s)
  }

  lemma CloseNowKeeps(s: Socket)
    requires Closable(s) && (!s.open ==> Inv(s))
    ensures Inv(CloseNowCall(s))
  {
    hide StackShape, HasFail, HasSend, HasErrorFail;
    if s.open {
      PushedHas(s.stack, FailLoop(true));
      PushedHas(s.stack + [FailLoop(true)], UserCode(SocketClosed));
      ShapePushed(s.stack, FailLoop(true));
      ShapePushed(s.stack + [FailLoop(true)], UserCode(SocketClosed));
    }
  }

  lemma SocketErrorKeeps(s: Socket)
    requires Closable(s) && (!s.open ==> Inv(s))
    ensures Inv(SocketErrorCall(s))
  {
    hide StackShape, HasFail, HasSend, HasErrorFail;
    if s.open {
      PushedHas(s.stack, FailLoop(false));
      PushedHas(s.stack + [FailLoop(false)], UserCode(ReceiveError));
      ShapePushed(s.stack, FailLoop(false));
      ShapePushed(s.stack + [FailLoop(false)], UserCode(ReceiveError));
    }
  }

  lemma CloseKeeps(s: Socket)
    requires Inv(s)
    ensures Inv(CloseCall(s))
  {
    hide StackShape, HasFail, HasSend, HasErrorFail;
    if !s.closeStarted {
      if s.queue == [] {
        CloseNowKeeps(s);
      } else {
        PushedHas(s.stack, CloseTail);
        PushedHas(s.stack + [CloseTail], UserCode(SocketClosed));
        ShapePushed(s.stack, CloseTail);
        ShapePushed(s.stack + [CloseTail], UserCode(SocketClosed));
      }
    }
  }

  lemma SendKeeps(s: Socket, hasCallback: bool, allocOk: bool)
    requires Inv(s)
    ensures Inv(SendCall(s, hasCallback, allocOk))
  {
    hide StackShape, HasFail, HasSend, HasErrorFail;
    if s.closeStarted || !allocOk {
      PushedHas(s.stack, UserCode(SendEnded(End(|s.sends|, Refused))));
      ShapePushed(s.stack, UserCode(SendEnded(End(|s.sends|, Refused))));
    } else {
      PushedHas(s.stack, SendLoop(0));
      ShapePushed(s.stack, SendLoop(0));
    }
  }

  lemma ErrorIsFail(stack: seq<Frame>)
    ensures HasErrorFail(stack) ==> HasFail(stack)
  {
  }

  lemma SendTailKeeps(s: Socket)
    requires Closable(s) && !HasFail(s.stack)
    ensures Inv(SendTail(s))
  {
    hide StackShape, HasFail, HasSend, HasErrorFail;
    ErrorIsFail(s.stack);
    if s.queue == [] && s.closeStarted {
      CloseNowKeeps(s.(timer := false, writeEvents := false));
    }
  }

  lemma TrySendKeeps(s: Socket, a: Action)
    requires Inv(s) && Enabled(s, a) && (a.TrySendMessage? || a.EndSendLoop?)
    ensures Inv(Step(s, a))
  {
    hide StackShape, HasFail, HasSend, HasErrorFail, SendTail, SocketErrorCall;
    PoppedHas(s.stack);
    ShapePopped(s.stack);
    var below := Pop(s);
    if a == TrySendMessage(Complete) {
      var f := SendLoop(Top(s).n + 1);
      PushedHas(below.stack, f);
      ShapePushed(below.stack, f);
      PushedHas(below.stack + [f], UserCode(SendEnded(End(s.queue[0], Sent))));
      ShapePushed(below.stack + [f], UserCode(SendEnded(End(s.queue[0], Sent))));
    } else if a == TrySendMessage(SendThrows) {
      SocketErrorKeeps(below);
    } else {
      SendTailKeeps(below);
    }
  }

  lemma TopInShape(stack: seq<Frame>)
    requires StackShape(stack) && stack != []
    ensures var top := stack[|stack| - 1]; top.SendLoop? || top.RecvLoop? ==> top.n <= MAX_AT_ONCE
  {
  }

  lemma TryReceiveKeeps(s: Socket, a: Action)
    requires Inv(s) && Enabled(s, a) && (a.TryReceiveOne? || a.EndRecvLoop?)
    ensures Inv(Step(s, a))
  {
    hide StackShape, HasFail, HasSend, HasErrorFail, SocketErrorCall;
    PoppedHas(s.stack);
    ShapePopped(s.stack);
    var below := Pop(s);
    assert Inv(below);
    if a.EndRecvLoop? {
      PushKeeps(below, SendLoop(0));
    } else {
      match a.received
      case Message =>
        PushKeeps(below, RecvLoop(Top(s).n + 1, Top(s).alsoWrite));
        PushKeeps(Push(below, RecvLoop(Top(s).n + 1, Top(s).alsoWrite)), UserCode(MessageReceived));
      case NotYet => PushKeeps(below, RecvLoop(MAX_AT_ONCE, Top(s).alsoWrite));
      case Eof =>
        PushKeeps(below, RecvLoop(MAX_AT_ONCE, Top(s).alsoWrite));
        PushKeeps(Push(below, RecvLoop(MAX_AT_ONCE, Top(s).alsoWrite)), UserCode(EofReceived));
      case ReceiveThrows => SocketErrorKeeps(below);
    }
  }

  lemma FailNextKeeps(s: Socket)
    requires Inv(s) && Enabled(s, FailNext)
    ensures Inv(Step(s, FailNext))
  {
    hide StackShape, HasFail, HasSend, HasErrorFail;
    PoppedHas(s.stack);
    ShapePopped(s.stack);
    if s.queue != [] {
      PushedHas(s.stack, UserCode(SendEnded(End(s.queue[0], Failed))));
      ShapePushed(s.stack, UserCode(SendEnded(End(s.queue[0], Failed))));
    }
  }

  lemma StepKeeps(s: Socket, a: Action)
    requires Inv(s) && Enabled(s, a)
    ensures Inv(Step(s, a))
  {
    hide StackShape, HasFail, HasSend, HasErrorFail, SendCall, CloseCall, CloseNowCall, SocketErrorCall, SendTail, EndFirst;
    match a
    case Send(hasCallback, allocOk) => SendKeeps(s, hasCallback, allocOk);
    case Close => CloseKeeps(s);
    case CloseNow => CloseNowKeeps(s);
    case SetReceiveCallback =>
    case ClearReceiveCallback =>
    case Return =>
      PoppedHas(s.stack);
      ShapePopped(s.stack);
    case HandlerReady(read, write) =>
      NothingOn(s.stack);
      PushKeeps(s, if read then RecvLoop(0, write) else SendLoop(0));
    case TimeoutExpired =>
      NothingOn(s.stack);
      SocketErrorKeeps(s.(timer := false));
    case TrySendMessage(_) => TrySendKeeps(s, a);
    case EndSendLoop => TrySendKeeps(s, a);
    case TryReceiveOne(_) => TryReceiveKeeps(s, a);
    case EndRecvLoop => TryReceiveKeeps(s, a);
    case FailNext => FailNextKeeps(s);
    case Shutdown(_) =>
      PoppedHas(s.stack);
      ShapePopped(s.stack);
  }
}
