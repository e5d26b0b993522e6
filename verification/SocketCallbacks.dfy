/** What the receive callback of a UnixSocket is told, and what the event loop's calls lead to. */
module SocketCallbacks {
  import opened SocketLifecycle
  import opened SocketLifecycleSafety
  import opened SocketLifecycleTheorems

  /** The callback that the step has started, if any. */
  function Calls(s: Socket, s': Socket): seq<Callback> {
    if |s'.stack| > |s.stack| && Top(s').UserCode? then [Top(s').call] else []
  }

  /** An error of the socket itself. */
  predicate Breaks(a: Action) {
    a.TimeoutExpired? || a == TrySendMessage(SendThrows) || a == TryReceiveOne(ReceiveThrows)
  }

  predicate Closes(a: Action) {
    a.Close? || a.CloseNow? || Breaks(a)
  }

  /** The receive callback hears of the end. */
  predicate Ends(calls: seq<Callback>) {
    calls == [SocketClosed] || calls == [ReceiveError]
  }

  /** What a step does to the closing state, the receive callback and what it hears. */
  predicate Tells(s: Socket, a: Action, s': Socket) {
    var calls := Calls(s, s');
    && (s'.closeStarted <==> s.closeStarted || Closes(a))
    && (Breaks(a) ==> !s'.open)
    && (s'.receiver <==> if s.closeStarted || Closes(a) then false else (a.SetReceiveCallback? || s.receiver) && !a.ClearReceiveCallback?)
    && (calls == [MessageReceived] <==> a == TryReceiveOne(Message))
    && (calls == [EofReceived] <==> a == TryReceiveOne(Eof))
    && (calls == [ReceiveError] <==> s.receiver && Breaks(a))
    && (calls == [SocketClosed] <==> s.receiver && Closes(a) && !Breaks(a))
    && (a.TryReceiveOne? ==> s.receiver)
  }

  lemma BreakTells(s: Socket, a: Action)
    requires Inv(s) && Enabled(s, a) && Breaks(a)
    ensures Tells(s, a, Step(s, a))
  {
    hide HasFail, HasSend, HasErrorFail, StackShape;
    BrokenIsOpen(s, a);
  }

  lemma BrokenIsOpen(s: Socket, a: Action)
    requires Inv(s) && Enabled(s, a) && Breaks(a)
    ensures s.open
  {
    hide HasSend, HasErrorFail, StackShape;
    if a.TrySendMessage? {
      FailStays(s, a);
      ErrorIsFail(s.stack);
    }
  }

  lemma CloseTells(s: Socket, a: Action)
    requires Inv(s) && Enabled(s, a) && (a.Close? || a.CloseNow? || a.SetReceiveCallback? || a.ClearReceiveCallback?)
    ensures Tells(s, a, Step(s, a))
  {
    hide SendSide, HasFail, HasSend, HasErrorFail, StackShape;
  }

  /** The step leaves the receive callback and the closing state alone, and starts no call but of a send. */
  predicate OnlySends(s: Socket, s': Socket) {
    && s'.closeStarted == s.closeStarted && s'.receiver == s.receiver
    && (Calls(s, s') != [] ==> Calls(s, s')[0].SendEnded?)
  }

  lemma OnlySendsTells(s: Socket, a: Action, s': Socket)
    requires ReceiveSide(s) && OnlySends(s, s')
    requires !Closes(a) && !a.TryReceiveOne? && !a.SetReceiveCallback? && !a.ClearReceiveCallback?
    ensures Tells(s, a, s')
  {
    hide Calls;
  }

  lemma SendOnly(s: Socket, hasCallback: bool, allocOk: bool)
    ensures OnlySends(s, SendCall(s, hasCallback, allocOk))
  {
  }

  lemma EndFirstOnly(s: Socket, below: Socket, outcome: Outcome)
    requires below.queue != [] && |below.stack| == |s.stack| && below.closeStarted == s.closeStarted && below.receiver == s.receiver
    ensures OnlySends(s, EndFirst(below, outcome))
  {
  }

  /** The end of trySend() may finish a close that has started before; no receive callback is left then. */
  lemma SendTailOnly(s: Socket, below: Socket)
    requires ReceiveSide(s) && |below.stack| + 1 == |s.stack| && below.closeStarted == s.closeStarted && below.receiver == s.receiver
    ensures OnlySends(s, SendTail(below))
  {
  }

  lemma SendTells(s: Socket, a: Action)
    requires ReceiveSide(s) && Enabled(s, a) && !Breaks(a) && (a.Send? || a.TrySendMessage? || a.EndSendLoop?)
    ensures Tells(s, a, Step(s, a))
  {
    hide ReceiveSide, OnlySends, Tells, SendCall, EndFirst, SendTail, SocketErrorCall;
    match a
    case Send(hasCallback, allocOk) =>
      SendOnly(s, hasCallback, allocOk);
      OnlySendsTells(s, a, SendCall(s, hasCallback, allocOk));
    case TrySendMessage(sent) =>
      if sent.Complete? {
        EndFirstOnly(s, Push(Pop(s), SendLoop(Top(s).n + 1)), Sent);
      } else {
        SendTailOnly(s, Pop(s));
      }
      OnlySendsTells(s, a, Step(s, a));
    case EndSendLoop =>
      SendTailOnly(s, Pop(s));
      OnlySendsTells(s, a, Step(s, a));
  }

  lemma PopOnly(s: Socket)
    requires !Quiescent(s)
    ensures OnlySends(s, Pop(s)) && OnlySends(s, Pop(s).(open := false))
  {
  }

  lemma PushOnly(s: Socket, below: Socket, f: Frame)
    requires !f.UserCode? && (below == s || (!Quiescent(s) && below == Pop(s)))
    ensures OnlySends(s, Push(below, f))
  {
  }

  lemma FailTells(s: Socket)
    requires ReceiveSide(s) && Enabled(s, FailNext)
    ensures Tells(s, FailNext, Step(s, FailNext))
  {
    hide ReceiveSide, Tells, EndFirst, OnlySends, Push, Pop, Top;
    PopOnly(s);
    if s.queue != [] {
      EndFirstOnly(s, s, Failed);
    }
    OnlySendsTells(s, FailNext, Step(s, FailNext));
  }

  lemma ReceiveTells(s: Socket, a: Action)
    requires ReceiveSide(s) && Enabled(s, a) && a.TryReceiveOne? && !Breaks(a)
    ensures Tells(s, a, Step(s, a))
  {
    hide SocketErrorCall;
    match a.received
    case Message =>
    case NotYet =>
    case Eof =>
    case ReceiveThrows =>
  }

  lemma LoopTells(s: Socket, a: Action)
    requires ReceiveSide(s) && Enabled(s, a) && (a.Return? || a.HandlerReady? || a.EndRecvLoop? || a.Shutdown?)
    ensures Tells(s, a, Step(s, a))
  {
    hide ReceiveSide, Tells, OnlySends, Push, Pop, Top;
    if a.HandlerReady? {
      PushOnly(s, s, if a.read then RecvLoop(0, a.write) else SendLoop(0));
    } else {
      PopOnly(s);
      PushOnly(s, Pop(s), SendLoop(0));
    }
    OnlySendsTells(s, a, Step(s, a));
  }

  lemma StepTells(s: Socket, a: Action)
    requires Inv(s) && Enabled(s, a)
    ensures Tells(s, a, Step(s, a))
  {
    hide ClosedSide, SendSide, StackShape, Enabled, Step, Tells;
    if Breaks(a) {
      BreakTells(s, a);
    } else if a.Close? || a.CloseNow? || a.SetReceiveCallback? || a.ClearReceiveCallback? {
      CloseTells(s, a);
    } else if a.Send? || a.TrySendMessage? || a.EndSendLoop? {
      SendTells(s, a);
    } else if a.FailNext? {
      FailTells(s);
    } else if a.TryReceiveOne? {
      ReceiveTells(s, a);
    } else {
      LoopTells(s, a);
    }
  }

  // ----- whole runs -----

  /** The calls of setReceiveCallback() that install one. */
  function Installs(states: seq<Socket>, actions: seq<Action>, i: nat): nat
    requires i <= |actions| < |states|
  {
    if i == 0 then 0
    else
      var s := states[i - 1];
      Installs(states, actions, i - 1) + if actions[i - 1].SetReceiveCallback? && !s.receiver && !s.closeStarted then 1 else 0
  }

  /** The calls of clearReceiveCallback() that remove one. */
  function Clears(states: seq<Socket>, actions: seq<Action>, i: nat): nat
    requires i <= |actions| < |states|
  {
    if i == 0 then 0
    else Clears(states, actions, i - 1) + if actions[i - 1].ClearReceiveCallback? && states[i - 1].receiver then 1 else 0
  }

  /** The calls of socketClosed() and receiveError(). */
  function EndsTold(states: seq<Socket>, i: nat): nat
    requires i < |states|
  {
    if i == 0 then 0
    else EndsTold(states, i - 1) + if Ends(Calls(states[i - 1], states[i])) then 1 else 0
  }

  /** Each receive callback is still installed, was cleared, or was told of the end, exactly one of these
      and once; after closing has started none is installed. */
  lemma {:induction false} EachReceiverIsTold(states: seq<Socket>, actions: seq<Action>, i: nat)
    requires IsRun(states, actions) && i <= |actions|
    ensures Installs(states, actions, i) == Clears(states, actions, i) + EndsTold(states, i) + if states[i].receiver then 1 else 0
    ensures states[i].closeStarted ==> !states[i].receiver
  {
    hide Step, Enabled, Ledger, ClosedSide, SendSide, StackShape, Calls;
    RunKeeps(states, actions, i);
    if i > 0 {
      EachReceiverIsTold(states, actions, i - 1);
      RunKeeps(states, actions, i - 1);
      StepTells(states[i - 1], actions[i - 1]);
    }
  }

  /** What send() is called with, in the order of the calls. */
  function SendCalls(actions: seq<Action>): seq<bool> {
    if actions == [] then []
    else
      var a := actions[|actions| - 1];
      SendCalls(actions[..|actions| - 1]) + if a.Send? then [a.hasCallback] else []
  }

  /** A send is refused exactly when closing has started or its entry cannot be allocated, and is queued
      behind the others otherwise. */
  lemma SendIsQueued(s: Socket, a: Action)
    requires Enabled(s, a) && !Step(s, a).crashed
    ensures var s' := Step(s, a);
      var id := |s.sends|;
      if !a.Send? then s'.sends == s.sends
      else
        && s'.sends == s.sends + [a.hasCallback]
        && if s.closeStarted || !a.allocOk then s'.log == s.log + [End(id, Refused)] && s'.queue == s.queue
           else s'.log == s.log && s'.queue == s.queue + [id]
  {
    if a.Send? {
      hide Push;
      SendIs(s, a);
      PushedSends();
    } else {
      hide Step, Enabled;
      StepEffect(s, a);
    }
  }

  lemma PushedSends()
    ensures forall t: Socket, f :: var p := Push(t, f); p.sends == t.sends && p.log == t.log && p.queue == t.queue && p.crashed == t.crashed
  {
  }

  /** Send number k is the k-th call of send(), with its callback or without. */
  lemma {:induction false} SendsAreCalls(states: seq<Socket>, actions: seq<Action>, i: nat)
    requires IsRun(states, actions) && i <= |actions| && !states[i].crashed
    ensures states[i].sends == SendCalls(actions[..i])
  {
    hide Step, Enabled;
    if i > 0 {
      assert Enabled(states[i - 1], actions[i - 1]);
      EnabledIsAlive(states[i - 1], actions[i - 1]);
      SendsAreCalls(states, actions, i - 1);
      SendIsQueued(states[i - 1], actions[i - 1]);
      assert actions[..i][..i - 1] == actions[..i - 1];
    }
  }

  lemma EnabledIsAlive(s: Socket, a: Action)
    requires Enabled(s, a)
    ensures !s.crashed
  {
  }

  /** A handler that is called because the socket is readable tries to receive, and one that is called
      because it is writable only tries to send. */
  lemma ReadyMeansTried(states: seq<Socket>, actions: seq<Action>, i: nat)
    requires IsRun(states, actions) && i + 1 < |actions| && actions[i].HandlerReady?
    ensures if actions[i].read then actions[i + 1].TryReceiveOne? else actions[i + 1].TrySendMessage?
  {
    RunKeeps(states, actions, i);
    hide Ledger, StackShape, HasFail, HasSend, HasErrorFail;
    NothingOn(states[i].stack);
    HandlerIs(states[i], actions[i]);
    assert Enabled(states[i + 1], actions[i + 1]);
  }

  lemma HandlerIs(s: Socket, a: Action)
    requires Enabled(s, a) && a.HandlerReady?
    ensures Step(s, a) == s.(stack := [if a.read then RecvLoop(0, a.write) else SendLoop(0)])
  {
    assert [] + [if a.read then RecvLoop(0, a.write) else SendLoop(0)] == [if a.read then RecvLoop(0, a.write) else SendLoop(0)];
  }

  predicate IsLoop(f: Frame) {
    f.SendLoop? || f.RecvLoop?
  }

  /** The loop on top of s has ended, or goes on with a higher count, which is the limit if this turn is its last. */
  predicate TurnCounted(s: Socket, s': Socket, last: bool)
    requires !Quiescent(s) && IsLoop(Top(s))
  {
    var k := |s.stack| - 1;
    k < |s'.stack| && IsLoop(s'.stack[k]) ==> s'.stack[k].n > Top(s).n && (last ==> s'.stack[k].n == MAX_AT_ONCE)
  }

  lemma ClosingCounts(s: Socket)
    requires !Quiescent(s) && IsLoop(Top(s))
    ensures TurnCounted(s, SendTail(Pop(s)), true) && TurnCounted(s, SocketErrorCall(Pop(s)), true)
  {
  }

  lemma SentCounts(s: Socket)
    requires !Quiescent(s) && Top(s).SendLoop? && s.queue != []
    ensures TurnCounted(s, EndFirst(Push(Pop(s), SendLoop(Top(s).n + 1)), Sent), false)
  {
  }

  lemma ReceivedCounts(s: Socket, received: ReceiveResult)
    requires Enabled(s, TryReceiveOne(received)) && !received.ReceiveThrows?
    ensures TurnCounted(s, Step(s, TryReceiveOne(received)), !received.Message?)
  {
    hide SocketErrorCall;
    match received
    case Message =>
    case NotYet =>
    case Eof =>
    case ReceiveThrows =>
  }

  /** Each turn of a loop is counted, up to the ten that StackShape allows, and one that would block is the last. */
  lemma EachTurnCounts(s: Socket, a: Action)
    requires Enabled(s, a) && (a.TrySendMessage? || a.TryReceiveOne?)
    ensures IsLoop(Top(s)) && TurnCounted(s, Step(s, a), a != TrySendMessage(Complete) && a != TryReceiveOne(Message))
  {
    hide CloseCall, SendCall, TurnCounted, EndFirst, SendTail, SocketErrorCall, Push, Pop;
    ClosingCounts(s);
    if a == TrySendMessage(Complete) {
      SentCounts(s);
    } else if a.TryReceiveOne? && !a.received.ReceiveThrows? {
      ReceivedCounts(s, a.received);
    }
  }

  /** The handler that is at work has still to run trySend(). */
  predicate OwesSend(s: Socket) {
    s.stack != [] && ((s.stack[0].RecvLoop? && s.stack[0].alsoWrite) || s.stack[0] == SendLoop(0))
  }

  /** The socket t has at least these frames. */
  predicate On(below: seq<Frame>, t: Socket) {
    below <= t.stack
  }

  lemma CallsOn(below: seq<Frame>, t: Socket)
    requires On(below, t)
    ensures On(below, CloseNowCall(t)) && On(below, CloseCall(t)) && On(below, SocketErrorCall(t)) && On(below, SendTail(t))
    ensures On(below, t.(open := false))
  {
  }

  lemma PushOn(below: seq<Frame>, t: Socket, f: Frame)
    requires On(below, t)
    ensures On(below, Push(t, f)) && Push(t, f).queue == t.queue
  {
  }

  lemma SendOn(below: seq<Frame>, t: Socket, hasCallback: bool, allocOk: bool)
    requires On(below, t)
    ensures On(below, SendCall(t, hasCallback, allocOk))
  {
  }

  lemma EndOn(below: seq<Frame>, t: Socket, outcome: Outcome)
    requires On(below, t) && t.queue != []
    ensures On(below, EndFirst(t, outcome))
  {
  }

  lemma PopOn(s: Socket)
    requires !Quiescent(s)
    ensures On(Pop(s).stack, s) && On(Pop(s).stack, Pop(s)) && Pop(s).queue == s.queue
    ensures forall r, e :: On(Pop(s).stack, s.(receiver := r, readEvents := e))
  {
  }

  /** What lies under the frame on top stays. */
  lemma BelowStays(s: Socket, a: Action)
    requires !Quiescent(s) && Enabled(s, a)
    ensures On(Pop(s).stack, Step(s, a))
  {
    hide On, Quiescent, Push, Pop, Top, EndFirst, SendTail, CloseCall, CloseNowCall, SocketErrorCall, SendCall;
    var below := Pop(s).stack;
    PopOn(s);
    CallsOn(below, s);
    CallsOn(below, Pop(s));
    match a
    case Send(hasCallback, allocOk) => SendOn(below, s, hasCallback, allocOk);
    case TrySendMessage(sent) =>
      if sent.Complete? {
        PushOn(below, Pop(s), SendLoop(Top(s).n + 1));
        EndOn(below, Push(Pop(s), SendLoop(Top(s).n + 1)), Sent);
      }
    case TryReceiveOne(received) => ReceiveOn(s, received);
    case EndRecvLoop => PushOn(below, Pop(s), SendLoop(0));
    case FailNext => if s.queue != [] { EndOn(below, s, Failed); }
    case _ =>
  }

  lemma ReceiveOn(s: Socket, received: ReceiveResult)
    requires Enabled(s, TryReceiveOne(received))
    ensures On(Pop(s).stack, Step(s, TryReceiveOne(received)))
  {
    hide SocketErrorCall, EndFirst, SendTail, CloseCall, CloseNowCall, SendCall;
    CallsOn(Pop(s).stack, Pop(s));
    match received
    case Message =>
    case NotYet =>
    case Eof =>
    case ReceiveThrows =>
  }

  lemma OwesStill(s: Socket, a: Action)
    requires Inv(s) && OwesSend(s) && Enabled(s, a) && !a.TrySendMessage? && s.queue != []
    ensures OwesSend(Step(s, a)) || !Step(s, a).open
  {
    hide Inv, Enabled, Step;
    BelowStays(s, a);
    if |s.stack| > 1 {
      assert Pop(s).stack[0] == s.stack[0];
    } else if a == TryReceiveOne(ReceiveThrows) {
      StepTells(s, a);
    } else {
      LoopGoesOn(s, a);
    }
  }

  lemma LoopGoesOn(s: Socket, a: Action)
    requires OwesSend(s) && |s.stack| == 1 && Enabled(s, a) && !a.TrySendMessage? && a != TryReceiveOne(ReceiveThrows) && s.queue != []
    ensures OwesSend(Step(s, a))
  {
    hide SocketErrorCall, CloseCall, CloseNowCall, SendCall, SendTail, EndFirst;
    if a.TryReceiveOne? {
      match a.received
      case Message =>
      case NotYet =>
      case Eof =>
      case ReceiveThrows =>
    } else {
      assert a.EndRecvLoop?;
    }
  }

  /** One that is called because the socket is writable tries to send before it ends, unless nothing is
      left to send or the socket breaks meanwhile. */
  lemma {:induction false} WritableMeansTried(states: seq<Socket>, actions: seq<Action>, i: nat, j: nat)
    requires IsRun(states, actions) && i < j <= |actions| && actions[i].HandlerReady? && actions[i].write
    requires forall k :: i < k < j ==> !actions[k].TrySendMessage? && states[k].queue != [] && states[k].open
    requires states[j].open
    ensures OwesSend(states[j]) && !Quiescent(states[j])
  {
    hide Step, Enabled, Inv;
    if j == i + 1 {
      HandlerIs(states[i], actions[i]);
    } else {
      WritableMeansTried(states, actions, i, j - 1);
      RunKeeps(states, actions, j - 1);
      OwesStill(states[j - 1], actions[j - 1]);
    }
  }
}
