/** The promises of UnixSocket about its callbacks and its closed state, over every run. */
module SocketLifecycleTheorems {
  import opened Numbering
  import opened SocketLifecycle
  import opened SocketLifecycleSafety

  // ----- the ledger of sends -----

  function Ids(log: seq<End>): seq<nat> {
    if log == [] then [] else Ids(log[..|log| - 1]) + [log[|log| - 1].id]
  }

  /** The accepted sends that have ended, in the order in which they ended. */
  function Ended(log: seq<End>): seq<nat> {
    if log == [] then []
    else Ended(log[..|log| - 1]) + if log[|log| - 1].outcome.Refused? then [] else [log[|log| - 1].id]
  }

  predicate SentThenFailed(log: seq<End>) {
    forall i, j :: 0 <= i < j < |log| && log[i].outcome.Failed? ==> !log[j].outcome.Sent?
  }

  predicate AnyFailed(log: seq<End>) {
    exists i :: 0 <= i < |log| && log[i].outcome.Failed?
  }

  /** Every send is in the queue or has ended, once; the queue is what is left of the accepted sends;
      and nothing is sent once something has failed. */
  predicate Ledger(s: Socket) {
    && multiset(Ids(s.log)) + multiset(s.queue) == multiset(Numbers(|s.sends|))
    && Ended(s.log) + s.queue == s.accepted
    && Increasing(s.accepted) && AllBelow(s.accepted, |s.sends|)
    && SentThenFailed(s.log)
    && (AnyFailed(s.log) ==> s.closeStarted && (s.queue == [] || HasFail(s.stack)))
  }

  // ----- what a step does to it -----

  predicate Unchanged(s: Socket, s': Socket) {
    s'.queue == s.queue && s'.log == s.log && s'.sends == s.sends && s'.accepted == s.accepted
  }

  predicate Accepts(s: Socket, s': Socket) {
    var id := |s.sends|;
    && !s.closeStarted && s'.log == s.log && |s'.sends| == id + 1
    && s'.queue == s.queue + [id] && s'.accepted == s.accepted + [id]
  }

  predicate Refuses(s: Socket, s': Socket) {
    && s'.queue == s.queue && s'.sends == s.sends + [true] && s'.accepted == s.accepted
    && s'.log == s.log + [End(|s.sends|, Refused)]
  }

  predicate EndsFirst(s: Socket, s': Socket, outcome: Outcome) {
    && s.queue != [] && s'.queue == s.queue[1..] && s'.sends == s.sends && s'.accepted == s.accepted
    && s'.log == s.log + [End(s.queue[0], outcome)]
  }

  lemma SendEffect(s: Socket, hasCallback: bool, allocOk: bool)
    requires !s.crashed
    ensures var t := SendCall(s, hasCallback, allocOk);
      && (Unchanged(s, t) || Accepts(s, t) || Refuses(s, t))
      && (t.crashed <==> !hasCallback && (s.closeStarted || !allocOk))
      && t.closeStarted == s.closeStarted
      && (Refuses(s, t) ==> t.stack == s.stack + [UserCode(SendEnded(End(|s.sends|, Refused)))])
  {
  }

  /** The step leaves the sends alone, does not crash and does not undo closing. */
  predicate Quiet(s: Socket, s': Socket) {
    Unchanged(s, s') && !s'.crashed && (s.closeStarted ==> s'.closeStarted)
  }

  lemma StepEffect(s: Socket, a: Action)
    requires Enabled(s, a)
    ensures var s' := Step(s, a);
      || Unchanged(s, s')
      || (a.Send? && (Accepts(s, s') || Refuses(s, s')))
      || (a == TrySendMessage(Complete) && EndsFirst(s, s', Sent))
      || (a == FailNext && EndsFirst(s, s', Failed))
    ensures s.closeStarted ==> Step(s, a).closeStarted
    ensures Step(s, a).crashed <==> a.Send? && !a.hasCallback && (s.closeStarted || !a.allocOk)
  {
    hide Step, Enabled, SendCall, Unchanged, Accepts, Refuses, EndsFirst;
    if a.Send? {
      SendIs(s, a);
      SendEffect(s, a.hasCallback, a.allocOk);
    } else if a == TrySendMessage(Complete) || (a == FailNext && s.queue != []) {
      EndIs(s, a);
    } else if a.Close? || a.CloseNow? || a.TimeoutExpired? || a.EndSendLoop? || a.TrySendMessage? || a == TryReceiveOne(ReceiveThrows) {
      ClosingEffect(s, a);
    } else {
      QuietEffect(s, a);
    }
  }

  lemma QuietEffect(s: Socket, a: Action)
    requires Enabled(s, a)
    requires a.Return? || a.SetReceiveCallback? || a.ClearReceiveCallback? || a.HandlerReady? || a.EndRecvLoop? || a.Shutdown?
             || (a.TryReceiveOne? && a != TryReceiveOne(ReceiveThrows)) || (a == FailNext && s.queue == [])
    ensures Quiet(s, Step(s, a))
  {
    hide SendTail, CloseCall, CloseNowCall, SocketErrorCall, SendCall, EndFirst, Quiet, Push, Pop, Top;
    StackQuiet(s);
    match a
    case HandlerReady(read, write) => PushQuiet(s, s, if read then RecvLoop(0, write) else SendLoop(0));
    case EndRecvLoop => PushQuiet(s, Pop(s), SendLoop(0));
    case TryReceiveOne(received) => ReceiveQuiet(s, a);
    case FailNext => OpenQuiet(s, Pop(s));
    case SetReceiveCallback => CallbackQuiet(s);
    case ClearReceiveCallback => CallbackQuiet(s);
    case _ =>
  }

  lemma ReceiveQuiet(s: Socket, a: Action)
    requires Enabled(s, a) && a.TryReceiveOne? && a != TryReceiveOne(ReceiveThrows)
    ensures Quiet(s, Step(s, a))
  {
    hide SendTail, CloseCall, CloseNowCall, SocketErrorCall, SendCall, EndFirst, Quiet, Push, Pop, Top;
    StackQuiet(s);
    var below := Pop(s);
    var f := if a.received.Message? then RecvLoop(Top(s).n + 1, Top(s).alsoWrite) else RecvLoop(MAX_AT_ONCE, Top(s).alsoWrite);
    PushQuiet(s, below, f);
    PushQuiet(s, Push(below, f), UserCode(if a.received.Eof? then EofReceived else MessageReceived));
    match a.received
    case Message =>
    case NotYet =>
    case Eof =>
    case ReceiveThrows =>
  }

  lemma StackQuiet(s: Socket)
    requires !s.crashed
    ensures Quiet(s, s) && (!Quiescent(s) ==> Quiet(s, Pop(s)))
  {
  }

  lemma PushQuiet(s: Socket, t: Socket, f: Frame)
    requires Quiet(s, t)
    ensures Quiet(s, Push(t, f))
  {
  }

  lemma OpenQuiet(s: Socket, t: Socket)
    requires Quiet(s, t)
    ensures Quiet(s, t.(open := false))
  {
  }

  lemma CallbackQuiet(s: Socket)
    requires !s.crashed
    ensures Quiet(s, s.(receiver := true, readEvents := true)) && Quiet(s, s.(receiver := false, readEvents := false))
  {
  }

  lemma ClosingEffect(s: Socket, a: Action)
    requires Enabled(s, a)
    requires a.Close? || a.CloseNow? || a.TimeoutExpired? || a.EndSendLoop? || (a.TrySendMessage? && !a.sent.Complete?)
             || a == TryReceiveOne(ReceiveThrows)
    ensures Quiet(s, Step(s, a))
  {
    hide SendTail, CloseCall, CloseNowCall, SocketErrorCall, SendCall, EndFirst;
    match a
    case Close => CloseQuiet(s);
    case CloseNow => ClosingQuiet(s);
    case TimeoutExpired => ClosingQuiet(s.(timer := false));
    case EndSendLoop => ClosingQuiet(Pop(s));
    case TrySendMessage(_) => ClosingQuiet(Pop(s));
    case TryReceiveOne(_) => ClosingQuiet(Pop(s));
  }

  /** Closing in any of its forms leaves the sends to failAllSends(). */
  lemma ClosingQuiet(s: Socket)
    requires !s.crashed
    ensures Quiet(s, CloseNowCall(s)) && Quiet(s, SocketErrorCall(s)) && Quiet(s, SendTail(s))
  {
  }

  lemma CloseQuiet(s: Socket)
    requires !s.crashed
    ensures Quiet(s, CloseCall(s))
  {
  }

  /** The callback of a send runs when the send ends, if there is one, and hears how. */
  lemma EndRunsCallback(s: Socket, a: Action)
    requires Enabled(s, a) && AllBelow(s.queue, |s.sends|)
    ensures var s' := Step(s, a);
      |s'.log| > |s.log| ==>
        var id := s'.log[|s'.log| - 1].id;
        && id < |s'.sends| && !Quiescent(s') && (Top(s').UserCode? <==> s'.sends[id])
        && (Top(s').UserCode? ==> Top(s') == UserCode(SendEnded(s'.log[|s'.log| - 1])))
  {
    hide Step, Enabled, SendCall;
    StepEffect(s, a);
    if a.Send? {
      SendIs(s, a);
      SendEffect(s, a.hasCallback, a.allocOk);
    } else if a == TrySendMessage(Complete) || (a == FailNext && s.queue != []) {
      EndIs(s, a);
    }
  }

  lemma SendIs(s: Socket, a: Action)
    requires Enabled(s, a) && a.Send?
    ensures !s.crashed && Step(s, a) == SendCall(s, a.hasCallback, a.allocOk)
  {
  }

  lemma EndIs(s: Socket, a: Action)
    requires Enabled(s, a) && (a == TrySendMessage(Complete) || (a == FailNext && s.queue != []))
    ensures var s' := Step(s, a);
      && s.queue != [] && EndsFirst(s, s', if a.FailNext? then Failed else Sent)
      && s'.closeStarted == s.closeStarted && s'.crashed == s.crashed == false
      && !Quiescent(s') && (Top(s').UserCode? <==> s.queue[0] < |s.sends| && s.sends[s.queue[0]])
      && (Top(s').UserCode? ==> Top(s').call == SendEnded(End(s.queue[0], if a.FailNext? then Failed else Sent)))
  {
    hide SendTail, CloseCall, CloseNowCall, SocketErrorCall, SendCall, EndFirst;
    if a.FailNext? {
      EndFirstIs(s, Failed);
    } else {
      EndFirstIs(Push(Pop(s), SendLoop(Top(s).n + 1)), Sent);
    }
  }

  lemma EndFirstIs(s: Socket, outcome: Outcome)
    requires s.queue != [] && !Quiescent(s) && !Top(s).UserCode?
    ensures var s' := EndFirst(s, outcome);
      && EndsFirst(s, s', outcome) && s'.closeStarted == s.closeStarted && s'.crashed == s.crashed
      && !Quiescent(s') && (Top(s').UserCode? <==> s.queue[0] < |s.sends| && s.sends[s.queue[0]])
      && (Top(s').UserCode? ==> Top(s').call == SendEnded(End(s.queue[0], outcome)))
  {
    hide EndsFirst, Top;
    EndFirstLog(s, outcome);
    EndFirstTop(s, outcome);
  }

  lemma EndFirstLog(s: Socket, outcome: Outcome)
    requires s.queue != []
    ensures EndsFirst(s, EndFirst(s, outcome), outcome)
  {
  }

  lemma EndFirstTop(s: Socket, outcome: Outcome)
    requires s.queue != [] && !Quiescent(s) && !Top(s).UserCode?
    ensures var s' := EndFirst(s, outcome);
      && !Quiescent(s') && (Top(s').UserCode? <==> s.queue[0] < |s.sends| && s.sends[s.queue[0]])
      && (Top(s').UserCode? ==> Top(s').call == SendEnded(End(s.queue[0], outcome)))
  {
  }

  // ----- each kind of step keeps the ledger -----

  lemma EndedOnce(log: seq<End>, e: End)
    ensures Ids(log + [e]) == Ids(log) + [e.id]
    ensures Ended(log + [e]) == Ended(log) + if e.outcome.Refused? then [] else [e.id]
    ensures AnyFailed(log + [e]) <==> AnyFailed(log) || e.outcome.Failed?
    ensures SentThenFailed(log) && (e.outcome.Sent? ==> !AnyFailed(log)) ==> SentThenFailed(log + [e])
  {
    var t := log + [e];
    assert t[..|t| - 1] == log && t[|log|] == e;
    assert forall i :: 0 <= i < |log| ==> t[i] == log[i];
  }

  lemma AcceptKeeps(s: Socket, s': Socket)
    requires Ledger(s) && Accepts(s, s')
    ensures Ledger(s')
  {
    hide Ended, Ids, HasFail, SentThenFailed, AnyFailed;
    assert Ended(s.log) + (s.queue + [|s.sends|]) == (Ended(s.log) + s.queue) + [|s.sends|];
  }

  lemma RefuseKeeps(s: Socket, s': Socket)
    requires Ledger(s) && Refuses(s, s')
    requires (s.closeStarted ==> s'.closeStarted) && (HasFail(s.stack) ==> HasFail(s'.stack))
    ensures Ledger(s')
  {
    hide Ended, Ids, HasFail, SentThenFailed, AnyFailed;
    EndedOnce(s.log, End(|s.sends|, Refused));
    assert Ended(s.log) + [] == Ended(s.log);
  }

  lemma EndFirstKeeps(s: Socket, s': Socket, outcome: Outcome)
    requires Ledger(s) && EndsFirst(s, s', outcome) && !outcome.Refused?
    requires outcome.Sent? ==> !AnyFailed(s.log)
    requires outcome.Failed? ==> s'.closeStarted && HasFail(s'.stack)
    ensures Ledger(s')
  {
    hide Ended, Ids, HasFail, SentThenFailed, AnyFailed;
    EndedOnce(s.log, End(s.queue[0], outcome));
    assert s.queue == [s.queue[0]] + s.queue[1..];
    assert Ended(s.log) + ([s.queue[0]] + s.queue[1..]) == (Ended(s.log) + [s.queue[0]]) + s.queue[1..];
  }

  lemma UnchangedKeeps(s: Socket, s': Socket)
    requires Ledger(s) && Unchanged(s, s')
    requires (s.closeStarted ==> s'.closeStarted) && (HasFail(s.stack) ==> HasFail(s'.stack) || s.queue == [])
    ensures Ledger(s')
  {
    hide HasFail;
  }

  /** Sends are only failed until the queue is empty. */
  lemma FailStays(s: Socket, a: Action)
    requires Inv(s) && Enabled(s, a)
    ensures HasFail(s.stack) ==> HasFail(Step(s, a).stack) || s.queue == []
    ensures a == FailNext && s.queue != [] ==> HasFail(Step(s, a).stack)
    ensures a.TrySendMessage? || a.EndSendLoop? || a.TryReceiveOne? || a.EndRecvLoop? || a.Shutdown? ==> !HasFail(s.stack)
    ensures Quiescent(s) ==> !HasFail(s.stack)
  {
    hide HasFail, HasSend, HasErrorFail, StackShape, SendTail;
    NothingOn(s.stack);
    if s.stack != [] {
      PoppedHas(s.stack);
      ShapePopped(s.stack);
      PushedAll(s.stack);
    }
  }

  lemma PushedAll(stack: seq<Frame>)
    ensures forall f :: HasFail(stack + [f]) <==> HasFail(stack) || f.FailLoop?
    ensures forall f, g :: HasFail(stack + [f] + [g]) <==> HasFail(stack) || f.FailLoop? || g.FailLoop?
  {
    hide HasFail;
    forall f ensures HasFail(stack + [f]) <==> HasFail(stack) || f.FailLoop? {
      PushedHas(stack, f);
    }
    forall f, g ensures HasFail(stack + [f] + [g]) <==> HasFail(stack) || f.FailLoop? || g.FailLoop? {
      PushedHas(stack, f);
      PushedHas(stack + [f], g);
    }
  }

  lemma LedgerKept(s: Socket, a: Action)
    requires Inv(s) && Ledger(s) && Enabled(s, a)
    ensures Ledger(Step(s, a))
  {
    hide Inv, Ledger, Step, HasFail;
    var s' := Step(s, a);
    StepEffect(s, a);
    FailStays(s, a);
    if Unchanged(s, s') {
      UnchangedKeeps(s, s');
    } else if Accepts(s, s') {
      AcceptKeeps(s, s');
    } else if Refuses(s, s') {
      RefuseKeepsFail(s, a);
      RefuseKeeps(s, s');
    } else if a == FailNext {
      FailClosed(s);
      EndFirstKeeps(s, s', Failed);
    } else {
      SentBefore(s, a);
      EndFirstKeeps(s, s', Sent);
    }
  }

  lemma FailClosed(s: Socket)
    requires Inv(s) && Enabled(s, FailNext)
    ensures s.closeStarted
  {
    hide StackShape, HasSend, HasErrorFail;
    assert Top(s).FailLoop?;
    assert HasFail(s.stack);
  }

  lemma SentBefore(s: Socket, a: Action)
    requires Inv(s) && Ledger(s) && Enabled(s, a) && a.TrySendMessage?
    ensures !AnyFailed(s.log)
  {
    hide HasFail, HasSend, HasErrorFail, StackShape, AnyFailed;
    FailStays(s, a);
  }

  lemma RefuseKeepsFail(s: Socket, a: Action)
    requires Enabled(s, a) && Refuses(s, Step(s, a))
    ensures HasFail(s.stack) ==> HasFail(Step(s, a).stack)
  {
    hide Step, Enabled, HasFail, SendCall;
    StepEffect(s, a);
    SendIs(s, a);
    SendEffect(s, a.hasCallback, a.allocOk);
    PushedHas(s.stack, UserCode(SendEnded(End(|s.sends|, Refused))));
  }

  // ----- runs -----

  predicate IsRun(states: seq<Socket>, actions: seq<Action>) {
    && |states| == |actions| + 1
    && states[0] == Initial()
    && forall i :: 0 <= i < |actions| ==> Enabled(states[i], actions[i]) && states[i + 1] == Step(states[i], actions[i])
  }

  lemma {:induction false} RunKeeps(states: seq<Socket>, actions: seq<Action>, i: nat)
    requires IsRun(states, actions) && i < |states|
    ensures Inv(states[i]) && Ledger(states[i])
  {
    hide Step, Enabled, Inv, Ledger;
    if i == 0 {
      InitialKeeps();
    } else {
      RunKeeps(states, actions, i - 1);
      StepKeeps(states[i - 1], actions[i - 1]);
      LedgerKept(states[i - 1], actions[i - 1]);
    }
  }

  lemma InitialKeeps()
    ensures Inv(Initial()) && Ledger(Initial())
  {
  }

  /** Every send has ended exactly once or waits in the queue, never both; accepted sends end in the
      order in which they were accepted, the successes before the failures. */
  lemma EachSendEndsOnce(states: seq<Socket>, actions: seq<Action>, i: nat, id: nat)
    requires IsRun(states, actions) && i < |states| && id < |states[i].sends|
    ensures var s := states[i];
      && multiset(Ids(s.log))[id] + multiset(s.queue)[id] == 1
      && Ended(s.log) <= s.accepted && Increasing(s.accepted)
      && SentThenFailed(s.log)
  {
    RunKeeps(states, actions, i);
    NumbersOnce(|states[i].sends|, id);
  }

  /** Outside every callback, a closed socket has no queue, no receive callback, no registered event
      and no timer, so every send has ended; and one that is still open has its pending sends waiting
      for writability under the timer. */
  lemma AtRest(states: seq<Socket>, actions: seq<Action>, i: nat)
    requires IsRun(states, actions) && i < |states| && Quiescent(states[i])
    ensures var s := states[i];
      && (!s.open ==> s.queue == [] && !s.receiver && !s.readEvents && !s.writeEvents && !s.timer)
      && (s.queue != [] <==> s.writeEvents) && (s.writeEvents <==> s.timer)
      && (s.receiver <==> s.readEvents)
      && (s.open && s.closeStarted ==> s.queue != [])
  {
    RunKeeps(states, actions, i);
  }

  /** failAllSends() terminates: once closing has started nothing enters the queue again, so what has
      ended since then and what is still queued add up to what was queued. */
  lemma {:induction false} FailingTerminates(states: seq<Socket>, actions: seq<Action>, i: nat, j: nat)
    requires IsRun(states, actions) && i <= j < |states| && states[i].closeStarted
    ensures states[j].closeStarted && states[j].accepted == states[i].accepted
    ensures |Ended(states[j].log)| - |Ended(states[i].log)| + |states[j].queue| == |states[i].queue|
  {
    hide Step, Enabled, Inv;
    RunKeeps(states, actions, i);
    RunKeeps(states, actions, j);
    if i < j {
      FailingTerminates(states, actions, i, j - 1);
      StepEffect(states[j - 1], actions[j - 1]);
    }
  }

  /** Inside a callback the stack can always go on; outside, the event loop decides. */
  lemma NeverStuck(states: seq<Socket>, actions: seq<Action>, i: nat)
    requires IsRun(states, actions) && i < |states| && !Quiescent(states[i]) && !states[i].crashed
    ensures exists a :: Enabled(states[i], a)
  {
    RunKeeps(states, actions, i);
    var s := states[i];
    TopInShape(s.stack);
    match Top(s)
    case UserCode(_) => assert Enabled(s, Return);
    case SendLoop(n) => assert if n < MAX_AT_ONCE && s.queue != [] then Enabled(s, TrySendMessage(Blocked)) else Enabled(s, EndSendLoop);
    case RecvLoop(n, _) => assert if n < MAX_AT_ONCE && s.receiver then Enabled(s, TryReceiveOne(NotYet)) else Enabled(s, EndRecvLoop);
    case FailLoop(_) => assert Enabled(s, FailNext);
    case CloseTail => assert Enabled(s, Shutdown(true));
  }

  // ----- where the code does less than it promises -----

  /** UnixSocket.h:229-235 allows a null callback.  The process crashes exactly when a send without one
      is refused: after closing has started, or when its queue entry cannot be allocated. */
  lemma NullCallback(s: Socket, a: Action)
    requires Enabled(s, a)
    ensures Step(s, a).crashed <==> a.Send? && !a.hasCallback && (s.closeStarted || !a.allocOk)
  {
    hide Step, Enabled;
    StepEffect(s, a);
  }

  /** The shortest such run: closing an idle socket, and then a send without callback. */
  lemma NullCallbackCrashes() returns (states: seq<Socket>, actions: seq<Action>)
    ensures IsRun(states, actions) && states[|actions|].crashed
  {
    hide Step, Enabled;
    actions := [CloseNow, FailNext, Send(false, true)];
    var s0 := Initial();
    var s1 := s0.(closeStarted := true, stack := [FailLoop(true)]);
    var s2 := s1.(open := false, stack := []);
    var s3 := s2.(crashed := true);
    IdleCloseIs(s0);
    EmptyFailIs(s1);
    RefusedIs(s2);
    states := [s0, s1, s2, s3];
  }

  lemma IdleCloseIs(s: Socket)
    requires s.open && !s.crashed && s.stack == [] && !s.receiver && !s.readEvents && !s.writeEvents && !s.timer
    ensures Enabled(s, CloseNow) && Step(s, CloseNow) == s.(closeStarted := true, stack := [FailLoop(true)])
  {
    assert [] + [FailLoop(true)] == [FailLoop(true)];
  }

  lemma EmptyFailIs(s: Socket)
    requires s.stack == [FailLoop(true)] && !s.crashed && s.queue == []
    ensures Enabled(s, FailNext) && Step(s, FailNext) == s.(open := false, stack := [])
  {
  }

  lemma RefusedIs(s: Socket)
    requires s.stack == [] && !s.crashed && s.closeStarted
    ensures Enabled(s, Send(false, true)) && Step(s, Send(false, true)) == s.(crashed := true)
  {
  }

  /** The debug checks made on an already closed descriptor pass exactly when no send is pending, and
      one is pending only while socketError() is at work: in receiveError(), or while it fails sends. */
  lemma ClosedChecks(states: seq<Socket>, actions: seq<Action>, i: nat)
    requires IsRun(states, actions) && i < |states| && !states[i].open
    ensures ChecksHold(states[i]) <==> states[i].queue == []
    ensures !ChecksHold(states[i]) ==> FailLoop(false) in states[i].stack
  {
    RunKeeps(states, actions, i);
  }

  /** And a send can be pending then: receiveError() runs before the sends are failed. */
  lemma ClosedChecksFail() returns (states: seq<Socket>, actions: seq<Action>)
    ensures IsRun(states, actions)
    ensures var s := states[|actions|]; Enabled(s, CloseNow) && !s.open && !ChecksHold(s)
  {
    actions := [SetReceiveCallback, Send(false, true), TrySendMessage(SendThrows)];
    var s0 := Initial();
    var s1 := s0.(receiver := true, readEvents := true);
    var s2 := s1.(sends := [false], accepted := [0], queue := [0], stack := [SendLoop(0)]);
    var s3 := s2.(open := false, closeStarted := true, readEvents := false, receiver := false, stack := [FailLoop(false), UserCode(ReceiveError)]);
    hide Step, Enabled;
    SetIs(s0);
    SendFirstIs(s1);
    ThrowIs(s2);
    states := [s0, s1, s2, s3];
  }

  lemma SetIs(s: Socket)
    requires s.stack == [] && !s.crashed && !s.receiver && !s.closeStarted
    ensures Enabled(s, SetReceiveCallback) && Step(s, SetReceiveCallback) == s.(receiver := true, readEvents := true)
  {
  }

  lemma SendFirstIs(s: Socket)
    requires s.stack == [] && !s.crashed && !s.closeStarted && s.queue == [] && s.sends == [] && s.accepted == []
    ensures Enabled(s, Send(false, true))
    ensures Step(s, Send(false, true)) == s.(sends := [false], accepted := [0], queue := [0], stack := [SendLoop(0)])
  {
  }

  lemma ThrowIs(s: Socket)
    requires s.stack == [SendLoop(0)] && !s.crashed && s.open && s.receiver && s.queue != []
    requires !s.writeEvents && !s.timer
    ensures Enabled(s, TrySendMessage(SendThrows))
    ensures Step(s, TrySendMessage(SendThrows)) ==
      s.(open := false, closeStarted := true, readEvents := false, receiver := false, stack := [FailLoop(false), UserCode(ReceiveError)])
    ensures Enabled(Step(s, TrySendMessage(SendThrows)), CloseNow)
  {
    assert Pop(s).stack == [];
    assert [] + [FailLoop(false)] + [UserCode(ReceiveError)] == [FailLoop(false), UserCode(ReceiveError)];
  }
}
