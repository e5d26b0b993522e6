/** Every receive() future is fulfilled once, in order; when the destructor's checks hold. */
module FutureSocketTheorems {
  import opened Numbering
  import opened FutureSocket

  // ----- the ledger of receives -----

  function Ids(log: seq<Fulfilment>): seq<nat> {
    if log == [] then [] else Ids(log[..|log| - 1]) + [log[|log| - 1].id]
  }

  /** The receives that got a message, and the numbers of the messages they got. */
  function Winners(log: seq<Fulfilment>): seq<nat> {
    if log == [] then []
    else Winners(log[..|log| - 1]) + if log[|log| - 1].result.Value? then [log[|log| - 1].id] else []
  }

  function Messages(log: seq<Fulfilment>): seq<nat> {
    if log == [] then []
    else Messages(log[..|log| - 1]) + if log[|log| - 1].result.Value? then [log[|log| - 1].result.k] else []
  }

  /** The receives that the activations on the stack have still to fail. */
  function Failing(stack: seq<Frame>): seq<nat> {
    if stack == [] then []
    else Failing(stack[..|stack| - 1]) + if stack[|stack| - 1].FailLoop? then stack[|stack| - 1].ids else []
  }

  predicate EachOnce(s: Future) {
    multiset(Ids(s.log)) + multiset(s.queue) + multiset(Failing(s.stack)) == multiset(Numbers(s.receives))
  }

  predicate InOrder(s: Future) {
    && Increasing(s.accepted) && AllBelow(s.accepted, s.receives)
    && s.delivered <= |s.accepted|
    && Winners(s.log) == s.accepted[..s.delivered]
    && Messages(s.log) == Numbers(s.delivered)
    && (s.socket.Live? ==> s.queue == s.accepted[s.delivered..])
  }

  lemma Logged(log: seq<Fulfilment>, f: Fulfilment)
    ensures Ids(log + [f]) == Ids(log) + [f.id]
    ensures Winners(log + [f]) == Winners(log) + if f.result.Value? then [f.id] else []
    ensures Messages(log + [f]) == Messages(log) + if f.result.Value? then [f.result.k] else []
  {
    assert (log + [f])[..|log|] == log;
  }

  lemma FailingPushed(stack: seq<Frame>, f: Frame)
    ensures Failing(stack + [f]) == Failing(stack) + if f.FailLoop? then f.ids else []
  {
    assert (stack + [f])[..|stack|] == stack;
  }

  lemma FailingPopped(s: Future)
    requires !Quiescent(s)
    ensures Failing(s.stack) == Failing(Below(s)) + if Top(s).FailLoop? then Top(s).ids else []
  {
  }

  /** The step only moves pending receives between the queue and the activations that fail them. */
  predicate Moves(s: Future, t: Future) {
    && t.log == s.log && t.receives == s.receives && t.accepted == s.accepted && t.delivered == s.delivered
    && (t.socket.Live? ==> s.socket.Live? && t.queue == s.queue)
    && multiset(t.queue) + multiset(Failing(t.stack)) == multiset(s.queue) + multiset(Failing(s.stack))
  }

  lemma MovesKeep(s: Future, t: Future)
    requires EachOnce(s) && InOrder(s) && Moves(s, t)
    ensures EachOnce(t) && InOrder(t)
  {
    hide Failing, Ids, Winners, Messages;
    var done := multiset(Ids(s.log));
    assert done + multiset(t.queue) + multiset(Failing(t.stack)) == done + (multiset(t.queue) + multiset(Failing(t.stack)));
    assert done + multiset(s.queue) + multiset(Failing(s.stack)) == done + (multiset(s.queue) + multiset(Failing(s.stack)));
  }

  /** Resetting the socket moves the queue onto the stack if our callback is installed. */
  lemma ResetMoves(s: Future, below: seq<Frame>)
    requires Watched(s) && Failing(below) == Failing(s.stack)
    ensures Moves(s, Reset(s, below))
  {
    hide Failing;
    FailingPushed(below, SendFailures);
    FailingPushed(below + [SendFailures], FailLoop(s.queue, ClosedLocally));
    assert below + [SendFailures] + [FailLoop(s.queue, ClosedLocally)] == below + [SendFailures, FailLoop(s.queue, ClosedLocally)];
    assert Failing(below) + [] == Failing(below);
  }

  lemma FailingNone(f: Frame)
    ensures Failing([]) == [] && Failing([f]) == (if f.FailLoop? then f.ids else [])
  {
    FailingPushed([], f);
    assert [] + [f] == [f];
  }

  // ----- each kind of step -----

  lemma ReceiveOnce(s: Future)
    requires EachOnce(s)
    ensures EachOnce(ReceiveCall(s))
  {
    hide Failing, Ids, Winners, Messages;
    Logged(s.log, Fulfilment(s.receives, Failure(NotConnected)));
  }

  lemma ReceiveInOrder(s: Future)
    requires InOrder(s)
    ensures InOrder(ReceiveCall(s))
  {
    hide Failing, Ids, Winners, Messages;
    Logged(s.log, Fulfilment(s.receives, Failure(NotConnected)));
    if !s.socket.Null? {
      assert (s.accepted + [s.receives])[..s.delivered] == s.accepted[..s.delivered];
      assert (s.accepted + [s.receives])[s.delivered..] == s.accepted[s.delivered..] + [s.receives];
    } else {
      assert Winners(s.log) + [] == Winners(s.log) && Messages(s.log) + [] == Messages(s.log);
    }
  }

  /** The first pending receive is fulfilled with the next message. */
  lemma MessageOnce(s: Future)
    requires Inv(s) && EachOnce(s) && InOrder(s) && Enabled(s, MessageReceived)
    ensures EachOnce(Step(s, MessageReceived)) && InOrder(Step(s, MessageReceived))
  {
    hide Step, Failing, EachOnce, InOrder, NoEofError, NoEofFrame, Tails;
    MessageIs(s);
    var t := Step(s, MessageReceived);
    FirstOnce(s, t);
    FirstInOrder(s, t);
  }

  /** What messageReceived() does to the queue and the log. */
  predicate TakesFirst(s: Future, t: Future) {
    && s.stack == [] && t.stack == [UserCode] && s.queue != [] && t.queue == s.queue[1..]
    && t.delivered == s.delivered + 1 && t.receives == s.receives && t.accepted == s.accepted && t.socket == s.socket
    && t.log == s.log + [Fulfilment(s.queue[0], Value(s.delivered))]
  }

  lemma FirstOnce(s: Future, t: Future)
    requires EachOnce(s) && TakesFirst(s, t)
    ensures EachOnce(t)
  {
    hide Failing, Ids, Winners, Messages;
    Logged(s.log, Fulfilment(s.queue[0], Value(s.delivered)));
    FailingNone(UserCode);
    assert s.queue == [s.queue[0]] + s.queue[1..];
  }

  lemma FirstInOrder(s: Future, t: Future)
    requires InOrder(s) && TakesFirst(s, t) && s.socket.Live?
    ensures InOrder(t)
  {
    hide Failing, Ids, Winners, Messages, Increasing, AllBelow, Numbers;
    Logged(s.log, Fulfilment(s.queue[0], Value(s.delivered)));
    NumbersNext(s.delivered);
    assert s.accepted[..s.delivered] + [s.queue[0]] == s.accepted[..s.delivered + 1];
    assert s.queue[1..] == s.accepted[s.delivered + 1..];
  }

  lemma CloseMoves(s: Future, a: Action)
    requires Inv(s) && Enabled(s, a) && (a.CloseNow? || a.EofReceived? || a.Timeout?)
    ensures Moves(s, Step(s, a))
  {
    hide Failing, NoEofError, NoEofFrame, Tails, Reset, Moves;
    FailingNone(FailPromises(EndOfFile));
    match a
    case CloseNow => ResetMoves(s, s.stack);
    case EofReceived => ResetMoves(s, [FailPromises(EndOfFile)]);
    case Timeout(_) => TimeoutMoves(s);
  }

  lemma DestroyMoves(s: Future)
    requires Inv(s) && Enabled(s, Destroy)
    ensures Moves(s, Step(s, Destroy))
  {
    hide Failing, NoEofError, NoEofFrame, Tails, Reset;
    var tail := [DestructorTail];
    FailingNone(DestructorTail);
    FailingPushed(tail, SendFailures);
    FailingPushed(tail, FailPromises(ClosedLocally));
    FailingPushed(tail + [FailPromises(ClosedLocally)], SendFailures);
    assert tail + [SendFailures] == [DestructorTail, SendFailures];
    assert tail + [FailPromises(ClosedLocally)] + [SendFailures] == [DestructorTail, FailPromises(ClosedLocally), SendFailures];
  }

  /** The queue is moved out before the socket is reset, so socketClosed() finds it empty. */
  lemma TimeoutMoves(s: Future)
    requires Watched(s) && s.stack == []
    ensures Moves(s, Reset(s.(queue := []), [FailLoop(s.queue, TimedOut)]))
  {
    hide Failing;
    var below := [FailLoop(s.queue, TimedOut)];
    FailingNone(FailLoop(s.queue, TimedOut));
    FailingPushed(below, SendFailures);
    FailingPushed(below + [SendFailures], FailLoop([], ClosedLocally));
    assert below + [SendFailures] + [FailLoop([], ClosedLocally)] == below + [SendFailures, FailLoop([], ClosedLocally)];
    assert s.queue + [] + [] == s.queue;
  }

  lemma ErrorMoves(s: Future)
    requires Inv(s) && Enabled(s, SocketError)
    ensures Moves(s, Step(s, SocketError))
  {
    hide Failing, NoEofError, NoEofFrame, Tails;
    FailingPushed(s.stack, SendFailures);
    FailingPushed(s.stack + [SendFailures], FailLoop(s.queue, SocketFailed));
    assert s.stack + [SendFailures] + [FailLoop(s.queue, SocketFailed)] == s.stack + [SendFailures, FailLoop(s.queue, SocketFailed)];
    assert Failing(s.stack) + [] == Failing(s.stack);
  }

  lemma FailNextOnce(s: Future)
    requires EachOnce(s) && InOrder(s) && Enabled(s, FailNext)
    ensures EachOnce(Step(s, FailNext)) && InOrder(Step(s, FailNext))
  {
    hide Failing, EachOnce, InOrder;
    FailingPopped(s);
    if Top(s).ids == [] {
      assert Failing(Below(s)) + [] == Failing(Below(s));
      MovesKeep(s, Step(s, FailNext));
    } else {
      FailOne(s, Step(s, FailNext), Top(s));
    }
  }

  /** One receive is taken off a failing list and fulfilled. */
  lemma FailOne(s: Future, t: Future, f: Frame)
    requires EachOnce(s) && InOrder(s) && !Quiescent(s) && f == Top(s) && f.FailLoop? && f.ids != []
    requires t == s.(log := s.log + [Fulfilment(f.ids[0], Failure(f.error))],
                     stack := Below(s) + [FailLoop(f.ids[1..], f.error), UserCode])
    ensures EachOnce(t) && InOrder(t)
  {
    hide Failing, Ids, Winners, Messages, Increasing, AllBelow;
    FailingPopped(s);
    FailingRest(Below(s), f.ids, f.error);
    Logged(s.log, Fulfilment(f.ids[0], Failure(f.error)));
    assert Winners(s.log) + [] == Winners(s.log) && Messages(s.log) + [] == Messages(s.log);
  }

  lemma FailingRest(below: seq<Frame>, ids: seq<nat>, error: Error)
    requires ids != []
    ensures multiset([ids[0]]) + multiset(Failing(below + [FailLoop(ids[1..], error), UserCode])) == multiset(Failing(below) + ids)
  {
    hide Failing;
    var rest := FailLoop(ids[1..], error);
    FailingPushed(below, rest);
    FailingPushed(below + [rest], UserCode);
    assert below + [rest] + [UserCode] == below + [rest, UserCode];
    assert ids == [ids[0]] + ids[1..];
  }

  lemma StackMoves(s: Future, a: Action)
    requires Inv(s) && Enabled(s, a)
    requires a.Return? || a.SendFails? || a.EndSendFailures? || a.FinishPromises? || a.FinishDestructor?
    ensures Moves(s, Step(s, a))
  {
    hide Failing, NoEofError, NoEofFrame, Watched, Tails;
    FailingPopped(s);
    if a.SendFails? {
      FailingPushed(s.stack, UserCode);
      assert Failing(s.stack) + [] == Failing(s.stack);
    } else {
      assert Failing(Below(s)) + [] == Failing(Below(s));
      if a.FinishPromises? {
        PromisesMove(s);
      }
    }
  }

  lemma PromisesMove(s: Future)
    requires Inv(s) && Enabled(s, FinishPromises)
    ensures Moves(s, Step(s, FinishPromises))
  {
    hide Failing, NoEofError, NoEofFrame, Watched;
    FailingPopped(s);
    FailingPushed(Below(s), FailLoop(s.queue, Top(s).error));
    assert Failing(Below(s)) + [] == Failing(Below(s));
    assert s.stack[|s.stack| - 1].FailPromises?;
  }

  lemma LedgerKept(s: Future, a: Action)
    requires Inv(s) && EachOnce(s) && InOrder(s) && Enabled(s, a)
    ensures EachOnce(Step(s, a)) && InOrder(Step(s, a))
  {
    hide Inv, EachOnce, InOrder, ReceiveCall, Reset, Moves;
    match a
    case Receive =>
      ReceiveOnce(s);
      ReceiveInOrder(s);
    case MessageReceived => MessageOnce(s);
    case FailNext => FailNextOnce(s);
    case SocketError => ErrorMoves(s); MovesKeep(s, Step(s, a));
    case CloseNow => CloseMoves(s, a); MovesKeep(s, Step(s, a));
    case EofReceived => CloseMoves(s, a); MovesKeep(s, Step(s, a));
    case Timeout(_) => CloseMoves(s, a); MovesKeep(s, Step(s, a));
    case Destroy => DestroyMoves(s); MovesKeep(s, Step(s, a));
    case _ => StackMoves(s, a); MovesKeep(s, Step(s, a));
  }

  // ----- runs -----

  lemma {:induction false} RunKeeps(states: seq<Future>, actions: seq<Action>, i: nat)
    requires IsRun(states, actions) && i < |states|
    ensures Inv(states[i]) && EachOnce(states[i]) && InOrder(states[i])
  {
    hide Step, Enabled, Inv, EachOnce, InOrder;
    if i == 0 {
      InitialKeeps();
    } else {
      RunKeeps(states, actions, i - 1);
      StepKeeps(states[i - 1], actions[i - 1]);
      LedgerKept(states[i - 1], actions[i - 1]);
    }
  }

  lemma InitialKeeps()
    ensures Inv(Initial()) && EachOnce(Initial()) && InOrder(Initial())
  {
  }

  /** Every receive() has been fulfilled exactly once or is still pending, never both. */
  lemma FulfilledOnce(states: seq<Future>, actions: seq<Action>, i: nat, id: nat)
    requires IsRun(states, actions) && i < |states| && id < states[i].receives
    ensures var s := states[i];
      multiset(Ids(s.log))[id] + multiset(s.queue)[id] + multiset(Failing(s.stack))[id] == 1
  {
    RunKeeps(states, actions, i);
    NumbersOnce(states[i].receives, id);
  }

  /** The k-th receive that succeeds is the k-th one accepted and gets the k-th message delivered. */
  lemma KthGetsKth(states: seq<Future>, actions: seq<Action>, i: nat)
    requires IsRun(states, actions) && i < |states|
    ensures var s := states[i];
      && Messages(s.log) == Numbers(s.delivered)
      && Winners(s.log) <= s.accepted && Increasing(s.accepted)
  {
    RunKeeps(states, actions, i);
  }

  /** eofReceived() resets the socket first, so the pending receives fail with "closed locally": no
      future is ever failed with the error that names the end of the connection. */
  lemma EndOfFileIsNeverReported(states: seq<Future>, actions: seq<Action>, i: nat, k: nat)
    requires IsRun(states, actions) && i < |states| && k < |states[i].log|
    ensures states[i].log[k].result != Failure(EndOfFile)
  {
    RunKeeps(states, actions, i);
  }

  // ----- when the callback is installed exactly while a receive is pending -----

  /** A step keeps it unless it calls receive() on a socket that is held but closed underneath; and
      once that has happened only a receive timeout restores it. */
  lemma WatchingExactly(s: Future, a: Action)
    requires Inv(s) && Enabled(s, a)
    ensures Watching(Step(s, a)) <==> if Watching(s) then !(a.Receive? && ReceiveThrows(s)) else a.Timeout?
  {
    hide NoEofError, NoEofFrame;
    if a.FinishPromises? {
      assert Top(s) in s.stack;
    }
  }

  /** A receive() has thrown, and no receive timeout has come since. */
  predicate LeftBehind(states: seq<Future>, actions: seq<Action>, i: nat)
    requires i <= |actions| < |states|
  {
    exists j :: 0 <= j < i && actions[j].Receive? && ReceiveThrows(states[j]) && forall k :: j < k < i ==> !actions[k].Timeout?
  }

  lemma LeftBehindNext(states: seq<Future>, actions: seq<Action>, i: nat)
    requires i < |actions| < |states|
    ensures LeftBehind(states, actions, i + 1) <==>
      (actions[i].Receive? && ReceiveThrows(states[i])) || (LeftBehind(states, actions, i) && !actions[i].Timeout?)
  {
    if LeftBehind(states, actions, i) && !actions[i].Timeout? {
      var j :| 0 <= j < i && actions[j].Receive? && ReceiveThrows(states[j]) && forall k :: j < k < i ==> !actions[k].Timeout?;
      assert forall k :: j < k < i + 1 ==> !actions[k].Timeout?;
    }
    if LeftBehind(states, actions, i + 1) {
      var j :| 0 <= j < i + 1 && actions[j].Receive? && ReceiveThrows(states[j]) && forall k :: j < k < i + 1 ==> !actions[k].Timeout?;
      if j < i {
        assert forall k :: j < k < i ==> !actions[k].Timeout?;
      }
    }
  }

  /** In every run the callback is installed exactly while a receive is pending, apart from the interval in
      which the destructor fails the sends, unless a receive() has thrown since the last receive timeout. */
  lemma {:induction false} WatchingInRuns(states: seq<Future>, actions: seq<Action>, i: nat)
    requires IsRun(states, actions) && i < |states|
    ensures Watching(states[i]) <==> !LeftBehind(states, actions, i)
  {
    hide Step, Enabled, Inv, LeftBehind;
    if i == 0 {
      NothingLeftBehind(states, actions);
    } else {
      WatchingInRuns(states, actions, i - 1);
      RunKeeps(states, actions, i - 1);
      WatchingExactly(states[i - 1], actions[i - 1]);
      LeftBehindNext(states, actions, i - 1);
    }
  }

  lemma NothingLeftBehind(states: seq<Future>, actions: seq<Action>)
    requires |actions| < |states|
    ensures !LeftBehind(states, actions, 0)
  {
  }

  /** The destructor finds its queue empty if and only if no receive() has thrown since the last
      receive timeout. */
  lemma DestructorChecksHold(states: seq<Future>, actions: seq<Action>, i: nat)
    requires IsRun(states, actions) && i < |actions| && actions[i].FinishDestructor?
    ensures !states[i].installed
    ensures states[i].queue == [] <==> !LeftBehind(states, actions, i)
  {
    hide Step, LeftBehind, NoEofError, NoEofFrame;
    RunKeeps(states, actions, i);
    WatchingInRuns(states, actions, i);
    DestructorIsLast(states[i]);
  }

  lemma DestructorIsLast(s: Future)
    requires Inv(s) && Enabled(s, FinishDestructor)
    ensures s.stack == [DestructorTail] && !s.socket.Live?
  {
    hide NoEofError, NoEofFrame, Watched;
    assert s.stack[|s.stack| - 1].DestructorTail?;
  }

  /** A send error closes the inner socket, receive() throws but leaves its entry behind, and the
      destructor's check of the queue fails. */
  lemma DestructorCheckFails() returns (states: seq<Future>, actions: seq<Action>)
    ensures IsRun(states, actions)
    ensures var s := states[|actions|]; Enabled(s, FinishDestructor) && s.queue != []
  {
    hide Step, Enabled;
    actions := [SocketError, EndSendFailures, Receive, Destroy];
    var s0 := Initial();
    var s1 := s0.(socket := Dead, stack := [SendFailures]);
    var s2 := s1.(stack := []);
    var s3 := s2.(receives := 1, accepted := [0], queue := [0]);
    var s4 := s3.(socket := Null, stack := [DestructorTail]);
    ErrorIs(s0);
    EndIs(s1);
    ReceiveIs(s2);
    DestroyIs(s3);
    states := [s0, s1, s2, s3, s4];
  }

  lemma ErrorIs(s: Future)
    requires s.stack == [] && s.socket.Live? && !s.installed
    ensures Enabled(s, SocketError) && Step(s, SocketError) == s.(socket := Dead, stack := [SendFailures])
  {
    assert [] + [SendFailures] == [SendFailures];
  }

  lemma EndIs(s: Future)
    requires s.stack == [SendFailures]
    ensures Enabled(s, EndSendFailures) && Step(s, EndSendFailures) == s.(stack := [])
  {
  }

  lemma ReceiveIs(s: Future)
    requires s.stack == [] && s.socket.Dead? && s.queue == [] && s.receives == 0 && s.accepted == [] && !s.installed
    ensures Enabled(s, Receive) && Step(s, Receive) == s.(receives := 1, accepted := [0], queue := [0])
  {
  }

  lemma DestroyIs(s: Future)
    requires s.stack == [] && s.socket.Dead?
    ensures Enabled(s, Destroy) && Step(s, Destroy) == s.(socket := Null, stack := [DestructorTail])
    ensures Enabled(Step(s, Destroy), FinishDestructor)
  {
  }
}
