/** What ends a FutureUnixSocket, and what the pending receives are told then. */
module FutureSocketEndings {
  import opened Numbering
  import opened FutureSocket
  import opened FutureSocketTheorems

  /** Receive number id is about to be failed with this error. */
  predicate Due(stack: seq<Frame>, id: nat, error: Error) {
    exists k :: 0 <= k < |stack| && IsDue(stack[k], id, error)
  }

  predicate IsDue(f: Frame, id: nat, error: Error) {
    f.FailLoop? && id in f.ids && f.error == error
  }

  /** What ends the socket while our callback is installed, and a timeout in any case. */
  predicate Ends(s: Future, a: Action) {
    a.CloseNow? || a.EofReceived? || a.Timeout? || (a.SocketError? && s.installed)
  }

  function Reason(a: Action): Error {
    if a.Timeout? then TimedOut else if a.SocketError? then SocketFailed else ClosedLocally
  }

  lemma DuePushed(stack: seq<Frame>, f: Frame, id: nat, error: Error)
    ensures Due(stack + [f], id, error) <==> Due(stack, id, error) || IsDue(f, id, error)
  {
    var t := stack + [f];
    assert t[|stack|] == f;
    assert forall k :: 0 <= k < |stack| ==> t[k] == stack[k];
  }

  lemma DueTwo(stack: seq<Frame>, f: Frame, g: Frame, id: nat, error: Error)
    ensures Due(stack + [f, g], id, error) <==> Due(stack, id, error) || IsDue(f, id, error) || IsDue(g, id, error)
  {
    DuePushed(stack, f, id, error);
    DuePushed(stack + [f], g, id, error);
    assert stack + [f] + [g] == stack + [f, g];
  }

  lemma DueNone(f: Frame, id: nat, error: Error)
    ensures !Due([], id, error) && (Due([f], id, error) <==> IsDue(f, id, error))
  {
    DuePushed([], f, id, error);
    assert [] + [f] == [f];
  }

  lemma DuePopped(s: Future, id: nat, error: Error)
    requires !Quiescent(s)
    ensures Due(s.stack, id, error) <==> Due(Below(s), id, error) || IsDue(Top(s), id, error)
  {
    assert s.stack == Below(s) + [Top(s)];
    DuePushed(Below(s), Top(s), id, error);
  }

  /** closeNow(), the end of the connection, a receive timeout, and an error while a receive is pending
      let go of the socket; then no receive that waited with our callback installed is left in the
      queue, and each of them is about to fail for that reason.  What a receive() that threw has left
      behind, only a timeout fails. */
  lemma EndingFailsPending(s: Future, a: Action)
    requires Inv(s) && Enabled(s, a) && Ends(s, a)
    ensures var s' := Step(s, a);
      && s'.socket.Null? && !s'.installed
      && (s.installed || a.Timeout? ==> s'.queue == [] && forall id :: id in s.queue ==> Due(s'.stack, id, Reason(a)))
      && (!s.installed && !a.Timeout? ==> s'.queue == s.queue)
  {
    hide Tails, NoEofFrame, NoEofError, Due;
    var s' := Step(s, a);
    forall id | (s.installed || a.Timeout?) && id in s.queue ensures Due(s'.stack, id, Reason(a)) {
      EndingDues(s, a, id);
    }
  }

  lemma EndingDues(s: Future, a: Action, id: nat)
    requires Inv(s) && Enabled(s, a) && Ends(s, a) && (s.installed || a.Timeout?) && id in s.queue
    ensures Due(Step(s, a).stack, id, Reason(a))
  {
    hide Tails, NoEofFrame, NoEofError;
    var f := FailLoop(s.queue, Reason(a));
    var stack := Step(s, a).stack;
    if a.Timeout? {
      assert stack[0] == f;
    } else {
      assert stack[|stack| - 1] == f;
    }
  }

  /** A socket that is let go of, or breaks, fails its sends: after the callback has failed the receives,
      but before what the destructor or a timeout leaves to fail. */
  lemma SendsFailToo(s: Future, a: Action)
    requires Inv(s) && Enabled(s, a) && s.socket.Live? && !Step(s, a).socket.Live?
    ensures var s' := Step(s, a);
      && !Quiescent(s')
      && if s.installed && !a.Destroy? then Top(s').FailLoop? && Below(s') != [] && Below(s')[|Below(s')| - 1] == SendFailures
         else Top(s') == SendFailures
  {
    hide Tails, NoEofFrame, NoEofError;
  }

  /** The destructor leaves no open socket, and its last part to do; what is pending with our callback
      installed is failed before that, with the same error. */
  lemma DestroyEnds(s: Future)
    requires Inv(s) && Enabled(s, Destroy)
    ensures var s' := Step(s, Destroy);
      && !s'.socket.Live? && !s'.installed && s'.stack != [] && s'.stack[0] == DestructorTail
      && (s.installed ==> s'.stack[1..] == [FailPromises(ClosedLocally), SendFailures])
  {
    hide Tails, NoEofFrame, NoEofError;
  }

  lemma PromisesAreFailed(s: Future, id: nat)
    requires Enabled(s, FinishPromises) && id in s.queue
    ensures Step(s, FinishPromises).queue == [] && Due(Step(s, FinishPromises).stack, id, Top(s).error)
  {
    DuePushed(Below(s), FailLoop(s.queue, Top(s).error), id, Top(s).error);
  }

  // ----- every error has its event -----

  /** What makes receive number id fail with this error: a receive() without socket; an ending while it is
      pending; or, for the destructor, the failing of what is pending behind the sends. */
  predicate Event(s: Future, a: Action, id: nat, error: Error) {
    if error.NotConnected? then a.Receive? && s.socket.Null? && id == s.receives
    else
      && id in s.queue
      && ((Ends(s, a) && error == Reason(a)) || (a.FinishPromises? && !Quiescent(s) && Top(s) == FailPromises(error)))
  }

  /** What a step adds to the log. */
  predicate Logs(s: Future, a: Action, f: Fulfilment) {
    match f.result
    case Value(k) => a.MessageReceived? && s.queue != [] && f.id == s.queue[0] && k == s.delivered
    case Failure(e) => Due(s.stack, f.id, e) || Event(s, a, f.id, e)
  }

  lemma ReceiveLogs(s: Future)
    ensures ReceiveCall(s).log == s.log || (s.socket.Null? && ReceiveCall(s).log == s.log + [Fulfilment(s.receives, Failure(NotConnected))])
  {
  }

  lemma FailLogs(s: Future)
    requires Enabled(s, FailNext)
    ensures var f := Top(s);
      if f.ids == [] then Step(s, FailNext).log == s.log
      else Due(s.stack, f.ids[0], f.error) && Step(s, FailNext).log == s.log + [Fulfilment(f.ids[0], Failure(f.error))]
  {
    hide Due;
    if Top(s).ids != [] {
      DuePopped(s, Top(s).ids[0], Top(s).error);
    }
  }

  lemma OthersLogNothing(s: Future, a: Action)
    requires Enabled(s, a) && !a.Receive? && !a.FailNext? && !a.MessageReceived?
    ensures Step(s, a).log == s.log
  {
    hide Due;
  }

  lemma StepLogs(s: Future, a: Action)
    requires Enabled(s, a)
    ensures var s' := Step(s, a);
      s'.log == s.log || (s'.log != [] && s'.log[..|s'.log| - 1] == s.log && Logs(s, a, s'.log[|s'.log| - 1]))
    ensures a.MessageReceived? && s.queue != [] ==> Step(s, a).log == s.log + [Fulfilment(s.queue[0], Value(s.delivered))]
  {
    if a.Receive? {
      hide Due, ReceiveCall;
      ReceiveLogs(s);
    } else if a.FailNext? {
      FailLogs(s);
      hide Due, Enabled, Step;
    } else if a.MessageReceived? {
      hide Due;
      if s.queue != [] {
        MessageIs(s);
        hide Step;
      }
    } else {
      hide Due, Enabled, Step;
      OthersLogNothing(s, a);
    }
  }

  lemma ResetDue(s: Future, below: seq<Frame>, id: nat, error: Error)
    ensures Due(Reset(s, below).stack, id, error) ==> Due(below, id, error) || (s.installed && id in s.queue && error == ClosedLocally)
  {
    hide Due;
    DuePushed(below, SendFailures, id, error);
    DueTwo(below, SendFailures, FailLoop(s.queue, ClosedLocally), id, error);
  }

  lemma EndDue(s: Future, a: Action, id: nat, error: Error)
    requires Enabled(s, a) && (a.CloseNow? || a.EofReceived? || a.Timeout? || a.SocketError?)
    requires Due(Step(s, a).stack, id, error)
    ensures Due(s.stack, id, error) || Event(s, a, id, error)
  {
    hide Due, Reset;
    match a
    case CloseNow => ResetDue(s, s.stack, id, error);
    case EofReceived =>
      ResetDue(s, [FailPromises(EndOfFile)], id, error);
      DueNone(FailPromises(EndOfFile), id, error);
    case Timeout(_) =>
      ResetDue(s.(queue := []), [FailLoop(s.queue, TimedOut)], id, error);
      DueNone(FailLoop(s.queue, TimedOut), id, error);
    case SocketError =>
      DuePushed(s.stack, SendFailures, id, error);
      DueTwo(s.stack, SendFailures, FailLoop(s.queue, SocketFailed), id, error);
  }

  lemma DestroyDue(s: Future, id: nat, error: Error)
    requires Enabled(s, Destroy)
    ensures !Due(Step(s, Destroy).stack, id, error)
  {
  }

  lemma StackDue(s: Future, a: Action, id: nat, error: Error)
    requires Inv(s) && Enabled(s, a) && (a.Return? || a.SendFails? || a.EndSendFailures? || a.FinishPromises? || a.FinishDestructor? || a.FailNext?)
    requires Due(Step(s, a).stack, id, error)
    ensures Due(s.stack, id, error) || Event(s, a, id, error)
  {
    hide Due;
    DuePopped(s, id, error);
    if a.SendFails? {
      DuePushed(s.stack, UserCode, id, error);
    } else if a.FinishPromises? {
      DuePushed(Below(s), FailLoop(s.queue, Top(s).error), id, error);
      assert Fits(s.stack[|s.stack| - 1], |s.stack| - 1, s.socket);
    } else if a.FailNext? && Top(s).ids != [] {
      DueTwo(Below(s), FailLoop(Top(s).ids[1..], Top(s).error), UserCode, id, error);
    }
  }

  lemma StepDue(s: Future, a: Action, id: nat, error: Error)
    requires Inv(s) && Enabled(s, a) && Due(Step(s, a).stack, id, error)
    ensures Due(s.stack, id, error) || Event(s, a, id, error)
  {
    hide Due, Reset, Event, Inv;
    match a
    case Receive =>
    case Destroy => DestroyDue(s, id, error);
    case MessageReceived =>
      DueNone(UserCode, id, error);
    case CloseNow => EndDue(s, a, id, error);
    case EofReceived => EndDue(s, a, id, error);
    case Timeout(_) => EndDue(s, a, id, error);
    case SocketError => EndDue(s, a, id, error);
    case _ => StackDue(s, a, id, error);
  }

  // ----- whole runs -----

  predicate Happened(states: seq<Future>, actions: seq<Action>, i: nat, id: nat, error: Error)
    requires i <= |actions| < |states|
  {
    exists j :: 0 <= j < i && Event(states[j], actions[j], id, error)
  }

  lemma {:induction false} DueHappened(states: seq<Future>, actions: seq<Action>, i: nat, id: nat, error: Error)
    requires IsRun(states, actions) && i <= |actions| && Due(states[i].stack, id, error)
    ensures Happened(states, actions, i, id, error)
  {
    hide Step, Enabled, Inv, Event;
    if i == 0 {
      assert false;
    } else {
      RunKeeps(states, actions, i - 1);
      StepDue(states[i - 1], actions[i - 1], id, error);
      if Due(states[i - 1].stack, id, error) {
        DueHappened(states, actions, i - 1, id, error);
      }
    }
  }

  /** The error of a failed receive names the event that failed it: there was no socket; or, while it was
      pending, the socket was closed or its connection ended, an error, a timeout, or the destructor. */
  lemma {:induction false} ErrorTellsEvent(states: seq<Future>, actions: seq<Action>, i: nat, k: nat)
    requires IsRun(states, actions) && i <= |actions| && k < |states[i].log| && states[i].log[k].result.Failure?
    ensures var f := states[i].log[k]; Happened(states, actions, i, f.id, f.result.error)
  {
    hide Step, Enabled, Event, Due;
    if i > 0 {
      var s, s' := states[i - 1], states[i];
      StepLogs(s, actions[i - 1]);
      if k < |s.log| {
        ErrorTellsEvent(states, actions, i - 1, k);
      } else {
        var f := s'.log[k];
        if Due(s.stack, f.id, f.result.error) {
          DueHappened(states, actions, i - 1, f.id, f.result.error);
        }
      }
    }
  }

  /** The failing of what is pending behind the sends is the destructor's. */
  lemma {:induction false} OnlyTheDestructor(states: seq<Future>, actions: seq<Action>, i: nat)
    requires IsRun(states, actions) && i <= |actions| && FailPromises(ClosedLocally) in states[i].stack
    ensures exists j :: 0 <= j < i && actions[j].Destroy?
  {
    hide Step, Enabled;
    if i > 0 {
      PromisesStay(states[i - 1], actions[i - 1]);
      if !actions[i - 1].Destroy? {
        OnlyTheDestructor(states, actions, i - 1);
      }
    }
  }

  lemma PromisesStay(s: Future, a: Action)
    requires Enabled(s, a) && FailPromises(ClosedLocally) in Step(s, a).stack
    ensures FailPromises(ClosedLocally) in s.stack || a.Destroy?
  {
  }

  function Count(actions: seq<Action>, a: Action): nat {
    if actions == [] then 0
    else Count(actions[..|actions| - 1], a) + if actions[|actions| - 1] == a then 1 else 0
  }

  /** Every receive() is numbered, and every message is delivered, to a receive by KthGetsKth. */
  lemma {:induction false} EachIsCounted(states: seq<Future>, actions: seq<Action>, i: nat)
    requires IsRun(states, actions) && i <= |actions|
    ensures states[i].receives == Count(actions[..i], Receive) && states[i].delivered == Count(actions[..i], MessageReceived)
  {
    hide Step, Enabled, Inv, EachOnce, InOrder;
    if i > 0 {
      EachIsCounted(states, actions, i - 1);
      RunKeeps(states, actions, i - 1);
      StepCounts(states[i - 1], actions[i - 1]);
      assert actions[..i][..i - 1] == actions[..i - 1];
    }
  }

  lemma StepCounts(s: Future, a: Action)
    requires Inv(s) && Enabled(s, a)
    ensures var s' := Step(s, a);
      && s'.receives == s.receives + (if a.Receive? then 1 else 0)
      && s'.delivered == s.delivered + (if a.MessageReceived? then 1 else 0)
  {
    hide Tails, NoEofFrame, NoEofError;
  }

  /** Outside every callback, once the socket is gone or closed underneath, every receive has been
      fulfilled, unless one threw after the last timeout. */
  lemma ClosedMeansFulfilled(states: seq<Future>, actions: seq<Action>, i: nat, id: nat)
    requires IsRun(states, actions) && i <= |actions| && id < states[i].receives
    requires Quiescent(states[i]) && !states[i].socket.Live? && !LeftBehind(states, actions, i)
    ensures multiset(Ids(states[i].log))[id] == 1
  {
    hide LeftBehind;
    RunKeeps(states, actions, i);
    WatchingInRuns(states, actions, i);
    FulfilledOnce(states, actions, i, id);
  }

  /** Whoever hears of a message or an error may call back in. */
  lemma CallbacksMayCallIn(s: Future, a: Action)
    requires Enabled(s, a) && (a.SendFails? || (a.MessageReceived? && s.queue != []) || (a.FailNext? && Top(s).ids != []))
    ensures Enabled(Step(s, a), Receive) && Enabled(Step(s, a), CloseNow)
  {
  }

  /** Until then something can go on, without the user. */
  lemma GoesOn(s: Future)
    requires !Quiescent(s)
    ensures exists a :: Enabled(s, a) && !a.Receive? && !a.CloseNow? && !a.SocketError?
  {
    match Top(s)
    case UserCode => assert Enabled(s, Return);
    case FailLoop(_, _) => assert Enabled(s, FailNext);
    case SendFailures => assert Enabled(s, EndSendFailures);
    case FailPromises(_) => assert Enabled(s, FinishPromises);
    case DestructorTail => assert Enabled(s, FinishDestructor);
  }
}
