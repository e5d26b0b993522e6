/** The UnixSocket object's own methods, each up to the first callback that it runs or loop that it
    enters: what they leave to do is pushed on the stack that SocketLifecycle continues from. */
module SocketObject {
  import opened SocketLifecycle

  /** The two flags of an event mask. */
  datatype Events = Events(read: bool, write: bool)

  const NO_EVENTS := Events(false, false)

  class UnixSocket {
    var open: bool
    var closeStarted: bool
    var sendQueue: seq<nat>
    var receiveCallback: bool
    var registeredIOEvents: Events
    var timeoutScheduled: bool
    var stack: seq<Frame>
    var crashed: bool
    var sends: seq<bool>
    var accepted: seq<nat>
    var log: seq<End>
    /** What the event loop has been told, which registeredIOEvents_ is to remember. */
    var handler: Events

    function Now(): Socket
      reads this
    {
      Socket(open, closeStarted, sendQueue, receiveCallback, registeredIOEvents.read, registeredIOEvents.write,
             timeoutScheduled, stack, crashed, sends, accepted, log)
    }

    predicate InStep()
      reads this
    {
      handler == registeredIOEvents
    }

    /** Nothing is registered any more, and the receive callback is gone. */
    predicate Shut()
      reads this
    {
      closeStarted && !receiveCallback && !timeoutScheduled && handler == NO_EVENTS
    }

    constructor ()
      ensures Now() == Initial() && InStep()
    {
      open, closeStarted, sendQueue, receiveCallback := true, false, [], false;
      registeredIOEvents, handler, timeoutScheduled := NO_EVENTS, NO_EVENTS, false;
      stack, crashed, sends, accepted, log := [], false, [], [], [];
    }

    /** updateIORegistration(): the event loop is only called on a change. */
    method UpdateIORegistration(newEvents: Events)
      requires InStep()
      modifies this`registeredIOEvents, this`handler
      ensures InStep() && registeredIOEvents == newEvents
    {
      if registeredIOEvents == newEvents {
        return;
      }
      if newEvents != NO_EVENTS {
        handler := newEvents;
      } else {
        handler := NO_EVENTS;
      }
      registeredIOEvents := newEvents;
    }

    method UnregisterIO()
      modifies this`registeredIOEvents, this`handler
      ensures InStep() && registeredIOEvents == NO_EVENTS
    {
      registeredIOEvents := NO_EVENTS;
      handler := NO_EVENTS;
    }

    method SetReceiveCallback() returns (threw: bool)
      requires InStep() && !crashed && UserMayCall(Now())
      modifies this
      ensures InStep() && Now() == Step(old(Now()), Action.SetReceiveCallback)
      ensures threw <==> old(receiveCallback || closeStarted)
    {
      if receiveCallback {
        return true;
      }
      if closeStarted {
        return true;
      }
      receiveCallback := true;
      UpdateIORegistration(registeredIOEvents.(read := true));
      return false;
    }

    method ClearReceiveCallback() returns (threw: bool)
      requires InStep() && !crashed && UserMayCall(Now())
      modifies this
      ensures InStep() && Now() == Step(old(Now()), Action.ClearReceiveCallback)
      ensures threw <==> !old(receiveCallback)
    {
      if !receiveCallback {
        return true;
      }
      receiveCallback := false;
      UpdateIORegistration(registeredIOEvents.(read := false));
      return false;
    }

    method CloseNow()
      requires InStep()
      modifies this
      ensures InStep() && Now() == CloseNowCall(old(Now()))
      ensures old(open) ==> Shut()
      ensures old(open && receiveCallback) ==> stack == old(stack) + [FailLoop(true), UserCode(SocketClosed)]
      ensures old(open && !receiveCallback) ==> stack == old(stack) + [FailLoop(true)]
    {
      if !open {
        return;
      }
      closeStarted := true;
      UnregisterIO();
      timeoutScheduled := false;
      var callback := receiveCallback;
      receiveCallback := false;
      stack := Started(stack, FailLoop(true), callback, SocketClosed);
    }

    method SocketError()
      requires InStep()
      modifies this
      ensures InStep() && Now() == SocketErrorCall(old(Now()))
      ensures !open
      ensures old(open) ==> Shut()
      ensures old(open && receiveCallback) ==> stack == old(stack) + [FailLoop(false), UserCode(ReceiveError)]
      ensures old(open && !receiveCallback) ==> stack == old(stack) + [FailLoop(false)]
    {
      if !open {
        return;
      }
      closeStarted := true;
      UnregisterIO();
      timeoutScheduled := false;
      open := false;
      var callback := receiveCallback;
      receiveCallback := false;
      stack := Started(stack, FailLoop(false), callback, ReceiveError);
    }

    method Close()
      requires InStep()
      modifies this
      ensures InStep() && Now() == CloseCall(old(Now()))
      ensures old(open) ==> closeStarted && (!old(closeStarted) ==> !receiveCallback)
      ensures sendQueue == old(sendQueue)
      ensures old(!closeStarted && sendQueue != [] && receiveCallback) ==> stack == old(stack) + [CloseTail, UserCode(SocketClosed)]
      ensures old(!closeStarted && sendQueue != [] && !receiveCallback) ==> stack == old(stack) + [CloseTail]
      ensures old(!closeStarted && sendQueue != []) ==> open == old(open) && !receiveCallback
    {
      if closeStarted {
        return;
      }
      if sendQueue == [] {
        CloseNow();
        return;
      }
      closeStarted := true;
      var callback := receiveCallback;
      if callback {
        UpdateIORegistration(registeredIOEvents.(read := false));
        receiveCallback := false;
      }
      stack := Started(stack, CloseTail, callback, SocketClosed);
    }

    /** send(); `allocOk` says whether the queue entry could be allocated. */
    method Send(hasCallback: bool, allocOk: bool)
      requires InStep()
      modifies this
      ensures InStep() && Now() == SendCall(old(Now()), hasCallback, allocOk)
      ensures old(closeStarted) ==> sendQueue == old(sendQueue)
    {
      if closeStarted || !allocOk {
        if !hasCallback {
          crashed := true;
          return;
        }
        var end := End(|sends|, Refused);
        log := log + [end];
        sends := sends + [true];
        stack := stack + [UserCode(SendEnded(end))];
        return;
      }
      var id := |sends|;
      sends := sends + [hasCallback];
      accepted := accepted + [id];
      var trySendNow := sendQueue == [];
      sendQueue := sendQueue + [id];
      if trySendNow {
        stack := stack + [SendLoop(0)];
      }
    }

    /** The end of trySend(): registrations and timeout follow the queue, and a closing socket closes. */
    method FinishTrySend()
      requires InStep()
      modifies this
      ensures InStep() && Now() == SendTail(old(Now()))
      ensures open && !closeStarted ==> (handler.write <==> sendQueue != []) && (timeoutScheduled <==> sendQueue != [])
    {
      if sendQueue == [] {
        timeoutScheduled := false;
        UpdateIORegistration(registeredIOEvents.(write := false));
        if closeStarted {
          CloseNow();
        }
      } else {
        timeoutScheduled := true;
        UpdateIORegistration(registeredIOEvents.(write := true));
      }
    }

    /** One turn of the loop of failAllSends(), up to the callback. */
    method FailNextSend()
      requires sendQueue != []
      modifies this`sendQueue, this`log, this`stack
      ensures Now() == EndFirst(old(Now()), Failed)
    {
      var id := sendQueue[0];
      sendQueue := sendQueue[1..];
      log := log + [End(id, Failed)];
      if id < |sends| && sends[id] {
        stack := stack + [UserCode(SendEnded(End(id, Failed)))];
      }
    }

    /** failAllSends() with callbacks that return without calling back in: every queued send is failed,
        in order, and its callback runs if it has one. */
    method FailAllSends() returns (called: seq<nat>)
      modifies this`sendQueue, this`log, this`stack
      ensures sendQueue == [] && stack == old(stack)
      ensures log == old(log) + AllFailed(old(sendQueue)) && called == WithCallback(old(sendQueue), sends)
    {
      hide AllFailed, WithCallback;
      ghost var queue := sendQueue;
      called := [];
      NoneLeft(sends);
      while sendQueue != []
        invariant stack == old(stack)
        invariant log + AllFailed(sendQueue) == old(log) + AllFailed(queue)
        invariant called + WithCallback(sendQueue, sends) == WithCallback(queue, sends)
        decreases |sendQueue|
      {
        ghost var before := sendQueue;
        var id := sendQueue[0];
        var below := stack;
        FailNextSend();
        FirstOfQueue(before, sends);
        if |stack| > |below| {
          called := called + [id];
          stack := below;
        }
      }
    }
  }

  lemma NoneLeft(sends: seq<bool>)
    ensures AllFailed([]) == [] && WithCallback([], sends) == []
  {
  }

  lemma FirstOfQueue(ids: seq<nat>, sends: seq<bool>)
    requires ids != []
    ensures AllFailed(ids) == [End(ids[0], Failed)] + AllFailed(ids[1..])
    ensures WithCallback(ids, sends) == (if ids[0] < |sends| && sends[ids[0]] then [ids[0]] else []) + WithCallback(ids[1..], sends)
  {
  }

  function WithCallback(ids: seq<nat>, sends: seq<bool>): seq<nat> {
    if ids == [] then []
    else (if ids[0] < |sends| && sends[ids[0]] then [ids[0]] else []) + WithCallback(ids[1..], sends)
  }

  function AllFailed(ids: seq<nat>): seq<End> {
    if ids == [] then [] else [End(ids[0], Failed)] + AllFailed(ids[1..])
  }
}
