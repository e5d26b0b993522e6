/** The FutureUnixSocket object with its singly linked queue of receive callbacks.  The promises
    that it fulfils are logged; the user code that a promise may run is the matter of FutureSocket. */
module FutureSocketObject {
  import opened FutureSocket

  class ReceiveCallback {
    const id: nat
    var next: ReceiveCallback?

    constructor (id: nat)
      ensures this.id == id && next == null
    {
      this.id, next := id, null;
    }
  }

  /** The callbacks are linked in this order, and the last one ends the list. */
  ghost predicate Linked(nodes: seq<ReceiveCallback>)
    reads nodes
  {
    && (forall i, j :: 0 <= i < j < |nodes| ==> nodes[i] != nodes[j])
    && (forall i :: 0 <= i < |nodes| - 1 ==> nodes[i].next == nodes[i + 1])
    && (nodes != [] ==> nodes[|nodes| - 1].next == null)
  }

  /** What is behind the first callback is linked by itself, and does not lead back to it. */
  lemma LinkedRest(nodes: seq<ReceiveCallback>)
    requires Linked(nodes) && nodes != []
    ensures Linked(nodes[1..]) && nodes[0] !in nodes[1..]
    ensures nodes[0].next == if nodes[1..] == [] then null else nodes[1..][0]
    ensures nodes[1..] != [] ==> nodes[1..][|nodes| - 2] == nodes[|nodes| - 1]
  {
  }

  ghost function IdsOf(nodes: seq<ReceiveCallback>): (r: seq<nat>)
    ensures |r| == |nodes| && forall i :: 0 <= i < |nodes| ==> r[i] == nodes[i].id
  {
    seq(|nodes|, i requires 0 <= i < |nodes| => nodes[i].id)
  }

  /** The futures of a list are failed one after the other. */
  function Failed(ids: seq<nat>, error: Error): seq<Fulfilment> {
    if ids == [] then [] else [Fulfilment(ids[0], Failure(error))] + Failed(ids[1..], error)
  }

  class FutureUnixSocket {
    var socket: Inner
    var installed: bool
    var recvQueue: ReceiveCallback?
    var recvQueueTail: ReceiveCallback?
    var log: seq<Fulfilment>
    var receives: nat
    var delivered: nat
    ghost var accepted: seq<nat>
    ghost var nodes: seq<ReceiveCallback>

    ghost predicate Valid()
      reads this, nodes
    {
      && Linked(nodes)
      && recvQueue == (if nodes == [] then null else nodes[0])
      && recvQueueTail == (if nodes == [] then null else nodes[|nodes| - 1])
    }

    /** The state of the model, with no activation on its stack. */
    ghost function Now(): Future
      reads this
    {
      Future(socket, installed, IdsOf(nodes), [], delivered, receives, accepted, log)
    }

    constructor ()
      ensures Valid() && Now() == Initial()
    {
      socket, installed, recvQueue, recvQueueTail := Live, false, null, null;
      log, receives, delivered, accepted, nodes := [], 0, 0, [], [];
    }

    /** receive(). */
    method Receive() returns (threw: bool)
      requires Valid() && (installed ==> socket.Live? && nodes != [])
      requires socket.Live? ==> (installed <==> nodes != [])
      modifies this, recvQueueTail
      ensures Valid() && Now() == ReceiveCall(old(Now()))
      ensures threw <==> old(ReceiveThrows(Now()))
    {
      hide Linked;
      threw := false;
      var id := receives;
      receives := receives + 1;
      if socket.Null? {
        log := log + [Fulfilment(id, Failure(NotConnected))];
        return;
      }
      accepted := accepted + [id];
      var wasEmpty := Append(id);
      if wasEmpty {
        threw := socket.Dead?;
        installed := !threw;
      }
    }

    /** The new callback is linked behind the tail. */
    method Append(id: nat) returns (wasEmpty: bool)
      requires Valid()
      modifies this`recvQueue, this`recvQueueTail, this`nodes, recvQueueTail
      ensures Valid() && wasEmpty == (old(nodes) == [])
      ensures IdsOf(nodes) == old(IdsOf(nodes)) + [id]
    {
      var callback := new ReceiveCallback(id);
      nodes := nodes + [callback];
      var previousTail := recvQueueTail;
      recvQueueTail := callback;
      wasEmpty := previousTail == null;
      if previousTail != null {
        previousTail.next := callback;
      } else {
        recvQueue := callback;
      }
    }

    /** messageReceived(): the first pending receive gets the message. */
    method MessageReceived()
      requires Valid() && installed && nodes != []
      modifies this, recvQueue
      ensures Valid() && Now().(stack := [UserCode]) == Step(old(Now()), Action.MessageReceived)
    {
      hide Linked, Step;
      LinkedRest(nodes);
      MessageIs(Now());
      ghost var rest := nodes[1..];
      assert IdsOf(rest) == IdsOf(nodes)[1..];
      var callback := recvQueue;
      recvQueue := callback.next;
      callback.next := null;
      nodes := rest;
      if recvQueue == null {
        recvQueueTail := null;
        installed := false;
      }
      log := log + [Fulfilment(callback.id, Value(delivered))];
      delivered := delivered + 1;
    }

    /** failReceiveQueue(). */
    method FailReceiveQueue(first: ReceiveCallback?, error: Error, ghost list: seq<ReceiveCallback>)
      requires Linked(list) && first == if list == [] then null else list[0]
      modifies this`log, list
      ensures log == old(log) + Failed(IdsOf(list), error)
    {
      hide Linked, Failed;
      FailedNone(error);
      var callback := first;
      ghost var rest := list;
      assert log + Failed(IdsOf(list), error) == log + Failed(IdsOf(rest), error);
      while callback != null
        invariant Linked(rest) && callback == if rest == [] then null else rest[0]
        invariant forall i :: 0 <= i < |rest| ==> rest[i] in list
        invariant log + Failed(IdsOf(rest), error) == old(log) + Failed(IdsOf(list), error)
        decreases |rest|
      {
        LinkedRest(rest);
        FailedFirst(rest, error);
        var next := callback.next;
        callback.next := null;
        log := log + [Fulfilment(callback.id, Failure(error))];
        rest := rest[1..];
        callback := next;
      }
    }

    /** failAllPromises(). */
    method FailAllPromises(error: Error)
      requires Valid()
      modifies this, nodes
      ensures Valid()
      ensures Now() == old(Now()).(queue := [], log := old(log) + Failed(old(Now()).queue, error))
    {
      var q := recvQueue;
      ghost var list := nodes;
      recvQueue, recvQueueTail, nodes := null, null, [];
      FailReceiveQueue(q, error, list);
    }

    /** socket_.reset(): destroying the inner socket calls socketClosed() if our callback is installed. */
    method ResetSocket()
      requires Valid()
      modifies this, nodes
      ensures socket.Null? && !installed
      ensures old(socket.Live? && installed) ==>
        Valid() && nodes == [] && log == old(log) + Failed(old(IdsOf(nodes)), ClosedLocally)
      ensures !old(socket.Live? && installed) ==> Valid() && nodes == old(nodes) && recvQueue == old(recvQueue) && log == old(log)
      ensures !old(socket.Live? && installed) ==> forall x :: x in nodes ==> unchanged(x)
    {
      var callsBack := socket.Live? && installed;
      socket, installed := Null, false;
      if callsBack {
        FailAllPromises(ClosedLocally);
      }
    }

    /** closeNow(). */
    method CloseNow()
      requires Valid() && (socket.Live? ==> (installed <==> nodes != [])) && (installed ==> socket.Live?)
      modifies this, nodes
      ensures socket.Null? && !installed
      ensures old(installed) ==>
        Valid() && nodes == [] && log == old(log) + Failed(old(IdsOf(nodes)), ClosedLocally)
      ensures old(!installed) ==> Valid() && nodes == old(nodes) && log == old(log)
    {
      ResetSocket();
    }

    /** eofReceived(): by the time it fails the promises none is left. */
    method EofReceived()
      requires Valid() && installed && socket.Live? && nodes != []
      modifies this, nodes
      ensures Valid() && socket.Null? && !installed
      ensures nodes == [] && log == old(log) + Failed(old(IdsOf(nodes)), ClosedLocally)
    {
      ResetSocket();
      ghost var before := log;
      FailAllPromises(EndOfFile);
      assert log == before + [];
    }

    /** receiveError(): the inner socket has closed itself and removed our callback. */
    method ReceiveError()
      requires Valid()
      modifies this, nodes
      ensures Valid() && socket.Null? && !installed
      ensures nodes == [] && log == old(log) + Failed(old(IdsOf(nodes)), SocketFailed)
    {
      socket, installed := Null, false;
      FailAllPromises(SocketFailed);
    }

    /** receiveTimeout(): the queue is taken before the socket is reset, which finds it empty. */
    method ReceiveTimeout()
      requires Valid()
      modifies this, nodes
      ensures Valid() && socket.Null? && !installed
      ensures nodes == [] && log == old(log) + Failed(old(IdsOf(nodes)), TimedOut)
    {
      var q := recvQueue;
      ghost var list := nodes;
      recvQueue, recvQueueTail, nodes := null, null, [];
      ResetSocket();
      assert log == old(log) + [];
      FailReceiveQueue(q, TimedOut, list);
    }
  }

  lemma FailedNone(error: Error)
    ensures Failed(IdsOf([]), error) == []
  {
  }

  lemma FailedFirst(nodes: seq<ReceiveCallback>, error: Error)
    requires nodes != []
    ensures Failed(IdsOf(nodes), error) == [Fulfilment(nodes[0].id, Failure(error))] + Failed(IdsOf(nodes[1..]), error)
  {
    assert IdsOf(nodes)[1..] == IdsOf(nodes[1..]);
  }

  /** Run without user code in between, the model's failing of a list does the same. */
  lemma {:induction false} FailLoopIsFailed(s: Future, ids: seq<nat>, error: Error) returns (t: Future)
    requires s.stack == [FailLoop(ids, error)]
    ensures t == s.(stack := [FailLoop([], error)], log := s.log + Failed(ids, error))
    ensures Enabled(t, FailNext) && Step(t, FailNext) == t.(stack := [])
    decreases |ids|
  {
    if ids == [] {
      t := s;
      assert Below(s) == [];
    } else {
      assert Below(s) == [];
      var s1 := Step(s, FailNext);
      assert s1.stack == [FailLoop(ids[1..], error), UserCode];
      var s2 := Step(s1, Return);
      assert s2.stack == [FailLoop(ids[1..], error)];
      t := FailLoopIsFailed(s2, ids[1..], error);
      assert s2.log + Failed(ids[1..], error) == s.log + Failed(ids, error);
    }
  }
}
