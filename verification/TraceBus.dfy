/** TraceBus (eden/common/telemetry/TraceBus-inl.h): publishers append to a bounded write buffer, a
    background thread swaps it out and passes it to a list of subscriptions that it walks without
    the lock.  The steps are the stretches of code between lock operations; condition variables
    may wake spuriously, and a notification is a step of its own after the lock was released. */
module TraceBus {

  type Event = int
  type Thread = nat

  /** A subscription, numbered by creation.  `unsubscribe`, `thrown` are the fields of the source.
      History: the events passed to it (`seen`), how many events had been swapped out (`start`) and
      published (`joined`) when it subscribed, and the batches swapped out since it unsubscribed. */
  datatype Subscription = Subscription(
    unsubscribe: nat, thrown: bool, seen: seq<Event>, start: int, joined: nat, swaps: nat)

  /** A thread inside publish(); threads not listed are outside. */
  datatype Publisher = WaitingForRoom(e: Event) | RetestingRoom(e: Event) | MustNotify

  /** The background thread; `todo` are the subscriptions its unlocked walk has still to visit. */
  datatype Background =
    | Top
    | Waiting
    | Retesting
    | NotifyFull(todo: seq<nat>)
    | Walking(todo: seq<nat>)
    | Exited

  /** `list` is the linked list from its head; a subscription that is in `nodes` but not in `list` was freed. */
  datatype Bus = Bus(
    capacity: nat,
    done: bool,
    nodes: seq<Subscription>,
    list: seq<nat>,
    writeBuffer: seq<Event>,
    sequenceNumber: nat,
    hasSubscription: bool,
    publishers: map<Thread, Publisher>,
    destroyerMustNotify: bool,
    background: Background,
    readBuffer: seq<Event>,
    lastObserved: nat,
    sawDone: bool,
    published: seq<Event>)

  function Initial(capacity: nat): Bus
    requires capacity > 0
  {
    Bus(capacity, false, [], [], [], 1, false, map[], false, Top, [], 0, false, [])
  }

  datatype Action =
    | Publish(t: Thread, e: Event)
    | WakePublisher(t: Thread)
    | RetestRoom(t: Thread)
    | NotifyEmpty(t: Thread)
    | Subscribe
    | Unsubscribe(id: nat)
    | Destroy
    | NotifyDestroy
    | Sweep
    | WakeBackground
    | RetestEmpty
    | NotifyAllFull
    | Observe(throwAfter: int)   // -1: the subscriber returns; p >= 0: it throws having taken p events
    | FinishWalk

  predicate CanObserve(s: Bus, throwAfter: int) {
    s.background.Walking? && s.background.todo != [] && s.background.todo[0] < |s.nodes| && -1 <= throwAfter <= |s.readBuffer|
  }

  predicate BackgroundReady(s: Bus) {
    s.done || s.writeBuffer != []
  }

  /** publish() and unsubscribe() must not run concurrently with destruction. */
  predicate Enabled(s: Bus, a: Action) {
    match a
    case Publish(t, _) => !s.done && t !in s.publishers
    case WakePublisher(t) => t in s.publishers && s.publishers[t].WaitingForRoom?
    case RetestRoom(t) => t in s.publishers && s.publishers[t].RetestingRoom?
    case NotifyEmpty(t) => t in s.publishers && s.publishers[t].MustNotify?
    case Subscribe => !s.done
    case Unsubscribe(id) => !s.done && id < |s.nodes| && s.nodes[id].unsubscribe == 0
    case Destroy => !s.done && s.publishers == map[]
    case NotifyDestroy => s.destroyerMustNotify
    case Sweep => s.background.Top?
    case WakeBackground => s.background.Waiting?
    case RetestEmpty => s.background.Retesting?
    case NotifyAllFull => s.background.NotifyFull?
    case Observe(p) => CanObserve(s, p)
    case FinishWalk => s.background == Walking([])
  }

  /** The part of publish() that runs once there is room. */
  function Append(s: Bus, t: Thread, e: Event): Bus {
    var publishers := if s.writeBuffer == [] then s.publishers[t := MustNotify] else s.publishers - {t};
    s.(writeBuffer := s.writeBuffer + [e], sequenceNumber := s.sequenceNumber + 1,
       published := s.published + [e], publishers := publishers)
  }

  function TryAppend(s: Bus, t: Thread, e: Event): Bus {
    if |s.writeBuffer| == s.capacity then s.(publishers := s.publishers[t := WaitingForRoom(e)]) else Append(s, t, e)
  }

  function Notified(b: Background): Background {
    if b.Waiting? then Retesting else b
  }

  /** The condition on which threadLoop() unlinks and frees a subscription. */
  predicate Finished(n: Subscription, lastObserved: nat) {
    n.unsubscribe != 0 && n.unsubscribe <= lastObserved
  }

  function Kept(list: seq<nat>, nodes: seq<Subscription>, lastObserved: nat): seq<nat> {
    if list == [] then []
    else if list[0] < |nodes| && Finished(nodes[list[0]], lastObserved) then Kept(list[1..], nodes, lastObserved)
    else [list[0]] + Kept(list[1..], nodes, lastObserved)
  }

  function CountSwap(n: Subscription): Subscription {
    if n.unsubscribe != 0 then n.(swaps := n.swaps + 1) else n
  }

  function CountSwaps(nodes: seq<Subscription>): (r: seq<Subscription>)
    ensures |r| == |nodes|
    ensures forall i :: 0 <= i < |nodes| ==> r[i] == CountSwap(nodes[i])
  {
    seq(|nodes|, i requires 0 <= i < |nodes| => CountSwap(nodes[i]))
  }

  /** emptyCV_.wait() tests its predicate: sleep, or swap the buffers and read the list head. */
  function TestEmpty(s: Bus): Bus {
    if !BackgroundReady(s) then s.(background := Waiting)
    else s.(readBuffer := s.writeBuffer, writeBuffer := [], sawDone := s.done,
            nodes := CountSwaps(s.nodes), background := NotifyFull(s.list))
  }

  function Swept(s: Bus): Bus {
    var list := Kept(s.list, s.nodes, s.lastObserved);
    s.(list := list, lastObserved := s.sequenceNumber, hasSubscription := s.hasSubscription && list != [])
  }

  /** observeBatch() on one subscription; a thrown exception is remembered. */
  function Observed(n: Subscription, batch: seq<Event>, throwAfter: int): Subscription
    requires -1 <= throwAfter <= |batch|
  {
    if n.thrown then n
    else if throwAfter < 0 then n.(seen := n.seen + batch)
    else n.(seen := n.seen + batch[..throwAfter], thrown := true)
  }

  /** The walk passes the batch to the next subscription. */
  function ObservedFirst(s: Bus, throwAfter: int): Bus
    requires CanObserve(s, throwAfter)
  {
    var id := s.background.todo[0];
    s.(nodes := s.nodes[id := Observed(s.nodes[id], s.readBuffer, throwAfter)], background := Walking(s.background.todo[1..]))
  }

  function NewSubscription(s: Bus): Subscription {
    Subscription(0, false, [], |s.published| - |s.writeBuffer|, |s.published|, 0)
  }

  /** subscribe(). */
  function Subscribed(s: Bus): Bus {
    s.(nodes := s.nodes + [NewSubscription(s)], list := [|s.nodes|] + s.list, hasSubscription := true)
  }

  /** unsubscribe(). */
  function Unsubscribed(s: Bus, id: nat): Bus
    requires id < |s.nodes|
  {
    s.(nodes := s.nodes[id := s.nodes[id].(unsubscribe := s.sequenceNumber)])
  }

  function WakeAll(publishers: map<Thread, Publisher>): map<Thread, Publisher> {
    map t | t in publishers ::
      if publishers[t].WaitingForRoom? then RetestingRoom(publishers[t].e) else publishers[t]
  }

  function Step(s: Bus, a: Action): Bus
    requires Enabled(s, a)
  {
    match a
    case Publish(t, e) => TryAppend(s, t, e)
    case WakePublisher(t) => s.(publishers := s.publishers[t := RetestingRoom(s.publishers[t].e)])
    case RetestRoom(t) => TryAppend(s, t, s.publishers[t].e)
    case NotifyEmpty(t) => s.(publishers := s.publishers - {t}, background := Notified(s.background))
    case Subscribe => Subscribed(s)
    case Unsubscribe(id) => Unsubscribed(s, id)
    case Destroy => s.(done := true, destroyerMustNotify := true)
    case NotifyDestroy => s.(destroyerMustNotify := false, background := Notified(s.background))
    case Sweep => TestEmpty(Swept(s))
    case WakeBackground => s.(background := Retesting)
    case RetestEmpty => TestEmpty(s)
    case NotifyAllFull =>
      s.(publishers := if |s.readBuffer| == s.capacity then WakeAll(s.publishers) else s.publishers,
         background := Walking(s.background.todo))
    case Observe(p) => ObservedFirst(s, p)
    case FinishWalk => s.(readBuffer := [], background := if s.sawDone then Exited else Top)
  }
}
