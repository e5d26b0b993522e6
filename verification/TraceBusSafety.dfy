/** What every interleaving of TraceBus keeps: delivery in order and exactly once, safe and prompt
    reclamation, and no lost wake-up. */
module TraceBusSafety {
  import opened Numbering
  import opened TraceBus

  /** How many events have been swapped out so far. */
  function Swapped(s: Bus): int {
    |s.published| - |s.writeBuffer|
  }

  /** The subscriptions that the unlocked walk has not reached yet. */
  function Todo(s: Bus): seq<nat> {
    if s.background.NotifyFull? || s.background.Walking? then s.background.todo else []
  }

  /** The number of events that a listed subscription has been offered. */
  function Covered(s: Bus, id: nat): int {
    if id in Todo(s) then Swapped(s) - |s.readBuffer| else Swapped(s)
  }

  predicate Buffers(s: Bus) {
    && 0 < s.capacity
    && |s.writeBuffer| <= s.capacity
    && |s.readBuffer| <= Swapped(s)
    && s.sequenceNumber == 1 + |s.published|
    && s.writeBuffer == s.published[Swapped(s)..]
    && s.readBuffer == s.published[Swapped(s) - |s.readBuffer|..Swapped(s)]
    && (s.background.NotifyFull? || s.background.Walking? || s.readBuffer == [])
  }

  /** The walk stays inside the list: every subscription it will visit is linked, that is, not freed. */
  predicate ListShape(s: Bus) {
    Shape(s.list, Todo(s), |s.nodes|) && (s.list != [] ==> s.hasSubscription)
  }

  /** `todo` is the end of a list of different nodes, all below n. */
  predicate Shape(list: seq<nat>, todo: seq<nat>, n: nat) {
    AllBelow(list, n) && Distinct(list) && |todo| <= |list| && list[|list| - |todo|..] == todo
  }

  /** What one subscription has seen: a contiguous run of the published events, up to what it was
      offered if it is still linked, and at least up to its unsubscription if it was freed. */
  predicate RunSeen(n: Subscription, published: seq<Event>, swapped: int, linked: bool, covered: int) {
    var end := n.start + |n.seen|;
    && 0 <= n.start <= n.joined <= |published|
    && end <= swapped <= |published|
    && n.seen == published[n.start..end]
    && n.unsubscribe <= 1 + |published|
    && (n.unsubscribe != 0 ==> n.joined < n.unsubscribe)
    && (linked && !n.thrown ==> end == covered)
    && (!linked ==> n.unsubscribe != 0 && (!n.thrown ==> n.unsubscribe - 1 <= end))
  }

  predicate SubscriptionOk(s: Bus, id: nat)
    requires id < |s.nodes|
  {
    RunSeen(s.nodes[id], s.published, Swapped(s), id in s.list, Covered(s, id))
  }

  predicate Subscriptions(s: Bus) {
    forall id :: 0 <= id < |s.nodes| ==> SubscriptionOk(s, id)
  }

  /** lastObservedSequenceNumber never runs ahead of what the finished walk has offered. */
  predicate Observation(s: Bus) {
    s.lastObserved <= 1 + Swapped(s)
  }

  predicate InWait(s: Bus) {
    s.background.Waiting? || s.background.Retesting?
  }

  /** How many batches can still be swapped out before an unsubscribed node is unlinked. */
  predicate SwapsLeft(n: Subscription, linked: bool, inWait: bool, lastObserved: nat) {
    && (n.unsubscribe == 0 ==> n.swaps == 0)
    && (linked ==>
          if inWait then n.swaps <= 1 && (n.swaps == 1 ==> n.unsubscribe <= lastObserved)
          else n.swaps <= 2 && (n.swaps == 2 ==> n.unsubscribe <= lastObserved))
  }

  predicate Reclaiming(s: Bus, id: nat)
    requires id < |s.nodes|
  {
    SwapsLeft(s.nodes[id], id in s.list, InWait(s), s.lastObserved)
  }

  predicate Reclamation(s: Bus) {
    forall id :: 0 <= id < |s.nodes| ==> Reclaiming(s, id)
  }

  /** Someone inside publish() or the destructor has still to notify the background thread. */
  predicate NotificationPending(s: Bus) {
    s.destroyerMustNotify || exists t :: t in s.publishers && s.publishers[t].MustNotify?
  }

  predicate NoLostWakeup(s: Bus) {
    BackgroundWakes(s) && PublishersWake(s)
  }

  predicate BackgroundWakes(s: Bus) {
    s.background.Waiting? && BackgroundReady(s) ==> NotificationPending(s)
  }

  predicate PublishersWake(s: Bus) {
    forall t :: t in s.publishers && s.publishers[t].WaitingForRoom? && |s.writeBuffer| < s.capacity ==>
      s.background.NotifyFull? && |s.readBuffer| == s.capacity
  }

  predicate Ending(s: Bus) {
    && (s.done ==> s.publishers == map[])
    && (s.sawDone ==> s.done && s.writeBuffer == [])
    && (s.background.Exited? ==> s.sawDone)
  }

  predicate Inv(s: Bus) {
    && Buffers(s)
    && ListShape(s)
    && Subscriptions(s)
    && Observation(s)
    && Reclamation(s)
    && NoLostWakeup(s)
    && Ending(s)
  }

  // ----- the sweep -----

  lemma {:induction false} KeptMembers(list: seq<nat>, nodes: seq<Subscription>, lastObserved: nat, id: nat)
    ensures id in Kept(list, nodes, lastObserved) <==> id in list && !(id < |nodes| && Finished(nodes[id], lastObserved))
  {
    if list != [] {
      KeptMembers(list[1..], nodes, lastObserved, id);
      assert list == [list[0]] + list[1..];
    }
  }

  lemma {:induction false} KeptIs(list: seq<nat>, nodes: seq<Subscription>, lastObserved: nat)
    requires Distinct(list)
    ensures Distinct(Kept(list, nodes, lastObserved))
    ensures forall id: nat :: id in Kept(list, nodes, lastObserved) <==> id in list && !(id < |nodes| && Finished(nodes[id], lastObserved))
  {
    forall id: nat
      ensures id in Kept(list, nodes, lastObserved) <==> id in list && !(id < |nodes| && Finished(nodes[id], lastObserved))
    {
      KeptMembers(list, nodes, lastObserved, id);
    }
    if list != [] {
      KeptIs(list[1..], nodes, lastObserved);
      assert list[0] !in list[1..];
    }
  }

  // ----- the steps by what they touch -----

  /** Steps that only wake, notify, go to sleep or start the end. */
  predicate Coordinates(s: Bus, a: Action) {
    || a.WakePublisher? || a.NotifyEmpty? || a.Destroy? || a.NotifyDestroy? || a.WakeBackground? || a.NotifyAllFull?
    || ((a.Publish? || a.RetestRoom?) && |s.writeBuffer| == s.capacity)
  }

  predicate SameContents(s: Bus, s': Bus) {
    && s'.nodes == s.nodes && s'.list == s.list && s'.hasSubscription == s.hasSubscription
    && s'.capacity == s.capacity && s'.writeBuffer == s.writeBuffer && s'.readBuffer == s.readBuffer
    && s'.published == s.published && s'.sequenceNumber == s.sequenceNumber && s'.lastObserved == s.lastObserved
    && Todo(s') == Todo(s) && (InWait(s') <==> InWait(s))
    && (s.background.NotifyFull? || s.background.Walking? <==> s'.background.NotifyFull? || s'.background.Walking?)
  }

  lemma CoordinationFrame(s: Bus, a: Action)
    requires Enabled(s, a) && Coordinates(s, a)
    ensures SameContents(s, Step(s, a))
  {
    hide WakeAll;
  }

  lemma StepIs(s: Bus, a: Action)
    requires Enabled(s, a) && !Coordinates(s, a)
    ensures var s' := Step(s, a);
      match a
      case Publish(t, e) => |s.writeBuffer| != s.capacity && s' == Append(s, t, e)
      case RetestRoom(t) => t in s.publishers && s.publishers[t].RetestingRoom? && |s.writeBuffer| != s.capacity && s' == Append(s, t, s.publishers[t].e)
      case Subscribe => s' == Subscribed(s)
      case Unsubscribe(id) => id < |s.nodes| && s.nodes[id].unsubscribe == 0 && s' == Unsubscribed(s, id)
      case Sweep => s.background.Top? && s' == TestEmpty(Swept(s))
      case RetestEmpty => s.background.Retesting? && s' == TestEmpty(s)
      case Observe(p) => CanObserve(s, p) && s' == ObservedFirst(s, p)
      case FinishWalk => s.background == Walking([]) && s' == s.(readBuffer := [], background := if s.sawDone then Exited else Top)
      case _ => false
  {
    hide Append, Subscribed, Unsubscribed, Swept, TestEmpty, ObservedFirst;
  }

  // ----- buffers -----

  lemma AppendBuffers(s: Bus, t: Thread, e: Event)
    requires Buffers(s) && |s.writeBuffer| < s.capacity
    ensures Buffers(Append(s, t, e))
  {
    var s' := Append(s, t, e);
    assert s'.published[Swapped(s)..] == s.published[Swapped(s)..] + [e];
  }

  lemma TestEmptyBuffers(s: Bus)
    requires Buffers(s) && s.readBuffer == []
    ensures Buffers(TestEmpty(s))
  {
    assert s.published[Swapped(s)..] == s.published[Swapped(s)..|s.published|];
    assert s.published[|s.published|..] == [];
  }

  /** The buffers stay; the walk may only end when there is nothing in hand. */
  lemma SameBuffers(s: Bus, s': Bus)
    requires Buffers(s)
    requires s'.capacity == s.capacity && s'.writeBuffer == s.writeBuffer && s'.readBuffer == s.readBuffer
    requires s'.published == s.published && s'.sequenceNumber == s.sequenceNumber
    requires s.background.NotifyFull? || s.background.Walking? ==> s'.background.NotifyFull? || s'.background.Walking?
    ensures Buffers(s')
  {
  }

  lemma FinishBuffers(s: Bus, background: Background)
    requires Buffers(s)
    ensures Buffers(s.(readBuffer := [], background := background))
  {
    assert s.published[Swapped(s)..Swapped(s)] == [];
  }

  lemma StepBuffers(s: Bus, a: Action)
    requires Buffers(s) && Enabled(s, a)
    ensures Buffers(Step(s, a))
  {
    hide Step, Enabled, Coordinates, Buffers, TestEmpty, Append, Swept, Subscribed, Unsubscribed, ObservedFirst;
    BuffersFacts(s);
    if Coordinates(s, a) {
      CoordinationFrame(s, a);
      SameBuffers(s, Step(s, a));
    } else {
      StepIs(s, a);
      match a
      case Publish(t, e) => AppendBuffers(s, t, e);
      case RetestRoom(t) => AppendBuffers(s, t, s.publishers[t].e);
      case Sweep =>
        SweptFacts(s);
        SameBuffers(s, Swept(s));
        TestEmptyBuffers(Swept(s));
      case RetestEmpty => TestEmptyBuffers(s);
      case FinishWalk => FinishBuffers(s, Step(s, a).background);
      case Subscribe =>
        SubscribedFrame(s, 0);
        SameBuffers(s, Subscribed(s));
      case Unsubscribe(id) =>
        SubscribedFrame(s, id);
        SameBuffers(s, Unsubscribed(s, id));
      case Observe(p) =>
        ObservedFrame(s, p);
        SameBuffers(s, ObservedFirst(s, p));
    }
  }

  lemma BuffersFacts(s: Bus)
    requires Buffers(s)
    ensures |s.writeBuffer| <= s.capacity
    ensures !s.background.NotifyFull? && !s.background.Walking? ==> s.readBuffer == []
  {
  }

  // ----- the list and the walk over it -----

  lemma TodoFacts(s: Bus)
    requires ListShape(s) && Todo(s) != []
    ensures var todo := Todo(s);
      && todo[0] in s.list
      && todo[0] !in todo[1..]
      && (forall id :: id != todo[0] ==> (id in todo <==> id in todo[1..]))
      && s.list[|s.list| - |todo[1..]|..] == todo[1..]
  {
    hide Distinct, AllBelow, Todo;
    SuffixFacts(s.list, Todo(s));
  }

  lemma SuffixFacts(list: seq<nat>, todo: seq<nat>)
    requires Distinct(list) && todo != [] && |todo| <= |list| && list[|list| - |todo|..] == todo
    ensures todo[0] in list && todo[0] !in todo[1..]
    ensures forall id :: id != todo[0] ==> (id in todo <==> id in todo[1..])
    ensures list[|list| - |todo[1..]|..] == todo[1..]
  {
    var k := |list| - |todo|;
    assert forall i :: 0 <= i < |todo| ==> todo[i] == list[k + i];
    assert todo == [todo[0]] + todo[1..];
    assert list[k + 1..] == list[k..][1..];
  }

  lemma SubscribeShape(s: Bus)
    requires ListShape(s)
    ensures ListShape(Subscribed(s))
  {
    hide Shape, NewSubscription;
    PrependShape(s.list, Todo(s), |s.nodes|);
    SubscribedFrame(s, 0);
    assert Todo(Subscribed(s)) == Todo(s);
  }

  lemma PrependShape(list: seq<nat>, todo: seq<nat>, n: nat)
    requires Shape(list, todo, n)
    ensures Shape([n] + list, todo, n + 1)
  {
    hide Distinct, AllBelow;
    Prepend(list, n);
    var longer := [n] + list;
    assert longer[|longer| - |todo|..] == list[|list| - |todo|..];
  }

  lemma Prepend(list: seq<nat>, x: nat)
    requires Distinct(list) && AllBelow(list, x)
    ensures Distinct([x] + list) && AllBelow([x] + list, x + 1)
  {
  }

  lemma SweptShape(s: Bus)
    requires ListShape(s) && s.background.Top?
    ensures ListShape(Swept(s))
  {
    KeptIs(s.list, s.nodes, s.lastObserved);
    KeptNodes(s);
    hide Distinct, AllBelow, Kept;
    var kept := Kept(s.list, s.nodes, s.lastObserved);
    assert kept != [] ==> kept[0] in kept;
  }

  lemma SameShape(s: Bus, s': Bus)
    requires ListShape(s)
    requires s'.list == s.list && |s'.nodes| == |s.nodes| && s'.hasSubscription == s.hasSubscription
    requires Todo(s') == Todo(s) || Todo(s') == [] || Todo(s') == s.list || (Todo(s) != [] && Todo(s') == Todo(s)[1..])
    ensures ListShape(s')
  {
    assert s.list[|s.list|..] == [];
    assert s.list[0..] == s.list;
    if Todo(s) != [] {
      TodoFacts(s);
    }
  }

  lemma TestEmptyShape(s: Bus)
    requires ListShape(s)
    ensures ListShape(TestEmpty(s))
  {
    hide ListShape;
    SameShape(s, TestEmpty(s));
  }

  lemma StepShape(s: Bus, a: Action)
    requires ListShape(s) && Enabled(s, a)
    ensures ListShape(Step(s, a))
  {
    hide Step, Enabled, Coordinates, ListShape, Append, TestEmpty, Swept, Subscribed, Unsubscribed, ObservedFirst;
    if Coordinates(s, a) {
      CoordinationFrame(s, a);
      SameShape(s, Step(s, a));
    } else {
      StepIs(s, a);
      match a
      case Publish(t, e) =>
        AppendFrame(s, t, e);
        SameShape(s, Append(s, t, e));
      case RetestRoom(t) =>
        AppendFrame(s, t, s.publishers[t].e);
        SameShape(s, Append(s, t, s.publishers[t].e));
      case Subscribe => SubscribeShape(s);
      case Sweep =>
        SweptShape(s);
        TestEmptyShape(Swept(s));
      case RetestEmpty => TestEmptyShape(s);
      case Unsubscribe(id) =>
        SubscribedFrame(s, id);
        SameShape(s, Unsubscribed(s, id));
      case Observe(p) =>
        ObservedFrame(s, p);
        SameShape(s, ObservedFirst(s, p));
      case FinishWalk => SameShape(s, Step(s, a));
    }
  }

  lemma KeptNodes(s: Bus)
    requires ListShape(s)
    ensures AllBelow(Kept(s.list, s.nodes, s.lastObserved), |s.nodes|)
  {
    var kept := Kept(s.list, s.nodes, s.lastObserved);
    forall i | 0 <= i < |kept|
      ensures kept[i] < |s.nodes|
    {
      KeptMembers(s.list, s.nodes, s.lastObserved, kept[i]);
    }
  }

  // ----- what the subscriptions have seen -----

  lemma RunSeenAppend(n: Subscription, published: seq<Event>, e: Event, swapped: int, linked: bool, covered: int)
    requires RunSeen(n, published, swapped, linked, covered)
    ensures RunSeen(n, published + [e], swapped, linked, covered)
  {
    var end := n.start + |n.seen|;
    assert (published + [e])[n.start..end] == published[n.start..end];
  }

  lemma AppendSubscriptions(s: Bus, t: Thread, e: Event)
    requires Subscriptions(s)
    ensures Subscriptions(Append(s, t, e))
  {
    var s' := Append(s, t, e);
    forall id | 0 <= id < |s.nodes|
      ensures SubscriptionOk(s', id)
    {
      assert SubscriptionOk(s, id);
      RunSeenAppend(s.nodes[id], s.published, e, Swapped(s), id in s.list, Covered(s, id));
    }
  }

  lemma RunSeenNew(s: Bus)
    requires Buffers(s)
    ensures RunSeen(NewSubscription(s), s.published, Swapped(s), true, Swapped(s))
  {
    assert s.published[Swapped(s)..Swapped(s)] == [];
  }

  lemma SubscribeSubscriptions(s: Bus)
    requires Buffers(s) && ListShape(s) && Subscriptions(s)
    ensures Subscriptions(Subscribed(s))
  {
    hide RunSeen, Buffers, ListShape, NewSubscription;
    RunSeenNew(s);
    NewIsUnlisted(s);
    var s' := Subscribed(s);
    forall id: nat | id < |s'.nodes| ensures SubscriptionOk(s', id) {
      ConsMember(s.list, |s.nodes|, id);
      if id < |s.nodes| {
        assert SubscriptionOk(s, id);
      }
    }
  }

  lemma ConsMember(list: seq<nat>, x: nat, id: nat)
    ensures id in [x] + list <==> id == x || id in list
  {
  }

  lemma NewIsUnlisted(s: Bus)
    requires ListShape(s)
    ensures |s.nodes| !in s.list && |s.nodes| !in Todo(s)
  {
    hide Distinct;
    var k := |s.list| - |Todo(s)|;
    assert forall i :: 0 <= i < |Todo(s)| ==> Todo(s)[i] == s.list[k + i];
  }

  lemma UnsubscribeSubscriptions(s: Bus, u: nat)
    requires Buffers(s) && Subscriptions(s) && u < |s.nodes| && s.nodes[u].unsubscribe == 0
    ensures Subscriptions(Unsubscribed(s, u))
  {
    hide RunSeen;
    var s' := Unsubscribed(s, u);
    forall id: nat | id < |s'.nodes| ensures SubscriptionOk(s', id) {
      assert SubscriptionOk(s, id);
      if id == u {
        RunSeenUnsubscribed(s.nodes[u], s.published, Swapped(s), u in s.list, Covered(s, u));
      }
    }
  }

  lemma RunSeenUnsubscribed(n: Subscription, published: seq<Event>, swapped: int, linked: bool, covered: int)
    requires RunSeen(n, published, swapped, linked, covered) && n.unsubscribe == 0
    ensures RunSeen(n.(unsubscribe := 1 + |published|), published, swapped, linked, covered)
  {
  }

  /** The sweep frees only subscriptions that have been offered everything published before they unsubscribed. */
  lemma SweptSubscriptions(s: Bus)
    requires ListShape(s) && Subscriptions(s) && Observation(s) && s.background.Top?
    ensures Subscriptions(Swept(s))
  {
    var s' := Swept(s);
    KeptIs(s.list, s.nodes, s.lastObserved);
    forall id | 0 <= id < |s.nodes|
      ensures SubscriptionOk(s', id)
    {
      assert SubscriptionOk(s, id);
    }
  }

  lemma RunSeenSwap(n: Subscription, published: seq<Event>, swapped: int, linked: bool)
    requires RunSeen(n, published, swapped, linked, swapped)
    ensures RunSeen(CountSwap(n), published, |published|, linked, swapped)
  {
  }

  lemma TestEmptySubscriptions(s: Bus)
    requires Buffers(s) && Subscriptions(s) && s.readBuffer == [] && Todo(s) == []
    ensures Subscriptions(TestEmpty(s))
  {
    var s' := TestEmpty(s);
    forall id | 0 <= id < |s.nodes|
      ensures SubscriptionOk(s', id)
    {
      assert SubscriptionOk(s, id);
      if BackgroundReady(s) {
        RunSeenSwap(s.nodes[id], s.published, Swapped(s), id in s.list);
        assert Covered(s', id) == if id in s.list then Swapped(s) else |s.published|;
      }
    }
  }

  lemma SliceConcat(p: seq<Event>, a: nat, b: nat, c: nat)
    requires a <= b <= c <= |p|
    ensures p[a..b] + p[b..c] == p[a..c]
  {
  }

  lemma SliceTake(p: seq<Event>, a: nat, b: nat, k: nat)
    requires a <= b <= |p| && k <= b - a
    ensures p[a..b][..k] == p[a..a + k]
  {
  }

  lemma RunSeenBatch(n: Subscription, published: seq<Event>, swapped: int, batch: seq<Event>, p: int)
    requires -1 <= p <= |batch| <= swapped <= |published|
    requires batch == published[swapped - |batch|..swapped]
    requires RunSeen(n, published, swapped, true, swapped - |batch|)
    ensures RunSeen(Observed(n, batch, p), published, swapped, true, swapped)
  {
    if !n.thrown {
      var end, taken := n.start + |n.seen|, if p < 0 then |batch| else p;
      SliceTake(published, end, swapped, taken);
      SliceConcat(published, n.start, end, end + taken);
      assert batch[..|batch|] == batch;
    }
  }

  lemma ObserveSubscriptions(s: Bus, p: int)
    requires CanObserve(s, p) && Buffers(s) && ListShape(s) && Subscriptions(s)
    ensures Subscriptions(ObservedFirst(s, p))
  {
    hide RunSeen, ListShape, Observed;
    TodoFacts(s);
    var s', visited := ObservedFirst(s, p), Todo(s)[0];
    forall id: nat | id < |s'.nodes| ensures SubscriptionOk(s', id) {
      assert SubscriptionOk(s, id);
      if id == visited {
        RunSeenBatch(s.nodes[id], s.published, Swapped(s), s.readBuffer, p);
      }
    }
  }

  /** Steps that change neither the subscriptions nor what they are offered. */
  lemma SameSubscriptions(s: Bus, s': Bus)
    requires Subscriptions(s)
    requires s'.nodes == s.nodes && s'.list == s.list && s'.published == s.published && Swapped(s') == Swapped(s)
    requires forall id :: 0 <= id < |s.nodes| ==> Covered(s', id) == Covered(s, id)
    ensures Subscriptions(s')
  {
    forall id | 0 <= id < |s.nodes|
      ensures SubscriptionOk(s', id)
    {
      assert SubscriptionOk(s, id);
    }
  }

  lemma StepSubscriptions(s: Bus, a: Action)
    requires Buffers(s) && ListShape(s) && Subscriptions(s) && Observation(s) && Enabled(s, a)
    ensures Subscriptions(Step(s, a))
  {
    hide Step, Enabled, Coordinates, Subscriptions, ListShape, Observation, Append, TestEmpty, Swept, Subscribed, Unsubscribed, ObservedFirst;
    if Coordinates(s, a) {
      CoordinationFrame(s, a);
      SameSubscriptions(s, Step(s, a));
    } else {
      StepIs(s, a);
      match a
      case Publish(t, e) => AppendSubscriptions(s, t, e);
      case RetestRoom(t) => AppendSubscriptions(s, t, s.publishers[t].e);
      case Subscribe => SubscribeSubscriptions(s);
      case Unsubscribe(u) => UnsubscribeSubscriptions(s, u);
      case Sweep =>
        SweptSubscriptions(s);
        SweptFacts(s);
        SameBuffers(s, Swept(s));
        TestEmptySubscriptions(Swept(s));
      case RetestEmpty => TestEmptySubscriptions(s);
      case Observe(p) => ObserveSubscriptions(s, p);
      case FinishWalk => SameSubscriptions(s, Step(s, a));
    }
  }

  lemma StepObservation(s: Bus, a: Action)
    requires Buffers(s) && Observation(s) && Enabled(s, a)
    ensures Observation(Step(s, a))
  {
    hide Step, Enabled, Coordinates, Kept, CountSwaps, Subscribed, Unsubscribed, ObservedFirst;
    if Coordinates(s, a) {
      CoordinationFrame(s, a);
    } else {
      StepIs(s, a);
      match a
      case Subscribe => SubscribedFrame(s, 0);
      case Unsubscribe(id) => SubscribedFrame(s, id);
      case Observe(p) => ObservedFrame(s, p);
      case _ =>
    }
  }

  // ----- reclamation -----

  lemma StepReclamation(s: Bus, a: Action)
    requires Buffers(s) && ListShape(s) && Subscriptions(s) && Observation(s) && Reclamation(s) && Enabled(s, a)
    ensures Reclamation(Step(s, a))
  {
    hide Step, Enabled, Coordinates, Buffers, Subscriptions, Observation, Reclamation, ListShape;
    hide Append, TestEmpty, Swept, Subscribed, Unsubscribed, ObservedFirst;
    if Coordinates(s, a) {
      CoordinationFrame(s, a);
      SameReclamation(s, Step(s, a));
    } else {
      StepIs(s, a);
      match a
      case Publish(t, e) =>
        AppendFrame(s, t, e);
        SameReclamation(s, Step(s, a));
      case RetestRoom(t) =>
        AppendFrame(s, t, s.publishers[t].e);
        SameReclamation(s, Step(s, a));
      case Sweep =>
        SweptReclamation(s);
        TestEmptyReclamation(Swept(s));
      case Subscribe => SubscribeReclamation(s);
      case Unsubscribe(u) => UnsubscribeReclamation(s, u);
      case RetestEmpty => TestEmptyReclamation(s);
      case Observe(p) => ObserveReclamation(s, p);
      case FinishWalk => SameReclamation(s, Step(s, a));
    }
  }

  lemma SubscribeReclamation(s: Bus)
    requires ListShape(s) && Reclamation(s)
    ensures Reclamation(Subscribed(s))
  {
    hide SwapsLeft, ListShape, NewSubscription;
    NewSwapsLeft(s);
    var s' := Subscribed(s);
    forall id: nat | id < |s'.nodes| ensures Reclaiming(s', id) {
      ConsMember(s.list, |s.nodes|, id);
      if id < |s.nodes| {
        assert Reclaiming(s, id);
      }
    }
  }

  lemma NewSwapsLeft(s: Bus)
    ensures SwapsLeft(NewSubscription(s), true, InWait(s), s.lastObserved)
  {
  }

  lemma UnsubscribeReclamation(s: Bus, u: nat)
    requires Reclamation(s) && u < |s.nodes| && s.nodes[u].unsubscribe == 0
    ensures Reclamation(Unsubscribed(s, u))
  {
    var s' := Unsubscribed(s, u);
    forall id: nat | id < |s'.nodes| ensures Reclaiming(s', id) {
      assert Reclaiming(s, id);
    }
  }

  lemma ObserveReclamation(s: Bus, p: int)
    requires CanObserve(s, p) && Reclamation(s)
    ensures Reclamation(ObservedFirst(s, p))
  {
    var s' := ObservedFirst(s, p);
    forall id: nat | id < |s'.nodes| ensures Reclaiming(s', id) {
      assert Reclaiming(s, id);
    }
  }

  lemma SameReclamation(s: Bus, s': Bus)
    requires Reclamation(s)
    requires s'.nodes == s.nodes && s'.list == s.list && s'.lastObserved == s.lastObserved
    requires InWait(s') ==> InWait(s)
    ensures Reclamation(s')
  {
    forall id: nat | id < |s'.nodes| ensures Reclaiming(s', id) {
      assert Reclaiming(s, id);
    }
  }

  /** What the sweep leaves and had been swapped past before is not two swaps old. */
  predicate AtMostOneSwap(s: Bus, id: nat)
    requires id < |s.nodes|
  {
    var n := s.nodes[id];
    && (n.unsubscribe == 0 ==> n.swaps == 0)
    && (id in s.list ==> n.swaps <= 1 && n.unsubscribe <= s.lastObserved)
  }

  lemma SweptReclamation(s: Bus)
    requires Buffers(s) && ListShape(s) && Subscriptions(s) && Observation(s) && Reclamation(s) && s.background.Top?
    ensures forall id :: 0 <= id < |Swept(s).nodes| ==> AtMostOneSwap(Swept(s), id)
  {
    hide Kept, RunSeen, ListShape;
    forall id: nat | id < |Swept(s).nodes| ensures AtMostOneSwap(Swept(s), id) {
      KeptMembers(s.list, s.nodes, s.lastObserved, id);
      assert SubscriptionOk(s, id) && Reclaiming(s, id);
      UnsubscribedBefore(s, id);
    }
  }

  lemma UnsubscribedBefore(s: Bus, id: nat)
    requires Buffers(s) && id < |s.nodes| && SubscriptionOk(s, id)
    ensures s.nodes[id].unsubscribe <= s.sequenceNumber
  {
  }

  lemma TestEmptyReclamation(s: Bus)
    requires (s.background.Retesting? && Reclamation(s)) || (forall id :: 0 <= id < |s.nodes| ==> AtMostOneSwap(s, id))
    ensures Reclamation(TestEmpty(s))
  {
    var s' := TestEmpty(s);
    forall id: nat | id < |s'.nodes| ensures Reclaiming(s', id) {
      if s.background.Retesting? && Reclamation(s) {
        assert Reclaiming(s, id);
      } else {
        assert AtMostOneSwap(s, id);
      }
    }
  }

  // ----- wake-ups -----

  lemma AppendWakeup(s: Bus, t: Thread, e: Event)
    requires NoLostWakeup(s)
    requires t in s.publishers ==> !s.publishers[t].MustNotify?
    ensures NoLostWakeup(Append(s, t, e))
  {
    var s' := Append(s, t, e);
    if s.writeBuffer == [] {
      assert s'.publishers[t].MustNotify?;
    } else if s.background.Waiting? && !s.destroyerMustNotify {
      var u :| u in s.publishers && s.publishers[u].MustNotify?;
      assert u in s'.publishers && s'.publishers[u].MustNotify?;
    }
  }

  lemma CoordinationNotifies(s: Bus, a: Action)
    requires Buffers(s) && BackgroundWakes(s) && Enabled(s, a) && Coordinates(s, a)
    ensures BackgroundWakes(Step(s, a))
  {
    hide Buffers, Step, Enabled, Coordinates;
    BuffersFacts(s);
    StaysAsleep(s, a);
    var s' := Step(s, a);
    if s'.background.Waiting? && BackgroundReady(s') && !s'.destroyerMustNotify {
      var u :| u in s.publishers && s.publishers[u].MustNotify?;
      StillNotifies(s, a, u);
    }
  }

  /** The background thread sleeps on only if nobody has notified it. */
  lemma StaysAsleep(s: Bus, a: Action)
    requires Enabled(s, a) && Coordinates(s, a)
    ensures var s' := Step(s, a);
      s'.background.Waiting? ==>
        && s.background.Waiting? && !a.NotifyEmpty? && s'.writeBuffer == s.writeBuffer
        && (s'.done ==> s.done || s'.destroyerMustNotify) && (s.destroyerMustNotify ==> s'.destroyerMustNotify)
  {
    hide WakeAll;
  }

  lemma StillNotifies(s: Bus, a: Action, u: Thread)
    requires Enabled(s, a) && Coordinates(s, a) && !a.NotifyEmpty?
    requires u in s.publishers && s.publishers[u].MustNotify?
    ensures u in Step(s, a).publishers && Step(s, a).publishers[u].MustNotify?
  {
  }

  lemma CoordinationMakesRoom(s: Bus, a: Action)
    requires PublishersWake(s) && Enabled(s, a) && Coordinates(s, a)
    ensures PublishersWake(Step(s, a))
  {
  }

  lemma TestEmptyWakeup(s: Bus)
    requires |s.writeBuffer| <= s.capacity && 0 < s.capacity && NoLostWakeup(s) && (s.background.Top? || s.background.Retesting?)
    ensures NoLostWakeup(TestEmpty(s))
  {
    hide CountSwaps;
  }

  lemma SameWakeup(s: Bus, s': Bus)
    requires NoLostWakeup(s) && SameRest(s, s')
    requires s'.background == s.background || (s.background.Walking? && s'.background.Walking?)
    ensures NoLostWakeup(s')
  {
  }

  lemma FinishWakeup(s: Bus)
    requires NoLostWakeup(s) && s.background.Walking?
    ensures NoLostWakeup(s.(readBuffer := [], background := if s.sawDone then Exited else Top))
  {
  }

  lemma SweptWakeup(s: Bus)
    requires NoLostWakeup(s)
    ensures NoLostWakeup(Swept(s))
  {
    hide Kept;
  }

  lemma StepWakeup(s: Bus, a: Action)
    requires Buffers(s) && NoLostWakeup(s) && Enabled(s, a)
    ensures NoLostWakeup(Step(s, a))
  {
    hide Step, Enabled, Coordinates, BackgroundWakes, PublishersWake, Append, TestEmpty, Swept, Subscribed, Unsubscribed, ObservedFirst;
    if Coordinates(s, a) {
      CoordinationNotifies(s, a);
      CoordinationMakesRoom(s, a);
    } else {
      StepIs(s, a);
      match a
      case Publish(t, e) =>
        PublishesOnce(s, a);
        AppendWakeup(s, t, e);
      case RetestRoom(t) => AppendWakeup(s, t, s.publishers[t].e);
      case Sweep =>
        SweptFacts(s);
        SweptWakeup(s);
        TestEmptyWakeup(Swept(s));
      case RetestEmpty => TestEmptyWakeup(s);
      case Subscribe =>
        SubscribedFrame(s, 0);
        SameWakeup(s, Subscribed(s));
      case Unsubscribe(id) =>
        SubscribedFrame(s, id);
        SameWakeup(s, Unsubscribed(s, id));
      case Observe(p) =>
        ObservedFrame(s, p);
        SameWakeup(s, ObservedFirst(s, p));
      case FinishWalk => FinishWakeup(s);
    }
  }

  lemma PublishesOnce(s: Bus, a: Action)
    requires Enabled(s, a) && a.Publish?
    ensures a.t !in s.publishers
  {
  }

  lemma StepEnding(s: Bus, a: Action)
    requires Ending(s) && Enabled(s, a)
    ensures Ending(Step(s, a))
  {
    hide Kept, CountSwaps, Observed, Subscribed, Unsubscribed, ObservedFirst;
    if a.Observe? {
      ObservedFrame(s, a.throwAfter);
    } else if a.Subscribe? || a.Unsubscribe? {
      SubscribedFrame(s, if a.Unsubscribe? then a.id else 0);
    }
  }

  /** These steps touch nothing but the subscriptions, the list and the walk. */
  predicate SameRest(s: Bus, s': Bus) {
    && s'.done == s.done && s'.publishers == s.publishers && s'.sawDone == s.sawDone && s'.writeBuffer == s.writeBuffer
    && s'.readBuffer == s.readBuffer && s'.capacity == s.capacity && s'.destroyerMustNotify == s.destroyerMustNotify
    && s'.published == s.published && s'.sequenceNumber == s.sequenceNumber && s'.lastObserved == s.lastObserved
  }

  lemma ObservedFrame(s: Bus, p: int)
    requires CanObserve(s, p)
    ensures var s' := ObservedFirst(s, p);
      && SameRest(s, s') && s.background.Walking? && s'.background == Walking(s.background.todo[1..])
      && s'.list == s.list && |s'.nodes| == |s.nodes| && s'.hasSubscription == s.hasSubscription
  {
  }

  lemma AppendFrame(s: Bus, t: Thread, e: Event)
    ensures var s' := Append(s, t, e);
      && s'.list == s.list && s'.nodes == s.nodes && s'.hasSubscription == s.hasSubscription
      && s'.background == s.background && s'.lastObserved == s.lastObserved
  {
  }

  lemma SweptFacts(s: Bus)
    ensures var s' := Swept(s);
      && s'.background == s.background && s'.nodes == s.nodes && s'.capacity == s.capacity
      && s'.writeBuffer == s.writeBuffer && s'.readBuffer == s.readBuffer
      && s'.published == s.published && s'.sequenceNumber == s.sequenceNumber
  {
  }

  lemma SubscribedFrame(s: Bus, id: nat)
    ensures SameRest(s, Subscribed(s)) && Subscribed(s).background == s.background
    ensures id < |s.nodes| ==>
      var s' := Unsubscribed(s, id);
      && SameRest(s, s') && s'.background == s.background
      && s'.list == s.list && |s'.nodes| == |s.nodes| && s'.hasSubscription == s.hasSubscription
  {
  }

  lemma StepKeeps(s: Bus, a: Action)
    requires Inv(s) && Enabled(s, a)
    ensures Inv(Step(s, a))
  {
    hide Step, Enabled, Buffers, ListShape, Subscriptions, Observation, Reclamation, NoLostWakeup, Ending;
    StepBuffers(s, a);
    StepShape(s, a);
    StepSubscriptions(s, a);
    StepObservation(s, a);
    StepReclamation(s, a);
    StepWakeup(s, a);
    StepEnding(s, a);
  }
}
