/** TraceBus over whole runs: any interleaving of publishers, subscribers, the background thread and
    the destructor. */
module TraceBusTheorems {
  import opened TraceBus
  import opened TraceBusSafety

  predicate IsRun(states: seq<Bus>, actions: seq<Action>) {
    && |states| == |actions| + 1
    && states[0].capacity > 0
    && states[0] == Initial(states[0].capacity)
    && forall i :: 0 <= i < |actions| ==> Enabled(states[i], actions[i]) && states[i + 1] == Step(states[i], actions[i])
  }

  lemma {:induction false} RunKeeps(states: seq<Bus>, actions: seq<Action>, i: nat)
    requires IsRun(states, actions) && i < |states|
    ensures Inv(states[i])
  {
    hide Inv, Step, Enabled;
    if i == 0 {
      InitialKeeps(states[0].capacity);
    } else {
      RunKeeps(states, actions, i - 1);
      StepKeeps(states[i - 1], actions[i - 1]);
    }
  }

  lemma InitialKeeps(capacity: nat)
    requires capacity > 0
    ensures Inv(Initial(capacity))
  {
  }

  /** What subscription `id` has seen is one contiguous stretch of the published events, in publish
      order and once each, starting no later than its subscribe().  A freed one has seen everything
      published before its unsubscribe(); a linked one lags by at most the two buffers; and when the
      background thread has exited, every one still linked has seen everything. */
  lemma DeliveredInOrder(states: seq<Bus>, actions: seq<Action>, i: nat, id: nat)
    requires IsRun(states, actions) && i < |states| && id < |states[i].nodes|
    ensures var s := states[i];
      var n := s.nodes[id];
      var end := n.start + |n.seen|;
      && 0 <= n.start <= n.joined && end <= |s.published|
      && n.seen == s.published[n.start..end]
      && (!n.thrown && id !in s.list ==> n.unsubscribe != 0 && n.joined <= n.unsubscribe - 1 <= end)
      && (!n.thrown && id in s.list ==> |s.published| - |s.writeBuffer| - |s.readBuffer| <= end)
      && (!n.thrown && id in s.list && s.background.Exited? ==> end == |s.published|)
  {
    hide Inv, Initial, Step, Enabled;
    RunKeeps(states, actions, i);
    InvSeen(states[i], id);
  }

  lemma InvSeen(s: Bus, id: nat)
    requires Inv(s) && id < |s.nodes|
    ensures RunSeen(s.nodes[id], s.published, Swapped(s), id in s.list, Covered(s, id))
    ensures Swapped(s) - |s.readBuffer| <= Covered(s, id)
    ensures s.background.Exited? ==> Covered(s, id) == |s.published|
  {
    hide ListShape, Reclamation, NoLostWakeup, Observation, RunSeen;
    assert SubscriptionOk(s, id);
  }

  /** A subscription keeps its identity and only ever sees more; one that threw sees nothing more. */
  predicate Follows(n: Subscription, n': Subscription) {
    && n'.start == n.start && n'.joined == n.joined
    && n.seen <= n'.seen
    && (n.thrown ==> n'.thrown && n'.seen == n.seen)
    && (n.unsubscribe != 0 ==> n'.unsubscribe == n.unsubscribe)
  }

  lemma ObservedFollows(n: Subscription, batch: seq<Event>, p: int)
    requires -1 <= p <= |batch|
    ensures Follows(n, Observed(n, batch, p))
  {
  }

  lemma StepFollows(s: Bus, a: Action, id: nat)
    requires Enabled(s, a) && id < |s.nodes|
    ensures id < |Step(s, a).nodes| && Follows(s.nodes[id], Step(s, a).nodes[id])
  {
    hide WakeAll, TestEmpty, Swept, Subscribed, Unsubscribed, ObservedFirst, Follows;
    SubscribedFollows(s, id);
    match a
    case Sweep => TestEmptyFollows(s, id);
    case RetestEmpty => TestEmptyFollows(s, id);
    case Unsubscribe(u) => UnsubscribedFollows(s, u, id);
    case Observe(p) => ObservedFirstFollows(s, p, id);
    case _ => SelfFollows(s.nodes[id]);
  }

  lemma TestEmptyFollows(s: Bus, id: nat)
    requires id < |s.nodes|
    ensures id < |TestEmpty(s).nodes| && Follows(s.nodes[id], TestEmpty(s).nodes[id])
    ensures id < |TestEmpty(Swept(s)).nodes| && Follows(s.nodes[id], TestEmpty(Swept(s)).nodes[id])
  {
    hide Follows, Kept;
    SelfFollows(s.nodes[id]);
  }

  lemma SelfFollows(n: Subscription)
    ensures Follows(n, n) && Follows(n, CountSwap(n))
  {
  }

  lemma SubscribedFollows(s: Bus, id: nat)
    requires id < |s.nodes|
    ensures id < |Subscribed(s).nodes| && Follows(s.nodes[id], Subscribed(s).nodes[id])
  {
  }

  lemma UnsubscribedFollows(s: Bus, u: nat, id: nat)
    requires id < |s.nodes| && u < |s.nodes| && s.nodes[u].unsubscribe == 0
    ensures id < |Unsubscribed(s, u).nodes| && Follows(s.nodes[id], Unsubscribed(s, u).nodes[id])
  {
  }

  lemma ObservedFirstFollows(s: Bus, p: int, id: nat)
    requires CanObserve(s, p) && id < |s.nodes|
    ensures id < |ObservedFirst(s, p).nodes| && Follows(s.nodes[id], ObservedFirst(s, p).nodes[id])
  {
    hide Observed;
    ObservedFollows(s.nodes[id], s.readBuffer, p);
  }

  lemma {:induction false} SilentAfterThrow(states: seq<Bus>, actions: seq<Action>, i: nat, j: nat, id: nat)
    requires IsRun(states, actions) && i <= j < |states| && id < |states[i].nodes|
    ensures id < |states[j].nodes| && Follows(states[i].nodes[id], states[j].nodes[id])
  {
    hide Step, Enabled, Follows;
    if i < j {
      SilentAfterThrow(states, actions, i, j - 1, id);
      StepFollows(states[j - 1], actions[j - 1], id);
      FollowsOn(states[i].nodes[id], states[j - 1].nodes[id], states[j].nodes[id]);
    } else {
      SelfFollows(states[i].nodes[id]);
    }
  }

  lemma FollowsOn(a: Subscription, b: Subscription, c: Subscription)
    requires Follows(a, b) && Follows(b, c)
    ensures Follows(a, c)
  {
  }

  /** No wake-up is lost: a publisher that waits although there is room, or a background thread that
      waits although there is work, always has a notification still on its way to it. */
  lemma WakeupsPending(states: seq<Bus>, actions: seq<Action>, i: nat, t: Thread)
    requires IsRun(states, actions) && i < |states|
    ensures var s := states[i];
      && (s.background.Waiting? && BackgroundReady(s) ==>
            Enabled(s, NotifyDestroy) || exists u :: Enabled(s, NotifyEmpty(u)))
      && (t in s.publishers && s.publishers[t].WaitingForRoom? && |s.writeBuffer| < s.capacity ==>
            Enabled(s, NotifyAllFull) && !Step(s, NotifyAllFull).publishers[t].WaitingForRoom?)
  {
    hide Inv, Initial, Step, Enabled;
    RunKeeps(states, actions, i);
    InvWakes(states[i], t);
  }

  lemma InvWakes(s: Bus, t: Thread)
    requires Inv(s)
    ensures s.background.Waiting? && BackgroundReady(s) ==>
      Enabled(s, NotifyDestroy) || exists u :: Enabled(s, NotifyEmpty(u))
    ensures t in s.publishers && s.publishers[t].WaitingForRoom? && |s.writeBuffer| < s.capacity ==>
      Enabled(s, NotifyAllFull) && !Step(s, NotifyAllFull).publishers[t].WaitingForRoom?
  {
    hide Buffers, ListShape, Subscriptions, Observation, Reclamation, Ending;
    if s.background.Waiting? && BackgroundReady(s) && !s.destroyerMustNotify {
      var u :| u in s.publishers && s.publishers[u].MustNotify?;
      assert Enabled(s, NotifyEmpty(u));
    }
  }

  /** So publisher and background thread never sleep on each other: if both wait, a notification that
      ends one of the waits can be delivered. */
  lemma NoDeadlock(states: seq<Bus>, actions: seq<Action>, i: nat, t: Thread)
    requires IsRun(states, actions) && i < |states|
    requires t in states[i].publishers && states[i].publishers[t].WaitingForRoom?
    ensures states[i].background.Waiting? ==> exists u :: Enabled(states[i], NotifyEmpty(u))
  {
    hide Inv, Initial, Step, Enabled;
    RunKeeps(states, actions, i);
    WakeupsPending(states, actions, i, t);
    DestroyerHasDone(states, actions, i);
    WaitingMeansWork(states[i], t);
  }

  lemma WaitingMeansWork(s: Bus, t: Thread)
    requires Inv(s) && t in s.publishers && s.publishers[t].WaitingForRoom?
    ensures s.background.Waiting? ==> BackgroundReady(s) && (s.destroyerMustNotify ==> !s.done)
    ensures Enabled(s, NotifyDestroy) ==> s.destroyerMustNotify
  {
    hide ListShape, Subscriptions, Observation, Reclamation;
  }

  lemma {:induction false} DestroyerHasDone(states: seq<Bus>, actions: seq<Action>, i: nat)
    requires IsRun(states, actions) && i < |states|
    ensures states[i].destroyerMustNotify ==> states[i].done
  {
    hide Step, Enabled;
    if i > 0 {
      DestroyerHasDone(states, actions, i - 1);
      DestroyerStep(states[i - 1], actions[i - 1]);
    }
  }

  lemma DestroyerStep(s: Bus, a: Action)
    requires Enabled(s, a) && (s.destroyerMustNotify ==> s.done)
    ensures Step(s, a).destroyerMustNotify ==> Step(s, a).done
  {
    hide Kept, CountSwaps, Subscribed, Unsubscribed, ObservedFirst, WakeAll;
    if a.Observe? {
      ObservedFrame(s, a.throwAfter);
    } else if a.Subscribe? || a.Unsubscribe? {
      SubscribedFrame(s, if a.Unsubscribe? then a.id else 0);
    }
  }

  /** The unlocked walk only touches linked subscriptions, freed ones never come back, and every
      unlinked one had asked for it. */
  lemma WalkIsSafe(states: seq<Bus>, actions: seq<Action>, i: nat)
    requires IsRun(states, actions) && i < |actions|
    ensures var s := states[i];
      && (actions[i].Observe? ==> s.background.todo[0] in s.list)
      && (forall id :: 0 <= id < |s.nodes| && id !in s.list ==> id !in states[i + 1].list)
      && (forall id :: 0 <= id < |s.nodes| && id in s.list && id !in states[i + 1].list ==>
            actions[i].Sweep? && Finished(s.nodes[id], s.lastObserved))
  {
    hide Subscriptions, Reclamation, NoLostWakeup, Step, ListShape;
    RunKeeps(states, actions, i);
    var s := states[i];
    if actions[i].Observe? {
      TodoFacts(s);
    }
    forall id | 0 <= id < |s.nodes|
      ensures id !in s.list ==> id !in states[i + 1].list
      ensures id in s.list && id !in states[i + 1].list ==> actions[i].Sweep? && Finished(s.nodes[id], s.lastObserved)
    {
      ListFrame(s, actions[i], id);
    }
  }

  /** hasSubscription_ is set while anything is linked, and says exactly that after each sweep. */
  lemma FlagFollowsList(states: seq<Bus>, actions: seq<Action>, i: nat)
    requires IsRun(states, actions) && i < |actions|
    ensures states[i].list != [] ==> states[i].hasSubscription
    ensures actions[i].Sweep? ==> (states[i + 1].hasSubscription <==> states[i + 1].list != [])
  {
    hide Step, Enabled, Buffers, Subscriptions, Observation, Reclamation, NoLostWakeup, Ending;
    RunKeeps(states, actions, i);
    RunKeeps(states, actions, i + 1);
    if actions[i].Sweep? {
      SweepFlag(states[i]);
    }
  }

  lemma SweepFlag(s: Bus)
    requires Enabled(s, Sweep)
    ensures Step(s, Sweep).hasSubscription ==> Step(s, Sweep).list != []
  {
    hide Kept, CountSwaps;
  }

  lemma ListFrame(s: Bus, a: Action, id: nat)
    requires Enabled(s, a) && id < |s.nodes|
    ensures id in Step(s, a).list <==> id in s.list && !(a.Sweep? && Finished(s.nodes[id], s.lastObserved))
  {
    hide Step, Enabled, Coordinates, Append, Finished, ObservedFirst, Subscribed, Unsubscribed;
    if Coordinates(s, a) {
      CoordinationFrame(s, a);
      CoordinatesNot(s, a);
    } else {
      StepIs(s, a);
      match a
      case Publish(t, e) => AppendFrame(s, t, e);
      case RetestRoom(t) => AppendFrame(s, t, s.publishers[t].e);
      case Sweep => KeptMembers(s.list, s.nodes, s.lastObserved, id);
      case Subscribe => SubscribedList(s, id);
      case Unsubscribe(u) => SubscribedFrame(s, u);
      case Observe(p) => ObservedFrame(s, p);
      case _ =>
    }
  }

  lemma CoordinatesNot(s: Bus, a: Action)
    requires Coordinates(s, a)
    ensures !a.Sweep?
  {
  }

  lemma SubscribedList(s: Bus, id: nat)
    requires id < |s.nodes|
    ensures id in Subscribed(s).list <==> id in s.list
  {
    hide NewSubscription;
    ConsMember(s.list, |s.nodes|, id);
  }

  /** Unlinking leaves the others in their order. */
  lemma {:induction false} KeptInOrder(list: seq<nat>, nodes: seq<Subscription>, lastObserved: nat, j: nat, k: nat)
    returns (j': nat, k': nat)
    requires j < k < |Kept(list, nodes, lastObserved)|
    ensures j' < k' < |list|
    ensures list[j'] == Kept(list, nodes, lastObserved)[j] && list[k'] == Kept(list, nodes, lastObserved)[k]
  {
    if list[0] < |nodes| && Finished(nodes[list[0]], lastObserved) {
      j', k' := KeptInOrder(list[1..], nodes, lastObserved, j, k);
      j', k' := j' + 1, k' + 1;
    } else if j > 0 {
      j', k' := KeptInOrder(list[1..], nodes, lastObserved, j - 1, k - 1);
      j', k' := j' + 1, k' + 1;
    } else {
      var k1 := KeptFrom(list[1..], nodes, lastObserved, k - 1);
      j', k' := 0, k1 + 1;
    }
  }

  lemma {:induction false} KeptFrom(list: seq<nat>, nodes: seq<Subscription>, lastObserved: nat, k: nat) returns (k': nat)
    requires k < |Kept(list, nodes, lastObserved)|
    ensures k' < |list| && list[k'] == Kept(list, nodes, lastObserved)[k]
  {
    if list[0] < |nodes| && Finished(nodes[list[0]], lastObserved) {
      k' := KeptFrom(list[1..], nodes, lastObserved, k);
      k' := k' + 1;
    } else if k > 0 {
      k' := KeptFrom(list[1..], nodes, lastObserved, k - 1);
      k' := k' + 1;
    } else {
      k' := 0;
    }
  }

  /** Reclamation is prompt: `swaps` counts the batches swapped out since unsubscribe(), and a
      subscription is never linked through a third one. */
  lemma AtMostTwoBatches(states: seq<Bus>, actions: seq<Action>, i: nat, id: nat)
    requires IsRun(states, actions) && i < |states| && id < |states[i].nodes|
    ensures id in states[i].list ==> states[i].nodes[id].swaps <= 2
  {
    hide Inv, Initial, Step, Enabled;
    RunKeeps(states, actions, i);
    InvReclaims(states[i], id);
  }

  lemma InvReclaims(s: Bus, id: nat)
    requires Inv(s) && id < |s.nodes|
    ensures id in s.list ==> s.nodes[id].swaps <= 2
  {
    hide Buffers, ListShape, Subscriptions, Observation, NoLostWakeup, Ending;
    assert Reclaiming(s, id);
  }

  // ----- events after unsubscribe() -----

  predicate SeesLaterEvents(n: Subscription) {
    n.unsubscribe != 0 && n.unsubscribe - 1 < n.start + |n.seen|
  }

  /** TraceBus.h:251-256 says that no event published after unsubscribe() is seen.  This run shows one that is. */
  lemma LaterEventIsSeen() returns (states: seq<Bus>, actions: seq<Action>)
    ensures IsRun(states, actions)
    ensures var n := states[|states| - 1].nodes; n != [] && SeesLaterEvents(n[0])
  {
    hide Step, Enabled, IsRun;
    actions := [Subscribe, Unsubscribe(0), Publish(0, 5), Sweep, NotifyAllFull, Observe(-1)];
    var n := Subscription(0, false, [], 0, 0, 0);
    var s0 := Initial(2);
    var s1 := s0.(nodes := [n], list := [0], hasSubscription := true);
    var s2 := s1.(nodes := [n.(unsubscribe := 1)]);
    var s3 := s2.(writeBuffer := [5], sequenceNumber := 2, published := [5], publishers := map[0 := MustNotify]);
    var s4 := s3.(lastObserved := 2, readBuffer := [5], writeBuffer := [], nodes := [n.(unsubscribe := 1, swaps := 1)],
                  background := NotifyFull([0]));
    var s5 := s4.(background := Walking([0]));
    var s6 := s5.(background := Walking([]), nodes := [n.(unsubscribe := 1, swaps := 1, seen := [5])]);
    SubscribeIs(s0);
    UnsubscribeIs(s1, 0);
    PublishIs(s2, 0, 5);
    SweepOnce(s3, s4);
    NotifyIs(s4);
    ObserveIs(s5);
    assert [] + [5] == [5];
    states := [s0, s1, s2, s3, s4, s5, s6];
    SixSteps(states, actions);
  }

  lemma SubscribeIs(s: Bus)
    requires !s.done && s.nodes == [] && s.list == [] && s.published == [] && s.writeBuffer == []
    ensures Enabled(s, Subscribe)
    ensures Step(s, Subscribe) == s.(nodes := [Subscription(0, false, [], 0, 0, 0)], list := [0], hasSubscription := true)
  {
  }

  lemma UnsubscribeIs(s: Bus, id: nat)
    requires !s.done && id < |s.nodes| && s.nodes[id].unsubscribe == 0
    ensures Enabled(s, Unsubscribe(id))
    ensures Step(s, Unsubscribe(id)) == s.(nodes := s.nodes[id := s.nodes[id].(unsubscribe := s.sequenceNumber)])
  {
  }

  lemma PublishIs(s: Bus, t: Thread, e: Event)
    requires !s.done && t !in s.publishers && s.writeBuffer == [] && s.capacity > 0
    ensures Enabled(s, Publish(t, e))
    ensures Step(s, Publish(t, e)) == s.(writeBuffer := [e], sequenceNumber := s.sequenceNumber + 1,
                                         published := s.published + [e], publishers := s.publishers[t := MustNotify])
  {
  }

  lemma NotifyIs(s: Bus)
    requires s.background.NotifyFull? && |s.readBuffer| != s.capacity
    ensures Enabled(s, NotifyAllFull) && Step(s, NotifyAllFull) == s.(background := Walking(s.background.todo))
  {
  }

  lemma ObserveIs(s: Bus)
    requires s.background == Walking([0]) && |s.nodes| == 1 && !s.nodes[0].thrown
    ensures Enabled(s, Observe(-1))
    ensures Step(s, Observe(-1)) == s.(background := Walking([]), nodes := [s.nodes[0].(seen := s.nodes[0].seen + s.readBuffer)])
  {
    var n := Observed(s.nodes[0], s.readBuffer, -1);
    assert s.nodes[0 := n] == [n] && [0][1..] == [];
  }

  lemma SixSteps(states: seq<Bus>, actions: seq<Action>)
    requires |actions| == 6 && |states| == 7 && states[0].capacity > 0 && states[0] == Initial(states[0].capacity)
    requires Enabled(states[0], actions[0]) && states[1] == Step(states[0], actions[0])
    requires Enabled(states[1], actions[1]) && states[2] == Step(states[1], actions[1])
    requires Enabled(states[2], actions[2]) && states[3] == Step(states[2], actions[2])
    requires Enabled(states[3], actions[3]) && states[4] == Step(states[3], actions[3])
    requires Enabled(states[4], actions[4]) && states[5] == Step(states[4], actions[4])
    requires Enabled(states[5], actions[5]) && states[6] == Step(states[5], actions[5])
    ensures IsRun(states, actions)
  {
    hide Step, Enabled, Initial;
  }

  lemma SweepOnce(s: Bus, s': Bus)
    requires s.background.Top? && s.list == [0] && |s.nodes| == 1 && s.lastObserved == 0 && s.hasSubscription
    requires s.writeBuffer != [] && s.nodes[0].unsubscribe != 0
    requires s' == s.(lastObserved := s.sequenceNumber, readBuffer := s.writeBuffer, writeBuffer := [], sawDone := s.done,
                      nodes := [s.nodes[0].(swaps := s.nodes[0].swaps + 1)], background := NotifyFull([0]))
    ensures Enabled(s, Sweep) && s' == Step(s, Sweep)
  {
    assert [0][1..] == [];
    assert Kept([0], s.nodes, 0) == [0] + Kept([], s.nodes, 0) == [0];
    assert CountSwaps(s.nodes) == [CountSwap(s.nodes[0])];
  }
}
