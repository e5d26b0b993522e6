/** The destructor of TraceBus ends the background thread, after everything published was delivered;
    and what publish() was called with is published, once and in each caller's order. */
module TraceBusShutdown {
  import opened TraceBus
  import opened TraceBusSafety
  import opened TraceBusTheorems

  // ----- after the destructor has started -----

  /** How many steps the bus can still take: the walk in hand, and one more batch unless this is the last. */
  function StepsLeft(s: Bus): nat {
    var batch := |s.list|;
    var later := if s.sawDone then 0 else 3 + batch;
    var steps :=
      match s.background
      case Top => 3 + batch
      case Waiting => 4 + batch
      case Retesting => 3 + batch
      case NotifyFull(todo) => 2 + |todo| + later
      case Walking(todo) => 1 + |todo| + later
      case Exited => 0;
    steps + if s.destroyerMustNotify then 1 else 0
  }

  lemma {:induction false} KeptIsShorter(list: seq<nat>, nodes: seq<Subscription>, lastObserved: nat)
    ensures |Kept(list, nodes, lastObserved)| <= |list|
  {
    if list != [] {
      KeptIsShorter(list[1..], nodes, lastObserved);
    }
  }

  /** Whatever happens once the destructor has started brings the end nearer, spurious wake-ups included. */
  lemma ClosingStep(s: Bus, a: Action)
    requires s.done && s.publishers == map[] && Enabled(s, a)
    ensures var s' := Step(s, a);
      && s'.done && s'.publishers == map[] && s'.published == s.published
      && StepsLeft(s') < StepsLeft(s)
  {
    hide Kept, CountSwaps, WakeAll, Observed;
    KeptIsShorter(s.list, s.nodes, s.lastObserved);
    WakeNobody();
  }

  lemma WakeNobody()
    ensures WakeAll(map[]) == map[]
  {
  }

  /** And until the thread has exited something can happen. */
  lemma ClosingGoesOn(s: Bus)
    requires Inv(s) && s.done && !s.background.Exited?
    ensures exists a :: Enabled(s, a)
  {
    hide Buffers, Subscriptions, Observation, Reclamation;
    match s.background
    case Top => assert Enabled(s, Sweep);
    case Waiting => assert Enabled(s, NotifyDestroy);
    case Retesting => assert Enabled(s, RetestEmpty);
    case NotifyFull(_) => assert Enabled(s, NotifyAllFull);
    case Walking(todo) =>
      if todo == [] {
        assert Enabled(s, FinishWalk);
      } else {
        TodoFacts(s);
        assert Enabled(s, Observe(-1));
      }
    case Exited =>
  }

  lemma {:induction false} ClosingRun(states: seq<Bus>, actions: seq<Action>, i: nat, j: nat)
    requires IsRun(states, actions) && i < j < |states| && actions[i].Destroy?
    ensures states[j].done && states[j].publishers == map[] && states[j].published == states[i].published
    ensures StepsLeft(states[j]) + (j - i - 1) <= StepsLeft(states[i + 1])
  {
    hide Step, Enabled, StepsLeft;
    if j == i + 1 {
      DestroyIs(states[i]);
    } else {
      ClosingRun(states, actions, i, j - 1);
      ClosingStep(states[j - 1], actions[j - 1]);
    }
  }

  lemma DestroyIs(s: Bus)
    requires Enabled(s, Destroy)
    ensures var s' := Step(s, Destroy); s'.done && s'.publishers == map[] && s'.published == s.published
  {
  }

  /** Every event from some point on, which is no later than the subscribe() call. */
  predicate HasSeenAll(n: Subscription, published: seq<Event>) {
    0 <= n.start <= n.joined && n.start <= |published| && n.seen == published[n.start..]
  }

  /** thread_.join() returns.  Once the destructor has started, a run has at most StepsLeft more steps,
      spurious wake-ups included, and can only stop when the thread has exited.  Then all that was
      published is in every linked subscription that has not thrown. */
  lemma DestructorFinishes(states: seq<Bus>, actions: seq<Action>, i: nat)
    requires IsRun(states, actions) && i < |actions| && actions[i].Destroy?
    ensures var s := states[|actions|];
      && s.done && s.published == states[i].published
      && |actions| <= i + 1 + StepsLeft(states[i + 1])
      && ((forall a :: !Enabled(s, a)) <==> s.background.Exited? && !s.destroyerMustNotify)
      && (s.background.Exited? ==> forall id :: 0 <= id < |s.nodes| && id in s.list && !s.nodes[id].thrown ==>
            HasSeenAll(s.nodes[id], states[i].published))
  {
    hide Step, Enabled, StepsLeft, Inv;
    var n := |actions|;
    ClosingRun(states, actions, i, n);
    RunKeeps(states, actions, n);
    var s := states[n];
    if !s.background.Exited? {
      ClosingGoesOn(s);
    } else {
      ExitedIsOver(s);
      assert Enabled(s, NotifyDestroy) <==> s.destroyerMustNotify;
      forall id: nat | id < |s.nodes| && id in s.list && !s.nodes[id].thrown
        ensures HasSeenAll(s.nodes[id], states[i].published)
      {
        DeliveredInOrder(states, actions, n, id);
        assert s.published[s.nodes[id].start..|s.published|] == s.published[s.nodes[id].start..];
      }
    }
  }

  lemma ExitedIsOver(s: Bus)
    requires s.done && s.publishers == map[] && s.background.Exited?
    ensures forall a :: Enabled(s, a) <==> a.NotifyDestroy? && s.destroyerMustNotify
  {
  }

  /** The shortest such run: one event, one subscriber, and the destructor. */
  lemma ThreadExits() returns (states: seq<Bus>, actions: seq<Action>)
    ensures IsRun(states, actions) && Destroy in actions
    ensures var s := states[|actions|]; s.background.Exited? && |s.nodes| == 1 && s.nodes[0].seen == [5]
  {
    hide Step, Enabled, IsRun;
    actions := [Subscribe, Publish(0, 5), NotifyEmpty(0), Destroy, Sweep, NotifyAllFull, Observe(-1), FinishWalk];
    var n := Subscription(0, false, [], 0, 0, 0);
    var s0 := Initial(2);
    var s1 := s0.(nodes := [n], list := [0], hasSubscription := true);
    var s2 := s1.(writeBuffer := [5], sequenceNumber := 2, published := [5], publishers := map[0 := MustNotify]);
    var s3 := s2.(publishers := map[]);
    var s4 := s3.(done := true, destroyerMustNotify := true);
    var s5 := s4.(lastObserved := 2, readBuffer := [5], writeBuffer := [], sawDone := true, background := NotifyFull([0]));
    var s6 := s5.(background := Walking([0]));
    var s7 := s6.(background := Walking([]), nodes := [n.(seen := [5])]);
    var s8 := s7.(readBuffer := [], background := Exited);
    SubscribeIs(s0);
    PublishIs(s1, 0, 5);
    NotifiedIs(s2);
    DestroyerSets(s3);
    LastSweep(s4, s5);
    NotifyIs(s5);
    ObserveIs(s6);
    assert [] + [5] == [5];
    LastWalk(s7);
    states := [s0, s1, s2, s3, s4, s5, s6, s7, s8];
    EightSteps(states, actions);
  }

  lemma NotifiedIs(s: Bus)
    requires s.publishers == map[0 := MustNotify] && s.background.Top?
    ensures Enabled(s, NotifyEmpty(0)) && Step(s, NotifyEmpty(0)) == s.(publishers := map[])
  {
    assert map[0 := MustNotify] - {0} == map[];
  }

  lemma DestroyerSets(s: Bus)
    requires !s.done && s.publishers == map[]
    ensures Enabled(s, Destroy) && Step(s, Destroy) == s.(done := true, destroyerMustNotify := true)
  {
  }

  lemma LastSweep(s: Bus, s': Bus)
    requires s.background.Top? && s.list == [0] && |s.nodes| == 1 && s.nodes[0].unsubscribe == 0 && s.done && s.hasSubscription
    requires s' == s.(lastObserved := s.sequenceNumber, readBuffer := s.writeBuffer, writeBuffer := [], sawDone := true,
                      background := NotifyFull([0]))
    ensures Enabled(s, Sweep) && s' == Step(s, Sweep)
  {
    assert [0][1..] == [];
    assert Kept([0], s.nodes, s.lastObserved) == [0] + Kept([], s.nodes, s.lastObserved) == [0];
    assert CountSwaps(s.nodes) == s.nodes;
  }

  lemma LastWalk(s: Bus)
    requires s.background == Walking([]) && s.sawDone
    ensures Enabled(s, FinishWalk) && Step(s, FinishWalk) == s.(readBuffer := [], background := Exited)
  {
  }

  lemma EightSteps(states: seq<Bus>, actions: seq<Action>)
    requires |actions| == 8 && |states| == 9 && states[0].capacity > 0 && states[0] == Initial(states[0].capacity)
    requires Enabled(states[0], actions[0]) && states[1] == Step(states[0], actions[0])
    requires Enabled(states[1], actions[1]) && states[2] == Step(states[1], actions[1])
    requires Enabled(states[2], actions[2]) && states[3] == Step(states[2], actions[2])
    requires Enabled(states[3], actions[3]) && states[4] == Step(states[3], actions[3])
    requires Enabled(states[4], actions[4]) && states[5] == Step(states[4], actions[4])
    requires Enabled(states[5], actions[5]) && states[6] == Step(states[5], actions[5])
    requires Enabled(states[6], actions[6]) && states[7] == Step(states[6], actions[6])
    requires Enabled(states[7], actions[7]) && states[8] == Step(states[7], actions[7])
    ensures IsRun(states, actions)
  {
    hide Step, Enabled, Initial;
  }

  // ----- what was published -----

  /** The event of a publish() call that still waits for room. */
  function Pending(s: Bus, t: Thread): seq<Event> {
    if t in s.publishers && !s.publishers[t].MustNotify? then [s.publishers[t].e] else []
  }

  /** The events that thread t has called publish() with. */
  function Called(actions: seq<Action>, t: Thread): seq<Event> {
    if actions == [] then []
    else
      var a := actions[|actions| - 1];
      Called(actions[..|actions| - 1], t) + if a.Publish? && a.t == t then [a.e] else []
  }

  /** The step is made inside publish(), by thread t. */
  predicate PublishedBy(a: Action, t: Thread) {
    (a.Publish? || a.RetestRoom?) && a.t == t
  }

  /** What the steps of thread t have added to the published events. */
  function Appended(states: seq<Bus>, actions: seq<Action>, i: nat, t: Thread): seq<Event>
    requires i <= |actions| < |states|
  {
    if i == 0 then []
    else
      Appended(states, actions, i - 1, t) +
      if PublishedBy(actions[i - 1], t) && |states[i - 1].published| <= |states[i].published|
      then states[i].published[|states[i - 1].published|..] else []
  }

  /** In one step, what thread t had to publish, or has just called publish() with, is published or pending. */
  predicate Accounted(s: Bus, a: Action, s': Bus, t: Thread) {
    && s.published <= s'.published
    && (s'.published != s.published ==> a.Publish? || a.RetestRoom?)
    && if PublishedBy(a, t) then
         Pending(s, t) + (if a.Publish? then [a.e] else []) == s'.published[|s.published|..] + Pending(s', t)
       else
         Pending(s', t) == Pending(s, t)
  }

  lemma AppendAccounts(s: Bus, a: Action, e: Event, t: Thread)
    requires a.Publish? || a.RetestRoom?
    requires if a.Publish? then a.e == e && a.t !in s.publishers else Pending(s, a.t) == [e]
    ensures Accounted(s, a, Append(s, a.t, e), t)
  {
    assert (s.published + [e])[|s.published|..] == [e];
  }

  lemma WaitAccounts(s: Bus, a: Action, t: Thread)
    requires Enabled(s, a) && Coordinates(s, a)
    ensures Accounted(s, a, Step(s, a), t)
  {
    CoordinationFrame(s, a);
    hide Append;
    assert s.published[|s.published|..] == [];
  }

  lemma SameAccounts(s: Bus, a: Action, s': Bus, t: Thread)
    requires !a.Publish? && !a.RetestRoom? && s'.publishers == s.publishers && s'.published == s.published
    ensures Accounted(s, a, s', t)
  {
  }

  lemma PublishStep(s: Bus, a: Action, t: Thread)
    requires Enabled(s, a)
    ensures Accounted(s, a, Step(s, a), t)
  {
    hide Step, Enabled, Accounted, Coordinates, Append, TestEmpty, Swept, Subscribed, Unsubscribed, ObservedFirst;
    if Coordinates(s, a) {
      WaitAccounts(s, a, t);
    } else {
      StepIs(s, a);
      match a
      case Publish(u, e) =>
        PublishesOnce(s, a);
        AppendAccounts(s, a, e, t);
      case RetestRoom(u) => AppendAccounts(s, a, s.publishers[u].e, t);
      case Subscribe =>
        SubscribedFrame(s, 0);
        SameAccounts(s, a, Subscribed(s), t);
      case Unsubscribe(id) =>
        SubscribedFrame(s, id);
        SameAccounts(s, a, Unsubscribed(s, id), t);
      case Sweep =>
        SwapPublishesNothing(s);
        SameAccounts(s, a, TestEmpty(Swept(s)), t);
      case RetestEmpty =>
        SwapPublishesNothing(s);
        SameAccounts(s, a, TestEmpty(s), t);
      case Observe(p) =>
        ObservedFrame(s, p);
        SameAccounts(s, a, ObservedFirst(s, p), t);
      case FinishWalk => SameAccounts(s, a, Step(s, a), t);
    }
  }

  lemma SwapPublishesNothing(s: Bus)
    ensures TestEmpty(s).published == s.published && TestEmpty(s).publishers == s.publishers
    ensures TestEmpty(Swept(s)).published == s.published && TestEmpty(Swept(s)).publishers == s.publishers
  {
  }

  /** What each thread calls publish() with is published once, in the order of its calls, or waits for
      room; and nothing is published outside publish(). */
  lemma {:induction false} EachEventIsPublished(states: seq<Bus>, actions: seq<Action>, i: nat, t: Thread)
    requires IsRun(states, actions) && i <= |actions|
    ensures Called(actions[..i], t) == Appended(states, actions, i, t) + Pending(states[i], t)
    ensures i > 0 ==>
      && states[i - 1].published <= states[i].published
      && (states[i].published != states[i - 1].published ==> actions[i - 1].Publish? || actions[i - 1].RetestRoom?)
  {
    hide Step, Enabled, Pending;
    if i == 0 {
      NothingPending(states[0].capacity, t);
    } else {
      var s, a := states[i - 1], actions[i - 1];
      EachEventIsPublished(states, actions, i - 1, t);
      PublishStep(s, a, t);
      assert actions[..i][..i - 1] == actions[..i - 1];
      var before, call := Appended(states, actions, i - 1, t), if a.Publish? && a.t == t then [a.e] else [];
      var growth := if PublishedBy(a, t) then states[i].published[|s.published|..] else [];
      assert Called(actions[..i], t) == before + Pending(s, t) + call;
      assert Pending(s, t) + call == growth + Pending(states[i], t);
      Reassociate(before, Pending(s, t), call, growth, Pending(states[i], t));
    }
  }

  lemma Reassociate(a: seq<Event>, b: seq<Event>, c: seq<Event>, d: seq<Event>, e: seq<Event>)
    requires b + c == d + e
    ensures a + b + c == a + d + e
  {
    assert a + b + c == a + (b + c);
    assert a + d + e == a + (d + e);
  }

  lemma NothingPending(capacity: nat, t: Thread)
    requires capacity > 0
    ensures Pending(Initial(capacity), t) == []
  {
  }
}
