/** When TraceBus keeps the promise that nothing published after unsubscribe() is seen. */
module TraceBusPromise {
  import opened TraceBus
  import opened TraceBusSafety
  import opened TraceBusTheorems

  /** The condition on the state in which unsubscribe() is called: the subscriber has thrown, or the
      background thread is not in its wait and either nothing was published since the last sweep or
      the write buffer is full.  In the last two cases the sweep that frees the subscription comes
      before any batch that holds a later event. */
  predicate PromiseKept(s: Bus, id: nat)
    requires id < |s.nodes|
  {
    || s.nodes[id].thrown
    || (&& !s.background.Waiting? && !s.background.Retesting?
        && (s.sequenceNumber <= s.lastObserved || |s.writeBuffer| == s.capacity))
  }

  // ----- the promise is kept -----

  predicate Sealed(s: Bus, id: nat)
    requires id < |s.nodes|
  {
    var n := s.nodes[id];
    && n.unsubscribe != 0
    && !SeesLaterEvents(n)
    && (id in s.list && !n.thrown ==>
          && !s.background.Waiting? && !s.background.Retesting?
          && Swapped(s) <= n.unsubscribe - 1
          && (n.unsubscribe <= s.lastObserved || (n.unsubscribe == s.sequenceNumber && |s.writeBuffer| == s.capacity)))
  }

  lemma StepFrame(s: Bus, a: Action, id: nat)
    requires ListShape(s) && Enabled(s, a) && id < |s.nodes| && !a.Sweep? && !a.RetestEmpty?
    ensures var s' := Step(s, a);
      && Swapped(s') == Swapped(s) && s'.lastObserved == s.lastObserved
      && (s'.background.Waiting? || s'.background.Retesting? ==> s.background.Waiting? || s.background.Retesting?)
      && (id in s'.list <==> id in s.list)
      && s'.capacity == s.capacity
      && (|s.writeBuffer| == s.capacity ==> s'.sequenceNumber == s.sequenceNumber && s'.writeBuffer == s.writeBuffer)
  {
    hide WakeAll, TestEmpty, ListShape, Observed, CountSwaps, Kept;
  }

  lemma SeenFrame(s: Bus, a: Action, id: nat)
    requires ListShape(s) && Enabled(s, a) && id < |s.nodes| && !a.Sweep? && !a.RetestEmpty?
    ensures id < |Step(s, a).nodes| && (id !in s.list ==> Step(s, a).nodes[id].seen == s.nodes[id].seen)
  {
    if a.Observe? {
      ObserveFrame(s, a, id);
    } else {
      OtherSeenFrame(s, a, id);
    }
  }

  lemma ObserveFrame(s: Bus, a: Action, id: nat)
    requires ListShape(s) && Enabled(s, a) && id < |s.nodes| && a.Observe?
    ensures id < |Step(s, a).nodes| && (id !in s.list ==> Step(s, a).nodes[id].seen == s.nodes[id].seen)
  {
    hide ListShape, Observed, TestEmpty, Swept, WakeAll;
    TodoFacts(s);
    var first := s.background.todo[0];
    assert first == Todo(s)[0];
  }

  lemma OtherSeenFrame(s: Bus, a: Action, id: nat)
    requires Enabled(s, a) && id < |s.nodes| && !a.Sweep? && !a.RetestEmpty? && !a.Observe?
    ensures id < |Step(s, a).nodes| && Step(s, a).nodes[id].seen == s.nodes[id].seen
  {
    hide WakeAll, TestEmpty, Swept, ObservedFirst, Subscribed, Unsubscribed;
    if a.Subscribe? || a.Unsubscribe? {
      SeenSame(s, if a.Unsubscribe? then a.id else 0, id);
    }
  }

  lemma SeenSame(s: Bus, u: nat, id: nat)
    requires id < |s.nodes|
    ensures id < |Subscribed(s).nodes| && Subscribed(s).nodes[id].seen == s.nodes[id].seen
    ensures u < |s.nodes| ==> id < |Unsubscribed(s, u).nodes| && Unsubscribed(s, u).nodes[id].seen == s.nodes[id].seen
  {
  }

  lemma TestEmptyFrame(s: Bus, id: nat)
    requires id < |s.nodes|
    ensures var s' := TestEmpty(s); s'.list == s.list && |s'.nodes| == |s.nodes| && s'.nodes[id].seen == s.nodes[id].seen
  {
  }

  lemma SweepFrees(s: Bus, id: nat)
    requires s.background.Top? && id < |s.nodes|
    requires id in s.list ==> Finished(s.nodes[id], s.lastObserved)
    ensures var s' := TestEmpty(Swept(s)); id !in s'.list && |s'.nodes| == |s.nodes| && s'.nodes[id].seen == s.nodes[id].seen
  {
    hide TestEmpty;
    KeptMembers(s.list, s.nodes, s.lastObserved, id);
    TestEmptyFrame(Swept(s), id);
  }

  /** The write buffer was full when unsubscribe() was called: this sweep swaps out what came before it. */
  lemma SweepSeals(s: Bus, id: nat)
    requires Buffers(s) && s.background.Top? && id < |s.nodes|
    requires s.nodes[id].unsubscribe == s.sequenceNumber && |s.writeBuffer| == s.capacity
    ensures var s' := TestEmpty(Swept(s));
      && |s'.nodes| == |s.nodes| && s'.background.NotifyFull?
      && s'.nodes[id].unsubscribe == s'.lastObserved && Swapped(s') == s'.lastObserved - 1
  {
    hide Kept;
  }

  lemma StepSealed(s: Bus, a: Action, id: nat)
    requires Inv(s) && Enabled(s, a) && id < |s.nodes| && Sealed(s, id)
    ensures id < |Step(s, a).nodes| && Sealed(Step(s, a), id)
  {
    hide Reclamation, NoLostWakeup, Observation, ListShape, Step, Enabled, Buffers, TestEmpty, Swept;
    StepKeeps(s, a);
    StepFollows(s, a, id);
    assert SubscriptionOk(Step(s, a), id);
    SweepIs(s);
    if a.Sweep? {
      if s.nodes[id].unsubscribe <= s.lastObserved {
        SweepFrees(s, id);
      } else if |s.writeBuffer| == s.capacity && s.nodes[id].unsubscribe == s.sequenceNumber {
        SweepSeals(s, id);
      } else if !s.nodes[id].thrown {
        UnlinkedStays(s, id);
      }
    } else if a.RetestEmpty? {
      TestEmptyFrame(s, id);
    } else {
      StepFrame(s, a, id);
      SeenFrame(s, a, id);
    }
  }

  lemma UnlinkedStays(s: Bus, id: nat)
    requires s.background.Top? && id < |s.nodes| && id !in s.list
    ensures var s' := TestEmpty(Swept(s)); id !in s'.list && |s'.nodes| == |s.nodes| && s'.nodes[id].seen == s.nodes[id].seen
  {
    SweepFrees(s, id);
  }

  lemma SweepIs(s: Bus)
    ensures Enabled(s, Sweep) <==> s.background.Top?
    ensures s.background.Top? ==> Step(s, Sweep) == TestEmpty(Swept(s))
    ensures Enabled(s, RetestEmpty) <==> s.background.Retesting?
    ensures s.background.Retesting? ==> Step(s, RetestEmpty) == TestEmpty(s)
  {
  }

  lemma {:induction false} SealedStays(states: seq<Bus>, actions: seq<Action>, i: nat, j: nat, id: nat)
    requires IsRun(states, actions) && i <= j < |states| && id < |states[i].nodes| && Sealed(states[i], id)
    ensures id < |states[j].nodes| && Sealed(states[j], id)
  {
    hide Step, Enabled, Inv, Sealed;
    if i < j {
      SealedStays(states, actions, i, j - 1, id);
      RunKeeps(states, actions, j - 1);
      StepSealed(states[j - 1], actions[j - 1], id);
    }
  }

  /** unsubscribe() called in such a state keeps its promise for ever. */
  lemma UnsubscribePromise(states: seq<Bus>, actions: seq<Action>, i: nat, j: nat)
    requires IsRun(states, actions) && i < j < |states| && actions[i].Unsubscribe?
    requires PromiseKept(states[i], actions[i].id)
    ensures actions[i].id < |states[j].nodes| && !SeesLaterEvents(states[j].nodes[actions[i].id])
  {
    var id := actions[i].id;
    RunKeeps(states, actions, i);
    RunKeeps(states, actions, i + 1);
    assert SubscriptionOk(states[i], id) && SubscriptionOk(states[i + 1], id);
    SealedStays(states, actions, i + 1, j, id);
  }

  // ----- the promise is broken -----

  /** The steps can be taken from s, one after the other. */
  predicate CanRun(s: Bus, actions: seq<Action>)
    decreases |actions|
  {
    actions == [] || (Enabled(s, actions[0]) && CanRun(Step(s, actions[0]), actions[1..]))
  }

  function After(s: Bus, actions: seq<Action>): Bus
    requires CanRun(s, actions)
    decreases |actions|
  {
    if actions == [] then s else After(Step(s, actions[0]), actions[1..])
  }

  lemma {:induction false} RunOn(s: Bus, first: seq<Action>, second: seq<Action>)
    requires CanRun(s, first) && CanRun(After(s, first), second)
    ensures CanRun(s, first + second) && After(s, first + second) == After(After(s, first), second)
    decreases |first|
  {
    hide Step, Enabled;
    if first == [] {
      assert first + second == second;
    } else {
      RunOn(Step(s, first[0]), first[1..], second);
      assert (first + second)[1..] == first[1..] + second;
    }
  }

  lemma RunOne(s: Bus, a: Action)
    requires Enabled(s, a)
    ensures CanRun(s, [a]) && After(s, [a]) == Step(s, a)
  {
    hide Step, Enabled;
    assert [a][1..] == [];
    assert CanRun(Step(s, a), []);
  }

  /** Subscription `id` is linked and able to see events, and was unsubscribed at sequence number u. */
  predicate Linked(s: Bus, id: nat, u: nat) {
    && Inv(s) && !s.done
    && id < |s.nodes| && id in s.list && !s.nodes[id].thrown && s.nodes[id].unsubscribe == u
  }

  /** What the steps that finish a walk leave alone. */
  predicate SameBuffers(s: Bus, s': Bus) {
    && s'.published == s.published && s'.writeBuffer == s.writeBuffer && s'.lastObserved == s.lastObserved
    && s'.capacity == s.capacity
  }

  lemma ObserveAll(s: Bus, id: nat, u: nat)
    requires Linked(s, id, u) && s.background.Walking? && s.background.todo != []
    ensures Enabled(s, Observe(-1))
    ensures var s' := Step(s, Observe(-1));
      && Linked(s', id, u) && SameBuffers(s, s')
      && s'.background == Walking(s.background.todo[1..])
  {
    hide Buffers, Subscriptions, Observation, Reclamation, NoLostWakeup, Ending;
    TodoFacts(s);
    assert s.background.todo[0] == Todo(s)[0] && s.background.todo[0] in s.list;
    StepKeeps(s, Observe(-1));
  }

  lemma {:induction false} FinishWalking(s: Bus, id: nat, u: nat) returns (actions: seq<Action>)
    requires Linked(s, id, u) && s.background.Walking?
    ensures CanRun(s, actions)
    ensures var s' := After(s, actions); Linked(s', id, u) && SameBuffers(s, s') && s'.background.Top?
    decreases |s.background.todo|
  {
    if s.background.todo == [] {
      assert Enabled(s, FinishWalk);
      FinishIs(s, id, u);
      RunOne(s, FinishWalk);
      actions := [FinishWalk];
    } else {
      hide Inv;
      ObserveAll(s, id, u);
      RunOne(s, Observe(-1));
      var rest := FinishWalking(Step(s, Observe(-1)), id, u);
      RunOn(s, [Observe(-1)], rest);
      actions := [Observe(-1)] + rest;
    }
  }

  lemma FinishIs(s: Bus, id: nat, u: nat)
    requires Linked(s, id, u) && s.background == Walking([])
    ensures Enabled(s, FinishWalk)
    ensures var s' := Step(s, FinishWalk); Linked(s', id, u) && SameBuffers(s, s') && s'.background.Top?
  {
    hide Buffers, Subscriptions, Observation, Reclamation, NoLostWakeup, ListShape;
    StepKeeps(s, FinishWalk);
  }

  lemma NotifyAllIs(s: Bus, id: nat, u: nat)
    requires Linked(s, id, u) && s.background.NotifyFull?
    ensures Enabled(s, NotifyAllFull)
    ensures var s' := Step(s, NotifyAllFull); Linked(s', id, u) && SameBuffers(s, s') && s'.background.Walking?
  {
    hide Buffers, Subscriptions, Observation, Reclamation, NoLostWakeup, ListShape, Ending;
    StepKeeps(s, NotifyAllFull);
  }

  lemma FinishBatch(s: Bus, id: nat, u: nat) returns (actions: seq<Action>)
    requires Linked(s, id, u) && (s.background.NotifyFull? || s.background.Walking?)
    ensures CanRun(s, actions)
    ensures var s' := After(s, actions); Linked(s', id, u) && SameBuffers(s, s') && s'.background.Top?
  {
    hide Inv, Step, Enabled;
    if s.background.Walking? {
      actions := FinishWalking(s, id, u);
    } else {
      NotifyAllIs(s, id, u);
      RunOne(s, NotifyAllFull);
      var rest := FinishWalking(Step(s, NotifyAllFull), id, u);
      RunOn(s, [NotifyAllFull], rest);
      actions := [NotifyAllFull] + rest;
    }
  }

  lemma {:induction false} FreshThread(publishers: set<Thread>) returns (t: Thread)
    ensures forall k :: k in publishers ==> k < t
  {
    if publishers == {} {
      t := 0;
    } else {
      var k :| k in publishers;
      var u := FreshThread(publishers - {k});
      t := if u <= k then k + 1 else u;
      forall j | j in publishers ensures j < t {
        assert j == k || j in publishers - {k};
      }
    }
  }

  lemma PublishOne(s: Bus, id: nat, u: nat) returns (a: Action)
    requires Linked(s, id, u) && |s.writeBuffer| < s.capacity
    ensures Enabled(s, a)
    ensures var s' := Step(s, a);
      && Linked(s', id, u) && s'.background == s.background && s'.lastObserved == s.lastObserved
      && |s'.published| == |s.published| + 1 && s'.writeBuffer != []
  {
    hide Buffers, Subscriptions, Observation, Reclamation, NoLostWakeup, ListShape, Ending;
    var t := FreshThread(s.publishers.Keys);
    a := Publish(t, 0);
    assert t !in s.publishers;
    StepKeeps(s, a);
  }

  /** The batch is swapped out; a sweep, if there is one, finds the subscription not finished. */
  lemma SwapOut(s: Bus, id: nat, u: nat) returns (a: Action)
    requires Linked(s, id, u) && s.writeBuffer != []
    requires s.background.Retesting? || (s.background.Top? && s.lastObserved < u)
    ensures Enabled(s, a)
    ensures var s' := Step(s, a);
      && Linked(s', id, u) && s'.background.NotifyFull? && s'.published == s.published && s'.writeBuffer == []
      && (s.background.Retesting? ==> s'.lastObserved == s.lastObserved)
  {
    hide Buffers, Subscriptions, Observation, Reclamation, NoLostWakeup, ListShape, Ending, Kept;
    a := if s.background.Top? then Sweep else RetestEmpty;
    StepKeeps(s, a);
    KeptMembers(s.list, s.nodes, s.lastObserved, id);
  }

  lemma WakeIs(s: Bus, id: nat, u: nat)
    requires Linked(s, id, u) && s.background.Waiting?
    ensures Enabled(s, WakeBackground)
    ensures var s' := Step(s, WakeBackground); Linked(s', id, u) && SameBuffers(s, s') && s'.background.Retesting?
  {
    hide Buffers, Subscriptions, Observation, Reclamation, NoLostWakeup, ListShape, Ending;
    StepKeeps(s, WakeBackground);
  }

  /** With room in the write buffer and the sweep already past, or not ready to free the
      subscription, one more event is published and delivered to it. */
  lemma DeliverOneMore(s: Bus, id: nat, u: nat) returns (actions: seq<Action>)
    requires Linked(s, id, u) && |s.writeBuffer| < s.capacity && |s.published| == u - 1
    requires s.background.Retesting? || (s.background.Top? && s.lastObserved < u)
    ensures CanRun(s, actions)
    ensures var s' := After(s, actions); id < |s'.nodes| && s'.nodes[id].unsubscribe == u && SeesLaterEvents(s'.nodes[id])
  {
    hide Inv, Step, Enabled;
    var publish := PublishOne(s, id, u);
    RunOne(s, publish);
    var s1 := Step(s, publish);
    var swap := SwapOut(s1, id, u);
    RunOne(s1, swap);
    RunOn(s, [publish], [swap]);
    var s2 := Step(s1, swap);
    var finish := FinishBatch(s2, id, u);
    RunOn(s, [publish] + [swap], finish);
    actions := [publish] + [swap] + finish;
    EverythingSeen(After(s2, finish), id, u);
  }

  lemma EverythingSeen(s: Bus, id: nat, u: nat)
    requires Linked(s, id, u) && s.background.Top? && s.writeBuffer == [] && |s.published| == u && u > 0
    ensures SeesLaterEvents(s.nodes[id])
  {
    assert SubscriptionOk(s, id);
  }

  lemma FromTopOrWalk(s: Bus, id: nat, u: nat) returns (actions: seq<Action>)
    requires Linked(s, id, u) && |s.writeBuffer| < s.capacity && |s.published| == u - 1 && s.lastObserved < u
    requires s.background.Top? || s.background.NotifyFull? || s.background.Walking?
    ensures CanRun(s, actions)
    ensures var s' := After(s, actions); id < |s'.nodes| && s'.nodes[id].unsubscribe == u && SeesLaterEvents(s'.nodes[id])
  {
    hide Inv, Step, Enabled;
    if s.background.Top? {
      actions := DeliverOneMore(s, id, u);
    } else {
      var finish := FinishBatch(s, id, u);
      var rest := DeliverOneMore(After(s, finish), id, u);
      RunOn(s, finish, rest);
      actions := finish + rest;
    }
  }

  lemma FromRetesting(s: Bus, id: nat, u: nat) returns (actions: seq<Action>)
    requires Linked(s, id, u) && |s.published| == u - 1 && s.background.Retesting?
    ensures CanRun(s, actions)
    ensures var s' := After(s, actions); id < |s'.nodes| && s'.nodes[id].unsubscribe == u && SeesLaterEvents(s'.nodes[id])
  {
    hide Step, Enabled, ListShape, Subscriptions, Reclamation, NoLostWakeup, Ending;
    if |s.writeBuffer| < s.capacity {
      actions := DeliverOneMore(s, id, u);
    } else {
      var swap := SwapOut(s, id, u);
      RunOne(s, swap);
      var rest := FromTopOrWalk(Step(s, swap), id, u);
      RunOn(s, [swap], rest);
      actions := [swap] + rest;
    }
  }

  /** unsubscribe() called in any other state breaks the promise in some continuation: together with
      UnsubscribePromise, the promise holds in every continuation if and only if PromiseKept holds. */
  lemma PromiseBroken(states: seq<Bus>, actions: seq<Action>, id: nat) returns (s: Bus, more: seq<Action>)
    requires IsRun(states, actions)
    requires Enabled(states[|actions|], Unsubscribe(id)) && !PromiseKept(states[|actions|], id)
    ensures s == Step(states[|actions|], Unsubscribe(id)) && CanRun(s, more)
    ensures id < |After(s, more).nodes| && SeesLaterEvents(After(s, more).nodes[id])
  {
    var s0 := states[|actions|];
    s := Step(s0, Unsubscribe(id));
    var u := s0.sequenceNumber;
    RunKeeps(states, actions, |actions|);
    UnsubscribeLinked(s0, id);
    hide Inv, Step, Enabled;
    if s.background.Waiting? {
      WakeIs(s, id, u);
      RunOne(s, WakeBackground);
      var rest := FromRetesting(Step(s, WakeBackground), id, u);
      RunOn(s, [WakeBackground], rest);
      more := [WakeBackground] + rest;
    } else if s.background.Retesting? {
      more := FromRetesting(s, id, u);
    } else {
      more := FromTopOrWalk(s, id, u);
    }
  }

  lemma UnsubscribeLinked(s: Bus, id: nat)
    requires Inv(s) && Enabled(s, Unsubscribe(id)) && !s.nodes[id].thrown
    ensures var s' := Step(s, Unsubscribe(id));
      && Linked(s', id, s.sequenceNumber) && |s'.published| == s.sequenceNumber - 1 && !s.background.Exited?
      && |s'.writeBuffer| <= s'.capacity
  {
    assert SubscriptionOk(s, id);
    StepKeeps(s, Unsubscribe(id));
  }
}
