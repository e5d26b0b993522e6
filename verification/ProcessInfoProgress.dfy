/** What the calls of ProcessInfoCache are answered with, and that the worker gets done with them: with
    every lookup and question while it runs, and with itself when the destructor asks it to stop. */
module ProcessInfoProgress {
  import opened Numbering
  import opened ProcessInfoCache
  import opened ProcessInfoCacheTheorems

  // ----- the worker gets done -----

  /** The steps of the worker, and the posts that callers owe it. */
  predicate Works(a: Action) {
    a.Post? || a.Wake? || a.Swap? || a.Drain? || a.Read? || a.Bump? || a.Answer?
  }

  /** Steps after which no new work has come. */
  predicate NoNewWork(a: Action) {
    Works(a) || a.Tick? || a.RecordAccess? || a.AddCheck?
  }

  /** A bound on the steps that it takes; a semaphore count may wake the worker for nothing. */
  function WorkLeft(s: Cache): nat {
    var phase :=
      match s.worker
      case Waiting => 0
      case Awake => 4
      case Taken => 3 + |s.batch|
      case Reading(rest) => 2 + |rest|
      case Answering(_) => 1
      case Stopped => 0;
    7 * s.unposted + 6 * s.tokens + |s.lookupQueue| + phase
  }

  lemma WorkGoesOn(s: Cache, a: Action)
    requires Enabled(s, a) && NoNewWork(a)
    ensures var s' := Step(s, a);
      && (if Works(a) then WorkLeft(s') < WorkLeft(s) else WorkLeft(s') == WorkLeft(s))
      && s'.stop == s.stop && |s'.nodes| == |s.nodes| && |s'.asked| == |s.asked|
  {
    hide Unexpired, Ready;
  }

  /** Nothing is left for the worker to do. */
  ghost predicate AtRest(s: Cache) {
    forall a :: Works(a) ==> !Enabled(s, a)
  }

  lemma RestMeans(s: Cache)
    requires Inv(s)
    ensures AtRest(s) ==> s.unposted == 0 && if s.stop then s.worker.Stopped? else s.worker.Waiting? || s.worker.Stopped?
    ensures AtRest(s) && s.worker.Waiting? ==> Queued(s) == 0
  {
    hide Promises, Newest, Gets, Levels;
    assert Works(Post) && Works(Wake) && Works(Swap) && Works(Drain) && Works(Read(true)) && Works(Bump(s.clock)) && Works(Answer);
    if AtRest(s) {
      assert !Enabled(s, Post) && !Enabled(s, Wake) && !Enabled(s, Swap) && !Enabled(s, Drain) && !Enabled(s, Answer);
      assert !Enabled(s, Read(true)) && !Enabled(s, Bump(s.clock));
    }
  }

  function WorkDone(actions: seq<Action>): nat {
    if actions == [] then 0
    else WorkDone(actions[..|actions| - 1]) + if Works(actions[|actions| - 1]) then 1 else 0
  }

  lemma {:induction false} WorkIsBounded(states: seq<Cache>, actions: seq<Action>, i: nat, j: nat)
    requires IsRun(states, actions) && i <= j <= |actions|
    requires forall k :: i <= k < j ==> NoNewWork(actions[k])
    ensures WorkDone(actions[i..j]) + WorkLeft(states[j]) <= WorkLeft(states[i])
    ensures states[j].stop == states[i].stop && |states[j].nodes| == |states[i].nodes| && |states[j].asked| == |states[i].asked|
  {
    hide Step, Enabled, WorkLeft, NoNewWork, Works;
    if i < j {
      WorkIsBounded(states, actions, i, j - 1);
      WorkGoesOn(states[j - 1], actions[j - 1]);
      assert actions[i..j][..j - i - 1] == actions[i..j - 1];
    } else {
      assert actions[i..j] == [];
    }
  }

  /** With no new calls the worker and the posts come to rest after WorkLeft of their steps, and then every
      promise made has been fulfilled and every question answered, unless the destructor has started. */
  lemma EveryCallIsServed(states: seq<Cache>, actions: seq<Action>, i: nat, j: nat)
    requires IsRun(states, actions) && i <= j <= |actions|
    requires forall k :: i <= k < j ==> NoNewWork(actions[k])
    ensures WorkDone(actions[i..j]) <= WorkLeft(states[i])
    ensures AtRest(states[j]) && !states[i].stop ==>
      var s := states[j];
      && s.worker.Waiting? && s.fulfilled == Numbers(|states[i].nodes|) && |s.answers| == |states[i].asked|
  {
    hide Step, Enabled, WorkLeft, NoNewWork, Works, Inv, AtRest;
    WorkIsBounded(states, actions, i, j);
    RunKeeps(states, actions, j);
    RestMeans(states[j]);
    StopsOnlyIfAsked(states, actions, j);
    if AtRest(states[j]) && !states[i].stop {
      RestIsDone(states, actions, j);
    }
  }

  lemma RestIsDone(states: seq<Cache>, actions: seq<Action>, j: nat)
    requires IsRun(states, actions) && j <= |actions|
    requires AtRest(states[j]) && states[j].worker.Waiting?
    ensures states[j].fulfilled == Numbers(|states[j].nodes|) && |states[j].answers| == |states[j].asked|
  {
    hide Step, Enabled, Numbers;
    assert Works(Wake) && Works(Post);
    assert !Enabled(states[j], Wake) && !Enabled(states[j], Post);
    NothingStranded(states, actions, j);
  }

  lemma {:induction false} StopsOnlyIfAsked(states: seq<Cache>, actions: seq<Action>, i: nat)
    requires IsRun(states, actions) && i <= |actions|
    ensures states[i].worker.Stopped? ==> states[i].stop
  {
    hide Step, Enabled;
    if i > 0 {
      StopsOnlyIfAsked(states, actions, i - 1);
      StopStep(states[i - 1], actions[i - 1]);
    }
  }

  lemma StopStep(s: Cache, a: Action)
    requires Enabled(s, a)
    ensures var s' := Step(s, a);
      && (s'.stop <==> s.stop || a.Shutdown?)
      && ((s.worker.Stopped? ==> s.stop) ==> (s'.worker.Stopped? ==> s'.stop))
      && (s.stop ==> NoNewWork(a) && s'.worker.Stopped? == (s.worker.Stopped? || a.Swap?))
  {
    hide Unexpired, Ready;
  }

  lemma {:induction false} StoppingGoesOn(states: seq<Cache>, actions: seq<Action>, i: nat, j: nat)
    requires IsRun(states, actions) && i < j <= |actions| && actions[i].Shutdown?
    ensures states[j].stop && forall k :: i < k < j ==> NoNewWork(actions[k])
  {
    hide Step, Enabled, NoNewWork;
    if j > i + 1 {
      StoppingGoesOn(states, actions, i, j - 1);
    }
    StopStep(states[j - 1], actions[j - 1]);
  }

  /** workerThread_.join() returns: once the destructor has asked, the worker takes at most WorkLeft more
      steps, and can only come to rest by returning. */
  lemma DestructorFinishes(states: seq<Cache>, actions: seq<Action>, i: nat)
    requires IsRun(states, actions) && i < |actions| && actions[i].Shutdown?
    ensures var s := states[|actions|];
      && s.stop
      && WorkDone(actions[i + 1..]) <= WorkLeft(states[i + 1])
      && (AtRest(s) ==> s.worker.Stopped?)
  {
    hide Step, Enabled, WorkLeft, NoNewWork, Inv, AtRest;
    var n := |actions|;
    StoppingGoesOn(states, actions, i, n);
    WorkIsBounded(states, actions, i + 1, n);
    assert actions[i + 1..n] == actions[i + 1..];
    RunKeeps(states, actions, n);
    RestMeans(states[n]);
  }

  /** With a batch of n requests the worker has taken, after Drain, n counts of the semaphore, the one that
      woke it included, or all that had been posted: it is not woken again for what it has in hand. */
  lemma BatchTakesItsCounts(s: Cache, a: Action)
    requires Enabled(s, a) && a.Drain?
    ensures var n := |s.batch| + |s.gets|;
      n > 0 ==> Step(s, a).tokens == 0 || 1 + s.tokens - Step(s, a).tokens == n
  {
  }

  // ----- what the calls leave behind -----

  /** lookup() and the second part of add() end with a cached node of that pid: the one that was cached, or
      else a new one, whose promise FulfilledOnceInOrder and EveryCallIsServed see fulfilled. */
  lemma LookupHasNode(states: seq<Cache>, actions: seq<Action>, i: nat)
    requires IsRun(states, actions) && i < |actions| && (actions[i].Lookup? || actions[i].AddUpdate?)
    ensures var s, s', pid := states[i], states[i + 1], actions[i].pid;
      && pid in s'.infos && s'.infos[pid] < |s'.nodes| && s'.nodes[s'.infos[pid]].pid == pid
      && s'.infos[pid] == (if pid in s.infos then s.infos[pid] else |s.nodes|)
      && |s'.nodes| == |s.nodes| + (if pid in s.infos then 0 else 1)
  {
    hide Unexpired, Ready;
    RunKeeps(states, actions, i);
    RunKeeps(states, actions, i + 1);
    hide Promises, Covered, Gets, Levels;
  }

  function Questions(actions: seq<Action>): nat {
    if actions == [] then 0
    else Questions(actions[..|actions| - 1]) + if actions[|actions| - 1].GetAll? then 1 else 0
  }

  /** Question number g is the g-th getAllProcessInfos(), and carries the number of lookups made before it. */
  lemma {:induction false} EachQuestionIsAsked(states: seq<Cache>, actions: seq<Action>, i: nat)
    requires IsRun(states, actions) && i <= |actions|
    ensures |states[i].asked| == Questions(actions[..i])
    ensures i > 0 && actions[i - 1].GetAll? ==> states[i].asked == states[i - 1].asked + [|states[i - 1].nodes|]
  {
    hide Step, Enabled;
    if i > 0 {
      EachQuestionIsAsked(states, actions, i - 1);
      AskStep(states[i - 1], actions[i - 1]);
      assert actions[..i][..i - 1] == actions[..i - 1];
    }
  }

  lemma AskStep(s: Cache, a: Action)
    requires Enabled(s, a)
    ensures Step(s, a).asked == s.asked + if a.GetAll? then [|s.nodes|] else []
  {
    hide Unexpired, Ready;
  }

  /** The promises that hold an exception are those whose reading failed. */
  lemma {:induction false} FailedToRead(states: seq<Cache>, actions: seq<Action>, i: nat, id: nat)
    requires IsRun(states, actions) && i <= |actions|
    ensures id in states[i].failed <==>
      exists j :: 0 <= j < i && actions[j] == Read(false) && Rest(states[j]) != [] && Rest(states[j])[0] == id
  {
    hide Step, Enabled, Rest;
    if i > 0 {
      FailedToRead(states, actions, i - 1, id);
      ReadStep(states[i - 1], actions[i - 1]);
    }
  }

  lemma ReadStep(s: Cache, a: Action)
    requires Enabled(s, a)
    ensures a.Read? ==> Rest(s) != []
    ensures forall id :: id in Step(s, a).failed <==> id in s.failed || (a == Read(false) && id == Rest(s)[0])
  {
    hide Unexpired, Ready;
  }
}
