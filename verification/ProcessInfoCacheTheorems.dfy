/** ProcessInfoCache over every interleaving of callers and worker. */
module ProcessInfoCacheTheorems {
  import opened Numbering
  import opened ProcessInfoCache

  predicate IsRun(states: seq<Cache>, actions: seq<Action>) {
    && |states| == |actions| + 1
    && states[0] == Initial(states[0].clock, states[0].expiry)
    && forall i :: 0 <= i < |actions| ==> Enabled(states[i], actions[i]) && states[i + 1] == Step(states[i], actions[i])
  }

  lemma InitialKeeps(clock: int, expiry: int)
    ensures Inv(Initial(clock, expiry))
  {
  }

  lemma {:induction false} RunKeeps(states: seq<Cache>, actions: seq<Action>, i: nat)
    requires IsRun(states, actions) && i < |states|
    ensures Inv(states[i])
  {
    hide Step, Enabled, Inv;
    if i == 0 {
      InitialKeeps(states[0].clock, states[0].expiry);
    } else {
      RunKeeps(states, actions, i - 1);
      StepKeeps(states[i - 1], actions[i - 1]);
    }
  }

  // ----- no lookup is stranded -----

  /** While the worker waits with something queued, it can wake or a caller has still to post; when it
      waits and nobody has, every promise ever made has been fulfilled. */
  lemma NothingStranded(states: seq<Cache>, actions: seq<Action>, i: nat)
    requires IsRun(states, actions) && i < |states| && states[i].worker.Waiting?
    ensures var s := states[i];
      && (Queued(s) > 0 ==> Enabled(s, Wake) || Enabled(s, Post))
      && (!Enabled(s, Wake) && !Enabled(s, Post) ==> s.fulfilled == Numbers(|s.nodes|) && |s.answers| == |s.asked|)
  {
    hide Numbers;
    RunKeeps(states, actions, i);
    var s := states[i];
    NumbersAre(|s.answers|);
    NumbersAre(|s.asked|);
    assert s.fulfilled + [] + [] == s.fulfilled;
  }

  /** Each promise is fulfilled once and in the order of the lookups, whatever happens to its node:
      one that is fulfilled is no longer in the worker's hands or queued, and none is lost. */
  lemma FulfilledOnceInOrder(states: seq<Cache>, actions: seq<Action>, i: nat, id: nat)
    requires IsRun(states, actions) && i < |states| && id < |states[i].nodes|
    ensures var s := states[i];
      && s.fulfilled == Numbers(|s.fulfilled|)
      && multiset(s.fulfilled)[id] + multiset(Rest(s))[id] + multiset(s.lookupQueue)[id] == 1
  {
    hide Numbers;
    RunKeeps(states, actions, i);
    var s := states[i];
    NumbersSplit(s.fulfilled, Rest(s) + s.lookupQueue, |s.nodes|) by {
      assert s.fulfilled + (Rest(s) + s.lookupQueue) == s.fulfilled + Rest(s) + s.lookupQueue;
    }
    NumbersOnce(|s.nodes|, id);
    assert multiset(s.fulfilled + Rest(s) + s.lookupQueue) == multiset(s.fulfilled) + multiset(Rest(s)) + multiset(s.lookupQueue);
  }

  // ----- the cache -----

  /** The second check of add(), made under the writer lock, and the one of lookup(): a new node is
      queued only for a pid that has no cached node, so a pid's cached node is always its newest, and an
      older one of the same pid is not cached any more. */
  lemma OneNodePerPid(states: seq<Cache>, actions: seq<Action>, i: nat, pid: Pid)
    requires IsRun(states, actions) && i < |actions|
    ensures var s, s' := states[i], states[i + 1];
      && (pid in s'.infos ==> s'.infos[pid] < |s'.nodes| && s'.nodes[s'.infos[pid]].pid == pid
                              && forall k :: s'.infos[pid] < k < |s'.nodes| ==> s'.nodes[k].pid != pid)
      && (|s'.nodes| > |s.nodes| ==> s'.nodes[|s.nodes|].pid !in s.infos && s'.infos == s.infos[s'.nodes[|s.nodes|].pid := |s.nodes|])
  {
    RunKeeps(states, actions, i + 1);
    NewNode(states[i], actions[i]);
  }

  lemma NewNode(s: Cache, a: Action)
    requires Enabled(s, a)
    ensures var s' := Step(s, a);
      |s'.nodes| > |s.nodes| ==> s'.nodes[|s.nodes|].pid !in s.infos && s'.infos == s.infos[s'.nodes[|s.nodes|].pid := |s.nodes|]
  {
    hide Unexpired, Ready;
  }

  /** A node leaves the cache only when the whole expiry time has passed since the time stamp it stores,
      by the worker's reading of the clock. */
  lemma OnlyExpiredLeave(states: seq<Cache>, actions: seq<Action>, i: nat, pid: Pid)
    requires IsRun(states, actions) && i < |actions|
    requires pid in states[i].infos && pid !in states[i + 1].infos
    ensures var s := states[i];
      && (actions[i].Bump? || actions[i].Answer?)
      && (actions[i].Answer? ==> s.worker.Answering?)
      && s.infos[pid] < |s.nodes|
      && s.nodes[s.infos[pid]].lastAccess + s.expiry <= (if actions[i].Bump? then actions[i].now else s.worker.now) <= s.clock
  {
    RunKeeps(states, actions, i);
    ClockHolds(states, actions, i);
    LeaveStep(states[i], actions[i], pid);
  }

  lemma LeaveStep(s: Cache, a: Action, pid: Pid)
    requires Newest(s) && Enabled(s, a) && pid in s.infos && pid !in Step(s, a).infos
    ensures s.infos[pid] < |s.nodes|
    ensures var stamp := s.nodes[s.infos[pid]].lastAccess;
      (a.Bump? && stamp + s.expiry <= a.now) || (a.Answer? && stamp + s.expiry <= s.worker.now)
  {
    hide Ready;
  }

  /** And expired nodes do leave: whenever the worker prunes, and before it answers a question, each node
      that stays was accessed within the expiry time. */
  lemma ExpiredDoLeave(states: seq<Cache>, actions: seq<Action>, i: nat, pid: Pid)
    requires IsRun(states, actions) && i < |actions|
    requires (actions[i].Bump? && states[i + 1].level.prunes > states[i].level.prunes) || (actions[i].Answer? && states[i].gets != [])
    requires pid in states[i + 1].infos
    ensures var s := states[i + 1];
      && s.infos[pid] < |s.nodes|
      && (actions[i].Answer? ==> states[i].worker.Answering?)
      && (if actions[i].Bump? then actions[i].now else states[i].worker.now) < s.nodes[s.infos[pid]].lastAccess + s.expiry
  {
    RunKeeps(states, actions, i);
    StayStep(states[i], actions[i], pid);
  }

  lemma StayStep(s: Cache, a: Action, pid: Pid)
    requires Newest(s) && Enabled(s, a) && ((a.Bump? && Step(s, a).level.prunes > s.level.prunes) || (a.Answer? && s.gets != []))
    requires pid in Step(s, a).infos
    ensures var s' := Step(s, a);
      && s'.infos[pid] < |s'.nodes|
      && (if a.Bump? then a.now else s.worker.now) < s'.nodes[s'.infos[pid]].lastAccess + s'.expiry
  {
    hide Ready;
  }

  /** What one step does to the time stamp of a node: `now` of the call that accesses it or creates it. */
  function StampBy(s: Cache, a: Action, id: nat): seq<int> {
    match a
    case RecordAccess(node, now) => if node == id then [now] else []
    case Lookup(pid, now) => if pid !in s.infos && id == |s.nodes| then [now] else []
    case AddCheck(pid, now) => if pid in s.infos && s.infos[pid] == id then [now] else []
    case AddUpdate(pid, now) => if (if pid in s.infos then s.infos[pid] else |s.nodes|) == id then [now] else []
    case _ => []
  }

  /** The times of all the accesses to a node, its creation first. */
  function Stamps(states: seq<Cache>, actions: seq<Action>, i: nat, id: nat): seq<int>
    requires i <= |actions| < |states|
  {
    if i == 0 then [] else Stamps(states, actions, i - 1, id) + StampBy(states[i - 1], actions[i - 1], id)
  }

  /** The time stamp is that of the latest access, which may be older than the one before. */
  lemma {:induction false} StampIsLatest(states: seq<Cache>, actions: seq<Action>, i: nat, id: nat)
    requires IsRun(states, actions) && i <= |actions| && id < |states[i].nodes|
    ensures var stamps := Stamps(states, actions, i, id);
      stamps != [] && states[i].nodes[id].lastAccess == stamps[|stamps| - 1]
  {
    hide Step, Enabled, StampBy;
    if i > 0 {
      RunKeeps(states, actions, i - 1);
      StampStep(states[i - 1], actions[i - 1], id);
      if id < |states[i - 1].nodes| {
        StampIsLatest(states, actions, i - 1, id);
      }
    }
  }

  lemma StampStep(s: Cache, a: Action, id: nat)
    requires Newest(s) && Enabled(s, a) && id < |Step(s, a).nodes|
    ensures var stamps := StampBy(s, a, id);
      if stamps == [] then id < |s.nodes| && Step(s, a).nodes[id].lastAccess == s.nodes[id].lastAccess
      else |stamps| == 1 && Step(s, a).nodes[id].lastAccess == stamps[0]
  {
    hide Unexpired, Ready;
  }

  lemma {:induction false} ClockHolds(states: seq<Cache>, actions: seq<Action>, i: nat)
    requires IsRun(states, actions) && i < |states|
    ensures states[i].worker.Answering? ==> states[i].worker.now <= states[i].clock
  {
    if i > 0 {
      ClockHolds(states, actions, i - 1);
      ClockStep(states[i - 1], actions[i - 1]);
    }
  }

  lemma ClockStep(s: Cache, a: Action)
    requires Enabled(s, a) && (s.worker.Answering? ==> s.worker.now <= s.clock)
    ensures var s' := Step(s, a); s'.worker.Answering? ==> s'.worker.now <= s'.clock
  {
    hide Unexpired, Ready;
  }

  /** Every answer holds, of the pids cached at that moment, each one looked up before the question,
      unless reading it failed; and nothing that is not cached, not read yet, or failed to be read. */
  lemma GetAllSeesEarlierLookups(states: seq<Cache>, actions: seq<Action>, i: nat, g: nat, pid: Pid)
    requires IsRun(states, actions) && i < |actions| && actions[i].Answer?
    requires |states[i].answers| <= g < |states[i + 1].answers|
    ensures var s, s' := states[i], states[i + 1];
      && g < |s.asked|
      && (pid in s'.infos && s'.infos[pid] < s.asked[g] && s'.infos[pid] !in s.failed ==>
            pid in s'.answers[g] && s'.answers[g][pid] == s'.infos[pid])
      && (pid in s'.answers[g] ==> pid in s'.infos && s'.answers[g][pid] == s'.infos[pid])
      && (pid in s'.answers[g] ==> s'.answers[g][pid] in s.fulfilled && s'.answers[g][pid] !in s.failed)
  {
    hide Numbers, Unexpired;
    RunKeeps(states, actions, i);
    var s, s' := states[i], states[i + 1];
    NumbersSplit(Numbers(|s.answers|) + s.gets, s.getAllQueue, |s.asked|);
    NumbersAre(|s.answers|);
    NumbersAre(|s.answers| + |s.gets|);
    assert s.gets[g - |s.answers|] == g by {
      assert (Numbers(|s.answers|) + s.gets)[g] == s.gets[g - |s.answers|];
    }
    assert g in s.gets;
    if pid in s'.infos && s'.infos[pid] < s.asked[g] {
      InFulfilled(s, s'.infos[pid]);
    }
  }

  lemma InFulfilled(s: Cache, id: nat)
    requires Promises(s) && s.worker.Answering? && id < |s.fulfilled|
    ensures id in s.fulfilled
  {
    hide Numbers;
    NumbersAre(|s.nodes|);
    assert (s.fulfilled + Rest(s) + s.lookupQueue)[id] == s.fulfilled[id];
    assert s.fulfilled[id] == id;
  }

  /** The check made at shutdown: no getAllProcessInfos() is pending when the worker stops.  What it rests
      on is the guard of Shutdown, that no caller is inside when the destructor starts. */
  lemma ShutdownCheckHolds(states: seq<Cache>, actions: seq<Action>, i: nat)
    requires IsRun(states, actions) && i < |states| && states[i].stop
    ensures states[i].getAllQueue == []
  {
    hide Numbers;
    RunKeeps(states, actions, i);
    StoppedWithoutGets(states, actions, i);
    var s := states[i];
    NumbersAre(|s.answers|);
    NumbersAre(|s.asked|);
  }

  lemma {:induction false} StoppedWithoutGets(states: seq<Cache>, actions: seq<Action>, i: nat)
    requires IsRun(states, actions) && i < |states|
    ensures states[i].stop ==> |states[i].answers| == |states[i].asked|
  {
    if i > 0 {
      StoppedWithoutGets(states, actions, i - 1);
      RunKeeps(states, actions, i - 1);
      StoppedStep(states[i - 1], actions[i - 1]);
    }
  }

  lemma StoppedStep(s: Cache, a: Action)
    requires Inv(s) && Enabled(s, a) && (s.stop ==> |s.answers| == |s.asked|)
    ensures var s' := Step(s, a); s'.stop ==> |s'.answers| == |s'.asked|
  {
    hide Unexpired, Ready, Numbers, Newest, Covered, Levels, Promises;
    NumbersAre(|s.answers|);
    NumbersAre(|s.asked|);
  }

  // ----- the water level -----

  /** Once the worker has dealt with a batch, the lookups processed since the last water-level prune are
      no more than the names it left: a further one cannot come without another prune.  And the name
      counts on which prunes were decided add up to less than twice the lookups processed. */
  lemma PrunesInTime(states: seq<Cache>, actions: seq<Action>, i: nat)
    requires IsRun(states, actions) && i < |states|
    ensures var s := states[i];
      && (Rest(s) == [] && !s.worker.Reading? ==> |s.fulfilled| - s.level.processed <= s.level.left)
      && (s.level.prunes > 0 ==> s.level.names < 2 * |s.fulfilled|)
  {
    hide Numbers;
    RunKeeps(states, actions, i);
  }

  // ----- the loop of clearExpired() -----

  method ClearExpired(s: Cache, now: int) returns (infos: map<Pid, nat>)
    requires forall pid :: pid in s.infos ==> s.infos[pid] < |s.nodes|
    ensures infos == Unexpired(s, now)
    ensures forall pid :: pid in infos ==> pid in s.infos && infos[pid] == s.infos[pid] && now < s.nodes[infos[pid]].lastAccess + s.expiry
    ensures forall pid :: pid in s.infos && pid !in infos ==> s.nodes[s.infos[pid]].lastAccess + s.expiry <= now
  {
    infos := s.infos;
    var iter := s.infos.Keys;
    while iter != {}
      invariant iter <= s.infos.Keys
      invariant infos == map pid | pid in s.infos && (pid in iter || !Expired(s, pid, now)) :: s.infos[pid]
      decreases |iter|
    {
      var pid :| pid in iter;
      if Expired(s, pid, now) {
        infos := infos - {pid};
      }
      iter := iter - {pid};
    }
  }
}
