/** ProcessInfoCache (eden/common/utils/ProcessInfoCache.cpp): callers queue lookups for a worker thread
    and post a semaphore after releasing the lock; the worker takes everything queued at once.  The
    steps are the stretches of code between lock and semaphore operations. */
module ProcessInfoCache {
  import opened Numbering

  type Pid = nat

  /** A cached node; its number is the number of its promise. */
  datatype Node = Node(pid: Pid, lastAccess: int)

  datatype Worker = Waiting | Awake | Taken | Reading(rest: seq<nat>) | Answering(now: int) | Stopped

  /** The water level, and as history what the water-level prunes did: how many there were, the sum of
      the name counts they were decided on, and at the last one the names it left and the lookups
      queued and processed until then. */
  datatype Level = Level(waterLevel: nat, prunes: nat, names: nat, left: nat, queued: nat, processed: nat)

  /** `unposted` counts the threads between their unlock and their post.  `batch`, `gets`, `names` are
      the worker's locals.  History: the promises fulfilled, those that hold an exception, for each
      getAllProcessInfos() the number of lookups queued before it, and the answers given. */
  datatype Cache = Cache(
    clock: int,
    expiry: int,
    infos: map<Pid, nat>,
    nodes: seq<Node>,
    lookupQueue: seq<nat>,
    getAllQueue: seq<nat>,
    stop: bool,
    tokens: nat,
    unposted: nat,
    worker: Worker,
    batch: seq<nat>,
    gets: seq<nat>,
    names: nat,
    level: Level,
    fulfilled: seq<nat>,
    failed: set<nat>,
    asked: seq<nat>,
    answers: seq<map<Pid, nat>>)

  function Initial(clock: int, expiry: int): Cache {
    Cache(clock, expiry, map[], [], [], [], false, 0, 0, Waiting, [], [], 0, Level(0, 0, 0, 0, 0, 0), [], {}, [], [])
  }

  /** `now` is what a caller read from the clock when it started. */
  datatype Action =
    | Tick(to: int)
    | RecordAccess(node: nat, now: int)   // through a handle or the thread-local cache
    | Lookup(pid: Pid, now: int)          // lookup() from wlock() on
    | AddCheck(pid: Pid, now: int)        // add() under the reader lock
    | AddUpdate(pid: Pid, now: int)       // add() from wlock() on
    | GetAll
    | Shutdown
    | Post
    | Wake
    | Swap
    | Drain
    | Read(ok: bool)
    | Bump(now: int)
    | Answer

  predicate Enabled(s: Cache, a: Action) {
    match a
    case Tick(to) => s.clock <= to
    case RecordAccess(node, now) => node < |s.nodes| && now <= s.clock
    case Lookup(_, now) => !s.stop && now <= s.clock
    case AddCheck(_, now) => !s.stop && now <= s.clock
    case AddUpdate(_, now) => !s.stop && now <= s.clock
    case GetAll => !s.stop
    case Shutdown => !s.stop && s.unposted == 0 && |s.answers| == |s.asked|   // no caller is inside
    case Post => s.unposted > 0
    case Wake => s.worker.Waiting? && s.tokens > 0
    case Swap => s.worker.Awake?
    case Drain => s.worker.Taken?
    case Read(_) => s.worker.Reading? && s.worker.rest != []
    case Bump(now) => s.worker == Reading([]) && now <= s.clock
    case Answer => s.worker.Answering?
  }

  function Accessed(s: Cache, node: nat, now: int): Cache
    requires node < |s.nodes|
  {
    s.(nodes := s.nodes[node := s.nodes[node].(lastAccess := now)])
  }

  /** A new node: queued, cached, and to be posted. */
  function Enqueued(s: Cache, pid: Pid, now: int): Cache {
    var id := |s.nodes|;
    s.(nodes := s.nodes + [Node(pid, now)], lookupQueue := s.lookupQueue + [id], infos := s.infos[pid := id],
       unposted := s.unposted + 1)
  }

  /** The check of add(), under either lock. */
  function Checked(s: Cache, pid: Pid, now: int): Cache {
    if pid in s.infos && s.infos[pid] < |s.nodes| then Accessed(s, s.infos[pid], now) else s
  }

  predicate Expired(s: Cache, pid: Pid, now: int)
    requires pid in s.infos
  {
    s.infos[pid] < |s.nodes| && now - s.nodes[s.infos[pid]].lastAccess >= s.expiry
  }

  /** clearExpired(). */
  function Unexpired(s: Cache, now: int): map<Pid, nat> {
    map pid | pid in s.infos && !Expired(s, pid, now) :: s.infos[pid]
  }

  /** Those cached nodes whose promise holds a value. */
  function Ready(s: Cache, infos: map<Pid, nat>): map<Pid, nat> {
    map pid | pid in infos && infos[pid] in s.fulfilled && infos[pid] !in s.failed :: infos[pid]
  }

  function Bumped(s: Cache, now: int): Cache {
    var level := s.level.waterLevel + 2 * |s.batch|;
    if level > s.names then
      var kept := Unexpired(s, now);
      s.(infos := kept, worker := Answering(now),
         level := Level(0, s.level.prunes + 1, s.level.names + s.names, |kept|, |s.nodes|, |s.fulfilled|))
    else s.(worker := Answering(now), level := s.level.(waterLevel := level))
  }

  function Answered(s: Cache, now: int): Cache {
    if s.gets == [] then s.(worker := Waiting, batch := [])
    else
      var kept := Unexpired(s, now);
      var answer := Ready(s, kept);
      s.(infos := kept, answers := s.answers + seq(|s.gets|, _ => answer), worker := Waiting, batch := [], gets := [])
  }

  function Step(s: Cache, a: Action): Cache
    requires Enabled(s, a)
  {
    match a
    case Tick(to) => s.(clock := to)
    case RecordAccess(node, now) => Accessed(s, node, now)
    case Lookup(pid, now) => if pid in s.infos then s else Enqueued(s, pid, now)
    case AddCheck(pid, now) => Checked(s, pid, now)
    case AddUpdate(pid, now) => if pid in s.infos then Checked(s, pid, now) else Enqueued(s, pid, now)
    case GetAll =>
      s.(getAllQueue := s.getAllQueue + [|s.asked|], asked := s.asked + [|s.nodes|], unposted := s.unposted + 1)
    case Shutdown => s.(stop := true, unposted := s.unposted + 1)
    case Post => s.(tokens := s.tokens + 1, unposted := s.unposted - 1)
    case Wake => s.(tokens := s.tokens - 1, worker := Awake)
    case Swap =>
      if s.stop then s.(worker := Stopped)
      else
        s.(batch := s.lookupQueue, gets := s.getAllQueue, names := |s.infos|, lookupQueue := [], getAllQueue := [],
           worker := Taken)
    case Drain =>
      var n := |s.batch| + |s.gets|;
      s.(tokens := if n == 0 then s.tokens else s.tokens - Min(s.tokens, n - 1), worker := Reading(s.batch))
    case Read(ok) =>
      var id := s.worker.rest[0];
      s.(fulfilled := s.fulfilled + [id], failed := if ok then s.failed else s.failed + {id}, worker := Reading(s.worker.rest[1..]))
    case Bump(now) => Bumped(s, now)
    case Answer => Answered(s, s.worker.now)
  }

  // ----- what every step keeps -----

  /** The promises that the worker has taken and not yet fulfilled. */
  function Rest(s: Cache): seq<nat> {
    if s.worker.Taken? then s.batch else if s.worker.Reading? then s.worker.rest else []
  }

  /** Promises are fulfilled in the order of the lookups, each once: they are fulfilled, in the
      worker's hands, or queued. */
  predicate Promises(s: Cache) {
    s.fulfilled + Rest(s) + s.lookupQueue == Numbers(|s.nodes|)
  }

  /** The cached node of a pid is the newest of that pid. */
  predicate Newest(s: Cache) {
    forall pid :: pid in s.infos ==>
      && s.infos[pid] < |s.nodes| && s.nodes[s.infos[pid]].pid == pid
      && forall k :: s.infos[pid] < k < |s.nodes| ==> s.nodes[k].pid != pid
  }

  function Queued(s: Cache): nat {
    |s.lookupQueue| + |s.getAllQueue| + if s.stop then 1 else 0
  }

  /** The semaphore covers what is queued; while the worker is awake it holds one count itself, and
      after it has taken n requests it may consume n - 1 more. */
  predicate Covered(s: Cache) {
    match s.worker
    case Awake => s.tokens + s.unposted + 1 >= Queued(s)
    case Taken => s.tokens + s.unposted >= Queued(s) + (if |s.batch| + |s.gets| == 0 then 0 else |s.batch| + |s.gets| - 1)
    case Stopped => true
    case _ => s.tokens + s.unposted >= Queued(s)
  }

  /** Every getAllProcessInfos() is answered, in the worker's hands, or queued; the worker that has it
      has every lookup queued before it. */
  predicate Gets(s: Cache) {
    && Numbers(|s.answers|) + s.gets + s.getAllQueue == Numbers(|s.asked|)
    && (s.worker.Waiting? || s.worker.Awake? || s.worker.Stopped? ==> s.gets == [])
    && (forall g :: 0 <= g < |s.asked| ==> s.asked[g] <= |s.nodes|)
    && (forall g :: g in s.gets ==> g < |s.asked| && s.asked[g] <= |s.fulfilled| + |Rest(s)|)
  }

  predicate Prunable(s: Cache) {
    s.worker.Taken? || s.worker.Reading?
  }

  /** The lookups processed since the last prune, counting the batch only once its check was made. */
  function SinceLast(s: Cache): int {
    |s.fulfilled| + |Rest(s)| - s.level.processed - if Prunable(s) then |s.batch| else 0
  }

  predicate Levels(s: Cache) {
    var l := s.level;
    && l.waterLevel == 2 * SinceLast(s)
    && l.processed <= l.queued <= |s.nodes|
    && l.processed <= |s.fulfilled|
    && SinceLast(s) <= l.left
    && l.names + l.prunes <= 2 * l.processed
    && |s.infos| <= l.left + |s.nodes| - l.queued
    && (Prunable(s) ==> s.names <= l.left + (|s.fulfilled| + |Rest(s)|) - l.queued && |Rest(s)| <= |s.batch|)
  }

  predicate Inv(s: Cache) {
    Promises(s) && Newest(s) && Covered(s) && Gets(s) && Levels(s)
  }

  lemma CoveredKept(s: Cache, a: Action)
    requires Covered(s) && Enabled(s, a)
    ensures Covered(Step(s, a))
  {
    hide Checked, Unexpired, Ready;
    match a
    case AddCheck(pid, now) => CheckedIs(s, pid, now);
    case AddUpdate(pid, now) => CheckedIs(s, pid, now);
    case _ =>
  }

  lemma NewestAccessed(s: Cache, node: nat, now: int)
    requires Newest(s) && node < |s.nodes|
    ensures Newest(Accessed(s, node, now))
  {
    assert forall k :: 0 <= k < |s.nodes| ==> Accessed(s, node, now).nodes[k].pid == s.nodes[k].pid;
  }

  /** Recording an access changes no more than one node's time. */
  lemma CheckedIs(s: Cache, pid: Pid, now: int)
    ensures |Checked(s, pid, now).nodes| == |s.nodes|
    ensures Checked(s, pid, now) == s.(nodes := Checked(s, pid, now).nodes)
  {
  }

  lemma NewestChecked(s: Cache, pid: Pid, now: int)
    requires Newest(s)
    ensures Newest(Checked(s, pid, now))
  {
    hide Newest, Accessed;
    if pid in s.infos && s.infos[pid] < |s.nodes| {
      NewestAccessed(s, s.infos[pid], now);
    }
  }

  lemma NewestEnqueued(s: Cache, pid: Pid, now: int)
    requires Newest(s) && pid !in s.infos
    ensures Newest(Enqueued(s, pid, now))
  {
  }

  /** Fewer names, or a state that differs elsewhere. */
  lemma NewestFewer(s: Cache, s': Cache)
    requires Newest(s) && s'.nodes == s.nodes
    requires forall pid :: pid in s'.infos ==> pid in s.infos && s'.infos[pid] == s.infos[pid]
    ensures Newest(s')
  {
  }

  lemma NewestKept(s: Cache, a: Action)
    requires Newest(s) && Enabled(s, a)
    ensures Newest(Step(s, a))
  {
    hide Newest, Accessed, Checked, Enqueued, Ready;
    match a
    case RecordAccess(node, now) => NewestAccessed(s, node, now);
    case Lookup(pid, now) => if pid !in s.infos { NewestEnqueued(s, pid, now); }
    case AddCheck(pid, now) => NewestChecked(s, pid, now);
    case AddUpdate(pid, now) => if pid in s.infos { NewestChecked(s, pid, now); } else { NewestEnqueued(s, pid, now); }
    case _ => NewestFewer(s, Step(s, a));
  }

  lemma PromisesKept(s: Cache, a: Action)
    requires Promises(s) && Enabled(s, a)
    ensures Promises(Step(s, a))
  {
    hide Unexpired, Ready, Checked, Enqueued;
    match a
    case Lookup(pid, now) => PromisesEnqueued(s, pid, now);
    case AddCheck(pid, now) => CheckedIs(s, pid, now);
    case AddUpdate(pid, now) =>
      CheckedIs(s, pid, now);
      PromisesEnqueued(s, pid, now);
    case Read(_) =>
      var rest := s.worker.rest;
      assert s.fulfilled + [rest[0]] + rest[1..] == s.fulfilled + rest;
    case _ =>
  }

  lemma PromisesEnqueued(s: Cache, pid: Pid, now: int)
    requires Promises(s)
    ensures Promises(Enqueued(s, pid, now))
  {
    NumbersNext(|s.nodes|);
    var done := s.fulfilled + Rest(s);
    assert done + (s.lookupQueue + [|s.nodes|]) == done + s.lookupQueue + [|s.nodes|];
  }

  lemma PromisesAre(s: Cache)
    requires Promises(s)
    ensures |s.fulfilled| + |Rest(s)| + |s.lookupQueue| == |s.nodes|
  {
    NumbersSplit(s.fulfilled + Rest(s), s.lookupQueue, |s.nodes|);
  }

  lemma AnswerGets(s: Cache)
    requires Gets(s) && s.worker.Answering?
    ensures Gets(Answered(s, s.worker.now))
  {
    hide Unexpired, Ready, Numbers;
    NumbersAre(|s.answers|);
    NumbersSplit(Numbers(|s.answers|) + s.gets, s.getAllQueue, |s.asked|);
  }

  lemma AskedGets(s: Cache)
    requires Gets(s) && Enabled(s, GetAll)
    ensures Gets(Step(s, GetAll))
  {
    hide Numbers;
    NumbersNext(|s.asked|);
    var given := Numbers(|s.answers|) + s.gets;
    assert given + (s.getAllQueue + [|s.asked|]) == given + s.getAllQueue + [|s.asked|];
  }

  lemma SwapGets(s: Cache)
    requires Promises(s) && Gets(s) && Enabled(s, Swap)
    ensures Gets(Step(s, Swap))
  {
    hide Numbers, Promises;
    PromisesAre(s);
    NumbersSplit(Numbers(|s.answers|) + s.gets, s.getAllQueue, |s.asked|);
    assert Numbers(|s.answers|) + [] + s.getAllQueue + [] == Numbers(|s.answers|) + [] + s.getAllQueue;
  }

  lemma GetsKept(s: Cache, a: Action)
    requires Promises(s) && Gets(s) && Enabled(s, a)
    ensures Gets(Step(s, a))
  {
    hide Numbers, Unexpired, Answered, Checked, Promises;
    match a
    case AddCheck(pid, now) => CheckedIs(s, pid, now);
    case AddUpdate(pid, now) => CheckedIs(s, pid, now);
    case GetAll => AskedGets(s);
    case Swap => SwapGets(s);
    case Answer => AnswerGets(s);
    case _ =>
  }

  lemma FewerNames(s: Cache, now: int)
    ensures |Unexpired(s, now)| <= |s.infos|
  {
    var kept := Unexpired(s, now);
    assert kept.Keys <= s.infos.Keys;
    SubsetSize(kept.Keys, s.infos.Keys);
  }

  lemma BumpLevels(s: Cache, now: int)
    requires Promises(s) && Levels(s) && Enabled(s, Bump(now))
    ensures Levels(Step(s, Bump(now)))
  {
    hide Unexpired, Ready, Numbers;
    NumbersSplit(s.fulfilled + Rest(s), s.lookupQueue, |s.nodes|);
  }

  lemma EnqueuedLevels(s: Cache, pid: Pid, now: int)
    requires Levels(s) && pid !in s.infos
    ensures Levels(Enqueued(s, pid, now))
  {
    assert Enqueued(s, pid, now).infos.Keys == s.infos.Keys + {pid};
  }

  lemma AnswerLevels(s: Cache, now: int)
    requires Levels(s) && s.worker.Answering?
    ensures Levels(Answered(s, now))
  {
    hide Unexpired, Ready;
    FewerNames(s, now);
  }

  lemma LevelsKept(s: Cache, a: Action)
    requires Promises(s) && Levels(s) && Enabled(s, a)
    ensures Levels(Step(s, a))
  {
    hide Numbers, Bumped, Answered, Checked, Enqueued, Promises;
    match a
    case Lookup(pid, now) => if pid !in s.infos { EnqueuedLevels(s, pid, now); }
    case AddCheck(pid, now) => CheckedIs(s, pid, now);
    case AddUpdate(pid, now) =>
      CheckedIs(s, pid, now);
      if pid !in s.infos { EnqueuedLevels(s, pid, now); }
    case Swap => PromisesAre(s);
    case Bump(now) => BumpLevels(s, now);
    case Answer => AnswerLevels(s, s.worker.now);
    case _ =>
  }

  lemma StepKeeps(s: Cache, a: Action)
    requires Inv(s) && Enabled(s, a)
    ensures Inv(Step(s, a))
  {
    hide Step, Enabled, Promises, Newest, Covered, Gets, Levels;
    PromisesKept(s, a);
    NewestKept(s, a);
    CoveredKept(s, a);
    GetsKept(s, a);
    LevelsKept(s, a);
  }
}
