/** generateUniqueID() (eden/common/utils/IDGen.cpp): threads draw ranges of numbers from a shared
    64-bit counter and hand them out one by one. */
module IdGen {

  type Thread = nat

  const WRAP := 0x1_0000_0000_0000_0000
  const RANGE_SIZE := 2048

  /** The shared counter, the threads' own, and as history the number of ranges drawn and the ids given out. */
  datatype State = State(global: nat, local: map<Thread, nat>, drawn: nat, ids: seq<nat>)

  function Initial(): State {
    State(0, map[], 0, [])
  }

  function Local(s: State, t: Thread): nat {
    if t in s.local then s.local[t] else 0
  }

  /** One call by thread t; fetch_add is its only access to shared memory. */
  function Generate(s: State, t: Thread): State {
    var current := Local(s, t);
    if current % RANGE_SIZE == 0 then
      var id := (s.global + 1) % WRAP;
      State((s.global + RANGE_SIZE) % WRAP, s.local[t := id], s.drawn + 1, s.ids + [id])
    else
      var id := (current + 1) % WRAP;
      s.(local := s.local[t := id], ids := s.ids + [id])
  }

  function Range(id: nat): int {
    (id - 1) / RANGE_SIZE
  }

  /** Thread t has a range that it has not used up. */
  predicate Active(s: State, t: Thread) {
    t in s.local && s.local[t] % RANGE_SIZE != 0
  }

  predicate Counters(s: State) {
    && s.global == s.drawn * RANGE_SIZE
    && forall t :: t in s.local ==> 0 < s.local[t] <= s.global
  }

  /** Two threads never have the same unused range, and what is unused of a range was never given out. */
  ghost predicate Ranges(s: State) {
    && (forall t, u :: t != u && Active(s, t) && Active(s, u) ==> Range(s.local[t]) != Range(s.local[u]))
    && (forall t, k :: Active(s, t) && 0 <= k < |s.ids| && Range(s.ids[k]) == Range(s.local[t]) ==> s.ids[k] <= s.local[t])
  }

  predicate Unique(s: State) {
    && (forall k :: 0 <= k < |s.ids| ==> 0 < s.ids[k] <= s.global)
    && forall j, k :: 0 <= j < k < |s.ids| ==> s.ids[j] != s.ids[k]
  }

  ghost predicate Inv(s: State) {
    Counters(s) && Ranges(s) && Unique(s)
  }

  /** The shared counter has not come round to zero. */
  predicate NotWrapped(s: State) {
    s.drawn * RANGE_SIZE < WRAP
  }

  lemma NextInRange(id: nat)
    requires id > 0 && id % RANGE_SIZE != 0
    ensures Range(id + 1) == Range(id)
  {
  }

  /** What has been drawn so far lies in the ranges before number `drawn`, which the next draw opens. */
  lemma RangesDrawn(drawn: nat, id: nat)
    ensures 0 < id <= drawn * RANGE_SIZE ==> Range(id) < drawn
    ensures Range(drawn * RANGE_SIZE + 1) == drawn
    ensures (drawn * RANGE_SIZE + 1) % RANGE_SIZE != 0
  {
  }

  lemma DrawIs(s: State, t: Thread)
    requires Counters(s) && NotWrapped(Generate(s, t)) && Local(s, t) % RANGE_SIZE == 0
    ensures Generate(s, t) == State(s.global + RANGE_SIZE, s.local[t := s.global + 1], s.drawn + 1, s.ids + [s.global + 1])
  {
  }

  lemma DrawKeeps(s: State, t: Thread)
    requires Inv(s) && NotWrapped(Generate(s, t)) && Local(s, t) % RANGE_SIZE == 0
    ensures Inv(Generate(s, t))
  {
    DrawIs(s, t);
    hide Generate;
    DrawRanges(s, t);
    var id := s.global + 1;
    assert forall k :: 0 <= k < |s.ids| ==> (s.ids + [id])[k] == s.ids[k];
  }

  /** The new range is above all that was drawn before. */
  lemma DrawRanges(s: State, t: Thread)
    requires Inv(s)
    ensures Ranges(State(s.global + RANGE_SIZE, s.local[t := s.global + 1], s.drawn + 1, s.ids + [s.global + 1]))
  {
    hide Range;
    forall id: nat ensures 0 < id <= s.global ==> Range(id) < s.drawn {
      RangesDrawn(s.drawn, id);
    }
    RangesDrawn(s.drawn, 1);
  }

  lemma UseIs(s: State, t: Thread)
    requires Counters(s) && NotWrapped(s) && Local(s, t) % RANGE_SIZE != 0
    ensures t in s.local && s.local[t] < s.global
    ensures Generate(s, t) == s.(local := s.local[t := s.local[t] + 1], ids := s.ids + [s.local[t] + 1])
  {
  }

  lemma UseKeeps(s: State, t: Thread)
    requires Inv(s) && NotWrapped(s) && Local(s, t) % RANGE_SIZE != 0
    ensures Inv(Generate(s, t))
  {
    UseIs(s, t);
    hide Generate, Range;
    NextInRange(s.local[t]);
  }

  predicate IsRun(states: seq<State>, threads: seq<Thread>) {
    && |states| == |threads| + 1
    && states[0] == Initial()
    && forall i :: 0 <= i < |threads| ==> states[i + 1] == Generate(states[i], threads[i])
  }

  lemma {:induction false} RunKeeps(states: seq<State>, threads: seq<Thread>, i: nat)
    requires IsRun(states, threads) && i < |states| && NotWrapped(states[i])
    ensures Inv(states[i])
  {
    if i > 0 {
      var s, t := states[i - 1], threads[i - 1];
      DrawnGrows(s, t);
      RunKeeps(states, threads, i - 1);
      if Local(s, t) % RANGE_SIZE == 0 {
        DrawKeeps(s, t);
      } else {
        UseKeeps(s, t);
      }
    }
  }

  lemma DrawnGrows(s: State, t: Thread)
    ensures NotWrapped(Generate(s, t)) ==> NotWrapped(s)
  {
  }

  /** A thread counts up in the range that it has drawn, and when that is used up draws the next one, which
      begins behind all that were drawn before. */
  lemma EachIdIs(states: seq<State>, threads: seq<Thread>, i: nat)
    requires IsRun(states, threads) && i < |threads| && NotWrapped(states[i + 1])
    ensures var s, s', t := states[i], states[i + 1], threads[i];
      && s'.ids == s.ids + [Local(s', t)]
      && Local(s', t) == (if Local(s, t) % RANGE_SIZE == 0 then s.drawn * RANGE_SIZE else Local(s, t)) + 1
      && s'.drawn == s.drawn + (if Local(s, t) % RANGE_SIZE == 0 then 1 else 0)
      && forall u :: u != t ==> Local(s', u) == Local(s, u)
  {
    DrawnGrows(states[i], threads[i]);
    RunKeeps(states, threads, i);
    if Local(states[i], threads[i]) % RANGE_SIZE == 0 {
      DrawIs(states[i], threads[i]);
    } else {
      UseIs(states[i], threads[i]);
    }
  }

  /** In any interleaving of threads no id is repeated and none is zero, until the counter wraps. */
  lemma IdsAreUnique(states: seq<State>, threads: seq<Thread>, i: nat, j: nat, k: nat)
    requires IsRun(states, threads) && i < |states| && NotWrapped(states[i]) && j < k < |states[i].ids|
    ensures states[i].ids[j] != states[i].ids[k] && states[i].ids[j] != 0 && states[i].ids[k] != 0
  {
    RunKeeps(states, threads, i);
  }

  /** The range drawn when the counter wraps ends in the one id that is zero. */
  lemma ZeroAtTheEnd(s: State, t: Thread)
    requires s.global < WRAP && s.global % RANGE_SIZE == 0 && Local(s, t) < WRAP
    ensures var s' := Generate(s, t); s'.ids[|s.ids|] == 0 <==> Local(s, t) == WRAP - 1
  {
  }
}
