/** BucketedLog (eden/common/utils/BucketedLog.h): a ring of buckets over a sliding window of times.  A
    bucket is the sequence of the samples added to it; merging buckets puts them one after the other. */
module BucketedLog {

  // ----- what it stands for -----

  /** The window begins at `start`; `samples` has the nonempty buckets of the times inside it. */
  datatype Log<S> = Log(start: nat, samples: map<nat, seq<S>>)

  function At<S>(log: Log<S>, t: int): seq<S> {
    if t >= 0 && t in log.samples then log.samples[t] else []
  }

  function Later(a: nat, b: int): nat {
    if a < b then b else a
  }

  /** The window moves forward so that `now` is its last time, unless it reaches beyond. */
  function Advanced<S>(log: Log<S>, size: nat, now: nat): Log<S> {
    var start := Later(log.start, now + 1 - size);
    Log(start, map t | t in log.samples && start <= t :: log.samples[t])
  }

  function Added<S>(log: Log<S>, size: nat, now: nat, x: S): Log<S> {
    if now < log.start then log
    else
      var a := Advanced(log, size, now);
      a.(samples := a.samples[now := At(a, now) + [x]])
  }

  /** The window moves at least as far as the other's, and then the buckets of equal times are merged. */
  function Merged<S>(log: Log<S>, other: Log<S>, size: nat): Log<S>
    requires size > 0
  {
    Joined(Advanced(log, size, other.start + size - 1), other)
  }

  function Joined<S>(a: Log<S>, other: Log<S>): Log<S> {
    Log(a.start, map t | t in a.samples.Keys + other.samples.Keys && a.start <= t && At(a, t) + At(other, t) != [] :: At(a, t) + At(other, t))
  }

  /** The samples of the last `size` times up to now, the oldest first. */
  function Listed<S>(log: Log<S>, size: nat, now: nat): seq<seq<S>> {
    seq(size, i => At(log, now + 1 + i - size))
  }

  // ----- whole runs -----

  /** A call, made on the log; the log that is merged in is given by its own calls, and may be this one's so far. */
  datatype Call<S> = Add(now: nat, x: S) | GetAll(now: nat) | Merge(other: seq<Call<S>>) | Clear

  function Run<S>(calls: seq<Call<S>>, size: nat): Log<S>
    requires size > 0
    decreases calls
  {
    if calls == [] then Log(0, map[])
    else
      var log := Run(calls[..|calls| - 1], size);
      match calls[|calls| - 1]
      case Add(now, x) => Added(log, size, now, x)
      case GetAll(now) => Advanced(log, size, now)
      case Merge(other) => Merged(log, Run(other, size), size)
      case Clear => log.(samples := map[])
  }

  /** The samples added at time t since the last clear(), those merged in included, in order. */
  function SamplesAt<S>(calls: seq<Call<S>>, t: nat): seq<S>
    decreases calls
  {
    if calls == [] then []
    else
      var before := SamplesAt(calls[..|calls| - 1], t);
      match calls[|calls| - 1]
      case Add(now, x) => if now == t then before + [x] else before
      case GetAll(_) => before
      case Merge(other) => before + SamplesAt(other, t)
      case Clear => []
  }

  /** The newest time that a call, here or on a log merged in, has named. */
  function Newest<S>(calls: seq<Call<S>>): int
    decreases calls
  {
    if calls == [] then -1
    else
      var before := Newest(calls[..|calls| - 1]);
      match calls[|calls| - 1]
      case Add(now, _) => if now < before then before else now
      case GetAll(now) => if now < before then before else now
      case Merge(other) => if Newest(other) < before then before else Newest(other)
      case Clear => before
  }

  lemma AddedAt<S>(log: Log<S>, size: nat, now: nat, x: S, t: nat)
    ensures var a := Added(log, size, now, x);
      && a.start == (if now < log.start then log.start else Later(log.start, now + 1 - size))
      && (t >= a.start ==> At(a, t) == At(log, t) + if t == now then [x] else [])
      && (t < a.start && (t < log.start ==> At(log, t) == []) && size > 0 ==> At(a, t) == [])
  {
  }

  lemma AdvancedAt<S>(log: Log<S>, size: nat, now: nat, t: nat)
    ensures var a := Advanced(log, size, now);
      a.start == Later(log.start, now + 1 - size) && At(a, t) == if t >= a.start then At(log, t) else []
  {
  }

  lemma MergedAt<S>(log: Log<S>, other: Log<S>, size: nat, t: nat)
    requires size > 0
    ensures var a := Merged(log, other, size);
      a.start == Later(log.start, other.start) && At(a, t) == if t >= a.start then At(log, t) + At(other, t) else []
  {
    AdvancedAt(log, size, other.start + size - 1, t);
  }

  /** After any run of calls, whatever was ignored or dropped on the way: the window is the last `size`
      times up to the newest one named, and holds for each exactly the samples added at it. */
  lemma {:induction false} WindowHoldsSamples<S>(calls: seq<Call<S>>, size: nat, t: nat)
    requires size > 0
    ensures Run(calls, size).start == Later(0, Newest(calls) + 1 - size)
    ensures At(Run(calls, size), t) == if Run(calls, size).start <= t then SamplesAt(calls, t) else []
    decreases calls
  {
    hide Added, Advanced, Merged, At;
    if calls == [] {
      NothingAt<S>(t);
    } else {
      WindowHoldsSamples(calls[..|calls| - 1], size, t);
      var log := Run(calls[..|calls| - 1], size);
      match calls[|calls| - 1]
      case Add(now, x) => AddedAt(log, size, now, x, t);
      case GetAll(now) => AdvancedAt(log, size, now, t);
      case Merge(other) =>
        WindowHoldsSamples(other, size, t);
        MergedAt(log, Run(other, size), size, t);
      case Clear => ClearedAt(log, t);
    }
  }

  lemma NothingAt<S>(t: nat)
    ensures At<S>(Log(0, map[]), t) == []
  {
  }

  lemma ClearedAt<S>(log: Log<S>, t: nat)
    ensures At(log.(samples := map[]), t) == []
  {
  }

  // ----- the ring -----

  /** Slot t % size holds the bucket of each time t in the window, and nothing is known of other times. */
  function Ring<S>(buckets: seq<seq<S>>, start: nat): Log<S>
    requires |buckets| > 0
  {
    Log(start, map t | start <= t < start + |buckets| && buckets[t % |buckets|] != [] :: buckets[t % |buckets|])
  }

  lemma Multiple(d: int, n: nat)
    requires n > 0
    ensures d >= 1 ==> d * n >= n
    ensures d <= -1 ==> d * n + n <= 0
  {
    if d >= 1 {
      assert d * n == (d - 1) * n + n;
    } else if d <= -1 {
      assert d * n + n == 0 - (0 - d - 1) * n;
    }
  }

  /** Times less than a window apart that share a slot are the same. */
  lemma SameSlot(t: nat, u: nat, n: nat)
    requires n > 0 && t < u + n && u < t + n
    ensures t % n == u % n ==> t == u
  {
    var d := t / n - u / n;
    Multiple(d, n);
    assert t == (t / n) * n + t % n && u == (u / n) * n + u % n;
    assert d * n == (t / n) * n - (u / n) * n;
  }

  lemma NextSlot(t: nat, n: nat)
    requires n > 0
    ensures (t + n) % n == t % n
  {
    var d := (t + n) / n - t / n - 1;
    Multiple(d, n);
    assert t + n == ((t + n) / n) * n + (t + n) % n && t == (t / n) * n + t % n;
    assert d * n == ((t + n) / n) * n - (t / n) * n - n;
  }

  /** Every slot is that of some time in the window. */
  lemma {:induction false} SlotTaken(start: nat, k: nat, n: nat) returns (t: nat)
    requires n > 0
    ensures start <= t < start + n && t % n == k % n
    decreases if k < start then start - k else 0, k
  {
    if k < start {
      NextSlot(k, n);
      t := SlotTaken(start, k + n, n);
    } else if k >= start + n {
      NextSlot(k - n, n);
      t := SlotTaken(start, k - n, n);
    } else {
      t := k;
    }
  }

  lemma RingAt<S>(buckets: seq<seq<S>>, start: nat, t: int)
    requires |buckets| > 0
    ensures At(Ring(buckets, start), t) == if start <= t < start + |buckets| then buckets[t % |buckets|] else []
  {
  }

  /** Two logs with the same window and the same buckets, none of them stored empty, are the same. */
  lemma SameLog<S>(a: Log<S>, b: Log<S>)
    requires a.start == b.start && forall t: nat :: At(a, t) == At(b, t)
    requires forall t :: t in a.samples ==> a.samples[t] != []
    requires forall t :: t in b.samples ==> b.samples[t] != []
    ensures a == b
  {
    forall t ensures t in a.samples <==> t in b.samples {
      assert At(a, t) == At(b, t);
    }
    forall t | t in a.samples ensures a.samples[t] == b.samples[t] {
      assert At(a, t) == At(b, t);
    }
  }

  // ----- the object -----

  /** The slots of the times from..to emptied. */
  function Emptied<S>(buckets: seq<seq<S>>, from: nat, upTo: nat): (r: seq<seq<S>>)
    requires |buckets| > 0 && from <= upTo
    ensures |r| == |buckets|
    decreases upTo
  {
    if from == upTo then buckets else Emptied(buckets, from, upTo - 1)[(upTo - 1) % |buckets| := []]
  }

  lemma {:induction false} EmptiedAt<S>(buckets: seq<seq<S>>, from: nat, upTo: nat, t: nat)
    requires |buckets| > 0 && from <= upTo
    ensures (exists p :: from <= p < upTo && p % |buckets| == t % |buckets|) ==> Emptied(buckets, from, upTo)[t % |buckets|] == []
    ensures (forall p :: from <= p < upTo ==> p % |buckets| != t % |buckets|) ==>
      Emptied(buckets, from, upTo)[t % |buckets|] == buckets[t % |buckets|]
    decreases upTo
  {
    if from < upTo {
      EmptiedAt(buckets, from, upTo - 1, t);
    }
  }

  function MovedTo<S>(buckets: seq<seq<S>>, start: nat, now: nat): (seq<seq<S>>, nat)
    requires |buckets| > 0
  {
    var n := |buckets|;
    if now < start + n then (buckets, start)
    else
      var newStart := now + 1 - n;
      var toClear := if newStart - start < n then newStart - start else n;
      (Emptied(buckets, newStart - toClear, newStart), newStart)
  }

  /** Emptying the slots that the window leaves is dropping the buckets before it. */
  lemma MovedIs<S>(buckets: seq<seq<S>>, start: nat, now: nat)
    requires |buckets| > 0
    ensures var (b, w) := MovedTo(buckets, start, now);
      Ring(b, w) == Advanced(Ring(buckets, start), |buckets|, now) && now < w + |buckets|
  {
    hide Emptied;
    var n := |buckets|;
    var (b, w) := MovedTo(buckets, start, now);
    if now >= start + n {
      forall t: nat ensures At(Ring(b, w), t) == At(Advanced(Ring(buckets, start), n, now), t) {
        RingAt(b, w, t);
        RingAt(buckets, start, t);
        if w <= t < w + n {
          MovedSlot(buckets, start, w, t);
        }
      }
    } else {
      assert forall t: nat :: At(Ring(b, w), t) == At(Advanced(Ring(buckets, start), n, now), t);
    }
    SameLog(Ring(b, w), Advanced(Ring(buckets, start), n, now));
  }

  lemma MovedSlot<S>(buckets: seq<seq<S>>, start: nat, newStart: nat, t: nat)
    requires |buckets| > 0 && start <= newStart <= t < newStart + |buckets|
    ensures var n := |buckets|;
      var toClear := if newStart - start < n then newStart - start else n;
      Emptied(buckets, newStart - toClear, newStart)[t % n] == if t < start + n then buckets[t % n] else []
  {
    hide Emptied;
    var n := |buckets|;
    var from := newStart - if newStart - start < n then newStart - start else n;
    EmptiedAt(buckets, from, newStart, t);
    if t < start + n {
      forall p | from <= p < newStart ensures p % n != t % n {
        SameSlot(t, p, n);
      }
    } else {
      NextSlot(t - n, n);
      assert from <= t - n < newStart;
    }
  }

  lemma EmptiedSteps<S>(buckets: seq<seq<S>>, from: nat, upTo: nat)
    requires |buckets| > 0 && from <= upTo
    ensures Emptied(buckets, from, from) == buckets
    ensures Emptied(buckets, from, upTo + 1) == Emptied(buckets, from, upTo)[upTo % |buckets| := []]
  {
  }

  /** One sample more in the slot of a time in the window. */
  lemma AddedSlot<S>(buckets: seq<seq<S>>, start: nat, now: nat, x: S)
    requires |buckets| > 0 && start <= now < start + |buckets|
    ensures var log, slot := Ring(buckets, start), now % |buckets|;
      Ring(buckets[slot := buckets[slot] + [x]], start) == log.(samples := log.samples[now := At(log, now) + [x]])
  {
    hide Ring;
    var n, slot := |buckets|, now % |buckets|;
    var b := buckets[slot := buckets[slot] + [x]];
    var log := Ring(buckets, start);
    var more := log.(samples := log.samples[now := At(log, now) + [x]]);
    forall t: nat ensures At(Ring(b, start), t) == At(more, t) {
      RingAt(b, start, t);
      RingAt(buckets, start, t);
      RingAt(buckets, start, now);
      if start <= t < start + n {
        SameSlot(t, now, n);
      }
    }
    RingIs(buckets, start);
    RingIs(b, start);
    SameLog(Ring(b, start), more);
  }

  lemma RingIs<S>(buckets: seq<seq<S>>, start: nat)
    requires |buckets| > 0
    ensures var log := Ring(buckets, start); log.start == start && forall t :: t in log.samples ==> log.samples[t] != []
  {
  }

  function MergedSlot<S>(mine: seq<seq<S>>, theirs: seq<seq<S>>, theirStart: nat, t: nat): seq<S>
    requires |mine| == |theirs| > 0
  {
    mine[t % |mine|] + if theirStart <= t < theirStart + |mine| then theirs[t % |mine|] else []
  }

  lemma MergedRing<S>(mine: seq<seq<S>>, start: nat, theirs: seq<seq<S>>, theirStart: nat, final: seq<seq<S>>)
    requires |mine| == |theirs| == |final| > 0 && theirStart <= start
    requires forall t: nat :: start <= t < start + |mine| ==> final[t % |mine|] == MergedSlot(mine, theirs, theirStart, t)
    ensures Ring(final, start) == Joined(Ring(mine, start), Ring(theirs, theirStart))
  {
    hide Ring;
    var a, other := Ring(mine, start), Ring(theirs, theirStart);
    RingIs(mine, start);
    RingIs(final, start);
    forall t: nat ensures At(Ring(final, start), t) == At(Joined(a, other), t) {
      RingAt(final, start, t);
      RingAt(mine, start, t);
      RingAt(theirs, theirStart, t);
    }
    SameLog(Ring(final, start), Joined(a, other));
  }

  lemma ListedAt<S>(buckets: seq<seq<S>>, start: nat, now: nat, i: nat)
    requires |buckets| > 0 && now < start + |buckets| && i < |buckets|
    ensures Listed(Ring(buckets, start), |buckets|, now)[i] ==
      var u := now + 1 + i - |buckets|; if start <= u then buckets[(now + 1 + i) % |buckets|] else []
  {
    hide Ring;
    var u := now + 1 + i - |buckets|;
    RingAt(buckets, start, u);
    if u >= 0 {
      NextSlot(u, |buckets|);
    }
  }

  /** What getAll() reads, slot by slot, is the list of the last times exactly when no sample is newer. */
  lemma ListingExact<S>(buckets: seq<seq<S>>, start: nat, now: nat, result: seq<seq<S>>)
    requires |buckets| > 0 && now < start + |buckets| && |result| == |buckets|
    requires forall k :: 0 <= k < |result| ==> result[k] == buckets[(now + 1 + k) % |buckets|]
    ensures result == Listed(Ring(buckets, start), |buckets|, now) <==> forall t: nat :: now < t ==> At(Ring(buckets, start), t) == []
  {
    hide Ring;
    var n, log := |buckets|, Ring(buckets, start);
    if forall t: nat :: now < t ==> At(log, t) == [] {
      forall i | 0 <= i < n ensures result[i] == Listed(log, n, now)[i] {
        ListedAt(buckets, start, now, i);
        if now + 1 + i - n < start {
          NewestSlot(buckets, start, now, i);
        }
      }
    }
    if result == Listed(log, n, now) {
      forall t: nat | now < t ensures At(log, t) == [] {
        RingAt(buckets, start, t);
        if start <= t < start + n {
          var v := SlotTaken(now + 1, t, n);
          var i := v - (now + 1);
          ListedAt(buckets, start, now, i);
          if start <= v - n {
            NextSlot(v - n, n);
            SameSlot(t, v - n, n);
          }
        }
      }
    }
  }

  /** With nothing newer, a slot read for a time before the window is empty. */
  lemma NewestSlot<S>(buckets: seq<seq<S>>, start: nat, now: nat, i: nat)
    requires |buckets| > 0 && now < start + |buckets| && i < |buckets| && now + 1 + i - |buckets| < start
    requires forall t: nat :: now < t ==> At(Ring(buckets, start), t) == []
    ensures buckets[(now + 1 + i) % |buckets|] == []
  {
    hide Ring;
    var n := |buckets|;
    var v := now + 1 + i;
    var t := SlotTaken(start, v, n);
    RingAt(buckets, start, t);
    if t <= now {
      NextSlot(t, n);
      SameSlot(t + n, v, n);
    }
  }

  class BucketedLog<S> {
    const buckets: array<seq<S>>
    var windowStart: nat

    ghost predicate Valid() {
      buckets.Length > 0
    }

    ghost function Model(): Log<S>
      requires Valid()
      reads this, buckets
    {
      Ring(buckets[..], windowStart)
    }

    constructor (size: nat)
      requires size > 0
      ensures Valid() && fresh(buckets) && buckets.Length == size && Model() == Log(0, map[])
    {
      buckets := new seq<S>[size](_ => []);
      windowStart := 0;
    }

    method AdvanceWindow(now: nat)
      requires Valid()
      modifies this, buckets
      ensures (buckets[..], windowStart) == MovedTo(old(buckets[..]), old(windowStart), now)
      ensures Model() == Advanced(old(Model()), buckets.Length, now) && now < windowStart + buckets.Length
    {
      hide Emptied, Ring, Advanced;
      ghost var before := buckets[..];
      MovedIs(before, windowStart, now);
      if now < windowStart + buckets.Length {
        return;
      }
      var newWindowStart := now + 1 - buckets.Length;
      var toClear := if newWindowStart - windowStart < buckets.Length then newWindowStart - windowStart else buckets.Length;
      var p: nat := newWindowStart - toClear;
      EmptiedSteps(before, p, p);
      while p < newWindowStart
        invariant newWindowStart - toClear <= p <= newWindowStart
        invariant windowStart == old(windowStart)
        invariant buckets[..] == Emptied(before, newWindowStart - toClear, p)
      {
        EmptiedSteps(before, newWindowStart - toClear, p);
        buckets[p % buckets.Length] := [];
        p := p + 1;
      }
      windowStart := newWindowStart;
    }

    method Add(now: nat, x: S)
      requires Valid()
      modifies this, buckets
      ensures Model() == Added(old(Model()), buckets.Length, now, x)
    {
      hide Ring, Advanced;
      RingIs(buckets[..], windowStart);
      if now < windowStart {
        return;
      }
      AdvanceWindow(now);
      ghost var before := buckets[..];
      AddedSlot(before, windowStart, now, x);
      var slot := now % buckets.Length;
      buckets[slot] := buckets[slot] + [x];
      assert buckets[..] == before[slot := before[slot] + [x]];
    }

    /** getAll() lists the last `size` times exactly when no sample in the window is newer than now. */
    method GetAll(now: nat) returns (result: seq<seq<S>>)
      requires Valid()
      modifies this, buckets
      ensures Model() == Advanced(old(Model()), buckets.Length, now)
      ensures result == Listed(Model(), buckets.Length, now) <==> forall t: nat :: now < t ==> At(Model(), t) == []
    {
      hide Ring, Advanced, Listed;
      AdvanceWindow(now);
      result := [];
      var b := now + 1;
      var i: nat := 0;
      while i < buckets.Length
        invariant i <= buckets.Length && b == now + 1 + i && |result| == i
        invariant Model() == Advanced(old(Model()), buckets.Length, now) && now < windowStart + buckets.Length
        invariant forall k :: 0 <= k < i ==> result[k] == buckets[(now + 1 + k) % buckets.Length]
      {
        result := result + [buckets[b % buckets.Length]];
        b := b + 1;
        i := i + 1;
      }
      ListingExact(buckets[..], windowStart, now, result);
    }

    /** merge(); the other log may be this one. */
    method Merge(other: BucketedLog<S>)
      requires Valid() && other.Valid() && other.buckets.Length == buckets.Length
      requires other == this || other.buckets != buckets
      modifies this, buckets
      ensures Model() == Merged(old(Model()), old(other.Model()), buckets.Length)
    {
      hide Ring, Advanced, Joined;
      ghost var theirs := other.buckets[..];
      ghost var theirStart := other.windowStart;
      var n := buckets.Length;
      RingIs(theirs, theirStart);
      AdvanceWindow(other.windowStart + n - 1);
      ghost var mine := buckets[..];
      var i := windowStart;
      while i < windowStart + n
        invariant windowStart == old(MovedTo(buckets[..], windowStart, theirStart + n - 1).1) <= i <= windowStart + n
        invariant other.windowStart == theirStart
        invariant if other == this then mine == theirs else other.buckets[..] == theirs
        invariant forall t: nat :: windowStart <= t < i ==> buckets[t % n] == MergedSlot(mine, theirs, theirStart, t)
        invariant forall t: nat :: i <= t < windowStart + n ==> buckets[t % n] == mine[t % n]
      {
        forall t: nat | windowStart <= t < windowStart + n && t != i ensures t % n != i % n {
          SameSlot(t, i, n);
        }
        if i >= other.windowStart && i < other.windowStart + n {
          buckets[i % n] := buckets[i % n] + other.buckets[i % n];
        }
        i := i + 1;
      }
      MergedRing(mine, windowStart, theirs, theirStart, buckets[..]);
    }

    method Clear()
      requires Valid()
      modifies buckets
      ensures Model() == old(Model()).(samples := map[])
    {
      var i: nat := 0;
      while i < buckets.Length
        invariant i <= buckets.Length
        invariant forall k :: 0 <= k < i ==> buckets[k] == []
      {
        buckets[i] := [];
        i := i + 1;
      }
    }
  }

  /** A sample of time 5, asked for at time 4: what is listed is not the buckets of times 3 and 4. */
  method NewerShownAsOlder() returns (log: BucketedLog<int>, result: seq<seq<int>>)
    ensures fresh(log) && log.Valid()
    ensures At(log.Model(), 5) == [7] && result != Listed(log.Model(), 2, 4)
  {
    log := new BucketedLog<int>(2);
    log.Add(5, 7);
    AddedAt(Log(0, map[]), 2, 5, 7, 5);
    AdvancedAt(log.Model(), 2, 4, 5);
    result := log.GetAll(4);
  }
}
