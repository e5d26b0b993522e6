/** CoverageSet (eden/common/utils/CoverageSet.cpp): a set of points kept as an ordered set of intervals. */
module CoverageSet {

  datatype Interval = Interval(begin: nat, end: nat)

  /** What std::set keeps: the intervals in the order of their beginnings. */
  predicate Ordered(set_: seq<Interval>) {
    forall i, j :: 0 <= i < j < |set_| ==> set_[i].begin < set_[j].begin
  }

  /** What the class promises of them: nonempty, disjoint and not adjacent. */
  predicate Separate(set_: seq<Interval>) {
    && (forall i :: 0 <= i < |set_| ==> set_[i].begin < set_[i].end)
    && (forall i, j :: 0 <= i < j < |set_| ==> set_[i].end < set_[j].begin)
  }

  predicate Nonempty(set_: seq<Interval>) {
    forall i :: 0 <= i < |set_| ==> set_[i].begin < set_[i].end
  }

  predicate In(p: nat, i: Interval) {
    i.begin <= p < i.end
  }

  predicate Contains(set_: seq<Interval>, p: nat) {
    exists i :: 0 <= i < |set_| && In(p, set_[i])
  }

  /** The first interval that begins at or after p. */
  function LowerBound(set_: seq<Interval>, p: nat): (r: nat)
    requires Ordered(set_)
    ensures r <= |set_|
    ensures forall i :: 0 <= i < r ==> set_[i].begin < p
    ensures forall i :: r <= i < |set_| ==> p <= set_[i].begin
  {
    if set_ == [] || set_[|set_| - 1].begin < p then |set_| else LowerBound(set_[..|set_| - 1], p)
  }

  /** No interval that begins before p reaches beyond it. */
  predicate NothingAcross(set_: seq<Interval>, p: nat) {
    forall i :: 0 <= i < |set_| && set_[i].begin < p ==> set_[i].end <= p
  }

  /** No interval ends at `begin` or begins in begin..end. */
  predicate Untouched(set_: seq<Interval>, begin: nat, end: nat) {
    forall i :: 0 <= i < |set_| ==> set_[i].end != begin && !(begin <= set_[i].begin <= end)
  }

  function Inserted(set_: seq<Interval>, new_: Interval): seq<Interval>
    requires Ordered(set_)
  {
    var right := LowerBound(set_, new_.begin);
    set_[..right] + [new_] + set_[right..]
  }

  class CoverageSet {
    var set_: seq<Interval>

    constructor ()
      ensures set_ == []
    {
      set_ := [];
    }

    method Clear()
      modifies this
      ensures set_ == []
    {
      set_ := [];
    }

    /** add(), on any set of nonempty intervals, overlapping or not.  The points of the new interval are
        added, and nothing else.  Intervals that are disjoint and not adjacent stay so exactly when none
        of them reaches across the new beginning; and an interval that no other ends or begins at is
        put in its place as it is, across or not. */
    method Add(begin: nat, end: nat)
      requires Ordered(set_) && Nonempty(set_) && begin <= end
      modifies this
      ensures Ordered(set_) && Nonempty(set_)
      ensures forall p: nat :: Contains(set_, p) <==> Contains(old(set_), p) || In(p, Interval(begin, end))
      ensures Separate(old(set_)) ==> (Separate(set_) <==> begin == end || NothingAcross(old(set_), begin))
      ensures begin < end && Untouched(old(set_), begin, end) ==> set_ == Inserted(old(set_), Interval(begin, end))
    {
      hide Contains, Merged, Separate, Ordered, Nonempty, NothingAcross, LowerBound, In, Untouched;
      OrderedIs(set_);
      if begin == end {
        NoPoint(begin);
        return;
      }
      var right := LowerBound(set_, begin);
      UntouchedAround(set_, right, begin, end);
      var from := right;
      var newBegin: nat, newEnd: nat := begin, end;
      if right != 0 && set_[right - 1].end == begin {
        newBegin := set_[right - 1].begin;
        from := right - 1;
      }
      LeftMerged(set_, from, right, newBegin, begin, end);
      var to := right;
      while to < |set_| && newEnd >= set_[to].begin
        invariant set_ == old(set_) && right <= to <= |set_|
        invariant Untouched(set_, begin, end) ==> from == right && to == right && newEnd == end
        invariant newBegin <= begin && end <= newEnd
        invariant Separate(set_) ==> newEnd == end || (to > right && newEnd == set_[to - 1].end)
        invariant Merged(set_[from..to], Interval(newBegin, newEnd), begin, end)
      {
        NeighboursSeparate(set_, to);
        var after := if newEnd < set_[to].end then set_[to].end else newEnd;
        RightMerged(set_, from, to, newBegin, begin, end, newEnd, after);
        newEnd := after;
        to := to + 1;
      }
      ReplacedPoints(set_, from, to, Interval(newBegin, newEnd), begin, end);
      ReplacedOrdered(set_, from, to, Interval(newBegin, newEnd));
      if Separate(set_) {
        ReplacedSeparate(set_, from, to, right, Interval(newBegin, newEnd), begin, end);
      }
      set_ := set_[..from] + [Interval(newBegin, newEnd)] + set_[to..];
    }
  }

  /** The new interval has the points of [begin, end) and of the intervals it takes the place of. */
  ghost predicate Merged(gone: seq<Interval>, new_: Interval, begin: nat, end: nat) {
    forall p: nat :: In(p, new_) <==> In(p, Interval(begin, end)) || Contains(gone, p)
  }

  lemma UntouchedAround(s: seq<Interval>, right: nat, begin: nat, end: nat)
    requires right <= |s| && (right < |s| ==> begin <= s[right].begin)
    ensures Untouched(s, begin, end) ==>
      (right > 0 ==> s[right - 1].end != begin) && (right < |s| ==> end < s[right].begin)
  {
  }

  lemma NoPoint(p: nat)
    ensures forall q: nat :: !In(q, Interval(p, p))
  {
  }

  lemma ContainsConcat(a: seq<Interval>, b: seq<Interval>, p: nat)
    ensures Contains(a + b, p) <==> Contains(a, p) || Contains(b, p)
  {
    var c := a + b;
    if Contains(a, p) {
      var i :| 0 <= i < |a| && In(p, a[i]);
      assert c[i] == a[i];
    }
    if Contains(b, p) {
      var i :| 0 <= i < |b| && In(p, b[i]);
      assert c[|a| + i] == b[i];
    }
  }

  lemma ContainsOne(i: Interval, p: nat)
    ensures Contains([i], p) <==> In(p, i)
  {
    assert [i][0] == i;
  }

  lemma LeftMerged(s: seq<Interval>, from: nat, right: nat, newBegin: nat, begin: nat, end: nat)
    requires Ordered(s) && Nonempty(s) && from <= right <= |s| && begin < end
    requires (from == right && newBegin == begin) || (from + 1 == right && s[from].end == begin && newBegin == s[from].begin)
    ensures Merged(s[from..right], Interval(newBegin, end), begin, end)
  {
    forall p: nat ensures In(p, Interval(newBegin, end)) <==> In(p, Interval(begin, end)) || Contains(s[from..right], p) {
      if from < right {
        ContainsOne(s[from], p);
        assert s[from..right] == [s[from]];
      }
    }
  }

  /** One more interval that touches the stretch lengthens it by its own points. */
  lemma RightMerged(s: seq<Interval>, from: nat, to: nat, newBegin: nat, begin: nat, end: nat, before: nat, after: nat)
    requires from <= to < |s| && newBegin <= s[to].begin <= before
    requires after == if before < s[to].end then s[to].end else before
    requires Merged(s[from..to], Interval(newBegin, before), begin, end)
    ensures Merged(s[from..to + 1], Interval(newBegin, after), begin, end)
  {
    hide Contains;
    forall p: nat
      ensures In(p, Interval(newBegin, after)) <==> In(p, Interval(begin, end)) || Contains(s[from..to + 1], p)
    {
      assert s[from..to + 1] == s[from..to] + [s[to]];
      ContainsConcat(s[from..to], [s[to]], p);
      ContainsOne(s[to], p);
      assert In(p, Interval(newBegin, before)) <==> In(p, Interval(begin, end)) || Contains(s[from..to], p);
    }
  }

  lemma ReplacedPoints(s: seq<Interval>, from: nat, to: nat, new_: Interval, begin: nat, end: nat)
    requires from <= to <= |s| && Merged(s[from..to], new_, begin, end)
    ensures forall p: nat :: Contains(s[..from] + [new_] + s[to..], p) <==> Contains(s, p) || In(p, Interval(begin, end))
  {
    hide Contains;
    forall p: nat
      ensures Contains(s[..from] + [new_] + s[to..], p) <==> Contains(s, p) || In(p, Interval(begin, end))
    {
      assert s == s[..from] + s[from..to] + s[to..];
      ContainsConcat(s[..from] + s[from..to], s[to..], p);
      ContainsConcat(s[..from], s[from..to], p);
      ContainsConcat(s[..from] + [new_], s[to..], p);
      ContainsConcat(s[..from], [new_], p);
      ContainsOne(new_, p);
      assert In(p, new_) <==> In(p, Interval(begin, end)) || Contains(s[from..to], p);
    }
  }

  lemma ReplacedSeparate(s: seq<Interval>, from: nat, to: nat, right: nat, new_: Interval, begin: nat, end: nat)
    requires Separate(s) && begin < end <= new_.end
    requires from <= right <= to <= |s|
    requires if from == right then new_.begin == begin && (right > 0 ==> s[right - 1].end != begin)
             else from + 1 == right && s[from].end == begin && new_.begin == s[from].begin
    requires new_.end == end || (to > right && new_.end == s[to - 1].end)
    requires forall i :: 0 <= i < right ==> s[i].begin < begin
    requires forall i :: right <= i < |s| ==> begin <= s[i].begin
    requires to < |s| ==> new_.end < s[to].begin
    ensures var t := s[..from] + [new_] + s[to..];
      Ordered(t) && (Separate(t) <==> NothingAcross(s, begin))
  {
    hide Separate, Ordered, NothingAcross;
    SlicesSeparate(s, from, to);
    SeparateIs(s);
    LastIsNotAcross(s, right, begin);
    PartsOrdered(s[..from], new_, s[to..]);
    if right == 0 || s[right - 1].end <= begin {
      PartsSeparate(s[..from], new_, s[to..]);
    } else {
      assert from == right;
      LastAcross(s[..from], new_, s[to..]);
    }
  }

  /** Only the last interval that begins before p can reach beyond it. */
  lemma LastIsNotAcross(s: seq<Interval>, right: nat, p: nat)
    requires Separate(s) && right <= |s|
    requires forall i :: 0 <= i < right ==> s[i].begin < p
    requires forall i :: right <= i < |s| ==> p <= s[i].begin
    ensures NothingAcross(s, p) <==> right == 0 || s[right - 1].end <= p
  {
    if right > 0 && s[right - 1].end <= p {
      forall i | 0 <= i < |s| && s[i].begin < p ensures s[i].end <= p {
        assert i < right;
        assert i == right - 1 || s[i].end < s[right - 1].begin;
      }
    }
  }

  lemma OrderedIs(s: seq<Interval>)
    requires Ordered(s) && Nonempty(s)
    ensures forall i, j :: 0 <= i < j < |s| ==> s[i].begin < s[j].begin
    ensures forall i :: 0 <= i < |s| ==> s[i].begin < s[i].end
  {
  }

  lemma ReplacedOrdered(s: seq<Interval>, from: nat, to: nat, new_: Interval)
    requires Ordered(s) && Nonempty(s) && from <= to <= |s| && new_.begin < new_.end
    requires forall i :: 0 <= i < from ==> s[i].begin < new_.begin
    requires to < |s| ==> new_.end < s[to].begin
    ensures var t := s[..from] + [new_] + s[to..]; Ordered(t) && Nonempty(t)
  {
    PartsOrdered(s[..from], new_, s[to..]);
  }

  lemma SeparateIs(s: seq<Interval>)
    requires Separate(s)
    ensures forall i, j :: 0 <= i < j < |s| ==> s[i].end < s[j].begin
    ensures forall i :: 0 <= i < |s| ==> s[i].begin < s[i].end
  {
  }

  lemma NeighboursSeparate(s: seq<Interval>, k: nat)
    requires k < |s|
    ensures Separate(s) && k > 0 ==> s[k - 1].end < s[k].begin < s[k].end
  {
  }

  lemma SeparateOrdered(s: seq<Interval>)
    requires Separate(s)
    ensures Ordered(s)
  {
  }

  lemma SlicesSeparate(s: seq<Interval>, from: nat, to: nat)
    requires Separate(s) && from <= |s| && to <= |s|
    ensures Separate(s[..from]) && Ordered(s[..from]) && Separate(s[to..]) && Ordered(s[to..])
  {
  }

  lemma LastAcross(a: seq<Interval>, x: Interval, b: seq<Interval>)
    requires a != [] && a[|a| - 1].end > x.begin
    ensures !Separate(a + [x] + b)
  {
    var t := a + [x] + b;
    assert t[|a| - 1] == a[|a| - 1] && t[|a|] == x;
  }

  lemma PartsOrdered(a: seq<Interval>, x: Interval, b: seq<Interval>)
    requires Ordered(a) && Ordered(b)
    requires forall i :: 0 <= i < |a| ==> a[i].begin < x.begin
    requires forall i :: 0 <= i < |b| ==> x.begin < b[i].begin
    ensures Ordered(a + [x] + b)
    ensures Nonempty(a) && Nonempty(b) && x.begin < x.end ==> Nonempty(a + [x] + b)
  {
  }

  lemma PartsSeparate(a: seq<Interval>, x: Interval, b: seq<Interval>)
    requires Separate(a) && Separate(b) && x.begin < x.end
    requires forall i :: 0 <= i < |a| ==> a[i].end < x.begin
    requires forall i :: 0 <= i < |b| ==> x.end < b[i].begin
    ensures Separate(a + [x] + b)
  {
  }

  /** covers(): upper_bound is the first interval that begins after `begin`. */
  predicate Covers(set_: seq<Interval>, begin: nat, end: nat)
    requires Ordered(set_) && begin <= end
  {
    if begin == end then true
    else
      var right := LowerBound(set_, begin + 1);
      right != 0 && set_[right - 1].begin <= begin && end <= set_[right - 1].end
  }

  predicate AllContained(set_: seq<Interval>, begin: nat, end: nat) {
    forall p: nat :: begin <= p < end ==> Contains(set_, p)
  }

  /** Neighbours may overlap only if they end together. */
  predicate Answerable(set_: seq<Interval>) {
    forall i :: 0 < i < |set_| ==> set_[i - 1].end < set_[i].begin || set_[i - 1].end == set_[i].end
  }

  /** covers() is inclusion of the points, for every query, if and only if neighbours overlap or touch
      only where they end together. */
  lemma CoversIsInclusion(set_: seq<Interval>)
    requires Ordered(set_) && Nonempty(set_)
    ensures (forall begin: nat, end: nat :: begin <= end ==> (Covers(set_, begin, end) <==> AllContained(set_, begin, end)))
       <==> Answerable(set_)
  {
    hide Covers, AllContained, Ordered, Nonempty;
    if Answerable(set_) {
      forall begin: nat, end: nat | begin <= end ensures Covers(set_, begin, end) <==> AllContained(set_, begin, end) {
        AnsweredRightly(set_, begin, end);
      }
    } else {
      var i :| 0 < i < |set_| && !(set_[i - 1].end < set_[i].begin || set_[i - 1].end == set_[i].end);
      var begin, end := AnsweredWrongly(set_, i);
      assert Covers(set_, begin, end) != AllContained(set_, begin, end);
    }
  }

  /** In particular while they are disjoint and not adjacent. */
  lemma SeparateIsAnswerable(set_: seq<Interval>)
    requires Separate(set_)
    ensures Ordered(set_) && Nonempty(set_) && Answerable(set_)
  {
  }

  lemma AnsweredRightly(set_: seq<Interval>, begin: nat, end: nat)
    requires Ordered(set_) && Nonempty(set_) && Answerable(set_) && begin <= end
    ensures Covers(set_, begin, end) <==> AllContained(set_, begin, end)
  {
    hide LowerBound, Answerable;
    if begin < end {
      var right := LowerBound(set_, begin + 1);
      if Covers(set_, begin, end) {
        forall p: nat | begin <= p < end ensures Contains(set_, p) {
          assert In(p, set_[right - 1]);
        }
      } else if AllContained(set_, begin, end) {
        assert Contains(set_, begin);
        var i: nat :| i < |set_| && In(begin, set_[i]);
        EndsGrow(set_, i, right - 1);
        assert Contains(set_, set_[right - 1].end);
        EndIsUncovered(set_, right - 1);
      }
    }
  }

  /** Later intervals end where an earlier one does, or begin behind it. */
  lemma {:induction false} EndsGrow(set_: seq<Interval>, i: nat, j: nat)
    requires Ordered(set_) && Nonempty(set_) && Answerable(set_) && i <= j < |set_|
    ensures set_[j].end == set_[i].end || set_[i].end < set_[j].begin
    ensures set_[i].end <= set_[j].end
  {
    if i < j {
      EndsGrow(set_, i, j - 1);
    }
  }

  lemma EndIsUncovered(set_: seq<Interval>, i: nat)
    requires Ordered(set_) && Nonempty(set_) && Answerable(set_) && i < |set_|
    ensures !Contains(set_, set_[i].end)
  {
    hide Answerable;
    forall j: nat | j < |set_| ensures !In(set_[i].end, set_[j]) {
      if i <= j {
        EndsGrow(set_, i, j);
      } else {
        EndsGrow(set_, j, i);
      }
    }
  }

  /** The query that two neighbours spoil, from where the second begins if it ends first. */
  lemma AnsweredWrongly(set_: seq<Interval>, i: nat) returns (begin: nat, end: nat)
    requires Ordered(set_) && Nonempty(set_) && 0 < i < |set_|
    requires set_[i].begin <= set_[i - 1].end != set_[i].end
    ensures begin <= end && AllContained(set_, begin, end) && !Covers(set_, begin, end)
  {
    var first, second := set_[i - 1], set_[i];
    if second.end < first.end {
      begin, end := second.begin, first.end;
    } else {
      begin, end := first.begin, second.end;
    }
    forall p: nat | begin <= p < end ensures Contains(set_, p) {
      assert In(p, first) || In(p, second);
    }
    hide LowerBound;
    var right := LowerBound(set_, begin + 1);
    var last := if second.end < first.end then i else i - 1;
    assert set_[last].begin <= begin;
    assert last < right;
    assert last + 1 < |set_| ==> set_[last].begin < set_[last + 1].begin;
  }

  /** Adding [3, 5) to [1, 10) leaves two overlapping intervals, and then covers(4, 7) denies points
      that are covered. */
  method OverlapIsKept() returns (s: CoverageSet)
    ensures fresh(s) && s.set_ == [Interval(1, 10), Interval(3, 5)] && !Separate(s.set_)
  {
    hide Untouched, Inserted, Contains, NothingAcross, Separate;
    OverlapInserted();
    s := new CoverageSet();
    s.Add(1, 10);
    s.Add(3, 5);
  }

  lemma OverlapInserted()
    ensures Untouched([], 1, 10) && Inserted([], Interval(1, 10)) == [Interval(1, 10)]
    ensures Untouched([Interval(1, 10)], 3, 5)
    ensures Inserted([Interval(1, 10)], Interval(3, 5)) == [Interval(1, 10), Interval(3, 5)]
    ensures !Separate([Interval(1, 10), Interval(3, 5)])
  {
    var s := [Interval(1, 10), Interval(3, 5)];
    assert s[0].end >= s[1].begin;
  }

  lemma OverlapMisleads()
    ensures var s := [Interval(1, 10), Interval(3, 5)];
      && Ordered(s) && !Covers(s, 4, 7) && forall p: nat :: 4 <= p < 7 ==> Contains(s, p)
  {
    var s := [Interval(1, 10), Interval(3, 5)];
    assert LowerBound(s, 5) == 2;
    assert s[0] == Interval(1, 10);
  }
}
