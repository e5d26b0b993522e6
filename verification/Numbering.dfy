/** Numbered things, as the histories of the models count them. */
module Numbering {

  datatype Option<T> = None | Some(value: T)

  function Min(a: int, b: int): (r: int)
    ensures r <= a && r <= b && (r == a || r == b)
  {
    if a <= b then a else b
  }

  function Numbers(n: nat): seq<nat> {
    if n == 0 then [] else Numbers(n - 1) + [n - 1]
  }

  predicate Increasing(ids: seq<nat>) {
    forall i, j :: 0 <= i < j < |ids| ==> ids[i] < ids[j]
  }

  predicate AllBelow(ids: seq<nat>, n: nat) {
    forall i :: 0 <= i < |ids| ==> ids[i] < n
  }

  predicate Distinct(ids: seq<nat>) {
    forall i, j :: 0 <= i < j < |ids| ==> ids[i] != ids[j]
  }

  lemma NumbersNext(n: nat)
    ensures Numbers(n + 1) == Numbers(n) + [n]
  {
  }

  lemma {:induction false} NumbersAre(n: nat)
    ensures |Numbers(n)| == n && forall i :: 0 <= i < n ==> Numbers(n)[i] == i
  {
    if n > 0 {
      NumbersAre(n - 1);
    }
  }

  /** A first part of the numbers is itself the numbers up to its length. */
  lemma NumbersSplit(first: seq<nat>, second: seq<nat>, n: nat)
    requires first + second == Numbers(n)
    ensures first == Numbers(|first|) && |first| + |second| == n
    ensures forall k :: k in second ==> |first| <= k < n
  {
    NumbersAre(n);
    NumbersAre(|first|);
    assert forall i :: 0 <= i < |first| ==> first[i] == (first + second)[i];
    assert forall i :: 0 <= i < |second| ==> second[i] == (first + second)[|first| + i];
  }

  lemma {:induction false} NumbersOnce(n: nat, id: nat)
    ensures |Numbers(n)| == n
    ensures multiset(Numbers(n))[id] == if id < n then 1 else 0
  {
    if n > 0 {
      NumbersOnce(n - 1, id);
    }
  }

  lemma {:induction false} SubsetSize<T>(a: set<T>, b: set<T>)
    requires a <= b
    ensures |a| <= |b|
    decreases |a|
  {
    if a != {} {
      var k :| k in a;
      SubsetSize(a - {k}, b - {k});
    }
  }
}
