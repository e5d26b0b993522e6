/** TraceBus's linked list of subscriptions at the level of its links
    (eden/common/telemetry/TraceBus-inl.h): insertion at the head, the sweep that unlinks through a
    pointer to the previous link, and the walk that follows `next` without the lock.  The heap is
    explicit: `next` has an entry for every node that is allocated, so following a link to a freed
    node would be an access outside the map. */
module SubscriptionList {
  import opened Numbering
  import opened TraceBus

  datatype Link = Null | At(id: nat)

  /** The link in front of position i of a list. */
  function LinkTo(list: seq<nat>, i: nat): Link
    requires i <= |list|
  {
    if i < |list| then At(list[i]) else Null
  }

  predicate Linked(next: map<nat, Link>, list: seq<nat>) {
    && (forall i :: 0 <= i < |list| ==> list[i] in next)
    && (forall i {:trigger next[list[i]]} :: 0 <= i < |list| ==> next[list[i]] == LinkTo(list, i + 1))
  }

  function Members(list: seq<nat>): set<nat> {
    set id | id in list
  }

  predicate AllocatedExactly(next: map<nat, Link>, list: seq<nat>) {
    next.Keys == Members(list)
  }

  /** The links spell the list, and nothing else is allocated. */
  predicate Spells(head: Link, next: map<nat, Link>, list: seq<nat>) {
    && head == LinkTo(list, 0)
    && Linked(next, list)
    && Distinct(list)
    && AllocatedExactly(next, list)
  }

  lemma LinkAt(head: Link, next: map<nat, Link>, list: seq<nat>, k: nat)
    requires Spells(head, next, list) && k < |list|
    ensures list[k] in next && next[list[k]] == LinkTo(list, k + 1)
  {
    hide AllocatedExactly, Distinct;
  }

  lemma HeadLink(head: Link, next: map<nat, Link>, list: seq<nat>)
    requires Spells(head, next, list)
    ensures head == LinkTo(list, 0)
  {
    hide AllocatedExactly, Distinct, Linked;
  }

  lemma DropMembers(list: seq<nat>, k: nat)
    requires Distinct(list) && k < |list|
    ensures Members(list[..k] + list[k + 1..]) == Members(list) - {list[k]}
  {
    assert list == list[..k] + [list[k]] + list[k + 1..];
  }

  /** Unlinking position k: the previous link takes over, and the node is freed. */
  lemma UnlinkSpells(head: Link, next: map<nat, Link>, list: seq<nat>, k: nat)
    requires Spells(head, next, list) && k < |list|
    ensures var rest := list[..k] + list[k + 1..];
      && (k == 0 ==> Spells(next[list[k]], next - {list[k]}, rest))
      && (k > 0 ==> Spells(head, next[list[k - 1] := next[list[k]]] - {list[k]}, rest))
  {
    var next' := (if k == 0 then next else next[list[k - 1] := next[list[k]]]) - {list[k]};
    LinkAt(head, next, list, k);
    UnlinkLinked(next, next', list, k);
    DropDistinct(list, k);
    DropMembers(list, k);
    if k > 0 {
      LinkAt(head, next, list, k - 1);
    }
    hide Linked, Distinct;
  }

  lemma UnlinkLinked(next: map<nat, Link>, next': map<nat, Link>, list: seq<nat>, k: nat)
    requires Linked(next, list) && Distinct(list) && k < |list|
    requires next' == (if k == 0 then next else next[list[k - 1] := next[list[k]]]) - {list[k]}
    ensures Linked(next', list[..k] + list[k + 1..])
  {
    hide Linked, Distinct;
    var rest := list[..k] + list[k + 1..];
    forall i | 0 <= i < |rest|
      ensures rest[i] in next' && next'[rest[i]] == LinkTo(rest, i + 1)
    {
      var j := if i < k then i else i + 1;
      OneLink(next, list, j);
      OneLink(next, list, k);
      Differ(list, j, k);
      if k > 0 {
        Differ(list, j, k - 1);
        OneLink(next, list, k - 1);
      }
    }
    AllLinks(next', rest);
  }

  lemma OneLink(next: map<nat, Link>, list: seq<nat>, j: nat)
    requires Linked(next, list) && j < |list|
    ensures list[j] in next && next[list[j]] == LinkTo(list, j + 1)
  {
  }

  lemma AllLinks(next: map<nat, Link>, list: seq<nat>)
    requires forall i :: 0 <= i < |list| ==> list[i] in next && next[list[i]] == LinkTo(list, i + 1)
    ensures Linked(next, list)
  {
  }

  lemma Differ(list: seq<nat>, i: nat, j: nat)
    requires Distinct(list) && i < |list| && j < |list|
    ensures list[i] == list[j] <==> i == j
  {
  }

  lemma DropDistinct(list: seq<nat>, k: nat)
    requires Distinct(list) && k < |list|
    ensures Distinct(list[..k] + list[k + 1..])
  {
  }

  lemma KeptSplit(front: seq<nat>, back: seq<nat>, nodes: seq<Subscription>, lastObserved: nat)
    requires back != [] && back[0] < |nodes|
    ensures Finished(nodes[back[0]], lastObserved) ==>
              front + Kept(back, nodes, lastObserved) == front + Kept(back[1..], nodes, lastObserved)
    ensures !Finished(nodes[back[0]], lastObserved) ==>
              front + Kept(back, nodes, lastObserved) == front + [back[0]] + Kept(back[1..], nodes, lastObserved)
  {
  }

  lemma KeptNone(nodes: seq<Subscription>, lastObserved: nat)
    ensures Kept([], nodes, lastObserved) == []
  {
  }

  lemma SplitAt(front: seq<nat>, back: seq<nat>)
    requires back != []
    ensures var s := front + back;
      && s[|front|] == back[0]
      && s[..|front|] + s[|front| + 1..] == front + back[1..]
      && s == front + [back[0]] + back[1..]
  {
    var s := front + back;
    assert s[..|front|] == front && s[|front| + 1..] == back[1..];
  }

  class List {
    var head: Link
    var next: map<nat, Link>
    ghost var list: seq<nat>

    ghost predicate Valid()
      reads this
    {
      Spells(head, next, list)
    }

    constructor ()
      ensures Valid() && list == []
    {
      head, next, list := Null, map[], [];
    }

    /** subscribe(): the links of the existing nodes do not change, so a walk under way is not disturbed. */
    method Insert(id: nat)
      requires Valid() && id !in next
      modifies this
      ensures Valid() && list == [id] + old(list)
      ensures forall n :: n in old(next) ==> n in next && next[n] == old(next)[n]
    {
      next := next[id := head];
      head := At(id);
      list := [id] + list;
    }

    /** `*plink = *nlink; delete p`, where p stands at position k. */
    method Unlink(plink: Link, p: nat, ghost k: nat)
      requires Valid() && k < |list| && list[k] == p && plink == if k == 0 then Null else At(list[k - 1])
      modifies this
      ensures Valid() && list == old(list)[..k] + old(list)[k + 1..]
    {
      hide Spells;
      UnlinkSpells(head, next, list, k);
      LinkAt(head, next, list, k);
      if plink.Null? {
        head := next[p];
      } else {
        next := next[plink.id := next[p]];
      }
      next := next - {p};
      list := list[..k] + list[k + 1..];
    }

    /** The sweep of threadLoop().  `plink` is the node whose `next` is the current link, or Null when that link is the head. */
    method Sweep(nodes: seq<Subscription>, lastObserved: nat)
      requires Valid() && forall i :: 0 <= i < |list| ==> list[i] < |nodes|
      modifies this
      ensures Valid()
      ensures list == Kept(old(list), nodes, lastObserved)
    {
      hide Spells, Kept;
      ghost var front: seq<nat>, back: seq<nat> := [], list;
      HeadLink(head, next, list);
      assert front + Kept(back, nodes, lastObserved) == Kept(list, nodes, lastObserved);
      var plink := Null;
      var p := head;
      while p.At?
        invariant list == front + back && Valid()
        invariant p == LinkTo(back, 0)
        invariant plink == if front == [] then Null else At(front[|front| - 1])
        invariant forall i :: 0 <= i < |back| ==> back[i] < |nodes|
        invariant front + Kept(back, nodes, lastObserved) == Kept(old(list), nodes, lastObserved)
        decreases |back|
      {
        ghost var k := |front|;
        SplitAt(front, back);
        KeptSplit(front, back, nodes, lastObserved);
        LinkAt(head, next, list, k);
        var following := next[p.id];
        if Finished(nodes[p.id], lastObserved) {
          assert front != [] ==> list[k - 1] == front[k - 1];
          Unlink(plink, p.id, k);
        } else {
          plink := p;
          front := front + [p.id];
        }
        back := back[1..];
        p := following;
      }
      KeptNone(nodes, lastObserved);
      assert front + [] == front;
    }

    /** The walk from `sub`, which stands at position `start`: exactly the rest of the list, never a freed node. */
    method Walk(sub: Link, ghost start: nat) returns (visited: seq<nat>)
      requires Valid() && start <= |list| && sub == LinkTo(list, start)
      ensures visited == list[start..]
    {
      hide Spells;
      visited := [];
      var p := sub;
      ghost var k := start;
      while p.At?
        invariant start <= k <= |list| && p == LinkTo(list, k)
        invariant visited == list[start..k]
        decreases |list| - k
      {
        LinkAt(head, next, list, k);
        visited := visited + [p.id];
        p := next[p.id];
        k := k + 1;
      }
    }
  }
}
