/** TraceSubscriptionHandle (eden/common/telemetry/TraceBus.h): the move-only owner of a
    subscription, which asks the bus to unsubscribe when it is dropped, reset or assigned to. */
module SubscriptionHandle {

  import opened Numbering

  /** The bus, as the handles see it: the unsubscribe() calls it has received. */
  class Registry {
    var requests: seq<nat>

    constructor ()
      ensures requests == []
    {
      requests := [];
    }
  }

  /** `bus` is null for a handle that was default constructed, moved from or reset, and when the bus of
      the handle is gone. */
  class Handle {
    var subscription: Option<nat>
    var bus: Registry?

    constructor ()
      ensures subscription == None && bus == null
    {
      subscription, bus := None, null;
    }

    constructor Subscribed(id: nat, bus: Registry)
      ensures subscription == Some(id) && this.bus == bus
    {
      subscription, this.bus := Some(id), bus;
    }

    /** The move constructor. */
    constructor Move(that: Handle)
      modifies that
      ensures subscription == old(that.subscription) && bus == old(that.bus)
      ensures that.subscription == None && that.bus == null
    {
      subscription, bus := that.subscription, that.bus;
      new;
      that.subscription, that.bus := None, null;
    }

    method Unsubscribe()
      modifies bus
      ensures bus != null ==> bus.requests == old(bus.requests) + Requests(subscription)
    {
      if subscription.Some? && bus != null {
        bus.requests := bus.requests + [subscription.value];
      }
    }

    /** The move assignment.  `that` may be this handle itself, and then it keeps its subscription. */
    method Assign(that: Handle)
      modifies this, that, bus
      ensures old(bus) != null ==> old(bus).requests == old(bus.requests) + Requests(old(subscription))
      ensures subscription == old(that.subscription) && bus == old(that.bus)
      ensures that != this ==> that.subscription == None && that.bus == null
    {
      Unsubscribe();
      var taken := that.subscription;
      that.subscription := None;
      subscription := taken;
      var takenBus := that.bus;
      that.bus := null;
      bus := takenBus;
    }

    /** reset(), and also what the destructor does to the bus. */
    method Reset()
      modifies this, bus
      ensures old(bus) != null ==> old(bus).requests == old(bus.requests) + Requests(old(subscription))
      ensures subscription == None && bus == null
    {
      Unsubscribe();
      subscription := None;
      bus := null;
    }
  }

  function Requests(subscription: Option<nat>): seq<nat> {
    if subscription.Some? then [subscription.value] else []
  }

  // ----- any number of handles -----

  /** The handles by name, the calls made to the bus, and the number of subscriptions created. */
  datatype World = World(handles: map<nat, Option<nat>>, requests: seq<nat>, created: nat)

  datatype Action =
    | Subscribe(h: nat)
    | MoveConstruct(h: nat, from: nat)
    | MoveAssign(h: nat, from: nat)
    | ResetHandle(h: nat)
    | Drop(h: nat)

  predicate Enabled(w: World, a: Action) {
    match a
    case Subscribe(h) => h !in w.handles
    case MoveConstruct(h, from) => h !in w.handles && from in w.handles
    case MoveAssign(h, from) => h in w.handles && from in w.handles
    case ResetHandle(h) => h in w.handles
    case Drop(h) => h in w.handles
  }

  function Step(w: World, a: Action): World
    requires Enabled(w, a)
  {
    match a
    case Subscribe(h) => w.(handles := w.handles[h := Some(w.created)], created := w.created + 1)
    case MoveConstruct(h, from) => w.(handles := w.handles[h := w.handles[from]][from := None])
    case MoveAssign(h, from) =>
      w.(handles := w.handles[from := None][h := w.handles[from]], requests := w.requests + Requests(w.handles[h]))
    case ResetHandle(h) => w.(handles := w.handles[h := None], requests := w.requests + Requests(w.handles[h]))
    case Drop(h) => w.(handles := w.handles - {h}, requests := w.requests + Requests(w.handles[h]))
  }

  predicate Held(w: World, id: nat) {
    exists h :: h in w.handles && w.handles[h] == Some(id)
  }

  /** No two handles hold the same subscription. */
  predicate Single(w: World) {
    && (forall h, k :: h in w.handles && k in w.handles && h != k && w.handles[h].Some? ==> w.handles[h] != w.handles[k])
    && (forall h :: h in w.handles && w.handles[h].Some? ==> w.handles[h].value < w.created)
  }

  /** Every subscription is either held by exactly one handle or has been unsubscribed exactly once. */
  predicate Owned(w: World) {
    && Single(w)
    && Distinct(w.requests)
    && (forall id :: id in w.requests ==> id < w.created && !Held(w, id))
    && (forall id :: 0 <= id < w.created ==> id in w.requests || Held(w, id))
  }

  /** A handle that still holds its subscription is assigned to itself. */
  predicate SelfMove(w: World, a: Action)
    requires Enabled(w, a)
  {
    a.MoveAssign? && a.h == a.from && w.handles[a.h].Some?
  }

  /** What a step releases to the bus. */
  function Released(w: World, a: Action): seq<nat>
    requires Enabled(w, a)
  {
    if a.MoveAssign? || a.ResetHandle? || a.Drop? then Requests(w.handles[a.h]) else []
  }

  lemma HeldAfter(w: World, a: Action, id: nat)
    requires Owned(w) && Enabled(w, a) && !SelfMove(w, a)
    ensures Held(Step(w, a), id) <==> (Held(w, id) && id !in Released(w, a)) || (a.Subscribe? && id == w.created)
  {
    var w' := Step(w, a);
    if Held(w, id) {
      var h :| h in w.handles && w.handles[h] == Some(id);
      if (a.MoveConstruct? || a.MoveAssign?) && h == a.from {
        assert w'.handles[a.h] == Some(id);
      } else if h in w'.handles && w'.handles[h] == Some(id) {
      }
    }
    if a.Subscribe? {
      assert w'.handles[a.h] == Some(w.created);
    }
  }

  /** What is released was held, so it had not been released before. */
  lemma ReleasedWasHeld(w: World, a: Action)
    requires Owned(w) && Enabled(w, a)
    ensures Step(w, a).requests == w.requests + Released(w, a)
    ensures forall id :: id in Released(w, a) ==> Held(w, id) && id !in w.requests && id < w.created
    ensures |Released(w, a)| <= 1
  {
    if Released(w, a) != [] {
      assert w.handles[a.h] == Some(Released(w, a)[0]);
      assert Held(w, Released(w, a)[0]);
    }
  }

  lemma RequestsDistinct(w: World, a: Action)
    requires Owned(w) && Enabled(w, a)
    ensures Distinct(Step(w, a).requests)
  {
    ReleasedWasHeld(w, a);
    if Released(w, a) != [] {
      assert Released(w, a)[0] in Released(w, a);
    }
  }

  /** At most once, and exactly when: a step keeps single ownership unless it assigns a handle that
      holds a subscription to itself, and then the subscription is both released and still held. */
  lemma OwnershipKept(w: World, a: Action)
    requires Owned(w) && Enabled(w, a)
    ensures Owned(Step(w, a)) <==> !SelfMove(w, a)
  {
    var w' := Step(w, a);
    if SelfMove(w, a) {
      var id := w.handles[a.h].value;
      assert w'.requests[|w.requests|] == id;
      assert w'.handles[a.h] == Some(id);
      assert Held(w', id);
    } else {
      StillOwned(w, a);
    }
  }

  lemma StillOwned(w: World, a: Action)
    requires Owned(w) && Enabled(w, a) && !SelfMove(w, a)
    ensures Owned(Step(w, a))
  {
    StillSingle(w, a);
    RequestsDistinct(w, a);
    ReleasedWasHeld(w, a);
    CreatedBy(w, a);
    hide Step, Enabled, SelfMove, Released, Single, Distinct, Held;
    var w' := Step(w, a);
    forall id
      ensures Held(w', id) <==> (Held(w, id) && id !in Released(w, a)) || (a.Subscribe? && id == w.created)
    {
      HeldAfter(w, a, id);
    }
    forall id ensures id in w'.requests <==> id in w.requests || id in Released(w, a) {}
  }

  lemma StillSingle(w: World, a: Action)
    requires Single(w) && Enabled(w, a) && !SelfMove(w, a)
    ensures Single(Step(w, a))
  {
    hide Requests;
  }

  lemma CreatedBy(w: World, a: Action)
    requires Enabled(w, a)
    ensures Step(w, a).created == w.created + if a.Subscribe? then 1 else 0
  {
  }

  /** Who holds what after a step: a new handle what it was made for, a move's target what its source
      held and the source nothing, a reset handle nothing, and a dropped one is gone.  What a reset, a drop
      or an assignment lets go of is unsubscribed then and there. */
  lemma HoldersAfter(w: World, a: Action)
    requires Enabled(w, a)
    ensures var w' := Step(w, a);
      && (if a.Drop? then a.h !in w'.handles else a.h in w'.handles)
      && (a.Subscribe? ==> w'.handles[a.h] == Some(w.created) && w'.created == w.created + 1)
      && (a.MoveConstruct? || a.MoveAssign? ==>
            w'.handles[a.h] == w.handles[a.from] && (a.h != a.from ==> a.from in w'.handles && w'.handles[a.from] == None))
      && (a.ResetHandle? ==> w'.handles[a.h] == None)
      && (forall k :: k != a.h && !((a.MoveConstruct? || a.MoveAssign?) && k == a.from) ==>
            (k in w'.handles <==> k in w.handles) && (k in w.handles ==> w'.handles[k] == w.handles[k]))
    ensures a.h in w.handles && w.handles[a.h].Some? && !a.Subscribe? && !a.MoveConstruct? ==>
      Step(w, a).requests == w.requests + [w.handles[a.h].value]
    ensures a.Subscribe? || a.MoveConstruct? ==> Step(w, a).requests == w.requests
  {
  }

  // ----- runs -----

  function Initial(): World {
    World(map[], [], 0)
  }

  predicate IsRun(worlds: seq<World>, actions: seq<Action>) {
    && |worlds| == |actions| + 1
    && worlds[0] == Initial()
    && forall i :: 0 <= i < |actions| ==> Enabled(worlds[i], actions[i]) && worlds[i + 1] == Step(worlds[i], actions[i])
  }

  lemma {:induction false} OwnedUntil(worlds: seq<World>, actions: seq<Action>, i: nat)
    requires IsRun(worlds, actions) && i < |worlds|
    requires forall j :: 0 <= j < i ==> !SelfMove(worlds[j], actions[j])
    ensures Owned(worlds[i])
  {
    hide Owned, Step, Enabled;
    if i == 0 {
      InitialOwned();
    } else {
      OwnedUntil(worlds, actions, i - 1);
      OwnershipKept(worlds[i - 1], actions[i - 1]);
    }
  }

  lemma InitialOwned()
    ensures Owned(Initial())
  {
  }

  /** In a run each subscription is at every moment held by one handle or unsubscribed once, if and only
      if no handle that holds one is assigned to itself; and then none is unsubscribed twice. */
  lemma OwnedThroughout(worlds: seq<World>, actions: seq<Action>)
    requires IsRun(worlds, actions)
    ensures (forall i :: 0 <= i < |worlds| ==> Owned(worlds[i])) <==>
            (forall j :: 0 <= j < |actions| ==> !SelfMove(worlds[j], actions[j]))
    ensures (forall j :: 0 <= j < |actions| ==> !SelfMove(worlds[j], actions[j])) ==> Distinct(worlds[|actions|].requests)
  {
    hide Owned, Step, Enabled, SelfMove, Distinct;
    if forall j :: 0 <= j < |actions| ==> !SelfMove(worlds[j], actions[j]) {
      forall i | 0 <= i < |worlds| ensures Owned(worlds[i]) {
        OwnedUntil(worlds, actions, i);
      }
      OwnedDistinct(worlds[|actions|]);
    }
    if forall i :: 0 <= i < |worlds| ==> Owned(worlds[i]) {
      forall j | 0 <= j < |actions| ensures !SelfMove(worlds[j], actions[j]) {
        assert Owned(worlds[j]) && Owned(worlds[j + 1]);
        OwnershipKept(worlds[j], actions[j]);
      }
    }
  }

  lemma OwnedDistinct(w: World)
    requires Owned(w)
    ensures Distinct(w.requests)
  {
  }

  /** A subscription has been unsubscribed twice, or once and a handle still holds it. */
  predicate Repeated(w: World) {
    !Distinct(w.requests) || exists id :: id in w.requests && Held(w, id)
  }

  /** A self-move of a holding handle leads there, from any state. */
  lemma SelfMoveRepeats(w: World, a: Action)
    requires Enabled(w, a) && SelfMove(w, a)
    ensures Repeated(Step(w, a))
  {
    var w' := Step(w, a);
    var id := w.handles[a.h].value;
    assert w'.requests[|w.requests|] == id && w'.handles[a.h] == Some(id);
    assert id in w'.requests && Held(w', id);
  }

  /** And nothing leads back. */
  lemma RepeatedStays(w: World, a: Action)
    requires Enabled(w, a) && Repeated(w)
    ensures Repeated(Step(w, a))
  {
    var w' := Step(w, a);
    RequestsGrow(w, a);
    if Distinct(w.requests) {
      var id :| id in w.requests && Held(w, id);
      if Released(w, a) == [id] {
        AppendRepeats(w.requests, id);
      } else {
        StillHeld(w, a, id);
        assert id in w'.requests;
      }
    } else if Distinct(w'.requests) {
      PrefixDistinct(w.requests, Released(w, a));
    }
  }

  lemma RequestsGrow(w: World, a: Action)
    requires Enabled(w, a)
    ensures Step(w, a).requests == w.requests + Released(w, a)
  {
  }

  lemma AppendRepeats(ids: seq<nat>, id: nat)
    requires id in ids
    ensures !Distinct(ids + [id])
  {
    var k :| 0 <= k < |ids| && ids[k] == id;
    assert (ids + [id])[k] == (ids + [id])[|ids|];
  }

  lemma PrefixDistinct(ids: seq<nat>, more: seq<nat>)
    requires Distinct(ids + more)
    ensures Distinct(ids)
  {
    assert forall k :: 0 <= k < |ids| ==> ids[k] == (ids + more)[k];
  }

  /** What a handle holds is held on until it is released. */
  lemma StillHeld(w: World, a: Action, id: nat)
    requires Enabled(w, a) && Held(w, id) && Released(w, a) != [id]
    ensures Held(Step(w, a), id)
  {
    var h :| h in w.handles && w.handles[h] == Some(id);
    var h' := if (a.MoveConstruct? || a.MoveAssign?) && h == a.from then a.h else h;
    assert Step(w, a).handles[h'] == Some(id);
  }

  lemma {:induction false} RepeatedSince(worlds: seq<World>, actions: seq<Action>, j: nat, i: nat)
    requires IsRun(worlds, actions) && j < i < |worlds| && SelfMove(worlds[j], actions[j])
    ensures Repeated(worlds[i])
  {
    hide Step, Enabled, SelfMove, Repeated;
    if i == j + 1 {
      SelfMoveRepeats(worlds[j], actions[j]);
    } else {
      RepeatedSince(worlds, actions, j, i - 1);
      RepeatedStays(worlds[i - 1], actions[i - 1]);
    }
  }

  /** At most once, exactly: once nothing is held any more, no subscription of the run has been
      unsubscribed twice if and only if no handle that held one was assigned to itself. */
  lemma UnsubscribedOnce(worlds: seq<World>, actions: seq<Action>)
    requires IsRun(worlds, actions)
    requires forall h :: h in worlds[|actions|].handles ==> worlds[|actions|].handles[h] == None
    ensures Distinct(worlds[|actions|].requests) <==> forall j :: 0 <= j < |actions| ==> !SelfMove(worlds[j], actions[j])
  {
    hide Owned, Step, Enabled, SelfMove, Distinct;
    OwnedThroughout(worlds, actions);
    if j :| 0 <= j < |actions| && SelfMove(worlds[j], actions[j]) {
      RepeatedSince(worlds, actions, j, |actions|);
      NothingHeld(worlds[|actions|]);
    }
  }

  lemma NothingHeld(w: World)
    requires forall h :: h in w.handles ==> w.handles[h] == None
    ensures forall id :: !Held(w, id)
  {
  }

  /** The shortest run with a subscription unsubscribed twice. */
  lemma UnsubscribedTwice() returns (worlds: seq<World>, actions: seq<Action>)
    ensures IsRun(worlds, actions) && worlds[|actions|].requests == [0, 0]
  {
    actions := [Subscribe(0), MoveAssign(0, 0), Drop(0)];
    var w0 := Initial();
    var w1 := World(map[0 := Some(0)], [], 1);
    var w2 := World(map[0 := Some(0)], [0], 1);
    var w3 := World(map[], [0, 0], 1);
    assert Step(w0, Subscribe(0)) == w1;
    assert Step(w1, MoveAssign(0, 0)) == w2;
    assert Step(w2, Drop(0)) == w3;
    worlds := [w0, w1, w2, w3];
  }
}
