/** The order of the children under each node of a surface, by the nodes' names, and what the
    operations of a building mount do to it. */
module MountOrders {
  import opened Wrappers
  import opened MountModel
  import opened MountTables
  import opened MountCycles
  import opened MountFamilies

  predicate OwnsOn(slot: Option<Slot>, surface: SurfaceId, o: Obj) {
    Owns(slot, o) && slot.value.surface == surface
  }

  /** The node, among the slots from `i` on, that has the object. */
  function NameFrom(slots: Slots, surface: SurfaceId, o: Obj, i: nat): (r: Option<NodeId>)
    requires i <= |slots|
    ensures r.None? ==> forall k :: i <= k < |slots| ==> !OwnsOn(slots[k], surface, o)
    ensures r.Some? ==>
              exists k :: i <= k < |slots| && OwnsOn(slots[k], surface, o) && slots[k].value.node == r.value
    decreases |slots| - i
  {
    if i == |slots| then None
    else if OwnsOn(slots[i], surface, o) then Some(slots[i].value.node)
    else NameFrom(slots, surface, o, i + 1)
  }

  function NameOf(slots: Slots, surface: SurfaceId, o: Obj): Option<NodeId> {
    NameFrom(slots, surface, o, 0)
  }

  function Names(slots: Slots, surface: SurfaceId, objects: seq<Obj>): seq<Option<NodeId>> {
    if objects == [] then [] else [NameOf(slots, surface, objects[0])] + Names(slots, surface, objects[1..])
  }

  function Order(s: State, surface: SurfaceId, p: Obj): seq<Option<NodeId>> {
    Names(s.slots, surface, Kids(s.forest, p))
  }

  function OrderUnder(s: State, surface: SurfaceId, node: NodeId): seq<Option<NodeId>> {
    var seat := Seen(s.slots, surface, node);
    if seat.None? then [] else Order(s, surface, seat.value.widget)
  }

  /** The same children in the same order under the root and under each node. */
  ghost predicate SameOrder(a: State, b: State, surface: SurfaceId) {
    && Order(a, surface, Root(surface)) == Order(b, surface, Root(surface))
    && forall node: NodeId :: OrderUnder(a, surface, node) == OrderUnder(b, surface, node)
  }

  // ----- Names -----

  lemma NameAt(slots: Slots, surface: SurfaceId, o: Obj, i: nat)
    requires i < |slots| && OwnsOn(slots[i], surface, o)
    requires forall k :: 0 <= k < |slots| && k != i ==> !Owns(slots[k], o)
    ensures NameOf(slots, surface, o) == Some(slots[i].value.node)
  {
  }

  lemma {:induction false} SameName(a: Slots, b: Slots, surface: SurfaceId, o: Obj, i: nat)
    requires |a| == |b| && i <= |a|
    requires forall k :: i <= k < |a| ==>
               && (OwnsOn(a[k], surface, o) <==> OwnsOn(b[k], surface, o))
               && (OwnsOn(a[k], surface, o) && OwnsOn(b[k], surface, o) ==> a[k].value.node == b[k].value.node)
    ensures NameFrom(a, surface, o, i) == NameFrom(b, surface, o, i)
    decreases |a| - i
  {
    if i < |a| {
      SameName(a, b, surface, o, i + 1);
    }
  }

  lemma {:induction false} SameNames(a: Slots, b: Slots, surface: SurfaceId, objects: seq<Obj>)
    requires forall o :: o in objects ==> NameOf(a, surface, o) == NameOf(b, surface, o)
    ensures Names(a, surface, objects) == Names(b, surface, objects)
  {
    if objects != [] {
      SameNames(a, b, surface, objects[1..]);
    }
  }

  lemma {:induction false} NamesAppend(slots: Slots, surface: SurfaceId, left: seq<Obj>, right: seq<Obj>)
    ensures Names(slots, surface, left + right) == Names(slots, surface, left) + Names(slots, surface, right)
  {
    if left == [] {
      assert left + right == right;
    } else {
      assert (left + right)[1..] == left[1..] + right;
      NamesAppend(slots, surface, left[1..], right);
    }
  }

  lemma {:induction false} NamesWithout(slots: Slots, surface: SurfaceId, objects: seq<Obj>, o: Obj, node: NodeId)
    requires forall x :: x in objects ==> (NameOf(slots, surface, x) == Some(node) <==> x == o)
    ensures Names(slots, surface, Without(objects, o)) == Without(Names(slots, surface, objects), Some(node))
  {
    if objects != [] {
      var x, rest := objects[0], objects[1..];
      assert forall y :: y in rest ==> y in objects;
      NamesWithout(slots, surface, rest, o, node);
      if x != o {
        assert (([x] + Without(rest, o))[1..]) == Without(rest, o);
      } else {
        assert [] + Without(rest, o) == Without(rest, o);
      }
      assert Names(slots, surface, objects)[1..] == Names(slots, surface, rest);
    }
  }

  lemma {:induction false} NamesLength(slots: Slots, surface: SurfaceId, objects: seq<Obj>)
    ensures |Names(slots, surface, objects)| == |objects|
  {
    if objects != [] {
      NamesLength(slots, surface, objects[1..]);
    }
  }

  lemma NamesPutAt(slots: Slots, surface: SurfaceId, objects: seq<Obj>, o: Obj, index: nat)
    ensures Names(slots, surface, PutAt(objects, o, index))
         == PutAt(Names(slots, surface, objects), NameOf(slots, surface, o), index)
  {
    var place := if index <= |objects| then index else |objects|;
    var left, right := objects[..place], objects[place..];
    NamesAppend(slots, surface, left + [o], right);
    NamesAppend(slots, surface, left, [o]);
    NamesAppend(slots, surface, left, right);
    NamesLength(slots, surface, left);
    NamesLength(slots, surface, objects);
    assert left + right == objects;
    assert Names(slots, surface, [o]) == [NameOf(slots, surface, o)];
  }

  // ----- A surface's names -----

  /** An owned object of the surface bears a node's name exactly when it is the node's. */
  lemma NamedOnce(s: State, surface: SurfaceId, node: NodeId, o: Obj)
    requires Tables(s) && Seen(s.slots, surface, node).Some?
    ensures NameOf(s.slots, surface, o) == Some(node) <==> o == Seen(s.slots, surface, node).value.widget
  {
    var i := FindSlot(s.slots, surface, node).value;
    if o == s.slots[i].value.widget {
      NameAt(s.slots, surface, o, i);
    } else {
      assert forall k :: 0 <= k < |s.slots| && OwnsOn(s.slots[k], surface, o) ==> k != i;
    }
  }

  /** Slots keep their nodes and objects. */
  ghost predicate SameOwners(a: Slots, b: Slots) {
    && |a| == |b|
    && forall i :: 0 <= i < |a| ==>
         && (a[i].Some? <==> b[i].Some?)
         && (a[i].Some? ==> a[i].value.widget == b[i].value.widget && a[i].value.surface == b[i].value.surface
                            && a[i].value.node == b[i].value.node)
  }

  lemma OwnersKeepOrder(s: State, r: State, surface: SurfaceId, p: Obj)
    requires SameOwners(s.slots, r.slots) && Kids(r.forest, p) == Kids(s.forest, p)
    ensures Order(r, surface, p) == Order(s, surface, p)
  {
    forall o ensures NameOf(r.slots, surface, o) == NameOf(s.slots, surface, o) {
      SameName(r.slots, s.slots, surface, o, 0);
    }
    SameNames(r.slots, s.slots, surface, Kids(s.forest, p));
  }

  /** The lists of children stay: so does the order. */
  lemma StillOrder(s: State, r: State, surface: SurfaceId)
    requires SameOwners(s.slots, r.slots) && r.forest.children == s.forest.children
    requires SameSeats(s.slots, r.slots, surface)
    ensures SameOrder(s, r, surface)
  {
    OwnersKeepOrder(s, r, surface, Root(surface));
    forall node: NodeId ensures OrderUnder(s, surface, node) == OrderUnder(r, surface, node) {
      assert Seen(r.slots, surface, node) == Seen(s.slots, surface, node);
      if Seen(s.slots, surface, node).Some? {
        OwnersKeepOrder(s, r, surface, Seen(s.slots, surface, node).value.widget);
      }
    }
  }

  // ----- A node is created -----

  /** The new node is the last under the root, and has nothing under it. */
  ghost predicate LastCreated(s: State, r: State, surface: SurfaceId, node: NodeId) {
    && Order(r, surface, Root(surface)) == Order(s, surface, Root(surface)) + [Some(node)]
    && forall m: NodeId :: OrderUnder(r, surface, m) == if m == node then [] else OrderUnder(s, surface, m)
  }

  lemma PlacedName(s: State, i: nat, slot: Slot, o: Obj)
    requires i < |s.slots| && s.slots[i].None? && o != slot.widget
    ensures NameOf(PlaceSlot(s, i, slot).slots, slot.surface, o) == NameOf(s.slots, slot.surface, o)
  {
    SameName(PlaceSlot(s, i, slot).slots, s.slots, slot.surface, o, 0);
  }

  /** An object made before keeps the names under it. */
  lemma PlacedElsewhere(s: State, i: nat, slot: Slot, p: Obj)
    requires Tables(s) && Families(s) && i < |s.slots| && s.slots[i].None?
    requires slot.widget == Host(slot.surface, s.forest.clock)
    ensures Names(PlaceSlot(s, i, slot).slots, slot.surface, Kids(s.forest, p)) == Order(s, slot.surface, p)
  {
    forall o | o in Kids(s.forest, p)
      ensures NameOf(PlaceSlot(s, i, slot).slots, slot.surface, o) == NameOf(s.slots, slot.surface, o)
    {
      assert ChildOf(s, p, o);
      PlacedName(s, i, slot, o);
    }
    SameNames(PlaceSlot(s, i, slot).slots, s.slots, slot.surface, Kids(s.forest, p));
  }

  lemma PlacedLast(s: State, i: nat, slot: Slot)
    requires Tables(s) && Families(s) && i < |s.slots| && s.slots[i].None? && slot.font.None?
    requires FindSlot(s.slots, slot.surface, slot.node).None? && slot.widget == Host(slot.surface, s.forest.clock)
    ensures LastCreated(s, PlaceSlot(s, i, slot), slot.surface, slot.node)
  {
    var r, root := PlaceSlot(s, i, slot), Root(slot.surface);
    PlacedKeeps(s, i, slot);
    PlacedSeats(s, i, slot);
    PlacedElsewhere(s, i, slot, root);
    NameAt(r.slots, slot.surface, slot.widget, i);
    NamesAppend(r.slots, slot.surface, Kids(s.forest, root), [slot.widget]);
    assert Names(r.slots, slot.surface, [slot.widget]) == [Some(slot.node)];
    forall m: NodeId
      ensures OrderUnder(r, slot.surface, m) == if m == slot.node then [] else OrderUnder(s, slot.surface, m)
    {
      var seat := Seen(r.slots, slot.surface, m);
      if m == slot.node {
        assert Kids(r.forest, slot.widget) == [];
      } else if seat.Some? {
        PlacedElsewhere(s, i, slot, seat.value.widget);
        assert Kids(r.forest, seat.value.widget) == Kids(s.forest, seat.value.widget);
      }
    }
  }

  lemma LastCreatedThen(s: State, p: State, r: State, surface: SurfaceId, node: NodeId)
    requires LastCreated(s, p, surface, node) && SameOrder(p, r, surface)
    ensures LastCreated(s, r, surface, node)
  {
  }

  lemma GivenFontOrder(native: Native, s: State, i: nat, size: int)
    requires Tables(s) && i < |s.slots| && s.slots[i].Some?
    ensures SameOrder(s, GiveFont(native, s, i, size).s, s.slots[i].value.surface)
  {
    GivenFontSeats(native, s, i, size, s.slots[i].value.surface);
    StillOrder(s, GiveFont(native, s, i, size).s, s.slots[i].value.surface);
  }

  lemma CreateOrder(native: Native, s: State, surface: SurfaceId, node: NodeId, kind: HostType, attached: bool)
    requires Tables(s) && Families(s) && FindSlot(s.slots, surface, node).None?
    requires CommitCreate(native, s, surface, node, kind, attached).ok
    ensures LastCreated(s, CommitCreate(native, s, surface, node, kind, attached).s, surface, node)
  {
    var i := FreeFrom(s.slots, 0).value;
    var slot := Slot(surface, node, kind, Host(surface, s.forest.clock), attached, None);
    var placed := PlaceSlot(s, i, slot);
    var captioned := if kind.Button? then TickState(placed) else placed;
    PlacedKeeps(s, i, slot);
    PlacedLast(s, i, slot);
    TickKeeps(placed);
    StillOrder(placed, captioned, surface);
    LastCreatedThen(s, placed, captioned, surface, node);
    if !kind.View? {
      GivenFontOrder(native, captioned, i, DEFAULT_FONT_SIZE);
      LastCreatedThen(s, captioned, GiveFont(native, captioned, i, DEFAULT_FONT_SIZE).s, surface, node);
    }
  }

  // ----- A node is inserted -----

  /** The names without the node's, or with it put at the index. */
  function Rearranged(names: seq<Option<NodeId>>, node: NodeId, put: bool, index: nat): seq<Option<NodeId>> {
    var left := Without(names, Some(node));
    if put then PutAt(left, Some(node), index) else left
  }

  /** The node leaves its place and is put at the index among the parent's children. */
  ghost predicate PutUnder(s: State, r: State, surface: SurfaceId, node: NodeId, parent: NodeId, index: nat) {
    && Order(r, surface, Root(surface)) == Without(Order(s, surface, Root(surface)), Some(node))
    && forall m: NodeId :: OrderUnder(r, surface, m) == Rearranged(OrderUnder(s, surface, m), node, m == parent, index)
  }

  /** What hangs under an object when `o` has moved under `parent`. */
  lemma ReparentedList(f: Forest, o: Obj, parent: Obj, index: nat, p: Obj)
    requires o in f.widgets && (o in Kids(f, p) ==> f.widgets[o].parent == p)
    ensures Kids(Reparent(f, o, parent, index), p)
         == if p == parent then PutAt(Without(Kids(f, p), o), o, index) else Without(Kids(f, p), o)
  {
    var source := f.widgets[o].parent;
    WithoutHolds(Kids(f, source), o, o);
    WithoutAbsent(Without(Kids(f, source), o), o);
    if p != source {
      WithoutAbsent(Kids(f, p), o);
    }
  }

  lemma InsertedList(s: State, o: Obj, parent: Obj, index: nat, surface: SurfaceId, node: NodeId, p: Obj)
    requires Tables(s) && Families(s) && Seen(s.slots, surface, node).Some?
    requires o == Seen(s.slots, surface, node).value.widget && o in s.forest.widgets
    ensures Names(s.slots, surface, Kids(Reparent(s.forest, o, parent, index), p))
         == Rearranged(Order(s, surface, p), node, p == parent, index)
  {
    assert o in Kids(s.forest, p) ==> ChildOf(s, p, o);
    ReparentedList(s.forest, o, parent, index, p);
    forall x ensures NameOf(s.slots, surface, x) == Some(node) <==> x == o {
      NamedOnce(s, surface, node, x);
    }
    NamesWithout(s.slots, surface, Kids(s.forest, p), o, node);
    NamesPutAt(s.slots, surface, Without(Kids(s.forest, p), o), o, index);
  }

  lemma InsertOrder(s: State, surface: SurfaceId, node: NodeId, parent: NodeId, index: nat)
    requires Tables(s) && Families(s) && CommitInsert(s, surface, node, parent, index).ok
    ensures PutUnder(s, CommitInsert(s, surface, node, parent, index).s, surface, node, parent, index)
  {
    var r := CommitInsert(s, surface, node, parent, index).s;
    var o, target := Seen(s.slots, surface, node).value.widget, Seen(s.slots, surface, parent).value.widget;
    var moved := s.(forest := r.forest);
    InsertKeeps(s, surface, node, parent, index);
    InsertSeats(s, surface, node, parent, index);
    InsertedList(s, o, target, index, surface, node, Root(surface));
    OwnersKeepOrder(moved, r, surface, Root(surface));
    forall m: NodeId
      ensures OrderUnder(r, surface, m) == Rearranged(OrderUnder(s, surface, m), node, m == parent, index)
    {
      if Seen(s.slots, surface, m).Some? {
        var p := Seen(s.slots, surface, m).value.widget;
        InsertedList(s, o, target, index, surface, node, p);
        OwnersKeepOrder(moved, r, surface, p);
        if m != parent {
          SeatsApart(s, surface, m, parent);
        }
      }
    }
  }

  /** A move puts its node there as an insert does. */
  lemma MoveOrder(s: State, surface: SurfaceId, node: NodeId, parent: NodeId, index: nat)
    requires Tables(s) && Families(s) && CommitMove(s, surface, node, parent, index).ok
    ensures PutUnder(s, CommitMove(s, surface, node, parent, index).s, surface, node, parent, index)
  {
    var o, target := Seen(s.slots, surface, node).value.widget, Seen(s.slots, surface, parent).value.widget;
    InsertedList(s, o, target, index, surface, node, Root(surface));
    forall m: NodeId
      ensures OrderUnder(CommitMove(s, surface, node, parent, index).s, surface, m)
           == Rearranged(OrderUnder(s, surface, m), node, m == parent, index)
    {
      if Seen(s.slots, surface, m).Some? {
        InsertedList(s, o, target, index, surface, node, Seen(s.slots, surface, m).value.widget);
        if m != parent {
          SeatsApart(s, surface, m, parent);
        }
      }
    }
  }

  // ----- A node is removed -----

  /** The node's object lies in the subtree of another's. */
  predicate Goes(s: State, surface: SurfaceId, node: NodeId, m: NodeId) {
    && Seen(s.slots, surface, node).Some? && Seen(s.slots, surface, m).Some?
    && Under(s.forest, Seen(s.slots, surface, m).value.widget, Seen(s.slots, surface, node).value.widget)
  }

  /** A node that stays after a removal keeps its slot; one that goes has none. */
  lemma RemovedSeats(s: State, surface: SurfaceId, node: NodeId, m: NodeId)
    requires Tables(s) && Seen(s.slots, surface, node).Some?
    ensures Seen(CommitRemove(s, surface, node).s.slots, surface, m)
         == if Goes(s, surface, node, m) then None else Seen(s.slots, surface, m)
  {
    var r, a := CommitRemove(s, surface, node).s, Seen(s.slots, surface, node).value.widget;
    var removed := RemovedSlots(s.forest, s.slots, a);
    DestroySlotKeeps(s, FindSlot(s.slots, surface, node).value);
    var k := FindSlot(s.slots, surface, m);
    if k.Some? && !removed[k.value] {
      FoundAt(r.slots, surface, m, k.value);
    }
  }

  lemma RemovedName(s: State, surface: SurfaceId, node: NodeId, o: Obj)
    requires Tables(s) && Seen(s.slots, surface, node).Some?
    requires !Under(s.forest, o, Seen(s.slots, surface, node).value.widget)
    ensures NameOf(CommitRemove(s, surface, node).s.slots, surface, o) == NameOf(s.slots, surface, o)
  {
    SameName(CommitRemove(s, surface, node).s.slots, s.slots, surface, o, 0);
  }

  /** The children that stay under an object that stays are all but the one removed. */
  lemma RemovedKids(s: State, a: Obj, p: Obj)
    requires Tables(s) && Families(s) && !Under(s.forest, p, a)
    ensures Kids(DeleteSubtree(s.forest, a), p) == Without(Kids(s.forest, p), a)
    ensures forall o :: o in Without(Kids(s.forest, p), a) ==> !Under(s.forest, o, a)
  {
    if !(a in s.forest.widgets && s.forest.widgets[a].parent == p) {
      assert a in Kids(s.forest, p) ==> ChildOf(s, p, a);
      WithoutAbsent(Kids(s.forest, p), a);
    }
    forall o | o in Without(Kids(s.forest, p), a) ensures !Under(s.forest, o, a) {
      WithoutHolds(Kids(s.forest, p), a, o);
      assert ChildOf(s, p, o);
      if Under(s.forest, o, a) {
        GoesWithParent(s.forest, o, a);
        assert false;
      }
    }
  }

  lemma RemovedUnder(s: State, surface: SurfaceId, node: NodeId, p: Obj)
    requires Tables(s) && Families(s) && Seen(s.slots, surface, node).Some?
    requires !Under(s.forest, p, Seen(s.slots, surface, node).value.widget)
    ensures Order(CommitRemove(s, surface, node).s, surface, p) == Without(Order(s, surface, p), Some(node))
  {
    var r, a := CommitRemove(s, surface, node).s, Seen(s.slots, surface, node).value.widget;
    RemovedKids(s, a, p);
    forall o | o in Kids(r.forest, p) ensures NameOf(r.slots, surface, o) == NameOf(s.slots, surface, o) {
      RemovedName(s, surface, node, o);
    }
    SameNames(r.slots, s.slots, surface, Kids(r.forest, p));
    forall x ensures NameOf(s.slots, surface, x) == Some(node) <==> x == a {
      NamedOnce(s, surface, node, x);
    }
    NamesWithout(s.slots, surface, Kids(s.forest, p), a, node);
  }

  /** A removed node leaves its place, and nothing else moves under the root and the nodes that stay. */
  lemma RemoveOrder(s: State, surface: SurfaceId, node: NodeId)
    requires Tables(s) && Families(s) && Seen(s.slots, surface, node).Some?
    ensures var r := CommitRemove(s, surface, node).s;
            && Order(r, surface, Root(surface)) == Without(Order(s, surface, Root(surface)), Some(node))
            && forall m: NodeId :: OrderUnder(r, surface, m)
                 == if Goes(s, surface, node, m) then [] else Without(OrderUnder(s, surface, m), Some(node))
  {
    var r := CommitRemove(s, surface, node).s;
    RemovedUnder(s, surface, node, Root(surface));
    forall m: NodeId
      ensures OrderUnder(r, surface, m)
           == if Goes(s, surface, node, m) then [] else Without(OrderUnder(s, surface, m), Some(node))
    {
      RemovedSeats(s, surface, node, m);
      if Seen(s.slots, surface, m).Some? && !Goes(s, surface, node, m) {
        RemovedUnder(s, surface, node, Seen(s.slots, surface, m).value.widget);
      }
    }
  }

  lemma RetouchOrder(native: Native, s: State, surface: SurfaceId, first: bool, op: Operation)
    requires Tables(s) && (op.SetHostProp? || op.SetHostLayout?)
    ensures SameOrder(s, Commit(native, s, surface, first, op).s, surface)
  {
    if op.SetHostProp? {
      PropSeats(native, s, surface, op.node, op.property.chars, op.value);
    }
    StillOrder(s, Commit(native, s, surface, first, op).s, surface);
  }

  // ----- No node, and other surfaces -----

  lemma FirstIsIn<T>(all: seq<T>)
    ensures all == [] || all[0] in all
  {
  }

  /** Where a surface has no slot there is no child under its root. */
  lemma NothingUnder(s: State, surface: SurfaceId)
    requires Tables(s) && Families(s) && NoSlotOf(s.slots, surface)
    ensures Order(s, surface, Root(surface)) == []
  {
    var kids := Kids(s.forest, Root(surface));
    assert forall o :: o in kids ==> ChildOf(s, Root(surface), o) && o.surface == surface;
    FirstIsIn(kids);
  }

  lemma OtherOrder(s: State, r: State, other: SurfaceId, surface: SurfaceId, p: Obj)
    requires SameElsewhere(s.slots, r.slots, other) && surface != other && Kids(r.forest, p) == Kids(s.forest, p)
    ensures Order(r, surface, p) == Order(s, surface, p)
  {
    forall o ensures NameOf(r.slots, surface, o) == NameOf(s.slots, surface, o) {
      SameName(r.slots, s.slots, surface, o, 0);
    }
    SameNames(r.slots, s.slots, surface, Kids(s.forest, p));
  }
}
