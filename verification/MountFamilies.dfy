/** The children of the native objects, in order: each child has a live slot and knows its parent, and
    what the operations of a mount do to their order. */
module MountFamilies {
  import opened Wrappers
  import opened MountModel
  import opened MountTables
  import opened MountCycles

  predicate Owns(slot: Option<Slot>, o: Obj) {
    slot.Some? && slot.value.widget == o
  }

  ghost predicate Owned(slots: Slots, o: Obj) {
    exists i :: 0 <= i < |slots| && Owns(slots[i], o)
  }

  /** `o` is a live object under `p`. */
  ghost predicate ChildOf(s: State, p: Obj, o: Obj) {
    o in s.forest.widgets && s.forest.widgets[o].parent == p && Owned(s.slots, o)
  }

  /** The lists of children hold live children only, and only of objects made so far. */
  ghost predicate Families(s: State) {
    && (forall p: Obj, o: Obj :: o in Kids(s.forest, p) ==> ChildOf(s, p, o))
    && (forall p: Obj :: p in s.forest.children && p.Host? ==> p.id < s.forest.clock)
  }

  // ----- What keeps families -----

  lemma {:induction false} WithoutHolds<T>(all: seq<T>, x: T, y: T)
    ensures y in Without(all, x) <==> y in all && y != x
  {
    if all != [] {
      WithoutHolds(all[1..], x, y);
      assert y in all <==> y == all[0] || y in all[1..];
    }
  }

  lemma {:induction false} WithoutAbsent<T>(all: seq<T>, x: T)
    requires x !in all
    ensures Without(all, x) == all
  {
    if all != [] {
      WithoutAbsent(all[1..], x);
      assert all[0] == x ==> x in all;
    }
  }

  lemma PutAtHolds<T>(all: seq<T>, x: T, index: nat, y: T)
    ensures y in PutAt(all, x, index) <==> y == x || y in all
  {
    var place := if index <= |all| then index else |all|;
    assert all[..place] + all[place..] == all;
    assert y in PutAt(all, x, index) <==> y == x || y in all[..place] + all[place..];
  }

  /** Slots keep their objects, and the lists of children stay. */
  lemma FamiliesStay(s: State, r: State)
    requires Families(s) && r.forest.children == s.forest.children && s.forest.clock <= r.forest.clock
    requires SameParents(s.forest, r.forest) && |r.slots| == |s.slots|
    requires forall i, o :: 0 <= i < |s.slots| && Owns(s.slots[i], o) ==> Owns(r.slots[i], o)
    ensures Families(r)
  {
    forall p: Obj, o: Obj | o in Kids(r.forest, p) ensures ChildOf(r, p, o) {
      assert ChildOf(s, p, o);
      assert ParentOf(r.forest, o) == ParentOf(s.forest, o);
      var i :| 0 <= i < |s.slots| && Owns(s.slots[i], o);
      assert Owns(r.slots[i], o);
    }
  }

  lemma GivenFontFamilies(native: Native, s: State, i: nat, size: int)
    requires Tables(s) && Families(s) && i < |s.slots| && s.slots[i].Some?
    ensures Families(GiveFont(native, s, i, size).s)
  {
    AcquireCounts(native, s.slots, s.fonts, s.forest.clock, size);
    FamiliesStay(s, GiveFont(native, s, i, size).s);
  }

  lemma PlacedFamilies(s: State, i: nat, slot: Slot)
    requires Tables(s) && Families(s) && i < |s.slots| && s.slots[i].None?
    requires slot.widget == Host(slot.surface, s.forest.clock)
    ensures Families(PlaceSlot(s, i, slot))
  {
    var r := PlaceSlot(s, i, slot);
    forall p: Obj, o: Obj | o in Kids(r.forest, p) ensures ChildOf(r, p, o) {
      if o == slot.widget {
        assert Owns(r.slots[i], o);
        assert o !in Kids(s.forest, p);
      } else {
        assert o in Kids(s.forest, p) && ChildOf(s, p, o);
        var k :| 0 <= k < |s.slots| && Owns(s.slots[k], o);
        assert Owns(r.slots[k], o);
      }
    }
  }

  lemma CreateFamilies(native: Native, s: State, surface: SurfaceId, node: NodeId, kind: HostType, attached: bool)
    requires Tables(s) && Families(s) && FindSlot(s.slots, surface, node).None?
    ensures Families(CommitCreate(native, s, surface, node, kind, attached).s)
  {
    var free := FreeFrom(s.slots, 0);
    FamiliesStay(s, TickState(s));
    if free.Some? && native.create(s.forest.clock) {
      var slot := Slot(surface, node, kind, Host(surface, s.forest.clock), attached, None);
      var placed := PlaceSlot(s, free.value, slot);
      var captioned := if kind.Button? then TickState(placed) else placed;
      PlacedKeeps(s, free.value, slot);
      PlacedFamilies(s, free.value, slot);
      TickKeeps(placed);
      FamiliesStay(placed, captioned);
      GivenFontFamilies(native, captioned, free.value, DEFAULT_FONT_SIZE);
    }
  }

  lemma PropFamilies(native: Native, s: State, surface: SurfaceId, node: NodeId, name: string, value: Value)
    requires Tables(s) && Families(s)
    ensures Families(CommitProp(native, s, surface, node, name, value).s)
  {
    var target := FindSlot(s.slots, surface, node);
    if target.Some? {
      if name == "fontSize" {
        if value.Integer? {
          GivenFontFamilies(native, s, target.value, value.integer);
        }
      } else {
        FamiliesStay(s, CommitProp(native, s, surface, node, name, value).s);
      }
    }
  }

  lemma LayoutFamilies(s: State, surface: SurfaceId, node: NodeId, rect: Rect)
    requires Tables(s) && Families(s)
    ensures Families(CommitLayout(s, surface, node, rect).s)
  {
    FamiliesStay(s, CommitLayout(s, surface, node, rect).s);
  }

  // ----- Moving an object -----

  /** The children of an object when `o` has moved under `parent`. */
  lemma ReparentedKids(f: Forest, o: Obj, parent: Obj, index: nat, p: Obj, w: Obj)
    requires o in f.widgets && (o in Kids(f, p) ==> f.widgets[o].parent == p)
    ensures w in Kids(Reparent(f, o, parent, index), p) <==> if w == o then p == parent else w in Kids(f, p)
  {
    var source := f.widgets[o].parent;
    var detached := f.children[source := Without(Kids(f, source), o)];
    var at := if parent in detached then detached[parent] else [];
    WithoutHolds(Kids(f, source), o, w);
    WithoutHolds(at, o, w);
    PutAtHolds(Without(at, o), o, index, w);
  }

  lemma ReparentFamilies(s: State, o: Obj, parent: Obj, index: nat)
    requires Tables(s) && Families(s) && Owned(s.slots, o) && o in s.forest.widgets && parent in s.forest.widgets
    ensures Families(s.(forest := Reparent(s.forest, o, parent, index)))
  {
    var r := s.(forest := Reparent(s.forest, o, parent, index));
    forall p: Obj, w: Obj | w in Kids(r.forest, p) ensures ChildOf(r, p, w) {
      assert o in Kids(s.forest, p) ==> ChildOf(s, p, o);
      ReparentedKids(s.forest, o, parent, index, p, w);
      if w != o {
        assert ChildOf(s, p, w);
      }
    }
  }

  lemma SlotOwned(slots: Slots, i: nat)
    requires i < |slots| && slots[i].Some?
    ensures Owned(slots, slots[i].value.widget)
  {
    assert Owns(slots[i], slots[i].value.widget);
  }

  lemma InsertFamilies(s: State, surface: SurfaceId, node: NodeId, parent: NodeId, index: nat)
    requires Tables(s) && Families(s)
    ensures Families(CommitInsert(s, surface, node, parent, index).s)
  {
    var step := CommitInsert(s, surface, node, parent, index);
    if step.ok {
      var child, target := FindSlot(s.slots, surface, node).value, FindSlot(s.slots, surface, parent).value;
      SlotOwned(s.slots, child);
      ReparentFamilies(s, s.slots[child].value.widget, s.slots[target].value.widget, index);
      FamiliesStay(s.(forest := step.s.forest), step.s);
    }
  }

  lemma MoveFamilies(s: State, surface: SurfaceId, node: NodeId, parent: NodeId, index: nat)
    requires Tables(s) && Families(s)
    ensures Families(CommitMove(s, surface, node, parent, index).s)
  {
    var step := CommitMove(s, surface, node, parent, index);
    if step.ok {
      var child, target := FindSlot(s.slots, surface, node).value, FindSlot(s.slots, surface, parent).value;
      SlotOwned(s.slots, child);
      ReparentFamilies(s, s.slots[child].value.widget, s.slots[target].value.widget, index);
    }
  }

  // ----- Deleting a subtree -----

  lemma {:induction false} ReachesFurther(f: Forest, o: Obj, a: Obj, steps: nat)
    requires Reaches(f, o, a, steps)
    ensures Reaches(f, o, a, steps + 1)
    decreases steps
  {
    if o != a {
      ReachesFurther(f, f.widgets[o].parent, a, steps - 1);
    }
  }

  /** A child that goes with a subtree goes with its parent, or is the subtree's top. */
  lemma GoesWithParent(f: Forest, o: Obj, a: Obj)
    requires Under(f, o, a) && o != a
    ensures Under(f, f.widgets[o].parent, a)
  {
    ReachesFurther(f, f.widgets[o].parent, a, |f.widgets| - 1);
  }

  lemma DeletedKids(f: Forest, a: Obj, p: Obj, o: Obj)
    requires o in Kids(DeleteSubtree(f, a), p)
    ensures o in Kids(f, p) && !Under(f, p, a) && (a in f.widgets && f.widgets[a].parent == p ==> o != a)
  {
    WithoutHolds(f.children[p], a, o);
  }

  lemma DestroySlotFamilies(s: State, i: nat)
    requires Tables(s) && Families(s) && i < |s.slots| && s.slots[i].Some?
    ensures Families(DestroySlot(s, i))
  {
    var r, a := DestroySlot(s, i), s.slots[i].value.widget;
    forall p: Obj, o: Obj | o in Kids(r.forest, p) ensures ChildOf(r, p, o) {
      DeletedKids(s.forest, a, p, o);
      assert ChildOf(s, p, o);
      if Under(s.forest, o, a) {
        if o != a {
          GoesWithParent(s.forest, o, a);
        }
        assert false;
      }
      var k :| 0 <= k < |s.slots| && Owns(s.slots[k], o);
      assert !RemovedSlots(s.forest, s.slots, a)[k];
      assert Owns(r.slots[k], o);
    }
  }

  lemma RemoveFamilies(s: State, surface: SurfaceId, node: NodeId)
    requires Tables(s) && Families(s)
    ensures Families(CommitRemove(s, surface, node).s)
  {
    var target := FindSlot(s.slots, surface, node);
    if target.Some? {
      DestroySlotFamilies(s, target.value);
    }
  }

  lemma {:induction false} DestroyBelowFamilies(s: State, surface: SurfaceId, n: nat)
    requires Tables(s) && Families(s) && n <= |s.slots|
    ensures Families(DestroySurfaceBelow(s, surface, n))
    decreases n
  {
    if n > 0 {
      if s.slots[n - 1].Some? && s.slots[n - 1].value.surface == surface {
        DestroySlotFamilies(s, n - 1);
        DestroySlotKeeps(s, n - 1);
        DestroyBelowFamilies(DestroySlot(s, n - 1), surface, n - 1);
      } else {
        DestroyBelowFamilies(s, surface, n - 1);
      }
    }
  }

  lemma DestroyFamilies(s: State, surface: SurfaceId)
    requires Tables(s) && Families(s)
    ensures Families(DestroySurface(s, surface))
  {
    DestroyBelowFamilies(s, surface, |s.slots|);
  }

  lemma CommitFamilies(native: Native, s: State, surface: SurfaceId, first: bool, op: Operation)
    requires Tables(s) && Families(s) && (op.CreateHost? ==> FindSlot(s.slots, surface, op.node).None?)
    ensures Families(Commit(native, s, surface, first, op).s)
  {
    match op
    case CreateHost(node, kind) => CreateFamilies(native, s, surface, node, kind, first);
    case SetHostProp(node, property, value) => PropFamilies(native, s, surface, node, property.chars, value);
    case SetHostLayout(node, rect) => LayoutFamilies(s, surface, node, rect);
    case InsertHostChild(node, parent, index) => InsertFamilies(s, surface, node, parent, index);
    case MoveHost(node, parent, index) => MoveFamilies(s, surface, node, parent, index);
    case RemoveHost(node) => RemoveFamilies(s, surface, node);
  }
}
