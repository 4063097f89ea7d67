/** Which transactions keep the native objects a forest: a full mount does exactly when its insert
    edges form no cycle, which nothing checks; an incremental one with no insert and at most one move
    always does. */
module MountCycles {
  import opened Wrappers
  import opened MountModel
  import opened MountTables
  import opened MountForests

  // ----- The forest and the seats of the nodes -----

  function ParentOf(f: Forest, o: Obj): Option<Obj> {
    if o in f.widgets then Some(f.widgets[o].parent) else None
  }

  /** What a node's slot says of it here. */
  datatype Seat = Seat(widget: Obj, attached: bool)

  function Seen(slots: Slots, surface: SurfaceId, node: NodeId): Option<Seat> {
    var i := FindSlot(slots, surface, node);
    if i.None? then None else Some(Seat(slots[i.value].value.widget, slots[i.value].value.attached))
  }

  lemma FoundAt(slots: Slots, surface: SurfaceId, node: NodeId, i: nat)
    requires OneSlotPerNode(slots) && i < |slots| && Holds(slots[i], surface, node)
    ensures FindSlot(slots, surface, node) == Some(i)
  {
  }

  /** A slot that is new, or new in something but its node. */
  lemma SeenUpdate(slots: Slots, i: nat, slot: Slot, node: NodeId)
    requires i < |slots| && OneSlotPerNode(slots) && OneSlotPerNode(slots[i := Some(slot)])
    requires slots[i].None? || (slots[i].value.surface == slot.surface && slots[i].value.node == slot.node)
    ensures Seen(slots[i := Some(slot)], slot.surface, node)
         == if node == slot.node then Some(Seat(slot.widget, slot.attached)) else Seen(slots, slot.surface, node)
  {
    var after := slots[i := Some(slot)];
    if node == slot.node {
      FoundAt(after, slot.surface, node, i);
    } else if FindSlot(slots, slot.surface, node).Some? {
      FoundAt(after, slot.surface, node, FindSlot(slots, slot.surface, node).value);
    }
  }

  /** Both see the same seats. */
  ghost predicate SameSeats(a: Slots, b: Slots, surface: SurfaceId) {
    forall node: NodeId :: Seen(b, surface, node) == Seen(a, surface, node)
  }

  ghost predicate SameParents(f: Forest, g: Forest) {
    f.clock <= g.clock && forall o :: ParentOf(g, o) == ParentOf(f, o)
  }

  // ----- What steps do to seats and parents -----

  /** A new node, under the root. */
  ghost predicate Created(s: State, r: State, surface: SurfaceId, node: NodeId, attached: bool) {
    var w := Host(surface, s.forest.clock);
    && s.forest.clock <= r.forest.clock
    && (forall m: NodeId :: Seen(r.slots, surface, m)
                         == if m == node then Some(Seat(w, attached)) else Seen(s.slots, surface, m))
    && (forall o :: ParentOf(r.forest, o) == if o == w then Some(Root(surface)) else ParentOf(s.forest, o))
  }

  /** A node that was not attached now hangs under another. */
  ghost predicate Inserted(s: State, r: State, surface: SurfaceId, node: NodeId, parent: NodeId) {
    var child, target := Seen(s.slots, surface, node), Seen(s.slots, surface, parent);
    && child.Some? && !child.value.attached && target.Some? && s.forest.clock <= r.forest.clock
    && (forall m: NodeId :: Seen(r.slots, surface, m)
                         == if m == node then Some(Seat(child.value.widget, true)) else Seen(s.slots, surface, m))
    && (forall o :: ParentOf(r.forest, o)
                 == if o == child.value.widget then Some(target.value.widget) else ParentOf(s.forest, o))
  }

  lemma GivenFontSeats(native: Native, s: State, i: nat, size: int, surface: SurfaceId)
    requires Tables(s) && i < |s.slots| && s.slots[i].Some? && s.slots[i].value.surface == surface
    ensures var r := GiveFont(native, s, i, size).s;
            SameSeats(s.slots, r.slots, surface) && SameParents(s.forest, r.forest)
  {
    GivenFontKeeps(native, s, i, size);
    var r := GiveFont(native, s, i, size).s;
    forall node: NodeId ensures Seen(r.slots, surface, node) == Seen(s.slots, surface, node) {
      if r.slots[i] != s.slots[i] {
        SeenUpdate(s.slots, i, r.slots[i].value, node);
        if node == s.slots[i].value.node {
          FoundAt(s.slots, surface, node, i);
        }
      }
    }
  }

  lemma PlacedSeats(s: State, i: nat, slot: Slot)
    requires Tables(s) && i < |s.slots| && s.slots[i].None? && Tables(PlaceSlot(s, i, slot))
    requires slot.widget == Host(slot.surface, s.forest.clock)
    ensures Created(s, PlaceSlot(s, i, slot), slot.surface, slot.node, slot.attached)
  {
    forall m: NodeId
      ensures Seen(PlaceSlot(s, i, slot).slots, slot.surface, m)
           == if m == slot.node then Some(Seat(slot.widget, slot.attached)) else Seen(s.slots, slot.surface, m)
    {
      SeenUpdate(s.slots, i, slot, m);
    }
  }

  lemma CreatedThen(s: State, p: State, r: State, surface: SurfaceId, node: NodeId, attached: bool)
    requires Created(s, p, surface, node, attached)
    requires SameSeats(p.slots, r.slots, surface) && SameParents(p.forest, r.forest)
    ensures Created(s, r, surface, node, attached)
  {
  }

  /** A placed node, a label perhaps, and a font perhaps. */
  lemma FittedSeats(native: Native, s: State, i: nat, slot: Slot, captioned: State)
    requires Tables(s) && i < |s.slots| && s.slots[i].None? && FindSlot(s.slots, slot.surface, slot.node).None?
    requires slot.widget == Host(slot.surface, s.forest.clock) && slot.font.None?
    requires captioned == PlaceSlot(s, i, slot) || captioned == TickState(PlaceSlot(s, i, slot))
    ensures Created(s, captioned, slot.surface, slot.node, slot.attached)
    ensures Created(s, GiveFont(native, captioned, i, DEFAULT_FONT_SIZE).s, slot.surface, slot.node, slot.attached)
  {
    var placed := PlaceSlot(s, i, slot);
    PlacedKeeps(s, i, slot);
    PlacedSeats(s, i, slot);
    TickKeeps(placed);
    CreatedThen(s, placed, captioned, slot.surface, slot.node, slot.attached);
    GivenFontSeats(native, captioned, i, DEFAULT_FONT_SIZE, slot.surface);
    var given := GiveFont(native, captioned, i, DEFAULT_FONT_SIZE).s;
    CreatedThen(s, captioned, given, slot.surface, slot.node, slot.attached);
  }

  /** A create that succeeds places its node; one that fails may have, or changes nothing. */
  lemma CreateSeats(native: Native, s: State, surface: SurfaceId, node: NodeId, kind: HostType, attached: bool)
    requires Tables(s) && FindSlot(s.slots, surface, node).None?
    ensures var r := CommitCreate(native, s, surface, node, kind, attached);
            || Created(s, r.s, surface, node, attached)
            || (!r.ok && SameParents(s.forest, r.s.forest))
  {
    var free := FreeFrom(s.slots, 0);
    if free.Some? && native.create(s.forest.clock) {
      var slot := Slot(surface, node, kind, Host(surface, s.forest.clock), attached, None);
      var placed := PlaceSlot(s, free.value, slot);
      FittedSeats(native, s, free.value, slot, if kind.Button? then TickState(placed) else placed);
    }
  }

  lemma PropSeats(native: Native, s: State, surface: SurfaceId, node: NodeId, name: string, value: Value)
    requires Tables(s)
    ensures var r := CommitProp(native, s, surface, node, name, value).s;
            SameSeats(s.slots, r.slots, surface) && SameParents(s.forest, r.forest)
  {
    var target := FindSlot(s.slots, surface, node);
    if target.Some? && name == "fontSize" && value.Integer? {
      GivenFontSeats(native, s, target.value, value.integer, surface);
    }
  }

  lemma InsertSeats(s: State, surface: SurfaceId, node: NodeId, parent: NodeId, index: nat)
    requires Tables(s) && CommitInsert(s, surface, node, parent, index).ok
    ensures Inserted(s, CommitInsert(s, surface, node, parent, index).s, surface, node, parent)
  {
    InsertKeeps(s, surface, node, parent, index);
    var r := CommitInsert(s, surface, node, parent, index).s;
    var i := FindSlot(s.slots, surface, node).value;
    forall m: NodeId ensures Seen(r.slots, surface, m)
      == if m == node then Some(Seat(s.slots[i].value.widget, true)) else Seen(s.slots, surface, m)
    {
      SeenUpdate(s.slots, i, s.slots[i].value.(attached := true), m);
    }
  }

  // ----- What a full mount builds -----

  /** Made on the surface since the clock stood so. */
  predicate MadeSince(o: Obj, surface: SurfaceId, clock: nat) {
    o.Host? && o.surface == surface && o.id >= clock
  }

  predicate Inserts(op: Operation, node: NodeId, parent: NodeId) {
    op.InsertHostChild? && op.node == node && op.parent == parent
  }

  /** The node is attached, under the other. */
  ghost predicate Linked(s: State, surface: SurfaceId, node: NodeId, parent: NodeId) {
    var child, target := Seen(s.slots, surface, node), Seen(s.slots, surface, parent);
    && child.Some? && child.value.attached && target.Some?
    && ParentOf(s.forest, child.value.widget) == Some(target.value.widget)
  }

  ghost predicate OwnedBy(s: State, surface: SurfaceId, o: Obj, node: NodeId) {
    Seen(s.slots, surface, node).Some? && Seen(s.slots, surface, node).value.widget == o
  }

  ghost predicate Owned(s: State, surface: SurfaceId, o: Obj) {
    exists node: NodeId :: OwnedBy(s, surface, o, node)
  }

  ghost predicate InsertedUnder(operations: seq<Operation>, n: nat, node: NodeId, parent: NodeId)
    requires n <= |operations|
  {
    exists k :: 0 <= k < n && Inserts(operations[k], node, parent)
  }

  /** The node's object is new; it hangs under the root or where an insert put it. */
  ghost predicate HangsWell(s: State, surface: SurfaceId, clock: nat, operations: seq<Operation>, n: nat, node: NodeId)
    requires n <= |operations|
  {
    Seen(s.slots, surface, node).Some? ==>
      var w := Seen(s.slots, surface, node).value.widget;
      && MadeSince(w, surface, clock)
      && (|| ParentOf(s.forest, w) == Some(Root(surface))
          || exists parent: NodeId :: InsertedUnder(operations, n, node, parent) && Linked(s, surface, node, parent))
  }

  /** A new object is that of some node. */
  ghost predicate OwnedIfMade(s: State, surface: SurfaceId, clock: nat, o: Obj) {
    o in s.forest.widgets && MadeSince(o, surface, clock) ==> Owned(s, surface, o)
  }

  ghost predicate InsertDone(s: State, surface: SurfaceId, op: Operation) {
    op.InsertHostChild? ==> Linked(s, surface, op.node, op.parent)
  }

  /** After `n` operations of a full mount: the new objects are those of the nodes, each hangs under
      the root or where an insert put it, every insert is done, and the rest is as it was. */
  ghost predicate Built(start: State, s: State, surface: SurfaceId, operations: seq<Operation>, n: nat)
    requires n <= |operations|
  {
    && start.forest.clock <= s.forest.clock
    && (forall node: NodeId :: HangsWell(s, surface, start.forest.clock, operations, n, node))
    && (forall o :: OwnedIfMade(s, surface, start.forest.clock, o))
    && (forall k :: 0 <= k < n ==> InsertDone(s, surface, operations[k]))
    && (forall o :: !MadeSince(o, surface, start.forest.clock) ==>
          ParentOf(s.forest, o) == ParentOf(start.forest, o))
  }

  lemma BuiltStart(start: State, surface: SurfaceId, operations: seq<Operation>)
    requires Tables(start) && NoSlotOf(start.slots, surface)
    ensures Built(start, start, surface, operations, 0)
  {
  }

  /** One step on, a node's object is still there and hangs as it did. */
  ghost predicate Undisturbed(s: State, r: State, surface: SurfaceId, node: NodeId) {
    Seen(s.slots, surface, node).Some? ==>
      && Seen(r.slots, surface, node) == Seen(s.slots, surface, node)
      && ParentOf(r.forest, Seen(s.slots, surface, node).value.widget)
         == ParentOf(s.forest, Seen(s.slots, surface, node).value.widget)
  }

  /** Every node keeps its object, and stays attached. */
  ghost predicate SeatsStay(s: State, r: State, surface: SurfaceId) {
    forall m: NodeId :: Seen(s.slots, surface, m).Some? ==>
      && Seen(r.slots, surface, m).Some?
      && Seen(r.slots, surface, m).value.widget == Seen(s.slots, surface, m).value.widget
      && (Seen(s.slots, surface, m).value.attached ==> Seen(r.slots, surface, m).value.attached)
  }

  lemma LinkStays(s: State, r: State, surface: SurfaceId, node: NodeId, parent: NodeId)
    requires Linked(s, surface, node, parent) && SeatsStay(s, r, surface) && Undisturbed(s, r, surface, node)
    ensures Linked(r, surface, node, parent)
  {
  }

  /** One operation more: what hangs well still does. */
  lemma HangsOn(
    s: State, r: State, surface: SurfaceId, clock: nat, operations: seq<Operation>, n: nat, node: NodeId)
    requires n < |operations| && HangsWell(s, surface, clock, operations, n, node) && SeatsStay(s, r, surface)
    requires Seen(s.slots, surface, node).Some? && Undisturbed(s, r, surface, node)
    ensures HangsWell(r, surface, clock, operations, n + 1, node)
  {
    var w := Seen(s.slots, surface, node).value.widget;
    if ParentOf(s.forest, w) != Some(Root(surface)) {
      var parent: NodeId :| InsertedUnder(operations, n, node, parent) && Linked(s, surface, node, parent);
      assert InsertedUnder(operations, n + 1, node, parent);
      LinkStays(s, r, surface, node, parent);
    }
  }

  lemma OwnedStays(s: State, r: State, surface: SurfaceId, clock: nat, o: Obj)
    requires OwnedIfMade(s, surface, clock, o) && SeatsStay(s, r, surface)
    requires o in r.forest.widgets ==> o in s.forest.widgets
    ensures OwnedIfMade(r, surface, clock, o)
  {
    if o in r.forest.widgets && MadeSince(o, surface, clock) {
      var node: NodeId :| OwnedBy(s, surface, o, node);
      assert OwnedBy(r, surface, o, node);
    }
  }

  lemma BuiltSame(start: State, s: State, r: State, surface: SurfaceId, operations: seq<Operation>, n: nat)
    requires n < |operations| && Built(start, s, surface, operations, n) && !operations[n].InsertHostChild?
    requires SameSeats(s.slots, r.slots, surface) && SameParents(s.forest, r.forest)
    ensures Built(start, r, surface, operations, n + 1)
  {
    var clock := start.forest.clock;
    var next := n + 1;
    forall node: NodeId ensures HangsWell(r, surface, clock, operations, next, node) {
      assert HangsWell(s, surface, clock, operations, n, node);
      if Seen(s.slots, surface, node).Some? {
        HangsOn(s, r, surface, clock, operations, n, node);
      }
    }
    forall o ensures OwnedIfMade(r, surface, clock, o) {
      assert ParentOf(r.forest, o) == ParentOf(s.forest, o);
      OwnedStays(s, r, surface, clock, o);
    }
    forall k | 0 <= k < n + 1 ensures InsertDone(r, surface, operations[k]) {
      if k < n && operations[k].InsertHostChild? {
        assert InsertDone(s, surface, operations[k]);
        LinkStays(s, r, surface, operations[k].node, operations[k].parent);
      }
    }
  }

  lemma BuiltCreated(
    start: State, s: State, r: State, surface: SurfaceId, operations: seq<Operation>, n: nat, attached: bool)
    requires n < |operations| && Built(start, s, surface, operations, n) && operations[n].CreateHost?
    requires Tables(s) && Seen(s.slots, surface, operations[n].node).None?
    requires Created(s, r, surface, operations[n].node, attached)
    ensures Built(start, r, surface, operations, n + 1)
  {
    var clock, created, w := start.forest.clock, operations[n].node, Host(surface, s.forest.clock);
    assert w !in s.forest.widgets;
    var next := n + 1;
    forall node: NodeId ensures HangsWell(r, surface, clock, operations, next, node) {
      assert HangsWell(s, surface, clock, operations, n, node);
      if Seen(s.slots, surface, node).Some? {
        ThereBefore(s, surface, clock, operations, n, node);
        HangsOn(s, r, surface, clock, operations, n, node);
      }
    }
    forall o ensures OwnedIfMade(r, surface, clock, o) {
      if o == w {
        assert OwnedBy(r, surface, o, created);
      } else {
        assert ParentOf(r.forest, o) == ParentOf(s.forest, o);
        OwnedStays(s, r, surface, clock, o);
      }
    }
    forall k | 0 <= k < n + 1 ensures InsertDone(r, surface, operations[k]) {
      if k < n && operations[k].InsertHostChild? {
        assert InsertDone(s, surface, operations[k]);
        LinkStays(s, r, surface, operations[k].node, operations[k].parent);
      }
    }
  }

  /** What hangs well is there, so it is not an object that is new now. */
  lemma ThereBefore(s: State, surface: SurfaceId, clock: nat, operations: seq<Operation>, n: nat, node: NodeId)
    requires n <= |operations| && HangsWell(s, surface, clock, operations, n, node)
    ensures Seen(s.slots, surface, node).Some? ==> ParentOf(s.forest, Seen(s.slots, surface, node).value.widget).Some?
  {
  }

  /** An insert disturbs no other node. */
  lemma InsertDisturbs(s: State, r: State, surface: SurfaceId, child: NodeId, parent: NodeId, node: NodeId)
    requires Tables(s) && Inserted(s, r, surface, child, parent) && node != child
    ensures Undisturbed(s, r, surface, node) && SeatsStay(s, r, surface)
  {
    if Seen(s.slots, surface, node).Some? {
      SeatsApart(s, surface, node, child);
    }
  }

  lemma InsertHangs(
    start: State, s: State, r: State, surface: SurfaceId, operations: seq<Operation>, n: nat, node: NodeId)
    requires n < |operations| && Built(start, s, surface, operations, n) && operations[n].InsertHostChild?
    requires Tables(s) && Inserted(s, r, surface, operations[n].node, operations[n].parent)
    ensures HangsWell(r, surface, start.forest.clock, operations, n + 1, node)
  {
    var child, parent := operations[n].node, operations[n].parent;
    assert HangsWell(s, surface, start.forest.clock, operations, n, node);
    if node == child {
      assert Inserts(operations[n], child, parent);
      assert InsertedUnder(operations, n + 1, child, parent) && Linked(r, surface, child, parent);
    } else if Seen(s.slots, surface, node).Some? {
      InsertDisturbs(s, r, surface, child, parent, node);
      HangsOn(s, r, surface, start.forest.clock, operations, n, node);
    }
  }

  lemma InsertIsDone(start: State, s: State, r: State, surface: SurfaceId, operations: seq<Operation>, n: nat, k: nat)
    requires k <= n < |operations| && Built(start, s, surface, operations, n) && operations[n].InsertHostChild?
    requires Tables(s) && Inserted(s, r, surface, operations[n].node, operations[n].parent)
    ensures InsertDone(r, surface, operations[k])
  {
    if k < n && operations[k].InsertHostChild? {
      assert InsertDone(s, surface, operations[k]);
      InsertDisturbs(s, r, surface, operations[n].node, operations[n].parent, operations[k].node);
      LinkStays(s, r, surface, operations[k].node, operations[k].parent);
    }
  }

  lemma BuiltInserted(start: State, s: State, r: State, surface: SurfaceId, operations: seq<Operation>, n: nat)
    requires n < |operations| && Built(start, s, surface, operations, n) && operations[n].InsertHostChild?
    requires Tables(s) && Inserted(s, r, surface, operations[n].node, operations[n].parent)
    ensures Built(start, r, surface, operations, n + 1)
  {
    var clock, child, parent := start.forest.clock, operations[n].node, operations[n].parent;
    var w := Seen(s.slots, surface, child).value.widget;
    assert HangsWell(s, surface, clock, operations, n, child);
    var next := n + 1;
    forall node: NodeId ensures HangsWell(r, surface, clock, operations, next, node) {
      InsertHangs(start, s, r, surface, operations, n, node);
    }
    forall o ensures OwnedIfMade(r, surface, clock, o) {
      assert ParentOf(r.forest, o).Some? ==> o == w || ParentOf(s.forest, o).Some?;
      OwnedStays(s, r, surface, clock, o);
    }
    forall k | 0 <= k < n + 1 ensures InsertDone(r, surface, operations[k]) {
      InsertIsDone(start, s, r, surface, operations, n, k);
    }
  }

  /** Nodes have objects of their own. */
  lemma SeatsApart(s: State, surface: SurfaceId, a: NodeId, b: NodeId)
    requires Tables(s) && a != b && Seen(s.slots, surface, a).Some? && Seen(s.slots, surface, b).Some?
    ensures Seen(s.slots, surface, a).value.widget != Seen(s.slots, surface, b).value.widget
  {
    var i, j := FindSlot(s.slots, surface, a).value, FindSlot(s.slots, surface, b).value;
    assert i != j;
  }

  /** One step of a building commit. */
  lemma BuiltNext(
    native: Native, start: State, s: State, surface: SurfaceId, first: bool, operations: seq<Operation>, n: nat)
    requires n < |operations| && Built(start, s, surface, operations, n) && Tables(s)
    requires operations[n].CreateHost? ==> FindSlot(s.slots, surface, operations[n].node).None?
    requires !operations[n].MoveHost? && !operations[n].RemoveHost?
    requires Commit(native, s, surface, first, operations[n]).ok
    ensures Built(start, Commit(native, s, surface, first, operations[n]).s, surface, operations, n + 1)
  {
    var r := Commit(native, s, surface, first, operations[n]).s;
    match operations[n]
    case CreateHost(node, kind) =>
      CreateSeats(native, s, surface, node, kind, first);
      BuiltCreated(start, s, r, surface, operations, n, first);
    case SetHostProp(node, property, value) =>
      PropSeats(native, s, surface, node, property.chars, value);
      BuiltSame(start, s, r, surface, operations, n);
    case SetHostLayout(node, rect) =>
      BuiltSame(start, s, r, surface, operations, n);
    case InsertHostChild(node, parent, index) =>
      InsertSeats(s, surface, node, parent, index);
      BuiltInserted(start, s, r, surface, operations, n);
  }

  ghost predicate Good(start: State, s: State, surface: SurfaceId, operations: seq<Operation>, n: nat)
    requires n <= |operations|
  {
    Committed(start.slots, s, surface, operations, n) && Built(start, s, surface, operations, n)
  }

  /** Every step that succeeds takes what holds after `k` operations to `k + 1`. */
  ghost predicate StepsBuild(step: Stepper, start: State, surface: SurfaceId, head: bool, operations: seq<Operation>) {
    forall s, k :: 0 <= k < |operations| && Good(start, s, surface, operations, k)
                   && step(s, head && k == 0, operations[k]).ok ==>
      Good(start, step(s, head && k == 0, operations[k]).s, surface, operations, k + 1)
  }

  lemma {:induction false} RunBuilds(
    step: Stepper, start: State, surface: SurfaceId, head: bool, operations: seq<Operation>, n: nat)
    requires n <= |operations| && Good(start, start, surface, operations, 0)
    requires StepsBuild(step, start, surface, head, operations) && RunSteps(step, start, head, operations, n).ok
    ensures Good(start, RunSteps(step, start, head, operations, n).s, surface, operations, n)
  {
    if n > 0 {
      RunBuilds(step, start, surface, head, operations, n - 1);
    }
  }

  lemma GoodNext(
    native: Native, start: State, s: State, surface: SurfaceId, first: bool, operations: seq<Operation>, n: nat)
    requires n < |operations| && Good(start, s, surface, operations, n) && CreatesNew(start.slots, surface, operations)
    requires !operations[n].MoveHost? && !operations[n].RemoveHost?
    requires Commit(native, s, surface, first, operations[n]).ok
    ensures Good(start, Commit(native, s, surface, first, operations[n]).s, surface, operations, n + 1)
  {
    CommitNext(native, start.slots, s, surface, first, operations, n);
    if operations[n].CreateHost? {
      NewNodeHasNoSlot(start.slots, s.slots, surface, operations, n);
    }
    BuiltNext(native, start, s, surface, first, operations, n);
  }

  lemma BuiltUpTo(native: Native, start: State, surface: SurfaceId, head: bool, operations: seq<Operation>)
    requires Tables(start) && NoSlotOf(start.slots, surface) && CreatesNew(start.slots, surface, operations)
    requires forall k :: 0 <= k < |operations| ==> !operations[k].MoveHost? && !operations[k].RemoveHost?
    requires CommitUpTo(native, start, surface, head, operations, |operations|).ok
    ensures Good(start, CommitUpTo(native, start, surface, head, operations, |operations|).s, surface, operations,
                 |operations|)
  {
    StartNodes(start.slots, surface, operations);
    BuiltStart(start, surface, operations);
    forall s, k | 0 <= k < |operations| && Good(start, s, surface, operations, k)
                  && Committer(native, surface)(s, head && k == 0, operations[k]).ok
      ensures Good(start, Committer(native, surface)(s, head && k == 0, operations[k]).s, surface, operations, k + 1)
    {
      GoodNext(native, start, s, surface, head && k == 0, operations, k);
    }
    RunBuilds(Committer(native, surface), start, surface, head, operations, |operations|);
  }

  // ----- Cycles of a full mount -----

  /** The insert edges form no cycle: nodes can be ranked so that each hangs under a lower one. */
  ghost predicate InsertsAcyclic(operations: seq<Operation>) {
    exists rank: NodeId -> nat :: InsertsRanked(operations, rank)
  }

  ghost predicate InsertsRanked(operations: seq<Operation>, rank: NodeId -> nat) {
    forall k :: 0 <= k < |operations| && operations[k].InsertHostChild? ==>
      rank(operations[k].parent) < rank(operations[k].node)
  }

  /** The rank of the node whose object this is. */
  ghost function OwnerRank(s: State, surface: SurfaceId, rank: NodeId -> nat, o: Obj): nat {
    if Owned(s, surface, o) then
      var node: NodeId :| OwnedBy(s, surface, o, node);
      rank(node)
    else 0
  }

  lemma OwnerRankOf(s: State, surface: SurfaceId, rank: NodeId -> nat, o: Obj, node: NodeId)
    requires Tables(s) && OwnedBy(s, surface, o, node)
    ensures OwnerRank(s, surface, rank, o) == rank(node)
  {
    forall m: NodeId | OwnedBy(s, surface, o, m) ensures m == node {
      if m != node {
        SeatsApart(s, surface, m, node);
      }
    }
  }

  /** A new object under another ranks above it. */
  lemma MadeRanks(
    start: State, s: State, surface: SurfaceId, operations: seq<Operation>, rank: NodeId -> nat, o: Obj)
    requires Tables(s) && Built(start, s, surface, operations, |operations|) && InsertsRanked(operations, rank)
    requires o in s.forest.widgets && MadeSince(o, surface, start.forest.clock)
    requires s.forest.widgets[o].parent in s.forest.widgets
    ensures var parent := s.forest.widgets[o].parent;
            && MadeSince(parent, surface, start.forest.clock)
            && OwnerRank(s, surface, rank, parent) < OwnerRank(s, surface, rank, o)
  {
    var p := s.forest.widgets[o].parent;
    assert OwnedIfMade(s, surface, start.forest.clock, o);
    var node: NodeId :| OwnedBy(s, surface, o, node);
    assert HangsWell(s, surface, start.forest.clock, operations, |operations|, node);
    var parent: NodeId :| InsertedUnder(operations, |operations|, node, parent) && Linked(s, surface, node, parent);
    var k :| 0 <= k < |operations| && Inserts(operations[k], node, parent);
    assert HangsWell(s, surface, start.forest.clock, operations, |operations|, parent);
    OwnerRankOf(s, surface, rank, o, node);
    OwnerRankOf(s, surface, rank, p, parent);
  }

  /** The rest is as it was, and nothing of it hangs under a new object. */
  lemma OldRanks(start: State, s: State, surface: SurfaceId, operations: seq<Operation>, rank: Obj -> nat, o: Obj)
    requires Tables(start) && Built(start, s, surface, operations, |operations|) && Ranked(start.forest, rank)
    requires o in s.forest.widgets && !MadeSince(o, surface, start.forest.clock)
    requires s.forest.widgets[o].parent in s.forest.widgets
    ensures var parent := s.forest.widgets[o].parent;
            !MadeSince(parent, surface, start.forest.clock) && rank(parent) < rank(o)
  {
    var p := s.forest.widgets[o].parent;
    assert ParentOf(s.forest, o) == ParentOf(start.forest, o);
    assert ParentOf(s.forest, p) == ParentOf(start.forest, p);
  }

  lemma RankedInserts(start: State, s: State, surface: SurfaceId, operations: seq<Operation>, rank: NodeId -> nat)
    requires Tables(start) && Acyclic(start.forest) && Tables(s)
    requires Built(start, s, surface, operations, |operations|) && InsertsRanked(operations, rank)
    ensures Acyclic(s.forest)
  {
    var was: Obj -> nat :| Ranked(start.forest, was);
    var all: Obj -> nat :=
      o => if MadeSince(o, surface, start.forest.clock) then OwnerRank(s, surface, rank, o) else was(o);
    forall o | o in s.forest.widgets && s.forest.widgets[o].parent in s.forest.widgets
      ensures all(s.forest.widgets[o].parent) < all(o)
    {
      if MadeSince(o, surface, start.forest.clock) {
        MadeRanks(start, s, surface, operations, rank, o);
      } else {
        OldRanks(start, s, surface, operations, was, o);
      }
    }
    assert Ranked(s.forest, all);
  }

  function SeatRank(s: State, surface: SurfaceId, rank: Obj -> nat, node: NodeId): nat {
    var seat := Seen(s.slots, surface, node);
    if seat.Some? then rank(seat.value.widget) else 0
  }

  lemma InsertsFollow(start: State, s: State, surface: SurfaceId, operations: seq<Operation>)
    requires Built(start, s, surface, operations, |operations|) && Acyclic(s.forest)
    ensures InsertsAcyclic(operations)
  {
    var rank: Obj -> nat :| Ranked(s.forest, rank);
    var ranks: NodeId -> nat := (node: NodeId) => SeatRank(s, surface, rank, node);
    forall k | 0 <= k < |operations| && operations[k].InsertHostChild?
      ensures ranks(operations[k].parent) < ranks(operations[k].node)
    {
      var node, parent := operations[k].node, operations[k].parent;
      assert InsertDone(s, surface, operations[k]);
      assert HangsWell(s, surface, start.forest.clock, operations, |operations|, parent);
      ThereBefore(s, surface, start.forest.clock, operations, |operations|, parent);
    }
    assert InsertsRanked(operations, ranks);
  }

  // ----- Destroying keeps a forest -----

  ghost predicate OnlyLosesWidgets(f: Forest, g: Forest) {
    forall o :: ParentOf(g, o).Some? ==> ParentOf(g, o) == ParentOf(f, o)
  }

  lemma LosingKeepsForest(f: Forest, g: Forest)
    requires Acyclic(f) && OnlyLosesWidgets(f, g)
    ensures Acyclic(g)
  {
    var rank: Obj -> nat :| Ranked(f, rank);
    forall o | o in g.widgets && g.widgets[o].parent in g.widgets ensures rank(g.widgets[o].parent) < rank(o) {
      assert ParentOf(g, o) == ParentOf(f, o);
      assert ParentOf(g, g.widgets[o].parent) == ParentOf(f, g.widgets[o].parent);
    }
    assert Ranked(g, rank);
  }

  lemma LosesOnce(s: State, i: nat)
    requires i < |s.slots|
    ensures OnlyLosesWidgets(s.forest, DestroySlot(s, i).forest)
  {
  }

  lemma LosesTwice(f: Forest, g: Forest, h: Forest)
    requires OnlyLosesWidgets(f, g) && OnlyLosesWidgets(g, h)
    ensures OnlyLosesWidgets(f, h)
  {
  }

  lemma {:induction false} DestroyBelowLoses(s: State, surface: SurfaceId, n: nat)
    requires n <= |s.slots|
    ensures OnlyLosesWidgets(s.forest, DestroySurfaceBelow(s, surface, n).forest)
    decreases n
  {
    if n > 0 {
      var next := if s.slots[n - 1].Some? && s.slots[n - 1].value.surface == surface then DestroySlot(s, n - 1) else s;
      LosesOnce(s, n - 1);
      DestroyBelowLoses(next, surface, n - 1);
      LosesTwice(s.forest, next.forest, DestroySurfaceBelow(s, surface, n).forest);
    }
  }

  lemma DestroyKeepsForest(s: State, surface: SurfaceId)
    requires Acyclic(s.forest)
    ensures Acyclic(DestroySurface(s, surface).forest)
  {
    DestroyBelowLoses(s, surface, |s.slots|);
    LosingKeepsForest(s.forest, DestroySurface(s, surface).forest);
  }

  /** A full mount that succeeds leaves the native objects a forest if and only if its insert edges
      form no cycle. */
  lemma MountAcyclicIff(native: Native, maxOperations: nat, rootOk: bool, s: State, t: Transaction)
    requires Tables(s) && Acyclic(s.forest) && t.full && Execute(native, maxOperations, rootOk, s, t).ok
    ensures Acyclic(Execute(native, maxOperations, rootOk, s, t).s.forest) <==> InsertsAcyclic(t.operations)
  {
    var start := DestroySurface(s, t.surface);
    DestroySurfaceClears(s, t.surface);
    DestroyKeepsForest(s, t.surface);
    PreflightCreatesNew(maxOperations, s, start, t);
    BuiltUpTo(native, start, t.surface, true, t.operations);
    var after := Execute(native, maxOperations, rootOk, s, t).s;
    if InsertsAcyclic(t.operations) {
      var rank: NodeId -> nat :| InsertsRanked(t.operations, rank);
      RankedInserts(start, after, t.surface, t.operations, rank);
    }
    if Acyclic(after.forest) {
      InsertsFollow(start, after, t.surface, t.operations);
    }
  }

  /** A full mount of two nodes, each inserted under the other. */
  const CROSSED := [
    CreateHost(0, View), CreateHost(1, View), CreateHost(2, View), InsertHostChild(1, 2, 0), InsertHostChild(2, 1, 0)]

  function CrossedMount(surface: SurfaceId): Transaction {
    Transaction(surface, BoundedText("page", false), true, CROSSED, 0, 1, true)
  }

  lemma CrossedCreates(n: nat)
    requires n <= 5
    ensures CreatedBefore(CROSSED, n, 0) <==> n > 0
    ensures CreatedBefore(CROSSED, n, 1) <==> n > 1
    ensures CreatedBefore(CROSSED, n, 2) <==> n > 2
  {
    assert CROSSED[0] == CreateHost(0, View) && CROSSED[1] == CreateHost(1, View) && CROSSED[2] == CreateHost(2, View);
  }

  lemma CrossedHasCycle()
    ensures !InsertsAcyclic(CROSSED)
  {
    assert CROSSED[3] == InsertHostChild(1, 2, 0) && CROSSED[4] == InsertHostChild(2, 1, 0);
  }

  /** It passes preflight whatever is mounted, and on an empty host it is committed and leaves a
      cycle. */
  lemma CrossedMountAccepted(maxOperations: nat, slots: Slots, f: Forest, surface: SurfaceId)
    requires maxOperations >= 5
    ensures Preflight(maxOperations, slots, f, CrossedMount(surface))
  {
    var t := CrossedMount(surface);
    assert t.operations[0].CreateHost?;
    forall i | 0 <= i < 5 ensures OperationOk(slots, f, t, i) {
      CrossedCreates(i);
    }
  }

  const EMPTY_STATE := State([None, None, None], [], Forest(map[], map[], 0), map[])

  function CrossedAfter(n: nat): Step
    requires n <= 5
  {
    CommitUpTo(WILLING, EMPTY_STATE, 0, true, CROSSED, n)
  }

  function ViewSlot(id: nat, attached: bool): Option<Slot> {
    Some(Slot(0, id, View, Host(0, id), attached, None))
  }

  lemma CrossedCreated()
    ensures CrossedAfter(3).ok && CrossedAfter(3).s.slots == [ViewSlot(0, true), ViewSlot(1, false), ViewSlot(2, false)]
    ensures CrossedAfter(3).s.forest.widgets.Keys == {Host(0, 0), Host(0, 1), Host(0, 2)}
  {
    assert CrossedAfter(0) == Step(true, EMPTY_STATE);
    assert FreeFrom(EMPTY_STATE.slots, 0) == Some(0);
    assert CrossedAfter(1).ok && CrossedAfter(1).s.slots == [ViewSlot(0, true), None, None];
    assert FreeFrom(CrossedAfter(1).s.slots, 0) == Some(1);
    assert CrossedAfter(2).ok && CrossedAfter(2).s.slots == [ViewSlot(0, true), ViewSlot(1, false), None];
    assert FreeFrom(CrossedAfter(2).s.slots, 0) == Some(2);
  }

  lemma CrossedInserted()
    ensures CrossedAfter(5).ok
  {
    CrossedCreated();
    var three, four := CrossedAfter(3).s, CrossedAfter(4).s;
    assert CROSSED[3] == InsertHostChild(1, 2, 0) && CROSSED[4] == InsertHostChild(2, 1, 0);
    assert FindSlot(three.slots, 0, 1) == Some(1) && FindSlot(three.slots, 0, 2) == Some(2);
    assert Host(0, 1) in three.forest.widgets.Keys && Host(0, 2) in three.forest.widgets.Keys;
    assert CrossedAfter(4).ok && four.slots == [ViewSlot(0, true), ViewSlot(1, true), ViewSlot(2, false)];
    assert Host(0, 2) in four.forest.widgets;
    FoundAt(four.slots, 0, 1, 1);
    FoundAt(four.slots, 0, 2, 2);
  }

  lemma EmptyDestroyed()
    ensures DestroySurface(EMPTY_STATE, 0) == EMPTY_STATE && Tables(EMPTY_STATE) && Acyclic(EMPTY_STATE.forest)
  {
    assert DestroySurfaceBelow(EMPTY_STATE, 0, 1) == EMPTY_STATE;
    assert DestroySurfaceBelow(EMPTY_STATE, 0, 2) == EMPTY_STATE;
    assert Ranked(EMPTY_STATE.forest, (o: Obj) => 0);
  }

  /** On an empty host it is committed, and leaves a cycle. */
  lemma CrossedMountCycles(maxOperations: nat)
    requires maxOperations >= 5
    ensures var r := Execute(WILLING, maxOperations, true, EMPTY_STATE, CrossedMount(0));
            r.ok && !Acyclic(r.s.forest)
  {
    CrossedMountAccepted(maxOperations, EMPTY_STATE.slots, EMPTY_STATE.forest, 0);
    EmptyDestroyed();
    CrossedInserted();
    MountAcyclicIff(WILLING, maxOperations, true, EMPTY_STATE, CrossedMount(0));
    CrossedHasCycle();
  }

  // ----- Incremental transactions -----

  /** Links that are not as they were are those of new objects to a root. */
  ghost predicate NoNewLinks(f: Forest, g: Forest) {
    forall o :: ParentOf(g, o).Some? ==>
      || ParentOf(g, o) == ParentOf(f, o)
      || (ParentOf(g, o).value.Root? && o.Host? && o.id >= f.clock)
  }

  lemma NoNewLinksKeepForest(f: Forest, g: Forest)
    requires Acyclic(f) && ForestBySurface(f) && ForestBySurface(g) && NoNewLinks(f, g)
    ensures Acyclic(g)
  {
    var rank: Obj -> nat :| Ranked(f, rank);
    forall o | o in g.widgets && g.widgets[o].parent in g.widgets ensures rank(g.widgets[o].parent) < rank(o) {
      assert ParentOf(g, o).Some? && ParentOf(g, g.widgets[o].parent).Some?;
    }
    assert Ranked(g, rank);
  }

  lemma CreateLinks(native: Native, s: State, surface: SurfaceId, node: NodeId, kind: HostType, attached: bool)
    requires Tables(s) && FindSlot(s.slots, surface, node).None?
    ensures NoNewLinks(s.forest, CommitCreate(native, s, surface, node, kind, attached).s.forest)
  {
    CreateSeats(native, s, surface, node, kind, attached);
  }

  /** An operation that neither inserts nor moves keeps the forest, whether it succeeds or not. */
  lemma OtherKeepsForest(native: Native, s: State, surface: SurfaceId, first: bool, op: Operation)
    requires Tables(s) && Acyclic(s.forest) && !op.InsertHostChild? && !op.MoveHost?
    requires op.CreateHost? ==> FindSlot(s.slots, surface, op.node).None?
    ensures Acyclic(Commit(native, s, surface, first, op).s.forest)
  {
    var r := Commit(native, s, surface, first, op).s;
    CommitKeeps(native, s, surface, first, op);
    match op {
      case CreateHost(node, kind) => CreateLinks(native, s, surface, node, kind, first);
      case SetHostProp(node, property, value) => PropSeats(native, s, surface, node, property.chars, value);
      case SetHostLayout(node, rect) =>
      case RemoveHost(node) =>
    }
    NoNewLinksKeepForest(s.forest, r.forest);
  }

  /** Before a move: nodes and objects that were there at the start are as they were, or gone. */
  ghost predicate Remains(start: State, s: State, surface: SurfaceId) {
    && start.forest.clock <= s.forest.clock
    && (forall node: NodeId :: SeatRemains(start, s, surface, node))
    && (forall o :: LinkRemains(start.forest, s.forest, o))
  }

  ghost predicate SeatRemains(start: State, s: State, surface: SurfaceId, node: NodeId) {
    Seen(s.slots, surface, node).Some? && Seen(start.slots, surface, node).Some? ==>
      Seen(s.slots, surface, node).value.widget == Seen(start.slots, surface, node).value.widget
  }

  ghost predicate LinkRemains(f: Forest, g: Forest, o: Obj) {
    ParentOf(g, o).Some? ==> ParentOf(g, o) == ParentOf(f, o) || (o.Host? && o.id >= f.clock)
  }

  lemma RemoveSeats(s: State, i: nat, surface: SurfaceId, node: NodeId)
    requires Tables(s) && i < |s.slots|
    ensures Seen(DestroySlot(s, i).slots, surface, node).Some? ==>
              Seen(DestroySlot(s, i).slots, surface, node) == Seen(s.slots, surface, node)
  {
    var r := DestroySlot(s, i);
    var k := FindSlot(r.slots, surface, node);
    if k.Some? && s.slots[i].Some? {
      FoundAt(s.slots, surface, node, k.value);
    }
  }

  lemma RemainsNext(native: Native, start: State, s: State, surface: SurfaceId, first: bool, op: Operation)
    requires Tables(s) && Remains(start, s, surface) && !op.InsertHostChild? && !op.MoveHost?
    requires op.CreateHost? ==> Seen(start.slots, surface, op.node).None? && FindSlot(s.slots, surface, op.node).None?
    requires Commit(native, s, surface, first, op).ok
    ensures Remains(start, Commit(native, s, surface, first, op).s, surface)
  {
    var r := Commit(native, s, surface, first, op).s;
    match op {
      case CreateHost(node, kind) => CreateSeats(native, s, surface, node, kind, first);
      case SetHostProp(node, property, value) => PropSeats(native, s, surface, node, property.chars, value);
      case SetHostLayout(node, rect) =>
      case RemoveHost(node) =>
    }
    forall node: NodeId ensures SeatRemains(start, r, surface, node) {
      assert SeatRemains(start, s, surface, node);
      if op.RemoveHost? {
        RemoveSeats(s, FindSlot(s.slots, surface, op.node).value, surface, node);
      }
    }
    forall o ensures LinkRemains(start.forest, r.forest, o) {
      assert LinkRemains(start.forest, s.forest, o);
    }
  }

  /** A walk up from an object of the start was already possible there. */
  lemma {:induction false} WalkBack(start: State, s: State, surface: SurfaceId, o: Obj, a: Obj, steps: nat)
    requires Tables(start) && Remains(start, s, surface) && o in start.forest.widgets && Reaches(s.forest, o, a, steps)
    ensures Reaches(start.forest, o, a, steps)
    decreases steps
  {
    assert LinkRemains(start.forest, s.forest, o);
    if o != a {
      var p := s.forest.widgets[o].parent;
      assert ParentOf(s.forest, o) == ParentOf(start.forest, o);
      assert p in s.forest.widgets;
      assert LinkRemains(start.forest, s.forest, p);
      WalkBack(start, s, surface, p, a, steps - 1);
    }
  }

  lemma {:induction false} ReachesFurther(f: Forest, o: Obj, a: Obj, m: nat, n: nat)
    requires Reaches(f, o, a, m) && m <= n
    ensures Reaches(f, o, a, n)
    decreases m
  {
    if o != a {
      ReachesFurther(f, f.widgets[o].parent, a, m - 1, n - 1);
    }
  }

  /** What was not below another at the start is not now. */
  lemma StillApart(start: State, s: State, surface: SurfaceId, o: Obj, a: Obj)
    requires Tables(start) && Acyclic(start.forest) && Remains(start, s, surface) && o in start.forest.widgets
    requires !Under(start.forest, o, a)
    ensures !Under(s.forest, o, a)
  {
    if Under(s.forest, o, a) {
      var steps := |s.forest.widgets| + |start.forest.widgets|;
      var rank: Obj -> nat :| Ranked(start.forest, rank);
      WalkBack(start, s, surface, o, a, |s.forest.widgets|);
      ReachesFurther(start.forest, o, a, |s.forest.widgets|, steps);
      UnderIsUnbounded(start.forest, rank, o, a, steps);
      assert false;
    }
  }

  /** A move that was allowed at the start keeps the forest, if only creates and removes came
      before. */
  lemma MoveKeepsForest(start: State, s: State, surface: SurfaceId, node: NodeId, parent: NodeId, index: nat)
    requires Tables(start) && Acyclic(start.forest) && Tables(s) && Acyclic(s.forest) && Remains(start, s, surface)
    requires MoveOk(start.slots, start.forest, surface, node, parent)
    ensures Acyclic(CommitMove(s, surface, node, parent, index).s.forest)
  {
    var child, target := Seen(s.slots, surface, node), Seen(s.slots, surface, parent);
    if CommitMove(s, surface, node, parent, index).ok {
      assert SeatRemains(start, s, surface, node) && SeatRemains(start, s, surface, parent);
      StillApart(start, s, surface, target.value.widget, child.value.widget);
      ReparentAcyclic(s.forest, child.value.widget, target.value.widget, index);
    }
  }

  /** No insert, and at most one move. */
  predicate OneMove(operations: seq<Operation>) {
    && (forall k :: 0 <= k < |operations| ==> !operations[k].InsertHostChild?)
    && (forall j, k :: 0 <= j < k < |operations| && operations[j].MoveHost? ==> !operations[k].MoveHost?)
  }

  ghost predicate MovesOk(start: State, surface: SurfaceId, operations: seq<Operation>) {
    forall k :: 0 <= k < |operations| && operations[k].MoveHost? ==>
      MoveOk(start.slots, start.forest, surface, operations[k].node, operations[k].parent)
  }

  /** After `n` operations: a forest, and as long as nothing failed or moved, what was there remains. */
  ghost predicate Tidy(start: State, done: Step, surface: SurfaceId, operations: seq<Operation>, n: nat)
    requires n <= |operations|
  {
    && Committed(start.slots, done.s, surface, operations, n) && Acyclic(done.s.forest)
    && (done.ok && (forall k :: 0 <= k < n ==> !operations[k].MoveHost?) ==> Remains(start, done.s, surface))
  }

  /** A failed run stays; another goes on. */
  ghost predicate StepsTidy(step: Stepper, start: State, surface: SurfaceId, head: bool, operations: seq<Operation>) {
    forall done: Step, k :: 0 <= k < |operations| && Tidy(start, done, surface, operations, k) ==>
      Tidy(start, if done.ok then step(done.s, head && k == 0, operations[k]) else done, surface, operations, k + 1)
  }

  lemma {:induction false} RunTidies(
    step: Stepper, start: State, surface: SurfaceId, head: bool, operations: seq<Operation>, n: nat)
    requires n <= |operations| && Tidy(start, Step(true, start), surface, operations, 0)
    requires StepsTidy(step, start, surface, head, operations)
    ensures Tidy(start, RunSteps(step, start, head, operations, n), surface, operations, n)
  {
    if n > 0 {
      RunTidies(step, start, surface, head, operations, n - 1);
    }
  }

  lemma TidyNext(
    native: Native, start: State, done: Step, surface: SurfaceId, first: bool, operations: seq<Operation>, n: nat)
    requires n < |operations| && Tables(start) && Acyclic(start.forest) && OneMove(operations)
    requires CreatesNew(start.slots, surface, operations) && MovesOk(start, surface, operations)
    requires Tidy(start, done, surface, operations, n)
    ensures Tidy(start, if done.ok then Commit(native, done.s, surface, first, operations[n]) else done, surface,
                 operations, n + 1)
  {
    var op, s := operations[n], done.s;
    CommitNext(native, start.slots, s, surface, first, operations, n);
    if done.ok && op.MoveHost? {
      MoveKeepsForest(start, s, surface, op.node, op.parent, op.index);
    } else if done.ok {
      if op.CreateHost? {
        NewNodeHasNoSlot(start.slots, s.slots, surface, operations, n);
        NotSeen(start.slots, surface, op.node);
      }
      OtherKeepsForest(native, s, surface, first, op);
      if Commit(native, s, surface, first, op).ok && Remains(start, s, surface) {
        RemainsNext(native, start, s, surface, first, op);
      }
    }
  }

  lemma NotSeen(slots: Slots, surface: SurfaceId, node: NodeId)
    requires !SomeSlotHolds(slots, surface, node)
    ensures Seen(slots, surface, node).None?
  {
  }

  lemma CommitTidies(native: Native, start: State, surface: SurfaceId, head: bool, operations: seq<Operation>)
    requires Tables(start) && Acyclic(start.forest) && OneMove(operations)
    requires CreatesNew(start.slots, surface, operations) && MovesOk(start, surface, operations)
    ensures Acyclic(CommitUpTo(native, start, surface, head, operations, |operations|).s.forest)
  {
    StartNodes(start.slots, surface, operations);
    forall done: Step, k | 0 <= k < |operations| && Tidy(start, done, surface, operations, k)
      ensures Tidy(start, if done.ok then Committer(native, surface)(done.s, head && k == 0, operations[k]) else done,
                   surface, operations, k + 1)
    {
      TidyNext(native, start, done, surface, head && k == 0, operations, k);
    }
    RunTidies(Committer(native, surface), start, surface, head, operations, |operations|);
  }

  /** An incremental transaction with no insert and at most one move, wherever among creates, removes
      and properties it comes, leaves a forest, whether the transaction succeeds or not. */
  lemma OneMoveKeepsForest(native: Native, maxOperations: nat, rootOk: bool, s: State, t: Transaction)
    requires Tables(s) && Acyclic(s.forest) && !t.full && OneMove(t.operations)
    ensures Acyclic(Execute(native, maxOperations, rootOk, s, t).s.forest)
  {
    DestroyKeepsForest(s, t.surface);
    if rootOk && Preflight(maxOperations, s.slots, s.forest, t) {
      PreflightCreatesNew(maxOperations, s, s, t);
      forall k | 0 <= k < |t.operations| && t.operations[k].MoveHost?
        ensures MoveOk(s.slots, s.forest, t.surface, t.operations[k].node, t.operations[k].parent)
      {
        assert OperationOk(s.slots, s.forest, t, k);
      }
      CommitTidies(native, s, t.surface, false, t.operations);
      DestroyKeepsForest(CommitUpTo(native, s, t.surface, false, t.operations, |t.operations|).s, t.surface);
    }
  }
}
