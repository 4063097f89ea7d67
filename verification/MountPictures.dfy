/** What a surface shows: its nodes with their properties, layouts, font sizes and places in the tree.
    What other surfaces' transactions do leaves it alone, and a building mount draws the same picture
    whatever the host, and whatever happens to other surfaces in between. */
module MountPictures {
  import opened Wrappers
  import opened MountModel
  import opened MountTables
  import opened MountBatches
  import opened MountCycles
  import opened MountFamilies
  import opened MountOrders

  /** What a node shows, its place in the tree apart. */
  datatype Look = Look(
    kind: HostType, attached: bool, props: map<string, Value>, rect: Option<Rect>, fontSize: Option<int>)

  function FontSize(fonts: seq<FontSlot>, font: Option<nat>): Option<int> {
    if font.Some? && font.value < |fonts| then Some(fonts[font.value].size) else None
  }

  function LookOf(s: State, slot: Slot): Look {
    var bare := slot.widget !in s.forest.widgets;
    Look(slot.kind, slot.attached, if bare then map[] else s.forest.widgets[slot.widget].props,
         if bare then None else s.forest.widgets[slot.widget].rect, FontSize(s.fonts, slot.font))
  }

  function Shown(s: State, surface: SurfaceId, node: NodeId): Option<Look> {
    var i := FindSlot(s.slots, surface, node);
    if i.None? then None else Some(LookOf(s, s.slots[i.value].value))
  }

  /** The object that a node's own hangs under. */
  function Above(s: State, surface: SurfaceId, node: NodeId): Option<Obj> {
    var seat := Seen(s.slots, surface, node);
    if seat.None? then None else ParentOf(s.forest, seat.value.widget)
  }

  predicate UnderRoot(s: State, surface: SurfaceId, node: NodeId) {
    Above(s, surface, node) == Some(Root(surface))
  }

  predicate HangsUnder(s: State, surface: SurfaceId, node: NodeId, parent: NodeId) {
    && Seen(s.slots, surface, parent).Some?
    && Above(s, surface, node) == Some(Seen(s.slots, surface, parent).value.widget)
  }

  /** The same nodes with the same looks, each under the same. */
  ghost predicate SameViews(a: State, b: State, surface: SurfaceId) {
    && (forall node: NodeId :: Shown(a, surface, node) == Shown(b, surface, node))
    && (forall node: NodeId :: UnderRoot(a, surface, node) <==> UnderRoot(b, surface, node))
    && (forall node: NodeId, parent: NodeId ::
          HangsUnder(a, surface, node, parent) <==> HangsUnder(b, surface, node, parent))
  }

  /** Two hosts show the same on the surface: the same nodes with the same looks in the same places, and
      the same order of children everywhere. */
  ghost predicate SamePicture(a: State, b: State, surface: SurfaceId) {
    SameViews(a, b, surface) && SameOrder(a, b, surface)
  }

  lemma SamePictureTwice(a: State, b: State, c: State, surface: SurfaceId)
    requires SamePicture(a, b, surface) && SamePicture(b, c, surface)
    ensures SamePicture(a, c, surface)
  {
  }

  // ----- Other surfaces -----

  predicate WidgetStays(f: Forest, g: Forest, o: Obj) {
    (o in f.widgets <==> o in g.widgets) && (o in f.widgets ==> g.widgets[o] == f.widgets[o])
  }

  predicate FontStays(before: seq<FontSlot>, after: seq<FontSlot>, font: Option<nat>) {
    FontSize(after, font) == FontSize(before, font)
  }

  /** Nothing changes but on one surface. */
  ghost predicate OnlyOn(s: State, r: State, surface: SurfaceId) {
    && SameElsewhere(s.slots, r.slots, surface)
    && (forall o: Obj :: o.surface != surface ==>
          WidgetStays(s.forest, r.forest, o) && Kids(r.forest, o) == Kids(s.forest, o))
    && (forall i :: 0 <= i < |s.slots| && s.slots[i].Some? && s.slots[i].value.surface != surface ==>
          FontStays(s.fonts, r.fonts, s.slots[i].value.font))
  }

  lemma OnlyOnTwice(s: State, m: State, r: State, surface: SurfaceId)
    requires OnlyOn(s, m, surface) && OnlyOn(m, r, surface)
    ensures OnlyOn(s, r, surface)
  {
    SameElsewhereTwice(s.slots, m.slots, r.slots, surface);
    forall o: Obj | o.surface != surface
      ensures WidgetStays(s.forest, r.forest, o) && Kids(r.forest, o) == Kids(s.forest, o)
    {
      assert WidgetStays(s.forest, m.forest, o) && WidgetStays(m.forest, r.forest, o);
    }
    forall i | 0 <= i < |s.slots| && s.slots[i].Some? && s.slots[i].value.surface != surface
      ensures FontStays(s.fonts, r.fonts, s.slots[i].value.font)
    {
      assert m.slots[i] == s.slots[i];
    }
  }

  lemma OnlyItself(s: State, surface: SurfaceId)
    ensures OnlyOn(s, s, surface)
  {
  }

  lemma {:induction false} SameFound(a: Slots, b: Slots, surface: SurfaceId, other: SurfaceId, node: NodeId, i: nat)
    requires SameElsewhere(a, b, other) && surface != other && i <= |a|
    ensures FindFrom(a, surface, node, i) == FindFrom(b, surface, node, i)
    decreases |a| - i
  {
    if i < |a| {
      SameFound(a, b, surface, other, node, i + 1);
    }
  }

  lemma OtherOrders(s: State, r: State, other: SurfaceId, surface: SurfaceId)
    requires Tables(s) && OnlyOn(s, r, other) && surface != other
    ensures SameOrder(s, r, surface)
  {
    OtherOrder(s, r, other, surface, Root(surface));
    forall node: NodeId ensures OrderUnder(s, surface, node) == OrderUnder(r, surface, node) {
      SameFound(s.slots, r.slots, surface, other, node, 0);
      if Seen(s.slots, surface, node).Some? {
        OtherOrder(s, r, other, surface, Seen(s.slots, surface, node).value.widget);
      }
    }
  }

  /** What happens on one surface does not show on another. */
  lemma OtherPicture(s: State, r: State, other: SurfaceId, surface: SurfaceId)
    requires Tables(s) && OnlyOn(s, r, other) && surface != other
    ensures SamePicture(s, r, surface)
  {
    OtherOrders(s, r, other, surface);
    forall node: NodeId
      ensures Shown(s, surface, node) == Shown(r, surface, node) && Above(s, surface, node) == Above(r, surface, node)
      ensures Seen(s.slots, surface, node) == Seen(r.slots, surface, node)
    {
      SameFound(s.slots, r.slots, surface, other, node, 0);
      var i := FindSlot(s.slots, surface, node);
      if i.Some? {
        assert r.slots[i.value] == s.slots[i.value];
        assert WidgetStays(s.forest, r.forest, s.slots[i.value].value.widget);
      }
    }
  }

  // ----- Fonts -----

  /** A font that a slot holds keeps its size. */
  lemma AcquiredSizes(native: Native, slots: Slots, fonts: seq<FontSlot>, clock: nat, size: int, i: nat)
    requires FontsCounted(slots, fonts) && i < |slots| && slots[i].Some?
    ensures FontStays(fonts, AcquireFont(native, fonts, clock, size).fonts, slots[i].value.font)
  {
    var font := slots[i].value.font;
    if font.Some? {
      HolderCounts(slots, i, font.value);
    }
  }

  lemma ReleasedSizes(fonts: seq<FontSlot>, index: nat, font: Option<nat>)
    ensures FontStays(fonts, ReleaseFont(fonts, index), font)
  {
  }

  lemma {:induction false} ClearedSizes(
    slots: Slots, fonts: seq<FontSlot>, removed: seq<bool>, i: nat, font: Option<nat>)
    requires i <= |slots| == |removed|
    ensures FontStays(fonts, ClearFrom(slots, fonts, removed, i).1, font)
    decreases |slots| - i
  {
    if i < |slots| {
      if removed[i] {
        if slots[i].Some? && slots[i].value.font.Some? {
          ReleasedSizes(fonts, slots[i].value.font.value, font);
        }
        ClearedSizes(slots[i := None], ReleaseSlotFont(slots[i], fonts), removed, i + 1, font);
      } else {
        ClearedSizes(slots, fonts, removed, i + 1, font);
      }
    }
  }

  lemma GivenFontOnly(native: Native, s: State, i: nat, size: int)
    requires Tables(s) && i < |s.slots| && s.slots[i].Some?
    ensures OnlyOn(s, GiveFont(native, s, i, size).s, s.slots[i].value.surface)
  {
    var r := GiveFont(native, s, i, size).s;
    var a := AcquireFont(native, s.fonts, s.forest.clock, size);
    GivenFontKeeps(native, s, i, size);
    forall k | 0 <= k < |s.slots| && s.slots[k].Some? ensures FontStays(s.fonts, r.fonts, s.slots[k].value.font) {
      AcquiredSizes(native, s.slots, s.fonts, s.forest.clock, size, k);
      if a.font.Some? && s.slots[i].value.font.Some? {
        ReleasedSizes(a.fonts, s.slots[i].value.font.value, s.slots[k].value.font);
      }
    }
  }

  // ----- Steps and transactions of other surfaces -----

  lemma PlacedOnly(s: State, i: nat, slot: Slot)
    requires Tables(s) && i < |s.slots| && s.slots[i].None? && slot.font.None?
    requires FindSlot(s.slots, slot.surface, slot.node).None? && slot.widget == Host(slot.surface, s.forest.clock)
    ensures OnlyOn(s, PlaceSlot(s, i, slot), slot.surface)
  {
    PlacedKeeps(s, i, slot);
  }

  lemma TickOnly(s: State, surface: SurfaceId)
    ensures OnlyOn(s, TickState(s), surface)
  {
  }

  lemma CreateOnly(native: Native, s: State, surface: SurfaceId, node: NodeId, kind: HostType, attached: bool)
    requires Tables(s) && FindSlot(s.slots, surface, node).None?
    ensures OnlyOn(s, CommitCreate(native, s, surface, node, kind, attached).s, surface)
  {
    var free := FreeFrom(s.slots, 0);
    TickOnly(s, surface);
    if free.Some? && native.create(s.forest.clock) {
      var slot := Slot(surface, node, kind, Host(surface, s.forest.clock), attached, None);
      var placed := PlaceSlot(s, free.value, slot);
      var captioned := if kind.Button? then TickState(placed) else placed;
      PlacedKeeps(s, free.value, slot);
      PlacedOnly(s, free.value, slot);
      TickKeeps(placed);
      TickOnly(placed, surface);
      OnlyOnTwice(s, placed, captioned, surface);
      GivenFontOnly(native, captioned, free.value, DEFAULT_FONT_SIZE);
      OnlyOnTwice(s, captioned, GiveFont(native, captioned, free.value, DEFAULT_FONT_SIZE).s, surface);
    }
  }

  /** Only one object of the surface is touched. */
  lemma TouchedOnly(s: State, r: State, surface: SurfaceId, o: Obj)
    requires o.surface == surface && SameElsewhere(s.slots, r.slots, surface) && r.fonts == s.fonts
    requires forall w: Obj :: w != o ==> WidgetStays(s.forest, r.forest, w)
    requires forall p: Obj :: p.surface != surface ==> Kids(r.forest, p) == Kids(s.forest, p)
    ensures OnlyOn(s, r, surface)
  {
  }

  lemma PropOnly(native: Native, s: State, surface: SurfaceId, node: NodeId, name: string, value: Value)
    requires Tables(s)
    ensures OnlyOn(s, CommitProp(native, s, surface, node, name, value).s, surface)
  {
    var target := FindSlot(s.slots, surface, node);
    if target.Some? {
      if name == "fontSize" {
        if value.Integer? {
          GivenFontOnly(native, s, target.value, value.integer);
        }
      } else {
        var r := CommitProp(native, s, surface, node, name, value).s;
        TouchedOnly(s, r, surface, s.slots[target.value].value.widget);
      }
    }
  }

  lemma LayoutOnly(s: State, surface: SurfaceId, node: NodeId, rect: Rect)
    requires Tables(s)
    ensures OnlyOn(s, CommitLayout(s, surface, node, rect).s, surface)
  {
    var target := FindSlot(s.slots, surface, node);
    if target.Some? {
      TouchedOnly(s, CommitLayout(s, surface, node, rect).s, surface, s.slots[target.value].value.widget);
    }
  }

  lemma InsertOnly(s: State, surface: SurfaceId, node: NodeId, parent: NodeId, index: nat)
    requires Tables(s)
    ensures OnlyOn(s, CommitInsert(s, surface, node, parent, index).s, surface)
  {
    var target := FindSlot(s.slots, surface, node);
    if target.Some? {
      InsertKeeps(s, surface, node, parent, index);
      TouchedOnly(s, CommitInsert(s, surface, node, parent, index).s, surface, s.slots[target.value].value.widget);
    }
  }

  lemma MoveOnly(s: State, surface: SurfaceId, node: NodeId, parent: NodeId, index: nat)
    requires Tables(s)
    ensures OnlyOn(s, CommitMove(s, surface, node, parent, index).s, surface)
  {
    var target := FindSlot(s.slots, surface, node);
    if target.Some? {
      TouchedOnly(s, CommitMove(s, surface, node, parent, index).s, surface, s.slots[target.value].value.widget);
    }
  }

  lemma DestroySlotOnly(s: State, i: nat)
    requires Tables(s) && i < |s.slots| && s.slots[i].Some?
    ensures OnlyOn(s, DestroySlot(s, i), s.slots[i].value.surface)
  {
    var r, a := DestroySlot(s, i), s.slots[i].value.widget;
    var removed := RemovedSlots(s.forest, s.slots, a);
    DestroySlotSlots(s, i);
    forall o: Obj | o.surface != s.slots[i].value.surface
      ensures WidgetStays(s.forest, r.forest, o) && Kids(r.forest, o) == Kids(s.forest, o)
    {
      if Under(s.forest, o, a) {
        ReachesSameSurface(s.forest, o, a, |s.forest.widgets|);
      }
    }
    forall k | 0 <= k < |s.slots| && s.slots[k].Some? ensures FontStays(s.fonts, r.fonts, s.slots[k].value.font) {
      ClearedSizes(s.slots, s.fonts, removed, 0, s.slots[k].value.font);
    }
  }

  lemma RemoveOnly(s: State, surface: SurfaceId, node: NodeId)
    requires Tables(s)
    ensures OnlyOn(s, CommitRemove(s, surface, node).s, surface)
  {
    var target := FindSlot(s.slots, surface, node);
    if target.Some? {
      DestroySlotOnly(s, target.value);
    }
  }

  lemma CommitOnly(native: Native, s: State, surface: SurfaceId, first: bool, op: Operation)
    requires Tables(s) && (op.CreateHost? ==> FindSlot(s.slots, surface, op.node).None?)
    ensures OnlyOn(s, Commit(native, s, surface, first, op).s, surface)
  {
    match op
    case CreateHost(node, kind) => CreateOnly(native, s, surface, node, kind, first);
    case SetHostProp(node, property, value) => PropOnly(native, s, surface, node, property.chars, value);
    case SetHostLayout(node, rect) => LayoutOnly(s, surface, node, rect);
    case InsertHostChild(node, parent, index) => InsertOnly(s, surface, node, parent, index);
    case MoveHost(node, parent, index) => MoveOnly(s, surface, node, parent, index);
    case RemoveHost(node) => RemoveOnly(s, surface, node);
  }

  lemma {:induction false} DestroyBelowOnly(s: State, surface: SurfaceId, n: nat)
    requires Tables(s) && n <= |s.slots|
    ensures OnlyOn(s, DestroySurfaceBelow(s, surface, n), surface)
    decreases n, 1
  {
    if n == 0 {
      OnlyItself(s, surface);
    } else if s.slots[n - 1].Some? && s.slots[n - 1].value.surface == surface {
      DestroyNextOnly(s, surface, n);
    } else {
      DestroyBelowOnly(s, surface, n - 1);
    }
  }

  lemma {:induction false} DestroyNextOnly(s: State, surface: SurfaceId, n: nat)
    requires Tables(s) && 0 < n <= |s.slots| && s.slots[n - 1].Some? && s.slots[n - 1].value.surface == surface
    ensures OnlyOn(s, DestroySurfaceBelow(DestroySlot(s, n - 1), surface, n - 1), surface)
    decreases n, 0
  {
    var next := DestroySlot(s, n - 1);
    DestroySlotOnly(s, n - 1);
    DestroySlotKeeps(s, n - 1);
    DestroyBelowOnly(next, surface, n - 1);
    OnlyOnTwice(s, next, DestroySurfaceBelow(next, surface, n - 1), surface);
  }

  lemma DestroyOnly(s: State, surface: SurfaceId)
    requires Tables(s)
    ensures OnlyOn(s, DestroySurface(s, surface), surface)
  {
    DestroyBelowOnly(s, surface, |s.slots|);
  }

  /** What holds after `n` operations, however far they got. */
  ghost predicate CommittedOn(start: State, s: State, surface: SurfaceId, operations: seq<Operation>, n: nat)
    requires n <= |operations|
  {
    Committed(start.slots, s, surface, operations, n) && OnlyOn(start, s, surface) && Families(s)
  }

  ghost predicate StepsStayOn(step: Stepper, start: State, surface: SurfaceId, head: bool, operations: seq<Operation>) {
    forall s, k :: 0 <= k < |operations| && CommittedOn(start, s, surface, operations, k) ==>
      && CommittedOn(start, s, surface, operations, k + 1)
      && CommittedOn(start, step(s, head && k == 0, operations[k]).s, surface, operations, k + 1)
  }

  lemma {:induction false} RunStaysOn(
    step: Stepper, start: State, surface: SurfaceId, head: bool, operations: seq<Operation>, n: nat)
    requires n <= |operations| && CommittedOn(start, start, surface, operations, 0)
    requires StepsStayOn(step, start, surface, head, operations)
    ensures CommittedOn(start, RunSteps(step, start, head, operations, n).s, surface, operations, n)
  {
    if n > 0 {
      RunStaysOn(step, start, surface, head, operations, n - 1);
    }
  }

  lemma NextStaysOn(
    native: Native, start: State, s: State, surface: SurfaceId, first: bool, operations: seq<Operation>, n: nat)
    requires n < |operations| && CreatesNew(start.slots, surface, operations)
    requires CommittedOn(start, s, surface, operations, n)
    ensures CommittedOn(start, s, surface, operations, n + 1)
    ensures CommittedOn(start, Commit(native, s, surface, first, operations[n]).s, surface, operations, n + 1)
  {
    CommitNext(native, start.slots, s, surface, first, operations, n);
    if operations[n].CreateHost? {
      NewNodeHasNoSlot(start.slots, s.slots, surface, operations, n);
    }
    CommitOnly(native, s, surface, first, operations[n]);
    CommitFamilies(native, s, surface, first, operations[n]);
    OnlyOnTwice(start, s, Commit(native, s, surface, first, operations[n]).s, surface);
  }

  lemma CommitStaysOn(native: Native, start: State, surface: SurfaceId, head: bool, operations: seq<Operation>, n: nat)
    requires n <= |operations| && Tables(start) && Families(start) && CreatesNew(start.slots, surface, operations)
    ensures CommittedOn(start, CommitUpTo(native, start, surface, head, operations, n).s, surface, operations, n)
  {
    StartNodes(start.slots, surface, operations);
    forall s, k | 0 <= k < |operations| && CommittedOn(start, s, surface, operations, k)
      ensures && CommittedOn(start, s, surface, operations, k + 1)
              && CommittedOn(start, Committer(native, surface)(s, head && k == 0, operations[k]).s, surface,
                             operations, k + 1)
    {
      NextStaysOn(native, start, s, surface, head && k == 0, operations, k);
    }
    RunStaysOn(Committer(native, surface), start, surface, head, operations, n);
  }

  /** The operations of a transaction, from an emptied surface if it is full. */
  lemma CommittedOnly(native: Native, maxOperations: nat, s: State, t: Transaction)
    requires Tables(s) && Families(s) && Preflight(maxOperations, s.slots, s.forest, t)
    ensures var start := if t.full then DestroySurface(s, t.surface) else s;
            var done := CommitUpTo(native, start, t.surface, t.full, t.operations, |t.operations|).s;
            Tables(done) && Families(done) && OnlyOn(s, done, t.surface)
  {
    var start := if t.full then DestroySurface(s, t.surface) else s;
    var done := CommitUpTo(native, start, t.surface, t.full, t.operations, |t.operations|).s;
    DestroySurfaceClears(s, t.surface);
    DestroyOnly(s, t.surface);
    DestroyFamilies(s, t.surface);
    OnlyItself(s, t.surface);
    PreflightCreatesNew(maxOperations, s, start, t);
    CommitStaysOn(native, start, t.surface, t.full, t.operations, |t.operations|);
    OnlyOnTwice(s, start, done, t.surface);
  }

  /** A transaction changes nothing but on its own surface, whether it succeeds or not, and keeps the
      lists of children right. */
  lemma ExecuteOnly(native: Native, maxOperations: nat, rootOk: bool, s: State, t: Transaction)
    requires Tables(s) && Families(s)
    ensures OnlyOn(s, Execute(native, maxOperations, rootOk, s, t).s, t.surface)
    ensures Families(Execute(native, maxOperations, rootOk, s, t).s)
  {
    DestroyOnly(s, t.surface);
    DestroyFamilies(s, t.surface);
    if rootOk && Preflight(maxOperations, s.slots, s.forest, t) {
      var start := if t.full then DestroySurface(s, t.surface) else s;
      var done := CommitUpTo(native, start, t.surface, t.full, t.operations, |t.operations|).s;
      CommittedOnly(native, maxOperations, s, t);
      DestroyOnly(done, t.surface);
      DestroyFamilies(done, t.surface);
      OnlyOnTwice(s, done, DestroySurface(done, t.surface), t.surface);
    }
  }

  /** A transaction of one surface leaves what every other shows. */
  lemma OthersKeepPicture(
    native: Native, maxOperations: nat, rootOk: bool, s: State, t: Transaction, surface: SurfaceId)
    requires Tables(s) && Families(s) && t.surface != surface
    ensures SamePicture(s, Execute(native, maxOperations, rootOk, s, t).s, surface)
  {
    ExecuteOnly(native, maxOperations, rootOk, s, t);
    OtherPicture(s, Execute(native, maxOperations, rootOk, s, t).s, t.surface, surface);
  }

  /** A failed transaction that is no batch of several and that the host refused before its commit leaves
      what every surface shows; any other failed one leaves its own surface empty. */
  lemma FailureShows(
    native: Native, maxOperations: nat, rootOk: bool, s: State, t: Transaction, surface: SurfaceId)
    requires Tables(s) && Families(s) && !Execute(native, maxOperations, rootOk, s, t).ok
    ensures var after := Execute(native, maxOperations, rootOk, s, t).s;
            if t.batchCount <= 1 && !(rootOk && Preflight(maxOperations, s.slots, s.forest, t)) then
              SamePicture(s, after, surface)
            else if surface == t.surface then forall node: NodeId :: Shown(after, surface, node).None?
            else SamePicture(s, after, surface)
  {
    if t.batchCount <= 1 && !(rootOk && Preflight(maxOperations, s.slots, s.forest, t)) {
      RefusedLeavesAll(native, maxOperations, rootOk, s, t);
    } else if surface == t.surface {
      FailureLeavesNothing(native, maxOperations, rootOk, s, t);
    } else {
      OthersKeepPicture(native, maxOperations, rootOk, s, t, surface);
    }
  }

  // ----- What a step draws -----

  /** What the other nodes of the surface show stays. */
  ghost predicate OthersShow(s: State, r: State, surface: SurfaceId, node: NodeId) {
    forall m: NodeId :: m != node ==> Shown(r, surface, m) == Shown(s, surface, m)
  }

  lemma OneSlotTouched(s: State, r: State, surface: SurfaceId, node: NodeId, i: nat)
    requires Tables(s) && Tables(r) && i < |s.slots| == |r.slots|
    requires forall k :: 0 <= k < |s.slots| && k != i ==> r.slots[k] == s.slots[k]
    requires forall k :: 0 <= k < |s.slots| && k != i && s.slots[k].Some? ==>
               && WidgetStays(s.forest, r.forest, s.slots[k].value.widget)
               && FontStays(s.fonts, r.fonts, s.slots[k].value.font)
    requires s.slots[i].Some? ==> Holds(s.slots[i], surface, node)
    requires r.slots[i].Some? ==> Holds(r.slots[i], surface, node)
    ensures OthersShow(s, r, surface, node)
  {
    forall m: NodeId | m != node ensures Shown(r, surface, m) == Shown(s, surface, m) {
      var k := FindSlot(s.slots, surface, m);
      if k.Some? {
        FoundAt(r.slots, surface, m, k.value);
        assert WidgetStays(s.forest, r.forest, s.slots[k.value].value.widget);
        assert FontStays(s.fonts, r.fonts, s.slots[k.value].value.font);
      }
    }
  }

  /** How a property or a layout changes what its node shows. */
  function Retouched(op: Operation, look: Look): Look {
    match op
    case SetHostProp(_, property, value) =>
      if property.chars == "fontSize" then
        look.(fontSize := if value.Integer? then Some(value.integer) else look.fontSize)
      else look.(props := look.props[property.chars := value])
    case SetHostLayout(_, rect) => look.(rect := Some(rect))
    case _ => look
  }

  function NewLook(kind: HostType, attached: bool): Look {
    Look(kind, attached, map[], None, if kind.View? then None else Some(DEFAULT_FONT_SIZE))
  }

  lemma GivenFontShows(native: Native, s: State, i: nat, size: int)
    requires Tables(s) && i < |s.slots| && s.slots[i].Some? && GiveFont(native, s, i, size).ok
    ensures var r := GiveFont(native, s, i, size).s;
            var slot := s.slots[i].value;
            && OthersShow(s, r, slot.surface, slot.node)
            && Shown(r, slot.surface, slot.node) == Some(LookOf(s, slot).(fontSize := Some(size)))
  {
    var r, slot := GiveFont(native, s, i, size).s, s.slots[i].value;
    var a := AcquireFont(native, s.fonts, s.forest.clock, size);
    GivenFontKeeps(native, s, i, size);
    AcquireCounts(native, s.slots, s.fonts, s.forest.clock, size);
    forall k | 0 <= k < |s.slots| && s.slots[k].Some? ensures FontStays(s.fonts, r.fonts, s.slots[k].value.font) {
      AcquiredSizes(native, s.slots, s.fonts, s.forest.clock, size, k);
      if slot.font.Some? {
        ReleasedSizes(a.fonts, slot.font.value, s.slots[k].value.font);
      }
    }
    OneSlotTouched(s, r, slot.surface, slot.node, i);
    FoundAt(r.slots, slot.surface, slot.node, i);
    if slot.font.Some? {
      ReleasedSizes(a.fonts, slot.font.value, a.font);
    }
  }

  lemma PlacedShows(s: State, i: nat, slot: Slot)
    requires Tables(s) && i < |s.slots| && s.slots[i].None? && slot.font.None?
    requires FindSlot(s.slots, slot.surface, slot.node).None? && slot.widget == Host(slot.surface, s.forest.clock)
    ensures var r := PlaceSlot(s, i, slot);
            && OthersShow(s, r, slot.surface, slot.node)
            && Shown(r, slot.surface, slot.node) == Some(Look(slot.kind, slot.attached, map[], None, None))
  {
    var r := PlaceSlot(s, i, slot);
    PlacedKeeps(s, i, slot);
    OneSlotTouched(s, r, slot.surface, slot.node, i);
    FoundAt(r.slots, slot.surface, slot.node, i);
  }

  lemma CreateShows(native: Native, s: State, surface: SurfaceId, node: NodeId, kind: HostType, attached: bool)
    requires Tables(s) && FindSlot(s.slots, surface, node).None?
    requires CommitCreate(native, s, surface, node, kind, attached).ok
    ensures var r := CommitCreate(native, s, surface, node, kind, attached).s;
            OthersShow(s, r, surface, node) && Shown(r, surface, node) == Some(NewLook(kind, attached))
  {
    var i := FreeFrom(s.slots, 0).value;
    var slot := Slot(surface, node, kind, Host(surface, s.forest.clock), attached, None);
    var placed := PlaceSlot(s, i, slot);
    var captioned := if kind.Button? then TickState(placed) else placed;
    PlacedShows(s, i, slot);
    PlacedKeeps(s, i, slot);
    TickKeeps(placed);
    assert OthersShow(s, captioned, surface, node);
    if !kind.View? {
      GivenFontShows(native, captioned, i, DEFAULT_FONT_SIZE);
    }
  }

  lemma RetouchShows(native: Native, s: State, surface: SurfaceId, first: bool, op: Operation)
    requires Tables(s) && (op.SetHostProp? || op.SetHostLayout?) && Commit(native, s, surface, first, op).ok
    ensures var r := Commit(native, s, surface, first, op).s;
            && OthersShow(s, r, surface, op.node) && Shown(s, surface, op.node).Some?
            && Shown(r, surface, op.node) == Some(Retouched(op, Shown(s, surface, op.node).value))
  {
    var r := Commit(native, s, surface, first, op).s;
    var i := FindSlot(s.slots, surface, op.node).value;
    CommitKeeps(native, s, surface, first, op);
    if op.SetHostProp? && op.property.chars == "fontSize" {
      if r != s {
        GivenFontShows(native, s, i, op.value.integer);
      }
    } else {
      OneSlotTouched(s, r, surface, op.node, i);
    }
  }

  lemma InsertShows(s: State, surface: SurfaceId, node: NodeId, parent: NodeId, index: nat)
    requires Tables(s) && CommitInsert(s, surface, node, parent, index).ok
    ensures var r := CommitInsert(s, surface, node, parent, index).s;
            && OthersShow(s, r, surface, node) && Shown(s, surface, node).Some?
            && Shown(r, surface, node) == Some(Shown(s, surface, node).value.(attached := true))
  {
    var r := CommitInsert(s, surface, node, parent, index).s;
    var i := FindSlot(s.slots, surface, node).value;
    InsertKeeps(s, surface, node, parent, index);
    OneSlotTouched(s, r, surface, node, i);
    FoundAt(r.slots, surface, node, i);
  }

  /** A move succeeds exactly for two nodes that are there. Every node then shows what it did; the node
      hangs under its new parent, at its index, and every other where it did. */
  lemma MoveShows(s: State, surface: SurfaceId, node: NodeId, parent: NodeId, index: nat)
    requires Tables(s) && Families(s)
    ensures var step := CommitMove(s, surface, node, parent, index);
            && (step.ok <==> node != parent && Shown(s, surface, node).Some? && Shown(s, surface, parent).Some?)
            && (!step.ok ==> step.s == s)
            && (step.ok ==>
                  && (forall m: NodeId :: Shown(step.s, surface, m) == Shown(s, surface, m))
                  && (forall m: NodeId :: UnderRoot(step.s, surface, m) <==> m != node && UnderRoot(s, surface, m))
                  && (forall m: NodeId, p: NodeId ::
                        HangsUnder(step.s, surface, m, p)
                        <==> if m == node then p == parent else HangsUnder(s, surface, m, p))
                  && PutUnder(s, step.s, surface, node, parent, index))
  {
    var step := CommitMove(s, surface, node, parent, index);
    var i, k := FindSlot(s.slots, surface, node), FindSlot(s.slots, surface, parent);
    if step.ok {
      MoveOrder(s, surface, node, parent, index);
      forall m: NodeId, p: NodeId
        ensures Shown(step.s, surface, m) == Shown(s, surface, m)
        ensures UnderRoot(step.s, surface, m) <==> m != node && UnderRoot(s, surface, m)
        ensures HangsUnder(step.s, surface, m, p) <==> if m == node then p == parent else HangsUnder(s, surface, m, p)
      {
        MovedPlace(s, surface, node, parent, index, m, p);
      }
    }
  }

  lemma MovedPlace(s: State, surface: SurfaceId, node: NodeId, parent: NodeId, index: nat, m: NodeId, p: NodeId)
    requires Tables(s) && CommitMove(s, surface, node, parent, index).ok
    ensures var r := CommitMove(s, surface, node, parent, index).s;
            && Shown(r, surface, m) == Shown(s, surface, m)
            && (UnderRoot(r, surface, m) <==> m != node && UnderRoot(s, surface, m))
            && (HangsUnder(r, surface, m, p) <==> if m == node then p == parent else HangsUnder(s, surface, m, p))
  {
    SeatIsHost(s, surface, parent);
    if m != node && Seen(s.slots, surface, m).Some? {
      SeatsApart(s, surface, m, node);
    }
    if p != parent && Seen(s.slots, surface, p).Some? {
      SeatsApart(s, surface, p, parent);
    }
  }

  /** A remove succeeds exactly for a node that is there. It takes the nodes of its subtree along; every
      other shows what it did. */
  lemma RemoveShows(s: State, surface: SurfaceId, node: NodeId)
    requires Tables(s)
    ensures var step := CommitRemove(s, surface, node);
            && (step.ok <==> Shown(s, surface, node).Some?) && (!step.ok ==> step.s == s)
            && (step.ok ==>
                  forall m: NodeId ::
                    Shown(step.s, surface, m) == if Goes(s, surface, node, m) then None else Shown(s, surface, m))
  {
    var step := CommitRemove(s, surface, node);
    if step.ok {
      var i := FindSlot(s.slots, surface, node).value;
      var a := s.slots[i].value.widget;
      DestroySlotKeeps(s, i);
      forall m: NodeId
        ensures Shown(step.s, surface, m) == if Goes(s, surface, node, m) then None else Shown(s, surface, m)
      {
        RemovedSeats(s, surface, node, m);
        var k := FindSlot(s.slots, surface, m);
        if k.Some? && !Goes(s, surface, node, m) {
          FoundAt(step.s.slots, surface, m, k.value);
          ClearedSizes(s.slots, s.fonts, RemovedSlots(s.forest, s.slots, a), 0, s.slots[k.value].value.font);
        }
      }
    }
  }

  // ----- The same steps on two hosts -----

  /** A node's object is made on its surface. */
  lemma SeatIsHost(s: State, surface: SurfaceId, node: NodeId)
    requires Tables(s) && Seen(s.slots, surface, node).Some?
    ensures var w := Seen(s.slots, surface, node).value.widget;
            w.Host? && w.id < s.forest.clock && w in s.forest.widgets
  {
  }

  /** Where a node is after another was created. */
  lemma CreatedPlaces(s: State, r: State, surface: SurfaceId, node: NodeId, attached: bool, m: NodeId, parent: NodeId)
    requires Tables(s) && Tables(r) && Created(s, r, surface, node, attached) && Seen(s.slots, surface, node).None?
    ensures UnderRoot(r, surface, m) <==> m == node || UnderRoot(s, surface, m)
    ensures HangsUnder(r, surface, m, parent) <==> m != node && parent != node && HangsUnder(s, surface, m, parent)
  {
    if Seen(s.slots, surface, m).Some? {
      SeatIsHost(s, surface, m);
    }
    if Seen(s.slots, surface, parent).Some? {
      SeatIsHost(s, surface, parent);
    }
  }

  lemma InsertedPlaces(
    s: State, r: State, surface: SurfaceId, node: NodeId, under: NodeId, m: NodeId, parent: NodeId)
    requires Tables(s) && Inserted(s, r, surface, node, under)
    ensures UnderRoot(r, surface, m) <==> m != node && UnderRoot(s, surface, m)
    ensures HangsUnder(r, surface, m, parent)
       <==> if m == node then parent == under else HangsUnder(s, surface, m, parent)
  {
    SeatIsHost(s, surface, under);
    if m != node && Seen(s.slots, surface, m).Some? {
      SeatsApart(s, surface, m, node);
    }
    if parent != under && Seen(s.slots, surface, parent).Some? {
      SeatsApart(s, surface, parent, under);
    }
  }

  lemma SameCreated(
    a: State, x: State, b: State, y: State, surface: SurfaceId, node: NodeId, attached: bool, kind: HostType)
    requires Tables(a) && Tables(x) && Tables(b) && Tables(y) && SameViews(a, b, surface)
    requires Seen(a.slots, surface, node).None? && Seen(b.slots, surface, node).None?
    requires Created(a, x, surface, node, attached) && OthersShow(a, x, surface, node)
    requires Created(b, y, surface, node, attached) && OthersShow(b, y, surface, node)
    requires Shown(x, surface, node) == Shown(y, surface, node)
    ensures SameViews(x, y, surface)
  {
    forall m: NodeId ensures UnderRoot(x, surface, m) <==> UnderRoot(y, surface, m) {
      CreatedPlaces(a, x, surface, node, attached, m, m);
      CreatedPlaces(b, y, surface, node, attached, m, m);
    }
    forall m: NodeId, parent: NodeId ensures HangsUnder(x, surface, m, parent) <==> HangsUnder(y, surface, m, parent) {
      CreatedPlaces(a, x, surface, node, attached, m, parent);
      CreatedPlaces(b, y, surface, node, attached, m, parent);
    }
    forall m: NodeId ensures Shown(x, surface, m) == Shown(y, surface, m) {
    }
  }

  lemma SameInserted(a: State, x: State, b: State, y: State, surface: SurfaceId, node: NodeId, under: NodeId)
    requires Tables(a) && Tables(b) && SameViews(a, b, surface)
    requires Inserted(a, x, surface, node, under) && OthersShow(a, x, surface, node)
    requires Inserted(b, y, surface, node, under) && OthersShow(b, y, surface, node)
    requires Shown(x, surface, node) == Shown(y, surface, node)
    ensures SameViews(x, y, surface)
  {
    forall m: NodeId ensures UnderRoot(x, surface, m) <==> UnderRoot(y, surface, m) {
      InsertedPlaces(a, x, surface, node, under, m, m);
      InsertedPlaces(b, y, surface, node, under, m, m);
    }
    forall m: NodeId, parent: NodeId ensures HangsUnder(x, surface, m, parent) <==> HangsUnder(y, surface, m, parent) {
      InsertedPlaces(a, x, surface, node, under, m, parent);
      InsertedPlaces(b, y, surface, node, under, m, parent);
    }
    forall m: NodeId ensures Shown(x, surface, m) == Shown(y, surface, m) {
    }
  }

  lemma SamePlaces(s: State, r: State, surface: SurfaceId, m: NodeId, parent: NodeId)
    requires SameSeats(s.slots, r.slots, surface) && SameParents(s.forest, r.forest)
    ensures UnderRoot(r, surface, m) <==> UnderRoot(s, surface, m)
    ensures HangsUnder(r, surface, m, parent) <==> HangsUnder(s, surface, m, parent)
  {
    assert Seen(r.slots, surface, m) == Seen(s.slots, surface, m);
    if Seen(s.slots, surface, m).Some? {
      assert ParentOf(r.forest, Seen(s.slots, surface, m).value.widget)
          == ParentOf(s.forest, Seen(s.slots, surface, m).value.widget);
    }
    assert Seen(r.slots, surface, parent) == Seen(s.slots, surface, parent);
  }

  lemma SameRetouched(a: State, x: State, b: State, y: State, surface: SurfaceId, node: NodeId)
    requires SameViews(a, b, surface)
    requires SameSeats(a.slots, x.slots, surface) && SameParents(a.forest, x.forest) && OthersShow(a, x, surface, node)
    requires SameSeats(b.slots, y.slots, surface) && SameParents(b.forest, y.forest) && OthersShow(b, y, surface, node)
    requires Shown(x, surface, node) == Shown(y, surface, node)
    ensures SameViews(x, y, surface)
  {
    forall m: NodeId ensures UnderRoot(x, surface, m) <==> UnderRoot(y, surface, m) {
      SamePlaces(a, x, surface, m, m);
      SamePlaces(b, y, surface, m, m);
    }
    forall m: NodeId, parent: NodeId ensures HangsUnder(x, surface, m, parent) <==> HangsUnder(y, surface, m, parent) {
      SamePlaces(a, x, surface, m, parent);
      SamePlaces(b, y, surface, m, parent);
    }
    forall m: NodeId ensures Shown(x, surface, m) == Shown(y, surface, m) {
    }
  }

  lemma CreateSame(
    left: Native, right: Native, a: State, b: State, surface: SurfaceId, first: bool, node: NodeId, kind: HostType)
    requires Tables(a) && Tables(b) && Families(a) && Families(b) && SamePicture(a, b, surface)
    requires FindSlot(a.slots, surface, node).None? && FindSlot(b.slots, surface, node).None?
    requires CommitCreate(left, a, surface, node, kind, first).ok
    requires CommitCreate(right, b, surface, node, kind, first).ok
    ensures SamePicture(CommitCreate(left, a, surface, node, kind, first).s,
                        CommitCreate(right, b, surface, node, kind, first).s, surface)
  {
    var x := CommitCreate(left, a, surface, node, kind, first).s;
    var y := CommitCreate(right, b, surface, node, kind, first).s;
    CreateKeeps(left, a, surface, node, kind, first);
    CreateKeeps(right, b, surface, node, kind, first);
    CreateSeats(left, a, surface, node, kind, first);
    CreateSeats(right, b, surface, node, kind, first);
    CreateShows(left, a, surface, node, kind, first);
    CreateShows(right, b, surface, node, kind, first);
    SameCreated(a, x, b, y, surface, node, first, kind);
    CreateOrder(left, a, surface, node, kind, first);
    CreateOrder(right, b, surface, node, kind, first);
  }

  lemma InsertSame(a: State, b: State, surface: SurfaceId, node: NodeId, parent: NodeId, index: nat)
    requires Tables(a) && Tables(b) && Families(a) && Families(b) && SamePicture(a, b, surface)
    requires CommitInsert(a, surface, node, parent, index).ok && CommitInsert(b, surface, node, parent, index).ok
    ensures SamePicture(CommitInsert(a, surface, node, parent, index).s,
                        CommitInsert(b, surface, node, parent, index).s, surface)
  {
    var x, y := CommitInsert(a, surface, node, parent, index).s, CommitInsert(b, surface, node, parent, index).s;
    InsertSeats(a, surface, node, parent, index);
    InsertSeats(b, surface, node, parent, index);
    InsertShows(a, surface, node, parent, index);
    InsertShows(b, surface, node, parent, index);
    SameInserted(a, x, b, y, surface, node, parent);
    InsertOrder(a, surface, node, parent, index);
    InsertOrder(b, surface, node, parent, index);
  }

  lemma RetouchSeats(native: Native, s: State, surface: SurfaceId, first: bool, op: Operation)
    requires Tables(s) && (op.SetHostProp? || op.SetHostLayout?)
    ensures var r := Commit(native, s, surface, first, op).s;
            SameSeats(s.slots, r.slots, surface) && SameParents(s.forest, r.forest)
  {
    if op.SetHostProp? {
      PropSeats(native, s, surface, op.node, op.property.chars, op.value);
    }
  }

  lemma RetouchSame(left: Native, right: Native, a: State, b: State, surface: SurfaceId, first: bool, op: Operation)
    requires Tables(a) && Tables(b) && SamePicture(a, b, surface) && (op.SetHostProp? || op.SetHostLayout?)
    requires Commit(left, a, surface, first, op).ok && Commit(right, b, surface, first, op).ok
    ensures SamePicture(Commit(left, a, surface, first, op).s, Commit(right, b, surface, first, op).s, surface)
  {
    RetouchSeats(left, a, surface, first, op);
    RetouchSeats(right, b, surface, first, op);
    RetouchShows(left, a, surface, first, op);
    RetouchShows(right, b, surface, first, op);
    var x, y := Commit(left, a, surface, first, op).s, Commit(right, b, surface, first, op).s;
    SameRetouched(a, x, b, y, surface, op.node);
    RetouchOrder(left, a, surface, first, op);
    RetouchOrder(right, b, surface, first, op);
  }

  /** A building operation that succeeds on two hosts that show the same leaves the same picture. */
  lemma CommitSame(
    left: Native, right: Native, a: State, b: State, surface: SurfaceId, first: bool, op: Operation)
    requires Tables(a) && Tables(b) && Families(a) && Families(b) && SamePicture(a, b, surface)
    requires !op.MoveHost? && !op.RemoveHost?
    requires op.CreateHost? ==> FindSlot(a.slots, surface, op.node).None? && FindSlot(b.slots, surface, op.node).None?
    requires Commit(left, a, surface, first, op).ok && Commit(right, b, surface, first, op).ok
    ensures SamePicture(Commit(left, a, surface, first, op).s, Commit(right, b, surface, first, op).s, surface)
  {
    match op
    case CreateHost(node, kind) => CreateSame(left, right, a, b, surface, first, node, kind);
    case InsertHostChild(node, parent, index) => InsertSame(a, b, surface, node, parent, index);
    case _ => RetouchSame(left, right, a, b, surface, first, op);
  }

  // ----- The same mount on two hosts -----

  ghost predicate Alike(
    start: State, a: State, origin: State, b: State, surface: SurfaceId, operations: seq<Operation>, n: nat)
    requires n <= |operations|
  {
    && Committed(start.slots, a, surface, operations, n) && Committed(origin.slots, b, surface, operations, n)
    && Families(a) && Families(b) && SamePicture(a, b, surface)
  }

  ghost predicate StepsAlike(
    left: Stepper, right: Stepper, start: State, origin: State, surface: SurfaceId, head: bool,
    operations: seq<Operation>)
  {
    forall a, b, k :: 0 <= k < |operations| && Alike(start, a, origin, b, surface, operations, k)
                      && left(a, head && k == 0, operations[k]).ok && right(b, head && k == 0, operations[k]).ok ==>
      Alike(start, left(a, head && k == 0, operations[k]).s, origin, right(b, head && k == 0, operations[k]).s, surface,
            operations, k + 1)
  }

  lemma {:induction false} RunAlike(
    left: Stepper, right: Stepper, start: State, origin: State, surface: SurfaceId, head: bool,
    operations: seq<Operation>, n: nat)
    requires n <= |operations| && Alike(start, start, origin, origin, surface, operations, 0)
    requires StepsAlike(left, right, start, origin, surface, head, operations)
    requires RunSteps(left, start, head, operations, n).ok && RunSteps(right, origin, head, operations, n).ok
    ensures Alike(start, RunSteps(left, start, head, operations, n).s, origin,
                  RunSteps(right, origin, head, operations, n).s, surface, operations, n)
  {
    if n > 0 {
      RunAlike(left, right, start, origin, surface, head, operations, n - 1);
    }
  }

  lemma NextAlike(
    left: Native, right: Native, start: State, a: State, origin: State, b: State, surface: SurfaceId, first: bool,
    operations: seq<Operation>, n: nat)
    requires n < |operations| && Alike(start, a, origin, b, surface, operations, n)
    requires CreatesNew(start.slots, surface, operations) && CreatesNew(origin.slots, surface, operations)
    requires !operations[n].MoveHost? && !operations[n].RemoveHost?
    requires Commit(left, a, surface, first, operations[n]).ok && Commit(right, b, surface, first, operations[n]).ok
    ensures Alike(start, Commit(left, a, surface, first, operations[n]).s, origin,
                  Commit(right, b, surface, first, operations[n]).s, surface, operations, n + 1)
  {
    CommitNext(left, start.slots, a, surface, first, operations, n);
    CommitNext(right, origin.slots, b, surface, first, operations, n);
    if operations[n].CreateHost? {
      NewNodeHasNoSlot(start.slots, a.slots, surface, operations, n);
      NewNodeHasNoSlot(origin.slots, b.slots, surface, operations, n);
    }
    CommitFamilies(left, a, surface, first, operations[n]);
    CommitFamilies(right, b, surface, first, operations[n]);
    CommitSame(left, right, a, b, surface, first, operations[n]);
  }

  /** The same building operations, all of which succeed on two hosts that show the same, leave the same
      picture. */
  lemma CommitsDrawTheSame(
    left: Native, right: Native, a: State, b: State, surface: SurfaceId, head: bool, operations: seq<Operation>)
    requires Tables(a) && Tables(b) && Families(a) && Families(b)
    requires SamePicture(a, b, surface) && BuildsOnly(operations)
    requires CreatesNew(a.slots, surface, operations) && CreatesNew(b.slots, surface, operations)
    requires CommitUpTo(left, a, surface, head, operations, |operations|).ok
    requires CommitUpTo(right, b, surface, head, operations, |operations|).ok
    ensures SamePicture(CommitUpTo(left, a, surface, head, operations, |operations|).s,
                        CommitUpTo(right, b, surface, head, operations, |operations|).s, surface)
  {
    StartNodes(a.slots, surface, operations);
    StartNodes(b.slots, surface, operations);
    forall x, y, k | 0 <= k < |operations| && Alike(a, x, b, y, surface, operations, k)
                     && Committer(left, surface)(x, head && k == 0, operations[k]).ok
                     && Committer(right, surface)(y, head && k == 0, operations[k]).ok
      ensures Alike(a, Committer(left, surface)(x, head && k == 0, operations[k]).s, b,
                    Committer(right, surface)(y, head && k == 0, operations[k]).s, surface, operations, k + 1)
    {
      NextAlike(left, right, a, x, b, y, surface, head && k == 0, operations, k);
    }
    RunAlike(Committer(left, surface), Committer(right, surface), a, b, surface, head, operations, |operations|);
  }

  // ----- Batch by batch -----

  /** A mount that succeeded as one transaction, somewhere, up to its `n`-th operation. */
  function Drawn(right: Native, origin: State, surface: SurfaceId, operations: seq<Operation>, n: nat): Step
    requires n <= |operations|
  {
    CommitUpTo(right, DestroySurface(origin, surface), surface, true, operations, n)
  }

  /** It is a building full mount that succeeds there as one transaction. */
  ghost predicate Model(
    right: Native, origin: State, surface: SurfaceId, source: BoundedText, operations: seq<Operation>)
  {
    && Tables(origin) && Families(origin) && BuildsOnly(operations) && operations != [] && GoodSource(source)
    && Execute(right, |operations|, true, origin, Whole(surface, source, operations)).ok
  }

  lemma DrawnSoFar(
    right: Native, origin: State, surface: SurfaceId, source: BoundedText, operations: seq<Operation>, n: nat)
    requires Model(right, origin, surface, source, operations) && n <= |operations|
    ensures Drawn(right, origin, surface, operations, n).ok && Tables(Drawn(right, origin, surface, operations, n).s)
    ensures Drawn(right, origin, surface, operations, |operations|)
         == Execute(right, |operations|, true, origin, Whole(surface, source, operations))
    ensures Families(Drawn(right, origin, surface, operations, n).s)
    ensures NoSlotOf(DestroySurface(origin, surface).slots, surface) && Tables(DestroySurface(origin, surface))
    ensures Families(DestroySurface(origin, surface))
  {
    var start := DestroySurface(origin, surface);
    DestroySurfaceClears(origin, surface);
    DestroyFamilies(origin, surface);
    PreflightCreatesNew(|operations|, origin, start, Whole(surface, source, operations));
    CommitUpToKeeps(right, start, surface, true, operations, n);
    CommitStaysOn(right, start, surface, true, operations, n);
    if !Drawn(right, origin, surface, operations, n).ok {
      FailureSticks(Committer(right, surface), start, operations, n, |operations|);
    }
  }

  lemma EmptySurfaces(a: State, b: State, surface: SurfaceId)
    requires Tables(a) && Tables(b) && Families(a) && Families(b)
    requires NoSlotOf(a.slots, surface) && NoSlotOf(b.slots, surface)
    ensures SamePicture(a, b, surface)
  {
    NothingUnder(a, surface);
    NothingUnder(b, surface);
  }

  lemma FirstBatchDraws(
    left: Native, maxOperations: nat, rootOk: bool, a: State, right: Native, origin: State, surface: SurfaceId,
    source: BoundedText, operations: seq<Operation>)
    requires Tables(a) && Families(a) && Model(right, origin, surface, source, operations)
    requires Execute(left, maxOperations, rootOk, a, Batch(surface, source, operations, 0)).ok
    ensures SamePicture(Execute(left, maxOperations, rootOk, a, Batch(surface, source, operations, 0)).s,
                        Drawn(right, origin, surface, operations, BatchStart(|operations|, 1)).s, surface)
  {
    var t, e := Batch(surface, source, operations, 0), BatchStart(|operations|, 1);
    var start, target := DestroySurface(a, surface), DestroySurface(origin, surface);
    BatchEnds(|operations|, 0);
    DestroySurfaceClears(a, surface);
    DestroyFamilies(a, surface);
    DrawnSoFar(right, origin, surface, source, operations, e);
    PreflightCreatesNew(maxOperations, a, start, t);
    RunPrefix(Committer(right, surface), target, operations, e, e);
    EmptySurfaces(start, target, surface);
    assert t.operations == operations[..e];
    CommitsDrawTheSame(left, right, start, target, surface, true, t.operations);
  }

  lemma NewOnBoth(a: State, b: State, surface: SurfaceId, operations: seq<Operation>)
    requires SamePicture(a, b, surface) && CreatesNew(a.slots, surface, operations)
    ensures CreatesNew(b.slots, surface, operations)
  {
    forall i | 0 <= i < |operations| && operations[i].CreateHost?
      ensures !SomeSlotHolds(b.slots, surface, operations[i].node)
    {
      assert Shown(a, surface, operations[i].node) == Shown(b, surface, operations[i].node);
    }
  }

  /** The operations of a later batch, drawn on a host that shows what the earlier ones draw. */
  lemma SliceDraws(
    left: Native, a: State, right: Native, origin: State, surface: SurfaceId, source: BoundedText,
    operations: seq<Operation>, b: nat, e: nat)
    requires Tables(a) && Families(a) && Model(right, origin, surface, source, operations) && 0 < b <= e <= |operations|
    requires SamePicture(a, Drawn(right, origin, surface, operations, b).s, surface)
    requires CreatesNew(a.slots, surface, operations[b..e])
    requires CommitUpTo(left, a, surface, false, operations[b..e], e - b).ok
    ensures SamePicture(CommitUpTo(left, a, surface, false, operations[b..e], e - b).s,
                        Drawn(right, origin, surface, operations, e).s, surface)
  {
    DrawnSoFar(right, origin, surface, source, operations, b);
    DrawnSoFar(right, origin, surface, source, operations, e);
    var mid := Drawn(right, origin, surface, operations, b);
    NewOnBoth(a, mid.s, surface, operations[b..e]);
    CommitUpToSlice(right, DestroySurface(origin, surface), surface, operations, b, e, mid);
    CommitsDrawTheSame(left, right, a, mid.s, surface, false, operations[b..e]);
  }

  lemma LaterBatchDraws(
    left: Native, maxOperations: nat, rootOk: bool, a: State, right: Native, origin: State, surface: SurfaceId,
    source: BoundedText, operations: seq<Operation>, k: nat)
    requires Tables(a) && Families(a) && Model(right, origin, surface, source, operations)
    requires 0 < k < BatchCount(|operations|)
    requires SamePicture(a, Drawn(right, origin, surface, operations, BatchStart(|operations|, k)).s, surface)
    requires Execute(left, maxOperations, rootOk, a, Batch(surface, source, operations, k)).ok
    ensures SamePicture(Execute(left, maxOperations, rootOk, a, Batch(surface, source, operations, k)).s,
                        Drawn(right, origin, surface, operations, BatchStart(|operations|, k + 1)).s, surface)
  {
    var t, b, e := Batch(surface, source, operations, k), BatchStart(|operations|, k), BatchStart(|operations|, k + 1);
    BatchEnds(|operations|, k);
    PreflightCreatesNew(maxOperations, a, a, t);
    assert t.operations == operations[b..e];
    SliceDraws(left, a, right, origin, surface, source, operations, b, e);
  }
}
