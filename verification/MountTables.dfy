/** The mount host's tables agree with each other between transactions, whatever a transaction
    does and wherever it fails. */
module MountTables {
  import opened Wrappers
  import opened MountModel

  // ----- The invariant -----

  /** One live slot per surface and node. */
  ghost predicate OneSlotPerNode(slots: Slots) {
    forall i, j :: 0 <= i < j < |slots| && slots[i].Some? && slots[j].Some? ==>
      !(slots[i].value.surface == slots[j].value.surface && slots[i].value.node == slots[j].value.node)
  }

  predicate HoldsFont(slot: Option<Slot>, f: nat) {
    slot.Some? && slot.value.font == Some(f)
  }

  /** How many slots hold the font instance. */
  function Holders(slots: Slots, f: nat): nat {
    if slots == [] then 0
    else Holders(slots[..|slots| - 1], f) + if HoldsFont(slots[|slots| - 1], f) then 1 else 0
  }

  /** Reference counts are the numbers of holders, and live means counted. */
  ghost predicate FontsCounted(slots: Slots, fonts: seq<FontSlot>) {
    && (forall f :: 0 <= f < |fonts| ==>
          && fonts[f].references == Holders(slots, f)
          && (fonts[f].live <==> fonts[f].references > 0)
          && (fonts[f].live ==> fonts[f].native))
    && (forall i :: 0 <= i < |slots| && slots[i].Some? && slots[i].value.font.Some? ==>
          slots[i].value.font.value < |fonts|)
  }

  ghost predicate OneInstancePerSize(fonts: seq<FontSlot>) {
    forall f, g :: 0 <= f < g < |fonts| && fonts[f].native && fonts[g].native ==> fonts[f].size != fonts[g].size
  }

  ghost predicate SomeSlotHolds(slots: Slots, surface: SurfaceId, node: NodeId) {
    exists i :: 0 <= i < |slots| && Holds(slots[i], surface, node)
  }

  /** Every live event binding names a live slot. */
  ghost predicate BindingsNameSlots(slots: Slots, bindings: Bindings) {
    forall kind, k :: kind in bindings && 0 <= k < |bindings[kind]| && bindings[kind][k].Some? ==>
      SomeSlotHolds(slots, bindings[kind][k].value.surface, bindings[kind][k].value.node)
  }

  /** Live slots own distinct valid widgets of their surface. */
  ghost predicate SlotsOwnWidgets(slots: Slots, f: Forest) {
    && (forall i :: 0 <= i < |slots| && slots[i].Some? ==>
          slots[i].value.widget in f.widgets && slots[i].value.widget.surface == slots[i].value.surface)
    && (forall i, j :: 0 <= i < j < |slots| && slots[i].Some? && slots[j].Some? ==>
          slots[i].value.widget != slots[j].value.widget)
  }

  /** Widgets hang below their own surface's root, and their identities are used up. */
  ghost predicate ForestBySurface(f: Forest) {
    forall o :: o in f.widgets ==>
      && o.Host? && o.id < f.clock && f.widgets[o].parent.surface == o.surface
      && (f.widgets[o].parent.Host? ==> f.widgets[o].parent.id < f.clock)
  }

  ghost predicate Tables(s: State) {
    && OneSlotPerNode(s.slots)
    && FontsCounted(s.slots, s.fonts)
    && OneInstancePerSize(s.fonts)
    && BindingsNameSlots(s.slots, s.bindings)
    && SlotsOwnWidgets(s.slots, s.forest)
    && ForestBySurface(s.forest)
  }

  ghost predicate NoSlotOf(slots: Slots, surface: SurfaceId) {
    forall i :: 0 <= i < |slots| && slots[i].Some? ==> slots[i].value.surface != surface
  }

  ghost predicate NoBindingOf(bindings: Bindings, surface: SurfaceId) {
    forall kind, k :: kind in bindings && 0 <= k < |bindings[kind]| && bindings[kind][k].Some? ==>
      bindings[kind][k].value.surface != surface
  }

  /** The slots of other surfaces stay as they are. */
  ghost predicate SameElsewhere(before: Slots, after: Slots, surface: SurfaceId) {
    && |before| == |after|
    && forall i :: 0 <= i < |before| ==>
         && (before[i].Some? && before[i].value.surface != surface ==> after[i] == before[i])
         && (after[i].Some? && after[i].value.surface != surface ==> after[i] == before[i])
  }

  // ----- Counting holders -----

  lemma {:induction false} HoldersUpdate(slots: Slots, i: nat, slot: Option<Slot>, f: nat)
    requires i < |slots|
    ensures Holders(slots[i := slot], f)
         == Holders(slots, f) - (if HoldsFont(slots[i], f) then 1 else 0) + (if HoldsFont(slot, f) then 1 else 0)
  {
    var n := |slots| - 1;
    if i == n {
      assert slots[i := slot][..n] == slots[..n];
    } else {
      assert slots[i := slot][..n] == slots[..n][i := slot];
      HoldersUpdate(slots[..n], i, slot, f);
    }
  }

  lemma {:induction false} HolderCounts(slots: Slots, i: nat, f: nat)
    requires i < |slots| && HoldsFont(slots[i], f)
    ensures Holders(slots, f) >= 1
  {
    HoldersUpdate(slots, i, None, f);
  }

  lemma {:induction false} NoHolders(slots: Slots)
    requires forall i :: 0 <= i < |slots| ==> slots[i].None?
    ensures forall f :: Holders(slots, f) == 0
  {
    forall f: nat ensures Holders(slots, f) == 0 {
      NoHoldersOf(slots, f);
    }
  }

  lemma {:induction false} NoHoldersOf(slots: Slots, f: nat)
    requires forall i :: 0 <= i < |slots| ==> slots[i].None?
    ensures Holders(slots, f) == 0
  {
    if slots != [] {
      NoHoldersOf(slots[..|slots| - 1], f);
    }
  }

  // ----- Fonts -----

  /** Acquiring keeps every count except that of the instance returned, which gains one. */
  lemma AcquireCounts(native: Native, slots: Slots, fonts: seq<FontSlot>, clock: nat, size: int)
    requires FontsCounted(slots, fonts) && OneInstancePerSize(fonts)
    ensures var a := AcquireFont(native, fonts, clock, size);
            && OneInstancePerSize(a.fonts) && clock <= a.clock
            && (a.font.Some? ==> a.fonts[a.font.value].size == size)
            && forall f :: 0 <= f < |fonts| ==>
                 && a.fonts[f].references == Holders(slots, f) + (if a.font == Some(f) then 1 else 0)
                 && (a.fonts[f].live <==> a.fonts[f].references > 0)
                 && (a.fonts[f].live ==> a.fonts[f].native)
  {
  }

  /** Placing a slot that holds the acquired instance in a free place restores the counts. */
  lemma PlaceHolder(slots: Slots, fonts: seq<FontSlot>, i: nat, slot: Slot)
    requires i < |slots| && (slots[i].None? || slots[i].value.font.None?)
    requires slot.font.Some? ==> slot.font.value < |fonts|
    requires forall k :: 0 <= k < |slots| && slots[k].Some? && slots[k].value.font.Some? ==>
               slots[k].value.font.value < |fonts|
    requires forall f :: 0 <= f < |fonts| ==>
               && fonts[f].references == Holders(slots, f) + (if slot.font == Some(f) then 1 else 0)
               && (fonts[f].live <==> fonts[f].references > 0)
               && (fonts[f].live ==> fonts[f].native)
    ensures FontsCounted(slots[i := Some(slot)], fonts)
  {
    forall f | 0 <= f < |fonts| ensures fonts[f].references == Holders(slots[i := Some(slot)], f) {
      HoldersUpdate(slots, i, Some(slot), f);
    }
  }

  /** Clearing a slot and giving its font back. */
  lemma ReleaseKeepsCounts(slots: Slots, fonts: seq<FontSlot>, i: nat)
    requires i < |slots| && FontsCounted(slots, fonts) && OneInstancePerSize(fonts)
    ensures FontsCounted(slots[i := None], ReleaseSlotFont(slots[i], fonts))
    ensures OneInstancePerSize(ReleaseSlotFont(slots[i], fonts))
  {
    var after := ReleaseSlotFont(slots[i], fonts);
    if slots[i].Some? && slots[i].value.font.Some? {
      HolderCounts(slots, i, slots[i].value.font.value);
    }
    forall f | 0 <= f < |fonts| ensures after[f].references == Holders(slots[i := None], f) {
      HoldersUpdate(slots, i, None, f);
    }
  }

  lemma {:induction false} ClearKeepsCounts(slots: Slots, fonts: seq<FontSlot>, removed: seq<bool>, i: nat)
    requires i <= |slots| == |removed| && FontsCounted(slots, fonts) && OneInstancePerSize(fonts)
    ensures var r := ClearFrom(slots, fonts, removed, i);
            FontsCounted(r.0, r.1) && OneInstancePerSize(r.1)
    decreases |slots| - i
  {
    if i < |slots| {
      if removed[i] {
        ReleaseKeepsCounts(slots, fonts, i);
        ClearKeepsCounts(slots[i := None], ReleaseSlotFont(slots[i], fonts), removed, i + 1);
      } else {
        ClearKeepsCounts(slots, fonts, removed, i + 1);
      }
    }
  }

  // ----- Deleting -----

  /** A walk up stays on its surface. */
  lemma {:induction false} ReachesSameSurface(f: Forest, o: Obj, a: Obj, steps: nat)
    requires ForestBySurface(f) && Reaches(f, o, a, steps)
    ensures o.surface == a.surface
    decreases steps
  {
    if o != a {
      ReachesSameSurface(f, f.widgets[o].parent, a, steps - 1);
    }
  }

  /** What destroying a slot's subtree does to the slots: its own slot goes, and nothing outside
      its surface changes. */
  lemma DestroySlotSlots(s: State, i: nat)
    requires Tables(s) && i < |s.slots| && s.slots[i].Some?
    ensures var r := DestroySlot(s, i);
            && r.slots[i].None?
            && OnlyLoses(s.slots, r.slots, s.slots[i].value.surface)
  {
    var a := s.slots[i].value.widget;
    var removed := RemovedSlots(s.forest, s.slots, a);
    assert removed[i];
    forall k | 0 <= k < |s.slots| && removed[k]
      ensures s.slots[k].value.surface == s.slots[i].value.surface
    {
      ReachesSameSurface(s.forest, s.slots[k].value.widget, a, |s.forest.widgets|);
    }
  }

  lemma ClearedBindings(slots: Slots, after: Slots, removed: seq<bool>, bindings: Bindings)
    requires |slots| == |removed| == |after| && BindingsNameSlots(slots, bindings)
    requires forall k :: 0 <= k < |slots| ==> after[k] == if removed[k] then None else slots[k]
    ensures BindingsNameSlots(after, map kind | kind in bindings :: ClearBindings(slots, removed, bindings[kind]))
  {
    forall kind, k | kind in bindings && 0 <= k < |bindings[kind]|
                     && ClearBindings(slots, removed, bindings[kind])[k].Some?
      ensures SomeSlotHolds(after, bindings[kind][k].value.surface, bindings[kind][k].value.node)
    {
      var b := bindings[kind][k].value;
      var i :| 0 <= i < |slots| && Holds(slots[i], b.surface, b.node);
      assert Holds(after[i], b.surface, b.node);
    }
  }

  lemma DeletedWidgets(s: State, i: nat)
    requires Tables(s) && i < |s.slots| && s.slots[i].Some?
    ensures SlotsOwnWidgets(DestroySlot(s, i).slots, DestroySlot(s, i).forest)
    ensures ForestBySurface(DestroySlot(s, i).forest)
  {
  }

  /** Destroying a slot keeps the tables. */
  lemma DestroySlotKeeps(s: State, i: nat)
    requires Tables(s) && i < |s.slots|
    ensures Tables(DestroySlot(s, i))
  {
    if s.slots[i].Some? {
      var removed := RemovedSlots(s.forest, s.slots, s.slots[i].value.widget);
      var r := DestroySlot(s, i);
      ClearKeepsCounts(s.slots, s.fonts, removed, 0);
      ClearedBindings(s.slots, r.slots, removed, s.bindings);
      DeletedWidgets(s, i);
    }
  }

  /** Slots only disappear, and only slots of the surface. */
  ghost predicate OnlyLoses(before: Slots, after: Slots, surface: SurfaceId) {
    && |before| == |after|
    && forall k :: 0 <= k < |before| ==>
         after[k] == before[k] || (after[k].None? && before[k].value.surface == surface)
  }

  ghost predicate NoSlotBelow(slots: Slots, n: nat, surface: SurfaceId) {
    n <= |slots| && forall k :: 0 <= k < n && slots[k].Some? ==> slots[k].value.surface != surface
  }

  lemma LosesTwice(a: Slots, b: Slots, c: Slots, surface: SurfaceId)
    requires OnlyLoses(a, b, surface) && OnlyLoses(b, c, surface)
    ensures OnlyLoses(a, c, surface)
  {
  }

  lemma OneLower(next: Slots, after: Slots, n: nat, surface: SurfaceId)
    requires 0 < n <= |next| && OnlyLoses(next, after, surface) && NoSlotBelow(after, n - 1, surface)
    requires next[n - 1].Some? ==> next[n - 1].value.surface != surface
    ensures NoSlotBelow(after, n, surface)
  {
  }

  lemma {:induction false} DestroySurfaceBelowKeeps(s: State, surface: SurfaceId, n: nat)
    requires Tables(s) && n <= |s.slots|
    ensures var r := DestroySurfaceBelow(s, surface, n);
            Tables(r) && OnlyLoses(s.slots, r.slots, surface) && NoSlotBelow(r.slots, n, surface)
    decreases n
  {
    if n > 0 {
      if s.slots[n - 1].Some? && s.slots[n - 1].value.surface == surface {
        DestroySlotKeeps(s, n - 1);
        DestroySlotSlots(s, n - 1);
        DestroyBelowStep(s, DestroySlot(s, n - 1), surface, n);
      } else {
        DestroyBelowStep(s, s, surface, n);
      }
    }
  }

  lemma {:induction false} DestroyBelowStep(s: State, next: State, surface: SurfaceId, n: nat)
    requires 0 < n <= |s.slots| && Tables(next) && OnlyLoses(s.slots, next.slots, surface)
    requires next.slots[n - 1].Some? ==> next.slots[n - 1].value.surface != surface
    ensures var r := DestroySurfaceBelow(next, surface, n - 1);
            Tables(r) && OnlyLoses(s.slots, r.slots, surface) && NoSlotBelow(r.slots, n, surface)
    decreases n, 0
  {
    DestroySurfaceBelowKeeps(next, surface, n - 1);
    OneLower(next.slots, DestroySurfaceBelow(next, surface, n - 1).slots, n, surface);
    LosesTwice(s.slots, next.slots, DestroySurfaceBelow(next, surface, n - 1).slots, surface);
  }

  /** Clearing a surface leaves none of its slots, bindings or font references, and every slot of
      the others. */
  lemma DestroySurfaceClears(s: State, surface: SurfaceId)
    requires Tables(s)
    ensures var r := DestroySurface(s, surface);
            && Tables(r) && NoSlotOf(r.slots, surface) && NoBindingOf(r.bindings, surface)
            && SameElsewhere(s.slots, r.slots, surface)
  {
    DestroySurfaceBelowKeeps(s, surface, |s.slots|);
    var r := DestroySurface(s, surface);
    forall kind, k | kind in r.bindings && 0 <= k < |r.bindings[kind]| && r.bindings[kind][k].Some?
      ensures r.bindings[kind][k].value.surface != surface
    {
      assert SomeSlotHolds(r.slots, r.bindings[kind][k].value.surface, r.bindings[kind][k].value.node);
    }
  }

  // ----- Committing -----

  /** A slot changes in place, keeping whose it is. */
  lemma ReplacedSlotKeepsNames(slots: Slots, i: nat, slot: Slot, bindings: Bindings)
    requires i < |slots| && slots[i].Some?
    requires slot.surface == slots[i].value.surface && slot.node == slots[i].value.node
    requires OneSlotPerNode(slots) && BindingsNameSlots(slots, bindings)
    ensures OneSlotPerNode(slots[i := Some(slot)]) && BindingsNameSlots(slots[i := Some(slot)], bindings)
  {
    var after := slots[i := Some(slot)];
    forall kind, k | kind in bindings && 0 <= k < |bindings[kind]| && bindings[kind][k].Some?
      ensures SomeSlotHolds(after, bindings[kind][k].value.surface, bindings[kind][k].value.node)
    {
      var b := bindings[kind][k].value;
      var j :| 0 <= j < |slots| && Holds(slots[j], b.surface, b.node);
      assert Holds(after[j], b.surface, b.node);
    }
  }

  lemma AddedSlotKeepsNames(slots: Slots, i: nat, slot: Slot, bindings: Bindings)
    requires i < |slots| && slots[i].None?
    requires OneSlotPerNode(slots) && BindingsNameSlots(slots, bindings)
    requires forall k :: 0 <= k < |slots| ==> !Holds(slots[k], slot.surface, slot.node)
    ensures OneSlotPerNode(slots[i := Some(slot)]) && BindingsNameSlots(slots[i := Some(slot)], bindings)
  {
    var after := slots[i := Some(slot)];
    forall j | 0 <= j < |slots| && after[j].Some? && j != i
      ensures !(after[j].value.surface == slot.surface && after[j].value.node == slot.node)
    {
      assert !Holds(slots[j], slot.surface, slot.node);
    }
    forall kind, k | kind in bindings && 0 <= k < |bindings[kind]| && bindings[kind][k].Some?
      ensures SomeSlotHolds(after, bindings[kind][k].value.surface, bindings[kind][k].value.node)
    {
      var b := bindings[kind][k].value;
      var j :| 0 <= j < |slots| && Holds(slots[j], b.surface, b.node);
      assert Holds(after[j], b.surface, b.node);
    }
  }

  /** A fresh widget under its root, owned by the new slot. */
  lemma AddedWidget(slots: Slots, f: Forest, i: nat, slot: Slot)
    requires SlotsOwnWidgets(slots, f) && ForestBySurface(f) && i < |slots| && slots[i].None?
    requires slot.widget == Host(slot.surface, f.clock)
    ensures var g := AddWidget(Tick(f), slot.widget, Root(slot.surface));
            SlotsOwnWidgets(slots[i := Some(slot)], g) && ForestBySurface(g)
  {
  }

  /** A slot for a new widget, no font yet. */
  lemma PlacedKeeps(s: State, i: nat, slot: Slot)
    requires Tables(s) && i < |s.slots| && s.slots[i].None? && slot.font.None?
    requires FindSlot(s.slots, slot.surface, slot.node).None?
    requires slot.widget == Host(slot.surface, s.forest.clock)
    ensures Tables(PlaceSlot(s, i, slot)) && SameElsewhere(s.slots, PlaceSlot(s, i, slot).slots, slot.surface)
  {
    AddedSlotKeepsNames(s.slots, i, slot, s.bindings);
    AddedWidget(s.slots, s.forest, i, slot);
    PlaceHolder(s.slots, s.fonts, i, slot);
  }

  lemma TickKeeps(s: State)
    requires Tables(s)
    ensures Tables(TickState(s)) && TickState(s).slots == s.slots
  {
  }

  /** The acquired instance goes to a slot that holds none, or replaces the one it holds. */
  lemma GivenFontKeeps(native: Native, s: State, i: nat, size: int)
    requires Tables(s) && i < |s.slots| && s.slots[i].Some?
    ensures var step := GiveFont(native, s, i, size);
            Tables(step.s) && SameElsewhere(s.slots, step.s.slots, s.slots[i].value.surface)
  {
    var a := AcquireFont(native, s.fonts, s.forest.clock, size);
    AcquireCounts(native, s.slots, s.fonts, s.forest.clock, size);
    if a.font.Some? {
      ReplacedSlotKeepsNames(s.slots, i, s.slots[i].value.(font := a.font), s.bindings);
      SwappedFont(s.slots, a.fonts, i, s.slots[i].value, a.font.value);
    }
  }

  lemma SameElsewhereTwice(a: Slots, b: Slots, c: Slots, surface: SurfaceId)
    requires SameElsewhere(a, b, surface) && SameElsewhere(b, c, surface)
    ensures SameElsewhere(a, c, surface)
  {
  }

  lemma CreateKeeps(
    native: Native, s: State, surface: SurfaceId, node: NodeId, kind: HostType, attached: bool)
    requires Tables(s) && FindSlot(s.slots, surface, node).None?
    ensures var step := CommitCreate(native, s, surface, node, kind, attached);
            Tables(step.s) && SameElsewhere(s.slots, step.s.slots, surface)
  {
    var free := FreeFrom(s.slots, 0);
    TickKeeps(s);
    if free.Some? && native.create(s.forest.clock) {
      var slot := Slot(surface, node, kind, Host(surface, s.forest.clock), attached, None);
      PlacedKeeps(s, free.value, slot);
      var placed := PlaceSlot(s, free.value, slot);
      TickKeeps(placed);
      var captioned := if kind.Button? then TickState(placed) else placed;
      GivenFontKeeps(native, captioned, free.value, DEFAULT_FONT_SIZE);
      SameElsewhereTwice(s.slots, captioned.slots,
                         GiveFont(native, captioned, free.value, DEFAULT_FONT_SIZE).s.slots, surface);
    }
  }

  lemma FontSizeKeeps(native: Native, s: State, i: nat, value: Value)
    requires Tables(s) && i < |s.slots| && s.slots[i].Some?
    ensures var step := CommitFontSize(native, s, i, value);
            Tables(step.s) && SameElsewhere(s.slots, step.s.slots, s.slots[i].value.surface)
  {
    if value.Integer? {
      GivenFontKeeps(native, s, i, value.integer);
    }
  }

  /** The new instance is counted before the old one is given back. */
  lemma SwappedFont(slots: Slots, fonts: seq<FontSlot>, i: nat, slot: Slot, acquired: nat)
    requires i < |slots| && slots[i] == Some(slot) && acquired < |fonts| && OneInstancePerSize(fonts)
    requires forall k :: 0 <= k < |slots| && slots[k].Some? && slots[k].value.font.Some? ==>
               slots[k].value.font.value < |fonts|
    requires forall f :: 0 <= f < |fonts| ==>
               && fonts[f].references == Holders(slots, f) + (if f == acquired then 1 else 0)
               && (fonts[f].live <==> fonts[f].references > 0)
               && (fonts[f].live ==> fonts[f].native)
    ensures var after := if slot.font.Some? then ReleaseFont(fonts, slot.font.value) else fonts;
            && FontsCounted(slots[i := Some(slot.(font := Some(acquired)))], after)
            && OneInstancePerSize(after)
  {
    if slot.font.Some? {
      HolderCounts(slots, i, slot.font.value);
    }
    var after := if slot.font.Some? then ReleaseFont(fonts, slot.font.value) else fonts;
    var next := slots[i := Some(slot.(font := Some(acquired)))];
    forall f | 0 <= f < |fonts| ensures after[f].references == Holders(next, f) {
      HoldersUpdate(slots, i, Some(slot.(font := Some(acquired))), f);
    }
  }

  lemma PropKeeps(native: Native, s: State, surface: SurfaceId, node: NodeId, name: string, value: Value)
    requires Tables(s)
    ensures var step := CommitProp(native, s, surface, node, name, value);
            Tables(step.s) && SameElsewhere(s.slots, step.s.slots, surface)
  {
    var target := FindSlot(s.slots, surface, node);
    if target.Some? && name == "fontSize" {
      FontSizeKeeps(native, s, target.value, value);
    }
  }

  /** Moving a widget under another of its surface. */
  lemma ReparentKeeps(slots: Slots, f: Forest, o: Obj, parent: Obj, index: nat)
    requires SlotsOwnWidgets(slots, f) && ForestBySurface(f) && o in f.widgets && parent in f.widgets
    requires parent.surface == o.surface
    ensures SlotsOwnWidgets(slots, Reparent(f, o, parent, index)) && ForestBySurface(Reparent(f, o, parent, index))
  {
  }

  /** Attaching changes nothing a table counts. */
  lemma AttachedKeeps(slots: Slots, fonts: seq<FontSlot>, f: Forest, bindings: Bindings, i: nat)
    requires i < |slots| && slots[i].Some?
    requires OneSlotPerNode(slots) && FontsCounted(slots, fonts) && BindingsNameSlots(slots, bindings)
    requires SlotsOwnWidgets(slots, f)
    ensures var after := slots[i := Some(slots[i].value.(attached := true))];
            && OneSlotPerNode(after) && FontsCounted(after, fonts) && BindingsNameSlots(after, bindings)
            && SlotsOwnWidgets(after, f)
  {
    var slot := slots[i].value.(attached := true);
    ReplacedSlotKeepsNames(slots, i, slot, bindings);
    forall g | 0 <= g < |fonts| ensures Holders(slots[i := Some(slot)], g) == Holders(slots, g) {
      HoldersUpdate(slots, i, Some(slot), g);
    }
  }

  lemma InsertKeeps(s: State, surface: SurfaceId, node: NodeId, parent: NodeId, index: nat)
    requires Tables(s)
    ensures var step := CommitInsert(s, surface, node, parent, index);
            Tables(step.s) && SameElsewhere(s.slots, step.s.slots, surface)
  {
    var step := CommitInsert(s, surface, node, parent, index);
    if step.ok {
      var child, target := FindSlot(s.slots, surface, node).value, FindSlot(s.slots, surface, parent).value;
      ReparentKeeps(s.slots, s.forest, s.slots[child].value.widget, s.slots[target].value.widget, index);
      AttachedKeeps(s.slots, s.fonts, step.s.forest, s.bindings, child);
    }
  }

  lemma MoveKeeps(s: State, surface: SurfaceId, node: NodeId, parent: NodeId, index: nat)
    requires Tables(s)
    ensures var step := CommitMove(s, surface, node, parent, index);
            Tables(step.s) && SameElsewhere(s.slots, step.s.slots, surface)
  {
    var step := CommitMove(s, surface, node, parent, index);
    if step.ok {
      var child, target := FindSlot(s.slots, surface, node).value, FindSlot(s.slots, surface, parent).value;
      ReparentKeeps(s.slots, s.forest, s.slots[child].value.widget, s.slots[target].value.widget, index);
    }
  }

  /** Each commit step keeps the tables, also when it fails; only a create needs its node to be
      new. */
  lemma CommitKeeps(native: Native, s: State, surface: SurfaceId, first: bool, op: Operation)
    requires Tables(s) && (op.CreateHost? ==> FindSlot(s.slots, surface, op.node).None?)
    ensures var step := Commit(native, s, surface, first, op);
            Tables(step.s) && SameElsewhere(s.slots, step.s.slots, surface)
  {
    match op
    case CreateHost(node, kind) => CreateKeeps(native, s, surface, node, kind, first);
    case SetHostProp(node, property, value) => PropKeeps(native, s, surface, node, property.chars, value);
    case SetHostLayout(node, rect) =>
    case InsertHostChild(node, parent, index) => InsertKeeps(s, surface, node, parent, index);
    case MoveHost(node, parent, index) => MoveKeeps(s, surface, node, parent, index);
    case RemoveHost(node) =>
      var target := FindSlot(s.slots, surface, node);
      if target.Some? {
        DestroySlotKeeps(s, target.value);
        DestroySlotSlots(s, target.value);
      }
  }

  // ----- Whole transactions -----

  /** The surface has slots only for nodes it had at the start or created since. */
  ghost predicate NodesFrom(start: Slots, slots: Slots, surface: SurfaceId, operations: seq<Operation>, n: nat)
    requires n <= |operations|
  {
    forall i :: 0 <= i < |slots| && slots[i].Some? && slots[i].value.surface == surface ==>
      SomeSlotHolds(start, surface, slots[i].value.node) || CreatedBefore(operations, n, slots[i].value.node)
  }

  /** Slot `i` afterwards belongs to the node it belonged to, or to the node created. */
  ghost predicate SameNodeOrCreated(before: Slots, after: Slots, op: Operation, i: nat) {
    && |before| == |after|
    && (i < |after| && after[i].Some? ==>
          || (before[i].Some? && before[i].value.surface == after[i].value.surface
              && before[i].value.node == after[i].value.node)
          || (op.CreateHost? && op.node == after[i].value.node))
  }

  lemma CreateNodes(native: Native, s: State, surface: SurfaceId, first: bool, op: Operation, i: nat)
    requires op.CreateHost?
    ensures SameNodeOrCreated(s.slots, Commit(native, s, surface, first, op).s.slots, op, i)
  {
  }

  /** A commit step adds no slot but for the node it creates. */
  lemma CommitNodes(native: Native, s: State, surface: SurfaceId, first: bool, op: Operation, i: nat)
    requires Tables(s) && (op.CreateHost? ==> FindSlot(s.slots, surface, op.node).None?)
    ensures SameNodeOrCreated(s.slots, Commit(native, s, surface, first, op).s.slots, op, i)
  {
    if op.CreateHost? {
      CreateNodes(native, s, surface, first, op, i);
    } else if op.RemoveHost? && FindSlot(s.slots, surface, op.node).Some? {
      DestroySlotSlots(s, FindSlot(s.slots, surface, op.node).value);
    }
  }

  /** No create of a transaction that passed preflight names a node that exists or was created
      before. */
  ghost predicate CreatesNew(start: Slots, surface: SurfaceId, operations: seq<Operation>) {
    forall i :: 0 <= i < |operations| && operations[i].CreateHost? ==>
      && !SomeSlotHolds(start, surface, operations[i].node)
      && !CreatedBefore(operations, i, operations[i].node)
  }

  /** What holds after `n` operations, however far they got. */
  ghost predicate Committed(start: Slots, s: State, surface: SurfaceId, operations: seq<Operation>, n: nat)
    requires n <= |operations|
  {
    Tables(s) && SameElsewhere(start, s.slots, surface) && NodesFrom(start, s.slots, surface, operations, n)
  }

  /** Every step, whether or not it succeeds, takes what holds after `k` operations to `k + 1`. */
  ghost predicate StepsCommit(step: Stepper, start: Slots, surface: SurfaceId, head: bool, operations: seq<Operation>) {
    forall s, k :: 0 <= k < |operations| && Committed(start, s, surface, operations, k) ==>
      && Committed(start, s, surface, operations, k + 1)
      && Committed(start, step(s, head && k == 0, operations[k]).s, surface, operations, k + 1)
  }

  lemma {:induction false} RunCommits(
    step: Stepper, s: State, surface: SurfaceId, head: bool, operations: seq<Operation>, n: nat)
    requires n <= |operations| && Committed(s.slots, s, surface, operations, 0)
    requires StepsCommit(step, s.slots, surface, head, operations)
    ensures Committed(s.slots, RunSteps(step, s, head, operations, n).s, surface, operations, n)
  {
    if n > 0 {
      RunCommits(step, s, surface, head, operations, n - 1);
    }
  }

  lemma CommitterCommits(
    native: Native, start: Slots, surface: SurfaceId, head: bool, operations: seq<Operation>)
    requires CreatesNew(start, surface, operations)
    ensures StepsCommit(Committer(native, surface), start, surface, head, operations)
  {
    forall s, k | 0 <= k < |operations| && Committed(start, s, surface, operations, k)
      ensures && Committed(start, s, surface, operations, k + 1)
              && Committed(start, Committer(native, surface)(s, head && k == 0, operations[k]).s,
                           surface, operations, k + 1)
    {
      CommitNext(native, start, s, surface, head && k == 0, operations, k);
    }
  }

  lemma CommitUpToKeeps(
    native: Native, s: State, surface: SurfaceId, head: bool, operations: seq<Operation>, n: nat)
    requires Tables(s) && n <= |operations| && CreatesNew(s.slots, surface, operations)
    ensures Committed(s.slots, CommitUpTo(native, s, surface, head, operations, n).s, surface, operations, n)
  {
    StartNodes(s.slots, surface, operations);
    CommitterCommits(native, s.slots, surface, head, operations);
    RunCommits(Committer(native, surface), s, surface, head, operations, n);
  }

  lemma CommitNext(
    native: Native, start: Slots, s: State, surface: SurfaceId, first: bool, operations: seq<Operation>, n: nat)
    requires n < |operations| && CreatesNew(start, surface, operations)
    requires Committed(start, s, surface, operations, n)
    ensures Committed(start, s, surface, operations, n + 1)
    ensures Committed(start, Commit(native, s, surface, first, operations[n]).s, surface, operations, n + 1)
  {
    WidenNodes(start, s.slots, surface, operations, n);
    CommitOneMore(native, start, s, surface, first, operations, n);
  }

  lemma StartNodes(slots: Slots, surface: SurfaceId, operations: seq<Operation>)
    ensures NodesFrom(slots, slots, surface, operations, 0)
  {
    forall i | 0 <= i < |slots| && slots[i].Some? && slots[i].value.surface == surface
      ensures SomeSlotHolds(slots, surface, slots[i].value.node)
    {
      assert Holds(slots[i], surface, slots[i].value.node);
    }
  }

  lemma WidenNodes(start: Slots, slots: Slots, surface: SurfaceId, operations: seq<Operation>, n: nat)
    requires n < |operations| && NodesFrom(start, slots, surface, operations, n)
    ensures NodesFrom(start, slots, surface, operations, n + 1)
  {
    forall node: NodeId | CreatedBefore(operations, n, node) ensures CreatedBefore(operations, n + 1, node) {
      var k :| 0 <= k < n && operations[k].CreateHost? && operations[k].node == node;
    }
  }

  lemma CommitOneMore(
    native: Native, start: Slots, s: State, surface: SurfaceId, first: bool, operations: seq<Operation>, n: nat)
    requires n < |operations| && CreatesNew(start, surface, operations)
    requires Committed(start, s, surface, operations, n)
    requires NodesFrom(start, s.slots, surface, operations, n + 1)
    ensures Committed(start, Commit(native, s, surface, first, operations[n]).s, surface, operations, n + 1)
  {
    var op := operations[n];
    if op.CreateHost? {
      NewNodeHasNoSlot(start, s.slots, surface, operations, n);
    }
    CommitKeeps(native, s, surface, first, op);
    var after := Commit(native, s, surface, first, op).s.slots;
    SameElsewhereTwice(start, s.slots, after, surface);
    forall i | 0 <= i < |after| && after[i].Some? && after[i].value.surface == surface
      ensures || SomeSlotHolds(start, surface, after[i].value.node)
              || CreatedBefore(operations, n + 1, after[i].value.node)
    {
      CommitNodes(native, s, surface, first, op, i);
    }
  }

  lemma NewNodeHasNoSlot(start: Slots, slots: Slots, surface: SurfaceId, operations: seq<Operation>, n: nat)
    requires n < |operations| && operations[n].CreateHost? && CreatesNew(start, surface, operations)
    requires NodesFrom(start, slots, surface, operations, n)
    ensures FindSlot(slots, surface, operations[n].node).None?
  {
  }

  lemma PreflightCreatesNew(maxOperations: nat, s: State, start: State, t: Transaction)
    requires Preflight(maxOperations, s.slots, s.forest, t)
    requires if t.full then NoSlotOf(start.slots, t.surface) else start == s
    ensures CreatesNew(start.slots, t.surface, t.operations)
  {
    forall i | 0 <= i < |t.operations| && t.operations[i].CreateHost?
      ensures !SomeSlotHolds(start.slots, t.surface, t.operations[i].node)
      ensures !CreatedBefore(t.operations, i, t.operations[i].node)
    {
      assert OperationOk(s.slots, s.forest, t, i);
    }
  }

  /** Between transactions the tables agree, whatever the transaction is and whether it succeeds;
      other surfaces keep their slots. */
  lemma ExecuteKeepsTables(native: Native, maxOperations: nat, rootOk: bool, s: State, t: Transaction)
    requires Tables(s)
    ensures var step := Execute(native, maxOperations, rootOk, s, t);
            Tables(step.s) && SameElsewhere(s.slots, step.s.slots, t.surface)
  {
    DestroySurfaceClears(s, t.surface);
    if rootOk && Preflight(maxOperations, s.slots, s.forest, t) {
      var start := if t.full then DestroySurface(s, t.surface) else s;
      PreflightCreatesNew(maxOperations, s, start, t);
      CommitUpToKeeps(native, start, t.surface, t.full, t.operations, |t.operations|);
      var done := CommitUpTo(native, start, t.surface, t.full, t.operations, |t.operations|);
      DestroySurfaceClears(done.s, t.surface);
    }
  }

  /** A transaction that fails after preflight, or any failed batch of several, leaves no slot and
      no binding of its surface; every font reference left is some other surface's. */
  lemma FailureLeavesNothing(native: Native, maxOperations: nat, rootOk: bool, s: State, t: Transaction)
    requires Tables(s) && !Execute(native, maxOperations, rootOk, s, t).ok
    requires t.batchCount > 1 || (rootOk && Preflight(maxOperations, s.slots, s.forest, t))
    ensures var after := Execute(native, maxOperations, rootOk, s, t).s;
            && NoSlotOf(after.slots, t.surface) && NoBindingOf(after.bindings, t.surface)
            && forall f :: 0 <= f < |after.fonts| ==> after.fonts[f].references == Holders(after.slots, f)
  {
    DestroySurfaceClears(s, t.surface);
    if rootOk && Preflight(maxOperations, s.slots, s.forest, t) {
      var start := if t.full then DestroySurface(s, t.surface) else s;
      PreflightCreatesNew(maxOperations, s, start, t);
      CommitUpToKeeps(native, start, t.surface, t.full, t.operations, |t.operations|);
      var done := CommitUpTo(native, start, t.surface, t.full, t.operations, |t.operations|);
      DestroySurfaceClears(done.s, t.surface);
    }
  }

  /** A transaction that is no batch of several, and is refused for want of a root or by preflight,
      leaves slots, fonts, objects and bindings as they were. */
  lemma RefusedLeavesAll(native: Native, maxOperations: nat, rootOk: bool, s: State, t: Transaction)
    requires t.batchCount <= 1 && !(rootOk && Preflight(maxOperations, s.slots, s.forest, t))
    ensures var step := Execute(native, maxOperations, rootOk, s, t);
            && !step.ok && step.s.slots == s.slots && step.s.fonts == s.fonts && step.s.forest == s.forest
            && step.s.bindings == s.bindings
  {
  }

  /** An operation of the transaction is about a node that is not there and that no earlier operation
      creates. */
  ghost predicate NamesAbsentNode(s: State, t: Transaction) {
    exists i :: 0 <= i < |t.operations| && !t.operations[i].CreateHost?
                && FindSlot(s.slots, t.surface, t.operations[i].node).None?
                && !CreatedBefore(t.operations, i, t.operations[i].node)
  }

  /** An incremental transaction of one batch about a node that is not there is refused and changes
      nothing. */
  lemma AbsentNodeChangesNothing(native: Native, maxOperations: nat, rootOk: bool, s: State, t: Transaction)
    requires !t.full && t.batchCount <= 1 && NamesAbsentNode(s, t)
    ensures Execute(native, maxOperations, rootOk, s, t) == Step(false, s)
  {
    var i :| 0 <= i < |t.operations| && !t.operations[i].CreateHost?
             && FindSlot(s.slots, t.surface, t.operations[i].node).None?
             && !CreatedBefore(t.operations, i, t.operations[i].node);
    assert !OperationOk(s.slots, s.forest, t, i);
  }

  /** An operation that the mount host never carries out, whatever is mounted: a property it does not know,
      a text that was cut, a font size out of range, or a size below zero. */
  predicate Improper(op: Operation) {
    match op
    case SetHostProp(_, property, value) =>
      || property.truncated
      || property.chars !in ["text", "enabled", "value", "checked", "min", "max", "step", "mode", "range", "selected",
                             "items", "src", "backgroundColor", "color", "borderRadius", "textAlign", "fontSize"]
      || (value.Words? && value.text.truncated)
      || (property.chars == "fontSize" && !(value.Integer? && 1 <= value.integer <= 256))
    case SetHostLayout(_, rect) => rect.width < 0 || rect.height < 0
    case _ => false
  }

  /** What a transaction that succeeds was like: under a root, with operations but not too many, a source
      that is there and whole, its place among its batches said right; a full mount creates something,
      neither moves nor removes, and is no later batch; nothing is improper; and each node an operation is
      about is there or created before. */
  lemma SucceededWas(native: Native, maxOperations: nat, rootOk: bool, s: State, t: Transaction)
    requires Execute(native, maxOperations, rootOk, s, t).ok
    ensures rootOk && 0 < |t.operations| <= maxOperations
    ensures 0 < |t.source.chars| <= MAX_PROPERTY_TEXT && !t.source.truncated
    ensures t.batchIndex < t.batchCount && (t.isFinal <==> t.batchIndex == t.batchCount - 1)
    ensures t.full ==>
              && t.batchIndex == 0
              && (forall i :: 0 <= i < |t.operations| ==> !t.operations[i].MoveHost? && !t.operations[i].RemoveHost?)
              && (exists i :: 0 <= i < |t.operations| && t.operations[i].CreateHost?)
    ensures forall i :: 0 <= i < |t.operations| ==> !Improper(t.operations[i])
    ensures forall i :: 0 <= i < |t.operations| && !t.operations[i].CreateHost? ==> NodeThere(s, t, i)
  {
    forall i | 0 <= i < |t.operations|
      ensures !Improper(t.operations[i]) && (t.operations[i].CreateHost? || NodeThere(s, t, i))
    {
      assert OperationOk(s.slots, s.forest, t, i);
      ProperOperation(s, t, i);
    }
  }

  /** The node of the operation is there or created before. */
  ghost predicate NodeThere(s: State, t: Transaction, i: nat)
    requires i < |t.operations|
  {
    || (!t.full && FindSlot(s.slots, t.surface, t.operations[i].node).Some?)
    || CreatedBefore(t.operations, i, t.operations[i].node)
    || (t.operations[i].InsertHostChild? && t.batchIndex > 0)
  }

  lemma ProperOperation(s: State, t: Transaction, i: nat)
    requires i < |t.operations| && OperationOk(s.slots, s.forest, t, i)
    requires t.full ==> !t.operations[i].MoveHost? && !t.operations[i].RemoveHost?
    ensures !Improper(t.operations[i]) && (t.operations[i].CreateHost? || NodeThere(s, t, i))
  {
  }
}
