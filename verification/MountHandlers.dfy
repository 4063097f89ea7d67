/** Event handlers of mounted nodes: how one is installed, and that no node has two of a kind. */
module MountHandlers {
  import opened Wrappers
  import opened MountModel
  import opened MountTables

  const MAX_BINDINGS := 512

  function NoBindings(): Bindings {
    var none := seq(MAX_BINDINGS, i => None);
    map[OnClick := none, OnInput := none, OnSwitch := none, OnSlider := none, OnPicker := none, OnTabs := none,
        OnScroll := none]
  }

  predicate HandlerFits(handler: HandlerKind, kind: HostType) {
    match handler
    case OnClick => true
    case OnInput => kind.Input?
    case OnSwitch => kind.Switch?
    case OnSlider => kind.Slider?
    case OnPicker => kind.Picker?
    case OnTabs => kind.Tabs?
    case OnScroll => kind.Scroll? || kind.List?
  }

  /** The place of the node's live binding, from `i` on. */
  function BindingOf(bindings: seq<Option<Binding>>, surface: SurfaceId, node: NodeId, i: nat): (r: Option<nat>)
    requires i <= |bindings|
    ensures r.Some? ==> i <= r.value < |bindings| && bindings[r.value].Some?
                        && bindings[r.value].value.surface == surface && bindings[r.value].value.node == node
    ensures r.None? ==> forall k :: i <= k < |bindings| && bindings[k].Some? ==>
                          !(bindings[k].value.surface == surface && bindings[k].value.node == node)
    decreases |bindings| - i
  {
    if i == |bindings| then None
    else if bindings[i].Some? && bindings[i].value.surface == surface && bindings[i].value.node == node then Some(i)
    else BindingOf(bindings, surface, node, i + 1)
  }

  function FreeBinding(bindings: seq<Option<Binding>>, i: nat): (r: Option<nat>)
    requires i <= |bindings|
    ensures r.Some? ==> i <= r.value < |bindings| && bindings[r.value].None?
    decreases |bindings| - i
  {
    if i == |bindings| then None
    else if bindings[i].None? then Some(i)
    else FreeBinding(bindings, i + 1)
  }

  /** The bindings of one kind with the node's handler set, or nothing if they are all taken. */
  function Bound(bindings: seq<Option<Binding>>, binding: Binding): Option<seq<Option<Binding>>> {
    var known := BindingOf(bindings, binding.surface, binding.node, 0);
    var free := FreeBinding(bindings, 0);
    if known.Some? then Some(bindings[known.value := Some(binding)])
    else if free.Some? then Some(bindings[free.value := Some(binding)])
    else None
  }

  /** Installing a handler on a node: it must exist and be of the handler's type. */
  function Install(s: State, handler: HandlerKind, binding: Binding): Step {
    var slot := FindSlot(s.slots, binding.surface, binding.node);
    if slot.None? || handler !in s.bindings || !HandlerFits(handler, s.slots[slot.value].value.kind) then Step(false, s)
    else
      var bound := Bound(s.bindings[handler], binding);
      if bound.None? then Step(false, s) else Step(true, s.(bindings := s.bindings[handler := bound.value]))
  }

  /** One live binding per node and handler kind. */
  ghost predicate OneBindingPerNode(bindings: Bindings) {
    forall kind, j, k ::
      (kind in bindings && 0 <= j < k < |bindings[kind]| && bindings[kind][j].Some? && bindings[kind][k].Some?) ==>
        !(bindings[kind][j].value.surface == bindings[kind][k].value.surface
          && bindings[kind][j].value.node == bindings[kind][k].value.node)
  }

  /** A live binding more of a node that has a slot. */
  lemma BoundNamesSlots(slots: Slots, bindings: Bindings, handler: HandlerKind, k: nat, binding: Binding)
    requires BindingsNameSlots(slots, bindings) && handler in bindings && k < |bindings[handler]|
    requires FindSlot(slots, binding.surface, binding.node).Some?
    ensures BindingsNameSlots(slots, bindings[handler := bindings[handler][k := Some(binding)]])
  {
    var slot := FindSlot(slots, binding.surface, binding.node).value;
    assert Holds(slots[slot], binding.surface, binding.node);
    assert SomeSlotHolds(slots, binding.surface, binding.node);
  }

  /** It takes the place of the node's live binding, or a free one if there is none. */
  lemma BoundIsOnly(bindings: Bindings, handler: HandlerKind, k: nat, binding: Binding)
    requires OneBindingPerNode(bindings) && handler in bindings && k < |bindings[handler]|
    requires var known := BindingOf(bindings[handler], binding.surface, binding.node, 0);
             if known.Some? then k == known.value else bindings[handler][k].None?
    ensures OneBindingPerNode(bindings[handler := bindings[handler][k := Some(binding)]])
  {
  }

  /** Installing keeps the tables, and a node never has two live handlers of a kind. */
  lemma InstallKeeps(s: State, handler: HandlerKind, binding: Binding)
    requires Tables(s) && OneBindingPerNode(s.bindings)
    ensures Tables(Install(s, handler, binding).s) && OneBindingPerNode(Install(s, handler, binding).s.bindings)
  {
    if Install(s, handler, binding).ok {
      var known := BindingOf(s.bindings[handler], binding.surface, binding.node, 0);
      var k := if known.Some? then known.value else FreeBinding(s.bindings[handler], 0).value;
      BoundNamesSlots(s.slots, s.bindings, handler, k, binding);
      BoundIsOnly(s.bindings, handler, k, binding);
    }
  }

  /** The handler takes place `k` among those of its kind, the node's own if it has one. */
  predicate TakesPlace(s: State, r: State, handler: HandlerKind, binding: Binding, k: nat) {
    && handler in s.bindings && k < |s.bindings[handler]|
    && r == s.(bindings := s.bindings[handler := s.bindings[handler][k := Some(binding)]])
    && (s.bindings[handler][k].Some? ==>
          s.bindings[handler][k].value.surface == binding.surface && s.bindings[handler][k].value.node == binding.node)
  }

  /** A node of the handler's kind has a slot. */
  ghost predicate Bindable(s: State, handler: HandlerKind, binding: Binding) {
    FindSlot(s.slots, binding.surface, binding.node).Some?
    && var kind := s.slots[FindSlot(s.slots, binding.surface, binding.node).value].value.kind;
       match handler
       case OnClick => true
       case OnInput => kind == HostType.Input
       case OnSwitch => kind == HostType.Switch
       case OnSlider => kind == HostType.Slider
       case OnPicker => kind == HostType.Picker
       case OnTabs => kind == HostType.Tabs
       case OnScroll => kind in {HostType.Scroll, HostType.List}
  }

  /** A place is free, or the node's own. */
  ghost predicate HasPlace(bindings: seq<Option<Binding>>, binding: Binding) {
    exists k :: 0 <= k < |bindings|
                && (bindings[k].Some? ==>
                      bindings[k].value.surface == binding.surface && bindings[k].value.node == binding.node)
  }

  /** A handler is installed exactly on a node of its kind that has one already or while there is room; it
      replaces the node's own or takes a free place, and nothing else changes. */
  lemma InstallMeans(s: State, handler: HandlerKind, binding: Binding)
    ensures var step := Install(s, handler, binding);
            && (step.ok
                <==> Bindable(s, handler, binding) && handler in s.bindings && HasPlace(s.bindings[handler], binding))
            && (step.ok ==> exists k :: TakesPlace(s, step.s, handler, binding, k))
            && (!step.ok ==> step.s == s)
  {
    if handler in s.bindings {
      var all := s.bindings[handler];
      var known, free := BindingOf(all, binding.surface, binding.node, 0), FreeBinding(all, 0);
      NoFreeBinding(all, 0);
      if known.Some? || free.Some? {
        var k := if known.Some? then known.value else free.value;
        assert all[k].Some? ==> all[k].value.surface == binding.surface && all[k].value.node == binding.node;
        if Install(s, handler, binding).ok {
          assert TakesPlace(s, Install(s, handler, binding).s, handler, binding, k);
        }
      }
    }
  }

  lemma {:induction false} NoFreeBinding(bindings: seq<Option<Binding>>, i: nat)
    requires i <= |bindings|
    ensures FreeBinding(bindings, i).None? ==> forall k :: i <= k < |bindings| ==> bindings[k].Some?
    decreases |bindings| - i
  {
    if i < |bindings| {
      NoFreeBinding(bindings, i + 1);
    }
  }

  lemma DestroySlotKeepsOneBinding(s: State, i: nat)
    requires i < |s.slots| && OneBindingPerNode(s.bindings)
    ensures OneBindingPerNode(DestroySlot(s, i).bindings)
  {
  }

  /** What destroying any slot of a surface keeps, destroying all of them keeps. */
  lemma {:induction false} DestroyBelowKeeps(keeps: State -> bool, s: State, surface: SurfaceId, n: nat)
    requires n <= |s.slots| && keeps(s)
    requires forall t: State, i: nat ::
               i < |t.slots| && t.slots[i].Some? && t.slots[i].value.surface == surface && keeps(t) ==>
                 keeps(DestroySlot(t, i))
    ensures keeps(DestroySurfaceBelow(s, surface, n))
    decreases n
  {
    if n > 0 {
      if s.slots[n - 1].Some? && s.slots[n - 1].value.surface == surface {
        DestroyBelowKeeps(keeps, DestroySlot(s, n - 1), surface, n - 1);
      } else {
        DestroyBelowKeeps(keeps, s, surface, n - 1);
      }
    }
  }

  lemma DestroyKeepsOneBinding(s: State, surface: SurfaceId)
    requires OneBindingPerNode(s.bindings)
    ensures OneBindingPerNode(DestroySurface(s, surface).bindings)
  {
    ghost var keeps := (t: State) => OneBindingPerNode(t.bindings);
    forall t: State, i: nat | i < |t.slots| && t.slots[i].Some? && t.slots[i].value.surface == surface && keeps(t)
      ensures keeps(DestroySlot(t, i))
    {
      DestroySlotKeepsOneBinding(t, i);
    }
    DestroyBelowKeeps(keeps, s, surface, |s.slots|);
  }

  lemma CommitKeepsOneBinding(native: Native, s: State, surface: SurfaceId, first: bool, op: Operation)
    requires OneBindingPerNode(s.bindings)
    ensures OneBindingPerNode(Commit(native, s, surface, first, op).s.bindings)
  {
    if op.RemoveHost? && FindSlot(s.slots, surface, op.node).Some? {
      DestroySlotKeepsOneBinding(s, FindSlot(s.slots, surface, op.node).value);
    }
  }

  lemma {:induction false} RunKeepsOneBinding(step: Stepper, s: State, head: bool, operations: seq<Operation>, n: nat)
    requires n <= |operations| && OneBindingPerNode(s.bindings)
    requires forall t: State, first, op :: OneBindingPerNode(t.bindings) ==> OneBindingPerNode(step(t, first, op).s.bindings)
    ensures OneBindingPerNode(RunSteps(step, s, head, operations, n).s.bindings)
  {
    if n > 0 {
      RunKeepsOneBinding(step, s, head, operations, n - 1);
    }
  }

  /** Transactions take bindings away and add none. */
  lemma ExecuteKeepsOneBinding(native: Native, maxOperations: nat, rootOk: bool, s: State, t: Transaction)
    requires OneBindingPerNode(s.bindings)
    ensures OneBindingPerNode(Execute(native, maxOperations, rootOk, s, t).s.bindings)
  {
    DestroyKeepsOneBinding(s, t.surface);
    var start := if t.full then DestroySurface(s, t.surface) else s;
    forall u: State, first, op | OneBindingPerNode(u.bindings)
      ensures OneBindingPerNode(Committer(native, t.surface)(u, first, op).s.bindings)
    {
      CommitKeepsOneBinding(native, u, t.surface, first, op);
    }
    RunKeepsOneBinding(Committer(native, t.surface), start, t.full, t.operations, |t.operations|);
    var done := CommitUpTo(native, start, t.surface, t.full, t.operations, |t.operations|);
    DestroyKeepsOneBinding(done.s, t.surface);
  }

  // ----- Which bindings go -----

  /** Bindings only go, and only those of the surface; the others stay in their places. */
  ghost predicate Loses(before: Bindings, after: Bindings, surface: SurfaceId) {
    && before.Keys == after.Keys && (forall kind :: kind in before ==> |after[kind]| == |before[kind]|)
    && forall kind, k :: kind in before && 0 <= k < |before[kind]| ==>
         after[kind][k] == before[kind][k] || (after[kind][k].None? && before[kind][k].value.surface == surface)
  }

  lemma LosesAgain(a: Bindings, b: Bindings, c: Bindings, surface: SurfaceId)
    requires Loses(a, b, surface) && Loses(b, c, surface)
    ensures Loses(a, c, surface)
  {
    forall kind, k | kind in a && 0 <= k < |a[kind]|
      ensures c[kind][k] == a[kind][k] || (c[kind][k].None? && a[kind][k].value.surface == surface)
    {
      assert b[kind][k] == a[kind][k] || b[kind][k].None?;
    }
  }

  /** A node's slot is marked to be removed exactly if no slot of the node stays. */
  lemma NamesRemovedIff(slots: Slots, after: Slots, removed: seq<bool>, b: Binding)
    requires |slots| == |removed| == |after| && OneSlotPerNode(slots) && SomeSlotHolds(slots, b.surface, b.node)
    requires forall k :: 0 <= k < |slots| ==> after[k] == if removed[k] then None else slots[k]
    ensures NamesRemoved(slots, removed, b) <==> !SomeSlotHolds(after, b.surface, b.node)
  {
    var i :| 0 <= i < |slots| && Holds(slots[i], b.surface, b.node);
    if removed[i] {
      forall j | 0 <= j < |slots| && j != i ensures !Holds(slots[j], b.surface, b.node) {
      }
    } else {
      assert Holds(after[i], b.surface, b.node);
    }
  }

  /** Destroying a slot clears a binding exactly if the node it names loses its slot. */
  lemma DestroySlotClears(s: State, i: nat, kind: HandlerKind, k: nat)
    requires Tables(s) && i < |s.slots| && kind in s.bindings && k < |s.bindings[kind]|
    ensures var r := DestroySlot(s, i);
            && |r.bindings[kind]| == |s.bindings[kind]|
            && r.bindings[kind][k]
                 == (if s.bindings[kind][k].Some?
                        && !SomeSlotHolds(r.slots, s.bindings[kind][k].value.surface, s.bindings[kind][k].value.node)
                     then None else s.bindings[kind][k])
  {
    if s.bindings[kind][k].Some? {
      var b := s.bindings[kind][k].value;
      assert SomeSlotHolds(s.slots, b.surface, b.node);
      if s.slots[i].Some? {
        NamesRemovedIff(
          s.slots, DestroySlot(s, i).slots, RemovedSlots(s.forest, s.slots, s.slots[i].value.widget), b);
      }
    }
  }

  lemma DestroySlotLoses(s: State, i: nat)
    requires Tables(s) && i < |s.slots| && s.slots[i].Some?
    ensures Loses(s.bindings, DestroySlot(s, i).bindings, s.slots[i].value.surface)
  {
    var r := DestroySlot(s, i);
    DestroySlotSlots(s, i);
    forall kind, k | kind in s.bindings && 0 <= k < |s.bindings[kind]| && s.bindings[kind][k].Some?
      ensures r.bindings[kind][k] == s.bindings[kind][k]
              || (r.bindings[kind][k].None? && s.bindings[kind][k].value.surface == s.slots[i].value.surface)
    {
      var b := s.bindings[kind][k].value;
      DestroySlotClears(s, i, kind, k);
      assert SomeSlotHolds(s.slots, b.surface, b.node);
      var j :| 0 <= j < |s.slots| && Holds(s.slots[j], b.surface, b.node);
      assert Holds(r.slots[j], b.surface, b.node) || b.surface == s.slots[i].value.surface;
    }
  }

  lemma DestroyLoses(s: State, surface: SurfaceId)
    requires Tables(s)
    ensures Loses(s.bindings, DestroySurface(s, surface).bindings, surface)
  {
    ghost var keeps := (t: State) => Tables(t) && Loses(s.bindings, t.bindings, surface);
    forall t: State, i: nat | i < |t.slots| && t.slots[i].Some? && t.slots[i].value.surface == surface && keeps(t)
      ensures keeps(DestroySlot(t, i))
    {
      DestroySlotKeeps(t, i);
      DestroySlotLoses(t, i);
      LosesAgain(s.bindings, t.bindings, DestroySlot(t, i).bindings, surface);
    }
    DestroyBelowKeeps(keeps, s, surface, |s.slots|);
  }

  lemma CommitLoses(native: Native, s: State, surface: SurfaceId, first: bool, op: Operation)
    requires Tables(s)
    ensures Loses(s.bindings, Commit(native, s, surface, first, op).s.bindings, surface)
  {
    if op.RemoveHost? && FindSlot(s.slots, surface, op.node).Some? {
      DestroySlotLoses(s, FindSlot(s.slots, surface, op.node).value);
    } else {
      assert Commit(native, s, surface, first, op).s.bindings == s.bindings;
    }
  }

  lemma {:induction false} CommitUpToLoses(
    native: Native, s: State, surface: SurfaceId, head: bool, operations: seq<Operation>, n: nat)
    requires Tables(s) && n <= |operations| && CreatesNew(s.slots, surface, operations)
    ensures Loses(s.bindings, CommitUpTo(native, s, surface, head, operations, n).s.bindings, surface)
  {
    if n > 0 {
      var before := CommitUpTo(native, s, surface, head, operations, n - 1).s;
      CommitUpToLoses(native, s, surface, head, operations, n - 1);
      CommitUpToKeeps(native, s, surface, head, operations, n - 1);
      CommitLoses(native, before, surface, head && n == 1, operations[n - 1]);
      LosesAgain(s.bindings, before.bindings,
                 Commit(native, before, surface, head && n == 1, operations[n - 1]).s.bindings, surface);
    }
  }

  /** A transaction installs no handler and leaves those of every other surface in their places. */
  lemma ExecuteLoses(native: Native, maxOperations: nat, rootOk: bool, s: State, t: Transaction)
    requires Tables(s)
    ensures Loses(s.bindings, Execute(native, maxOperations, rootOk, s, t).s.bindings, t.surface)
  {
    DestroyLoses(s, t.surface);
    if rootOk && Preflight(maxOperations, s.slots, s.forest, t) {
      var start := if t.full then DestroySurface(s, t.surface) else s;
      DestroySurfaceClears(s, t.surface);
      PreflightCreatesNew(maxOperations, s, start, t);
      CommitUpToKeeps(native, start, t.surface, t.full, t.operations, |t.operations|);
      CommitUpToLoses(native, start, t.surface, t.full, t.operations, |t.operations|);
      var done := CommitUpTo(native, start, t.surface, t.full, t.operations, |t.operations|).s;
      LosesAgain(s.bindings, start.bindings, done.bindings, t.surface);
      DestroyLoses(done, t.surface);
      LosesAgain(s.bindings, done.bindings, DestroySurface(done, t.surface).bindings, t.surface);
    }
  }
}
