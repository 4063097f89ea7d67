/** The mount host as the object it is: tables of fixed size that its methods change in place, each
    method doing what MountModel says. */
module MountHosts {
  import opened Wrappers
  import opened MountModel
  import opened MountTables
  import opened MountHandlers
  import opened MountPools
  import OwnerTasks

  const MAX_TRANSACTIONS := 16
  const MAX_OBJECTS := 512
  const MAX_FONTS := 16
  const MAX_OPERATIONS := 256

  /** What a host is built with; a depth of zero stands for as many as there are transactions. */
  datatype HostLimits = HostLimits(
    transactions: nat, objects: nat, operations: nat, fonts: nat, bytes: nat, depth: nat)

  function Depth(l: HostLimits): nat {
    if l.depth == 0 then l.transactions else l.depth
  }

  /** A host with limits out of range takes nothing. */
  predicate LimitsOk(l: HostLimits) {
    && 0 < l.transactions <= MAX_TRANSACTIONS && 0 < l.objects <= MAX_OBJECTS && 0 < l.operations <= MAX_OPERATIONS
    && 0 < l.fonts <= MAX_FONTS && l.bytes > 0 && Depth(l) <= l.transactions
  }

  const HANDLER_KINDS := 7

  function KindAt(j: nat): HandlerKind {
    if j == 0 then OnClick else if j == 1 then OnInput else if j == 2 then OnSwitch else if j == 3 then OnSlider
    else if j == 4 then OnPicker else if j == 5 then OnTabs else OnScroll
  }

  /** Where a kind comes among them all. */
  function Position(kind: HandlerKind): (r: nat)
    ensures r < HANDLER_KINDS && KindAt(r) == kind
  {
    match kind
    case OnClick => 0
    case OnInput => 1
    case OnSwitch => 2
    case OnSlider => 3
    case OnPicker => 4
    case OnTabs => 5
    case OnScroll => 6
  }

  class MountHost {
    const native: Native
    const maxOperations: nat
    const maxBytes: nat
    const maxDepth: nat
    const size: Transaction -> nat
    const objects: array<Option<Slot>>
    const fonts: array<FontSlot>
    const transactions: array<Option<Waiting>>
    var forest: Forest
    var bindings: Bindings
    var accepting: bool
    var closed: bool
    /** The slots of the owner tasks that are pending, and of the one that runs. */
    var tasks: seq<nat>
    var running: Option<nat>
    /** Every transaction accepted so far; a slot's ticket is its transaction's place in it. */
    var accepted: seq<Transaction>
    ghost var lost: set<nat>
    ghost var fates: seq<Fate>

    constructor (native: Native, size: Transaction -> nat, l: HostLimits)
      ensures fresh(objects) && fresh(fonts) && fresh(transactions)
      ensures TheLimits() == Limits(native, l.operations, l.bytes, Depth(l), size)
      ensures PoolNow() == Opened(EmptyHost(l.objects, l.fonts), l.transactions, LimitsOk(l))
      ensures Sound(TheLimits(), PoolNow()) && HostOk(Abs())
    {
      this.native, this.size := native, size;
      maxOperations, maxBytes, maxDepth := l.operations, l.bytes, Depth(l);
      objects := new Option<Slot>[l.objects](i => None);
      fonts := new FontSlot[l.fonts](i => NO_FONT);
      transactions := new Option<Waiting>[l.transactions](i => None);
      forest := Forest(map[], map[], 0);
      bindings := NoBindings();
      accepting, closed := LimitsOk(l), false;
      tasks, running, accepted, lost, fates := [], None, [], {}, [];
      new;
      assert PoolNow() == Opened(EmptyHost(l.objects, l.fonts), l.transactions, LimitsOk(l));
      OpenedSound(TheLimits(), EmptyHost(l.objects, l.fonts), l.transactions, LimitsOk(l));
      EmptyHostOk(l.objects, l.fonts);
    }

    function TheLimits(): Limits {
      Limits(native, maxOperations, maxBytes, maxDepth, size)
    }

    ghost function PoolNow(): Pool
      reads this, objects, fonts, transactions
    {
      Pool(Abs(), transactions[..], tasks, running, lost, accepting, closed, accepted, fates)
    }

    ghost function Abs(): State
      reads this, objects, fonts
    {
      State(objects[..], fonts[..], forest, bindings)
    }

    // ----- Looking up -----

    method FindSlot(surface: SurfaceId, node: NodeId) returns (r: Option<nat>)
      ensures r == MountModel.FindSlot(objects[..], surface, node)
    {
      for i := 0 to objects.Length
        invariant MountModel.FindSlot(objects[..], surface, node) == FindFrom(objects[..], surface, node, i)
      {
        if Holds(objects[i], surface, node) { return Some(i); }
      }
      return None;
    }

    method FreeSlot() returns (r: Option<nat>)
      ensures r == FreeFrom(objects[..], 0)
    {
      for i := 0 to objects.Length
        invariant FreeFrom(objects[..], 0) == FreeFrom(objects[..], i)
      {
        if objects[i].None? { return Some(i); }
      }
      return None;
    }

    /** Walks up from `o` to `a`. */
    method Below(o: Obj, a: Obj) returns (r: bool)
      ensures r == Under(forest, o, a)
    {
      var current, steps: nat := o, |forest.widgets|;
      while current in forest.widgets && current != a && steps > 0
        invariant Under(forest, o, a) <==> Reaches(forest, current, a, steps)
        decreases steps
      {
        current, steps := forest.widgets[current].parent, steps - 1;
      }
      r := current in forest.widgets && current == a;
    }

    // ----- Fonts -----

    method CachedFont(size: int) returns (r: Option<nat>)
      ensures r == FontOfSize(fonts[..], size, 0)
    {
      for i := 0 to fonts.Length
        invariant FontOfSize(fonts[..], size, 0) == FontOfSize(fonts[..], size, i)
      {
        if fonts[i].native && fonts[i].size == size { return Some(i); }
      }
      return None;
    }

    method FreeFont() returns (r: Option<nat>)
      ensures r == UnusedFont(fonts[..], 0)
    {
      for i := 0 to fonts.Length
        invariant UnusedFont(fonts[..], 0) == UnusedFont(fonts[..], i)
      {
        if !fonts[i].native { return Some(i); }
      }
      return None;
    }

    method AcquireFont(size: int) returns (r: Option<nat>)
      modifies fonts, this`forest
      ensures var a := MountModel.AcquireFont(native, old(fonts[..]), old(forest.clock), size);
              r == a.font && fonts[..] == a.fonts && forest == old(forest).(clock := a.clock)
    {
      if size < FONT_MIN_SIZE || size > FONT_MAX_SIZE { return None; }
      r := CachedFont(size);
      if r.Some? {
        fonts[r.value] := fonts[r.value].(live := true, references := fonts[r.value].references + 1);
        return;
      }
      r := FreeFont();
      if r.None? { return; }
      forest := Tick(forest);
      if !native.font(forest.clock - 1) { return None; }
      fonts[r.value] := FontSlot(true, size, 1, true);
    }

    method ReleaseFont(index: nat)
      modifies fonts
      ensures fonts[..] == MountModel.ReleaseFont(old(fonts[..]), index)
    {
      if index >= fonts.Length || !fonts[index].live || fonts[index].references == 0 { return; }
      fonts[index] := fonts[index].(references := fonts[index].references - 1);
      if fonts[index].references == 0 {
        fonts[index] := fonts[index].(live := false);
      }
    }

    // ----- Deleting subtrees -----

    /** Marks the slots whose object lies in the subtree of `a`. */
    method MarkRemoved(a: Obj) returns (removed: array<bool>)
      ensures fresh(removed) && removed[..] == RemovedSlots(forest, objects[..], a)
    {
      removed := new bool[objects.Length](i => false);
      for i := 0 to objects.Length
        invariant forall k :: 0 <= k < i ==> removed[k] == RemovedSlots(forest, objects[..], a)[k]
      {
        var below := false;
        if objects[i].Some? {
          below := Below(objects[i].value.widget, a);
        }
        removed[i] := below;
      }
    }

    /** Makes the bindings of one removed slot inert. */
    method ClearOne(handlers: seq<Option<Binding>>, slot: Slot) returns (r: seq<Option<Binding>>)
      ensures |r| == |handlers|
      ensures forall k :: 0 <= k < |r| ==> r[k] == (if Names(handlers[k], slot) then None else handlers[k])
    {
      r := handlers;
      for k := 0 to |handlers|
        invariant |r| == |handlers|
        invariant forall j :: 0 <= j < |r| ==>
                    r[j] == (if j < k && Names(handlers[j], slot) then None else handlers[j])
      {
        if Names(r[k], slot) {
          r := r[k := None];
        }
      }
    }

    method ClearHandlers(removed: array<bool>, handlers: seq<Option<Binding>>) returns (r: seq<Option<Binding>>)
      requires removed.Length == objects.Length
      ensures r == ClearBindings(objects[..], removed[..], handlers)
    {
      r := handlers;
      for i := 0 to objects.Length
        invariant |r| == |handlers|
        invariant forall k :: 0 <= k < |r| ==>
                    r[k] == (if NamedBelow(objects[..], removed[..], handlers[k], i) then None else handlers[k])
      {
        if removed[i] && objects[i].Some? {
          r := ClearOne(r, objects[i].value);
        }
      }
    }

    /** Clears the marked slots, giving their fonts back. */
    method ClearSlots(removed: array<bool>)
      requires removed.Length == objects.Length
      modifies objects, fonts
      ensures var r := ClearFrom(old(objects[..]), old(fonts[..]), removed[..], 0);
              objects[..] == r.0 && fonts[..] == r.1
    {
      for i := 0 to objects.Length
        invariant ClearFrom(old(objects[..]), old(fonts[..]), removed[..], 0)
               == ClearFrom(objects[..], fonts[..], removed[..], i)
        invariant removed[..] == old(removed[..])
      {
        if removed[i] {
          if objects[i].Some? && objects[i].value.font.Some? {
            ReleaseFont(objects[i].value.font.value);
          }
          objects[i] := None;
        }
      }
    }

    method ClearAllHandlers(removed: array<bool>)
      requires removed.Length == objects.Length
      modifies this`bindings
      ensures bindings == map k | k in old(bindings) :: ClearBindings(objects[..], removed[..], old(bindings[k]))
    {
      for j := 0 to HANDLER_KINDS
        invariant bindings == ClearedKinds(objects[..], removed[..], old(bindings), j)
      {
        ClearedNext(objects[..], removed[..], old(bindings), j);
        var kind := KindAt(j);
        if kind in bindings {
          var cleared := ClearHandlers(removed, bindings[kind]);
          bindings := bindings[kind := cleared];
        }
      }
    }

    method DestroySlot(i: nat)
      requires i < objects.Length
      modifies this`forest, this`bindings, objects, fonts
      ensures Abs() == MountModel.DestroySlot(old(Abs()), i)
    {
      if objects[i].None? { return; }
      var a := objects[i].value.widget;
      var removed := MarkRemoved(a);
      ClearAllHandlers(removed);
      forest := DeleteSubtree(forest, a);
      ClearSlots(removed);
    }

    method DestroySurfaceObjects(surface: SurfaceId)
      modifies this`forest, this`bindings, objects, fonts
      ensures Abs() == DestroySurface(old(Abs()), surface)
    {
      for n := objects.Length downto 0
        invariant DestroySurface(old(Abs()), surface) == DestroySurfaceBelow(Abs(), surface, n)
      {
        if objects[n].Some? && objects[n].value.surface == surface {
          DestroySlot(n);
        }
      }
    }

    // ----- Event handlers -----

    method FindBinding(handlers: seq<Option<Binding>>, surface: SurfaceId, node: NodeId) returns (r: Option<nat>)
      ensures r == BindingOf(handlers, surface, node, 0)
    {
      for i := 0 to |handlers|
        invariant BindingOf(handlers, surface, node, 0) == BindingOf(handlers, surface, node, i)
      {
        if handlers[i].Some? && handlers[i].value.surface == surface && handlers[i].value.node == node {
          return Some(i);
        }
      }
      return None;
    }

    method FindFreeBinding(handlers: seq<Option<Binding>>) returns (r: Option<nat>)
      ensures r == FreeBinding(handlers, 0)
    {
      for i := 0 to |handlers|
        invariant FreeBinding(handlers, 0) == FreeBinding(handlers, i)
      {
        if handlers[i].None? { return Some(i); }
      }
      return None;
    }

    method InstallHandler(handler: HandlerKind, surface: SurfaceId, node: NodeId, callback: nat) returns (ok: bool)
      modifies this`bindings
      ensures var step := Install(old(Abs()), handler, Binding(surface, node, callback));
              ok == step.ok && Abs() == step.s
    {
      var slot := FindSlot(surface, node);
      if slot.None? || handler !in bindings || !HandlerFits(handler, objects[slot.value].value.kind) { return false; }
      var place := FindBinding(bindings[handler], surface, node);
      if place.None? {
        place := FindFreeBinding(bindings[handler]);
      }
      if place.None? { return false; }
      bindings := bindings[handler := bindings[handler][place.value := Some(Binding(surface, node, callback))]];
      return true;
    }

    // ----- Preflight -----

    method WasCreated(operations: seq<Operation>, n: nat, node: NodeId) returns (r: bool)
      requires n <= |operations|
      ensures r == CreatedBefore(operations, n, node)
    {
      for k := 0 to n
        invariant !CreatedBefore(operations, k, node)
      {
        if operations[k].CreateHost? && operations[k].node == node { return true; }
      }
      return false;
    }

    method HasOrCreates(t: Transaction, node: NodeId, n: nat) returns (r: bool)
      requires n <= |t.operations|
      ensures r == ExistsOrCreated(objects[..], t, node, n)
    {
      var slot := FindSlot(t.surface, node);
      r := !t.full && slot.Some?;
      if !r {
        r := WasCreated(t.operations, n, node);
      }
    }

    method CheckMove(t: Transaction, node: NodeId, parent: NodeId) returns (r: bool)
      ensures r == MoveOk(objects[..], forest, t.surface, node, parent)
    {
      var child := FindSlot(t.surface, node);
      var target := FindSlot(t.surface, parent);
      if child.None? || target.None? { return false; }
      var below := Below(objects[target.value].value.widget, objects[child.value].value.widget);
      r := !below;
    }

    method CheckOperation(t: Transaction, i: nat) returns (r: bool)
      requires i < |t.operations|
      ensures r == OperationOk(objects[..], forest, t, i)
    {
      match t.operations[i]
      case CreateHost(node, kind) =>
        var slot := FindSlot(t.surface, node);
        var created := WasCreated(t.operations, i, node);
        r := (t.full || slot.None?) && !created;
      case SetHostProp(node, property, value) =>
        r := HasOrCreates(t, node, i);
        r := r && PropertyOk(property, value);
      case SetHostLayout(node, rect) =>
        r := HasOrCreates(t, node, i);
        r := r && rect.width >= 0 && rect.height >= 0;
      case InsertHostChild(node, parent, index) =>
        var created := WasCreated(t.operations, i, node);
        var slot := FindSlot(t.surface, node);
        var there := HasOrCreates(t, parent, i);
        r := (created || (t.batchIndex > 0 && slot.Some?)) && there;
      case MoveHost(node, parent, index) => r := CheckMove(t, node, parent);
      case RemoveHost(node) =>
        var slot := FindSlot(t.surface, node);
        r := slot.Some?;
    }

    method CheckShape(operations: seq<Operation>) returns (r: bool)
      ensures r == FullShape(operations)
    {
      var creates := false;
      for i := 0 to |operations|
        invariant creates <==> exists k :: 0 <= k < i && operations[k].CreateHost?
        invariant forall k :: 0 <= k < i ==> !operations[k].MoveHost? && !operations[k].RemoveHost?
      {
        if operations[i].CreateHost? {
          creates := true;
        } else if operations[i].MoveHost? || operations[i].RemoveHost? {
          return false;
        }
      }
      r := creates;
    }

    method Preflight(t: Transaction) returns (r: bool)
      ensures r == MountModel.Preflight(maxOperations, objects[..], forest, t)
    {
      if !HeaderOk(maxOperations, t) { return false; }
      if t.full {
        var shaped := CheckShape(t.operations);
        if !shaped { return false; }
      }
      for i := 0 to |t.operations|
        invariant forall k :: 0 <= k < i ==> OperationOk(objects[..], forest, t, k)
      {
        var ok := CheckOperation(t, i);
        if !ok { return false; }
      }
      return true;
    }

    // ----- Commit -----

    method Give(i: nat, size: int) returns (ok: bool)
      requires i < objects.Length && objects[i].Some?
      modifies this`forest, objects, fonts
      ensures var step := GiveFont(native, old(Abs()), i, size); ok == step.ok && Abs() == step.s
    {
      var slot := objects[i].value;
      var acquired := AcquireFont(size);
      if acquired.None? { return false; }
      if slot.font.Some? {
        ReleaseFont(slot.font.value);
      }
      objects[i] := Some(slot.(font := acquired));
      return true;
    }

    method Create(surface: SurfaceId, node: NodeId, kind: HostType, attached: bool) returns (ok: bool)
      modifies this`forest, objects, fonts
      ensures var step := CommitCreate(native, old(Abs()), surface, node, kind, attached);
              ok == step.ok && Abs() == step.s
    {
      var free := FreeSlot();
      if free.None? { return false; }
      var clock := forest.clock;
      forest := Tick(forest);
      if !native.create(clock) { return false; }
      var widget := Host(surface, clock);
      forest := AddWidget(forest, widget, Root(surface));
      objects[free.value] := Some(Slot(surface, node, kind, widget, attached, None));
      if kind.Button? {
        forest := Tick(forest);
        if !native.caption(forest.clock - 1) { return false; }
      }
      if kind.View? { return true; }
      ok := Give(free.value, DEFAULT_FONT_SIZE);
    }

    method SetFontSize(i: nat, value: Value) returns (ok: bool)
      requires i < objects.Length && objects[i].Some?
      modifies this`forest, objects, fonts
      ensures var step := CommitFontSize(native, old(Abs()), i, value); ok == step.ok && Abs() == step.s
    {
      var slot := objects[i].value;
      if !value.Integer? || slot.kind.View? { return false; }
      if slot.font.Some? && slot.font.value < fonts.Length && fonts[slot.font.value].live
         && fonts[slot.font.value].size == value.integer { return true; }
      ok := Give(i, value.integer);
    }

    method SetProp(surface: SurfaceId, node: NodeId, name: string, value: Value) returns (ok: bool)
      modifies this`forest, objects, fonts
      ensures var step := CommitProp(native, old(Abs()), surface, node, name, value);
              ok == step.ok && Abs() == step.s
    {
      var target := FindSlot(surface, node);
      if target.None? { return false; }
      if name == "fontSize" {
        ok := SetFontSize(target.value, value);
        return;
      }
      var slot := objects[target.value].value;
      if slot.widget !in forest.widgets { return false; }
      ok := PropertyFits(slot.kind, name, value)
            && native.accepts(forest.clock, slot.kind, name, value, forest.widgets[slot.widget].props);
      if ok {
        forest := SetWidgetProp(forest, slot.widget, name, value);
      }
      forest := Tick(forest);
    }

    method SetLayout(surface: SurfaceId, node: NodeId, rect: Rect) returns (ok: bool)
      modifies this`forest
      ensures var step := CommitLayout(old(Abs()), surface, node, rect); ok == step.ok && Abs() == step.s
    {
      var target := FindSlot(surface, node);
      if target.None? || objects[target.value].value.widget !in forest.widgets { return false; }
      forest := SetWidgetRect(forest, objects[target.value].value.widget, rect);
      return true;
    }

    method Insert(surface: SurfaceId, node: NodeId, parent: NodeId, index: nat) returns (ok: bool)
      modifies this`forest, objects
      ensures var step := CommitInsert(old(Abs()), surface, node, parent, index); ok == step.ok && Abs() == step.s
    {
      var child := FindSlot(surface, node);
      var target := FindSlot(surface, parent);
      if child.None? || target.None? || objects[child.value].value.attached
         || objects[child.value].value.widget !in forest.widgets { return false; }
      var slot := objects[child.value].value;
      forest := Reparent(forest, slot.widget, objects[target.value].value.widget, index);
      objects[child.value] := Some(slot.(attached := true));
      return true;
    }

    method Move(surface: SurfaceId, node: NodeId, parent: NodeId, index: nat) returns (ok: bool)
      modifies this`forest
      ensures var step := CommitMove(old(Abs()), surface, node, parent, index); ok == step.ok && Abs() == step.s
    {
      var child := FindSlot(surface, node);
      var target := FindSlot(surface, parent);
      if child.None? || target.None? || child == target
         || objects[child.value].value.widget !in forest.widgets { return false; }
      forest := Reparent(
        forest, objects[child.value].value.widget, objects[target.value].value.widget, index);
      return true;
    }

    method Remove(surface: SurfaceId, node: NodeId) returns (ok: bool)
      modifies this`forest, this`bindings, objects, fonts
      ensures var step := CommitRemove(old(Abs()), surface, node); ok == step.ok && Abs() == step.s
    {
      var target := FindSlot(surface, node);
      if target.None? { return false; }
      DestroySlot(target.value);
      return true;
    }

    method CommitOne(surface: SurfaceId, first: bool, op: Operation) returns (ok: bool)
      modifies this`forest, this`bindings, objects, fonts
      ensures var step := Commit(native, old(Abs()), surface, first, op); ok == step.ok && Abs() == step.s
    {
      match op
      case CreateHost(node, kind) => ok := Create(surface, node, kind, first);
      case SetHostProp(node, property, value) => ok := SetProp(surface, node, property.chars, value);
      case SetHostLayout(node, rect) => ok := SetLayout(surface, node, rect);
      case InsertHostChild(node, parent, index) => ok := Insert(surface, node, parent, index);
      case MoveHost(node, parent, index) => ok := Move(surface, node, parent, index);
      case RemoveHost(node) => ok := Remove(surface, node);
    }

    /** Commits the next operation of a run that has not failed. If it fails, the run ends there. */
    method CommitAt(t: Transaction, i: nat, ghost start: State) returns (ok: bool)
      requires i < |t.operations|
      requires CommitUpTo(native, start, t.surface, t.full, t.operations, i) == Step(true, Abs())
      modifies this`forest, this`bindings, objects, fonts
      ensures CommitUpTo(native, start, t.surface, t.full, t.operations, if ok then i + 1 else |t.operations|)
           == Step(ok, Abs())
    {
      ghost var before := Abs();
      ok := CommitOne(t.surface, i == 0 && t.full, t.operations[i]);
      CommitUpToAfter(native, start, t.surface, t.full, t.operations, i, before, Step(ok, Abs()));
    }

    /** Commits every operation, as far as they succeed. */
    method CommitAll(t: Transaction) returns (ok: bool)
      modifies this`forest, this`bindings, objects, fonts
      ensures CommitUpTo(native, old(Abs()), t.surface, t.full, t.operations, |t.operations|) == Step(ok, Abs())
    {
      ghost var start := Abs();
      ok := true;
      for i := 0 to |t.operations|
        invariant ok && CommitUpTo(native, start, t.surface, t.full, t.operations, i) == Step(ok, Abs())
      {
        ok := CommitAt(t, i, start);
        if !ok { return; }
      }
    }

    /** A whole transaction. */
    method Execute(rootOk: bool, t: Transaction) returns (ok: bool)
      modifies this`forest, this`bindings, objects, fonts
      ensures var step := MountModel.Execute(native, maxOperations, rootOk, old(Abs()), t);
              ok == step.ok && Abs() == step.s
    {
      var valid := rootOk;
      if valid {
        valid := Preflight(t);
      }
      if !valid {
        if t.batchCount > 1 {
          DestroySurfaceObjects(t.surface);
        }
        return false;
      }
      if t.full {
        DestroySurfaceObjects(t.surface);
      }
      ok := CommitAll(t);
      if !ok {
        DestroySurfaceObjects(t.surface);
      }
    }

    // ----- Transactions -----

    method FindPlace() returns (r: Option<nat>)
      ensures r == FreePlace(transactions[..], 0)
    {
      for i := 0 to transactions.Length
        invariant FreePlace(transactions[..], 0) == FreePlace(transactions[..], i)
      {
        if transactions[i].None? { return Some(i); }
      }
      return None;
    }

    method CountWaiting() returns (r: nat)
      ensures r == Occupied(transactions[..])
    {
      r := 0;
      for i := 0 to transactions.Length
        invariant r == Occupied(transactions[..i])
      {
        assert transactions[..i + 1][..i] == transactions[..i];
        if transactions[i].Some? {
          r := r + 1;
        }
      }
      assert transactions[..transactions.Length] == transactions[..];
    }

    method Post(t: Transaction, guard: bool, queue: OwnerTasks.PostStatus) returns (answer: Answer)
      modifies this`tasks, this`accepted, transactions
      ensures (answer, PoolNow()) == MountPools.Post(TheLimits(), old(PoolNow()), t, guard, queue)
    {
      if !accepting || closed { return HostClosed; }
      if !guard { return AdmissionBusy; }
      var free := FindPlace();
      if free.None? { return CapacityFull; }
      if size(t) > maxBytes { return TooLarge; }
      var waiting := CountWaiting();
      if waiting >= maxDepth { return DepthReached; }
      if !queue.Accepted? { return QueueRefused; }
      transactions[free.value] := Some(Waiting(t, |accepted|));
      tasks := tasks + [free.value];
      accepted := accepted + [t];
      return Posted;
    }

    /** What is posted by those who are told a result. */
    method TakeOffers(offers: seq<Offer>)
      modifies this`tasks, this`accepted, transactions
      ensures PoolNow() == PostAll(TheLimits(), old(PoolNow()), offers)
    {
      ghost var start := PoolNow();
      for i := 0 to |offers|
        invariant PostAll(TheLimits(), start, offers) == PostAll(TheLimits(), PoolNow(), offers[i..])
      {
        var answer := Post(offers[i].transaction, offers[i].guard, offers[i].queue);
        assert offers[i..][1..] == offers[i + 1..];
      }
    }

    /** The first task's transaction is executed. */
    method StartTask(rootOk: bool)
      requires tasks != [] && tasks[0] < transactions.Length && transactions[tasks[0]].Some?
      modifies this`forest, this`bindings, this`tasks, this`running, this`fates, objects, fonts
      ensures PoolNow() == Started(TheLimits(), old(PoolNow()), rootOk) && running == Some(old(tasks[0]))
    {
      var i := tasks[0];
      tasks, running := tasks[1..], Some(i);
      var ok := Execute(rootOk, transactions[i].value.transaction);
      fates := fates + [Ran(rootOk, ok)];
    }

    /** The owner queue runs this host's first pending task: the transaction is executed, its result
        told, and only then its slot freed. */
    method RunTask(rootOk: bool, offers: seq<Offer>)
      modifies this, objects, fonts, transactions
      ensures PoolNow() == MountPools.RunTask(TheLimits(), old(PoolNow()), rootOk, offers)
    {
      if tasks == [] { return; }
      if tasks[0] >= transactions.Length || transactions[tasks[0]].None? {
        tasks := tasks[1..];
        return;
      }
      StartTask(rootOk);
      PostAllLeaves(TheLimits(), PoolNow(), offers);
      TakeOffers(offers);
      transactions[running.value] := None;
      running := None;
    }

    // ----- Releasing and closing -----

    method AnyWaits(surface: SurfaceId) returns (r: bool)
      ensures r == SurfaceWaits(transactions[..], surface)
    {
      for i := 0 to transactions.Length
        invariant forall k :: 0 <= k < i ==> !WaitsFor(transactions[k], surface)
      {
        if transactions[i].Some? && transactions[i].value.transaction.surface == surface { return true; }
      }
      return false;
    }

    method ReleaseSurface(surface: SurfaceId) returns (ok: bool)
      modifies this`forest, this`bindings, objects, fonts
      ensures (ok, PoolNow()) == Release(old(PoolNow()), surface)
    {
      var waits := AnyWaits(surface);
      if waits { return false; }
      DestroySurfaceObjects(surface);
      return true;
    }

    method DestroyAllObjects()
      modifies this`forest, this`bindings, objects, fonts
      ensures Abs() == DestroyAllBelow(old(Abs()), objects.Length)
    {
      for n := objects.Length downto 0
        invariant DestroyAllBelow(old(Abs()), objects.Length) == DestroyAllBelow(Abs(), n)
      {
        DestroySlot(n);
      }
    }

    method DestroyFonts()
      modifies fonts
      ensures Abs() == WithoutFonts(old(Abs()))
    {
      for i := 0 to fonts.Length
        invariant forall k :: 0 <= k < i ==> fonts[k] == NO_FONT
      {
        fonts[i] := NO_FONT;
      }
    }

    method StopAccepting()
      modifies this`accepting
      ensures PoolNow() == old(PoolNow()).(accepting := false)
    {
      accepting := false;
    }

    method FinishClose() returns (ok: bool)
      modifies this`forest, this`bindings, this`closed, objects, fonts
      ensures (ok, PoolNow()) == MountPools.FinishClose(old(PoolNow()))
    {
      var waiting := CountWaiting();
      if accepting || waiting != 0 { return false; }
      DestroyAllObjects();
      DestroyFonts();
      closed := true;
      return true;
    }
  }

  /** One operation more, and if it fails all of them. */
  lemma CommitUpToAfter(
    native: Native, s: State, surface: SurfaceId, head: bool, operations: seq<Operation>, i: nat, before: State,
    after: Step)
    requires i < |operations| && CommitUpTo(native, s, surface, head, operations, i) == Step(true, before)
    requires after == Commit(native, before, surface, i == 0 && head, operations[i])
    ensures CommitUpTo(native, s, surface, head, operations, if after.ok then i + 1 else |operations|) == after
  {
    RunAfter(Committer(native, surface), s, head, operations, i, before, after);
  }

  lemma RunAfter(
    step: Stepper, s: State, head: bool, operations: seq<Operation>, i: nat, before: State, after: Step)
    requires i < |operations| && RunSteps(step, s, head, operations, i) == Step(true, before)
    requires after == step(before, i == 0 && head, operations[i])
    ensures RunSteps(step, s, head, operations, if after.ok then i + 1 else |operations|) == after
  {
    assert RunSteps(step, s, head, operations, i + 1) == after;
    if !after.ok {
      RunStaysFailed(step, s, head, operations, i + 1, |operations|);
    }
  }

  lemma {:induction false} RunStaysFailed(
    step: Stepper, s: State, head: bool, operations: seq<Operation>, m: nat, n: nat)
    requires m <= n <= |operations| && !RunSteps(step, s, head, operations, m).ok
    ensures RunSteps(step, s, head, operations, n) == RunSteps(step, s, head, operations, m)
    decreases n - m
  {
    if m < n {
      RunStaysFailed(step, s, head, operations, m, n - 1);
    }
  }

  /** The handlers with those of the first `j` kinds cleared of the removed slots. */
  ghost function ClearedKinds(slots: Slots, removed: seq<bool>, bindings: Bindings, j: nat): Bindings
    requires |slots| == |removed|
  {
    map k | k in bindings :: if Position(k) < j then ClearBindings(slots, removed, bindings[k]) else bindings[k]
  }

  lemma ClearedNext(slots: Slots, removed: seq<bool>, bindings: Bindings, j: nat)
    requires |slots| == |removed| && j < HANDLER_KINDS
    ensures var before, kind := ClearedKinds(slots, removed, bindings, j), KindAt(j);
            && (kind in before <==> kind in bindings)
            && (kind in before ==> before[kind] == bindings[kind])
            && ClearedKinds(slots, removed, bindings, j + 1)
            == if kind in before then before[kind := ClearBindings(slots, removed, before[kind])] else before
  {
    assert Position(KindAt(j)) == j;
  }

  predicate Names(handler: Option<Binding>, slot: Slot) {
    handler.Some? && handler.value.surface == slot.surface && handler.value.node == slot.node
  }

  /** A removed slot below `n` is the one the binding names. */
  ghost predicate NamedBelow(slots: Slots, removed: seq<bool>, handler: Option<Binding>, n: nat)
    requires n <= |slots| == |removed|
  {
    exists i :: 0 <= i < n && removed[i] && slots[i].Some? && Names(handler, slots[i].value)
  }
}
