/** The mount host's state and what each of its operations does to it. LVGL is an abstract forest:
    widgets with a parent, ordered children and a property map. */
module MountModel {
  import opened Wrappers

  type SurfaceId = nat
  type NodeId = nat

  const MAX_PROPERTY_TEXT := 512
  const DEFAULT_FONT_SIZE := 16
  const FONT_MIN_SIZE := 1
  const FONT_MAX_SIZE := 256

  datatype HostType = View | Text | Button | Input | Switch | Slider | Picker | Tabs | Scroll | List | Image

  datatype BoundedText = BoundedText(chars: string, truncated: bool)

  datatype Value = Flag(on: bool) | Number(number: real) | Integer(integer: int) | Words(text: BoundedText)

  datatype Rect = Rect(x: int, y: int, width: int, height: int)

  datatype Operation =
    | CreateHost(node: NodeId, kind: HostType)
    | SetHostProp(node: NodeId, property: BoundedText, value: Value)
    | SetHostLayout(node: NodeId, rect: Rect)
    | InsertHostChild(node: NodeId, parent: NodeId, index: nat)
    | MoveHost(node: NodeId, parent: NodeId, index: nat)
    | RemoveHost(node: NodeId)

  datatype Transaction = Transaction(
    surface: SurfaceId,
    source: BoundedText,
    full: bool,
    operations: seq<Operation>,
    batchIndex: nat,
    batchCount: nat,
    isFinal: bool)

  // ----- The native side -----

  /** A native object: a surface's page root, or an object created on that surface. */
  datatype Obj = Root(surface: SurfaceId) | Host(surface: SurfaceId, id: nat)

  datatype Widget = Widget(parent: Obj, props: map<string, Value>, rect: Option<Rect>)

  /** `clock` counts the native calls that may fail, so that their outcomes can vary. */
  datatype Forest = Forest(widgets: map<Obj, Widget>, children: map<Obj, seq<Obj>>, clock: nat)

  /** Whether the native calls succeed: creating an object, a button's label, a font instance,
      and accepting a property value on an object that has some properties already. */
  datatype Native = Native(
    create: nat -> bool,
    caption: nat -> bool,
    font: nat -> bool,
    accepts: (nat, HostType, string, Value, map<string, Value>) -> bool)

  /** A native side where nothing fails. */
  const WILLING := Native(n => true, n => true, n => true, (n, kind, name, value, props) => true)

  function Kids(f: Forest, o: Obj): seq<Obj> {
    if o in f.children then f.children[o] else []
  }

  function Without<T(==)>(all: seq<T>, x: T): seq<T> {
    if all == [] then [] else (if all[0] == x then [] else [all[0]]) + Without(all[1..], x)
  }

  /** `x` at `index` if there is such a place, and last otherwise. */
  function PutAt<T>(all: seq<T>, x: T, index: nat): seq<T> {
    var place := if index <= |all| then index else |all|;
    all[..place] + [x] + all[place..]
  }

  function Tick(f: Forest): Forest {
    f.(clock := f.clock + 1)
  }

  /** A new object, last child of its surface's root. */
  function AddWidget(f: Forest, o: Obj, root: Obj): Forest {
    f.(widgets := f.widgets[o := Widget(root, map[], None)],
       children := f.children[root := Kids(f, root) + [o]])
  }

  /** Moves `o` under `parent`, at `index` among its children if there is such a place. */
  function Reparent(f: Forest, o: Obj, parent: Obj, index: nat): Forest
    requires o in f.widgets
  {
    var source := f.widgets[o].parent;
    var detached := f.children[source := Without(Kids(f, source), o)];
    var others := Without(if parent in detached then detached[parent] else [], o);
    f.(widgets := f.widgets[o := f.widgets[o].(parent := parent)],
       children := detached[parent := PutAt(others, o, index)])
  }

  function SetWidgetProp(f: Forest, o: Obj, name: string, value: Value): Forest
    requires o in f.widgets
  {
    f.(widgets := f.widgets[o := f.widgets[o].(props := f.widgets[o].props[name := value])])
  }

  function SetWidgetRect(f: Forest, o: Obj, rect: Rect): Forest
    requires o in f.widgets
  {
    f.(widgets := f.widgets[o := f.widgets[o].(rect := Some(rect))])
  }

  /** Walking up from a valid `o` meets `a` within `steps` parents. */
  predicate Reaches(f: Forest, o: Obj, a: Obj, steps: nat)
    decreases steps
  {
    o in f.widgets && (o == a || (steps > 0 && Reaches(f, f.widgets[o].parent, a, steps - 1)))
  }

  /** `o` lies in the subtree of `a`. The walk visits each widget at most once. */
  predicate Under(f: Forest, o: Obj, a: Obj) {
    Reaches(f, o, a, |f.widgets|)
  }

  function DeleteSubtree(f: Forest, a: Obj): Forest {
    f.(widgets := map o | o in f.widgets && !Under(f, o, a) :: f.widgets[o],
       children := map p | p in f.children && !Under(f, p, a) ::
                     if a in f.widgets && f.widgets[a].parent == p then Without(f.children[p], a)
                     else f.children[p])
  }

  // ----- The tables -----

  datatype Slot = Slot(
    surface: SurfaceId, node: NodeId, kind: HostType, widget: Obj, attached: bool, font: Option<nat>)

  datatype FontSlot = FontSlot(live: bool, size: int, references: nat, native: bool)

  const NO_FONT := FontSlot(false, 0, 0, false)

  datatype HandlerKind = OnClick | OnInput | OnSwitch | OnSlider | OnPicker | OnTabs | OnScroll

  datatype Binding = Binding(surface: SurfaceId, node: NodeId, callback: nat)

  type Slots = seq<Option<Slot>>
  type Bindings = map<HandlerKind, seq<Option<Binding>>>

  datatype State = State(slots: Slots, fonts: seq<FontSlot>, forest: Forest, bindings: Bindings)

  predicate Holds(slot: Option<Slot>, surface: SurfaceId, node: NodeId) {
    slot.Some? && slot.value.surface == surface && slot.value.node == node
  }

  /** The first slot, from `i` on, of the node. */
  function FindFrom(slots: Slots, surface: SurfaceId, node: NodeId, i: nat): (r: Option<nat>)
    requires i <= |slots|
    ensures r.Some? ==> i <= r.value < |slots| && Holds(slots[r.value], surface, node)
    ensures r.None? ==> forall k :: i <= k < |slots| ==> !Holds(slots[k], surface, node)
    decreases |slots| - i
  {
    if i == |slots| then None
    else if Holds(slots[i], surface, node) then Some(i)
    else FindFrom(slots, surface, node, i + 1)
  }

  function FindSlot(slots: Slots, surface: SurfaceId, node: NodeId): Option<nat> {
    FindFrom(slots, surface, node, 0)
  }

  function FreeFrom(slots: Slots, i: nat): (r: Option<nat>)
    requires i <= |slots|
    ensures r.Some? ==> i <= r.value < |slots| && slots[r.value].None?
    ensures r.None? ==> forall k :: i <= k < |slots| ==> slots[k].Some?
    decreases |slots| - i
  {
    if i == |slots| then None
    else if slots[i].None? then Some(i)
    else FreeFrom(slots, i + 1)
  }

  // ----- Fonts -----

  function FontOfSize(fonts: seq<FontSlot>, size: int, i: nat): (r: Option<nat>)
    requires i <= |fonts|
    ensures r.Some? ==> i <= r.value < |fonts| && fonts[r.value].native && fonts[r.value].size == size
    ensures r.None? ==> forall k :: i <= k < |fonts| ==> !(fonts[k].native && fonts[k].size == size)
    decreases |fonts| - i
  {
    if i == |fonts| then None
    else if fonts[i].native && fonts[i].size == size then Some(i)
    else FontOfSize(fonts, size, i + 1)
  }

  function UnusedFont(fonts: seq<FontSlot>, i: nat): (r: Option<nat>)
    requires i <= |fonts|
    ensures r.Some? ==> i <= r.value < |fonts| && !fonts[r.value].native
    decreases |fonts| - i
  {
    if i == |fonts| then None
    else if !fonts[i].native then Some(i)
    else UnusedFont(fonts, i + 1)
  }

  datatype Acquired = Acquired(font: Option<nat>, fonts: seq<FontSlot>, clock: nat)

  /** A reference to the font instance of a size, created on first use. */
  function AcquireFont(native: Native, fonts: seq<FontSlot>, clock: nat, size: int): (r: Acquired)
    ensures |r.fonts| == |fonts| && (r.font.Some? ==> r.font.value < |fonts|)
    ensures r.font.None? ==> r.fonts == fonts
  {
    if size < FONT_MIN_SIZE || size > FONT_MAX_SIZE then Acquired(None, fonts, clock)
    else
      var cached := FontOfSize(fonts, size, 0);
      if cached.Some? then
        var f := fonts[cached.value];
        Acquired(cached, fonts[cached.value := f.(live := true, references := f.references + 1)], clock)
      else
        var unused := UnusedFont(fonts, 0);
        if unused.None? then Acquired(None, fonts, clock)
        else if !native.font(clock) then Acquired(None, fonts, clock + 1)
        else Acquired(unused, fonts[unused.value := FontSlot(true, size, 1, true)], clock + 1)
  }

  /** Gives a reference back; the native font stays cached. */
  function ReleaseFont(fonts: seq<FontSlot>, index: nat): (r: seq<FontSlot>)
    ensures |r| == |fonts|
  {
    if index >= |fonts| || !fonts[index].live || fonts[index].references == 0 then fonts
    else
      var left := fonts[index].references - 1;
      fonts[index := fonts[index].(references := left, live := left != 0)]
  }

  // ----- Deleting subtrees -----

  function ReleaseSlotFont(slot: Option<Slot>, fonts: seq<FontSlot>): (r: seq<FontSlot>)
    ensures |r| == |fonts|
  {
    if slot.Some? && slot.value.font.Some? then ReleaseFont(fonts, slot.value.font.value) else fonts
  }

  /** The slots, by index, whose object lies in the subtree of `a`. */
  function RemovedSlots(f: Forest, slots: Slots, a: Obj): (r: seq<bool>)
    ensures |r| == |slots|
  {
    seq(|slots|, i requires 0 <= i < |slots| => slots[i].Some? && Under(f, slots[i].value.widget, a))
  }

  /** Clears the removed slots from `i` on, one after the other, giving their fonts back. */
  function ClearFrom(slots: Slots, fonts: seq<FontSlot>, removed: seq<bool>, i: nat): (r: (Slots, seq<FontSlot>))
    requires i <= |slots| == |removed|
    ensures |r.0| == |slots| && |r.1| == |fonts|
    ensures forall k :: 0 <= k < |slots| ==>
              r.0[k] == (if i <= k && removed[k] then None else slots[k])
    decreases |slots| - i
  {
    if i == |slots| then (slots, fonts)
    else if removed[i] then
      ClearFrom(slots[i := None], ReleaseSlotFont(slots[i], fonts), removed, i + 1)
    else ClearFrom(slots, fonts, removed, i + 1)
  }

  predicate NamesRemoved(slots: Slots, removed: seq<bool>, binding: Binding)
    requires |slots| == |removed|
  {
    exists i :: 0 <= i < |slots| && removed[i] && Holds(slots[i], binding.surface, binding.node)
  }

  /** Bindings of removed slots become inert before anything is deleted. */
  function ClearBindings(slots: Slots, removed: seq<bool>, bindings: seq<Option<Binding>>): (r: seq<Option<Binding>>)
    requires |slots| == |removed|
    ensures |r| == |bindings|
  {
    seq(|bindings|, k requires 0 <= k < |bindings| =>
      if bindings[k].Some? && NamesRemoved(slots, removed, bindings[k].value) then None else bindings[k])
  }

  function DestroySlot(s: State, i: nat): (r: State)
    requires i < |s.slots|
    ensures |r.slots| == |s.slots| && |r.fonts| == |s.fonts|
    ensures r.bindings.Keys == s.bindings.Keys
  {
    if s.slots[i].None? then s
    else
      var a := s.slots[i].value.widget;
      var removed := RemovedSlots(s.forest, s.slots, a);
      var cleared := ClearFrom(s.slots, s.fonts, removed, 0);
      State(cleared.0, cleared.1, DeleteSubtree(s.forest, a),
            map k | k in s.bindings :: ClearBindings(s.slots, removed, s.bindings[k]))
  }

  /** From the highest slot below `n` down: destroys every slot of the surface. */
  function DestroySurfaceBelow(s: State, surface: SurfaceId, n: nat): (r: State)
    requires n <= |s.slots|
    ensures |r.slots| == |s.slots| && |r.fonts| == |s.fonts| && r.bindings.Keys == s.bindings.Keys
    decreases n
  {
    if n == 0 then s
    else if s.slots[n - 1].Some? && s.slots[n - 1].value.surface == surface then
      DestroySurfaceBelow(DestroySlot(s, n - 1), surface, n - 1)
    else DestroySurfaceBelow(s, surface, n - 1)
  }

  function DestroySurface(s: State, surface: SurfaceId): (r: State)
    ensures |r.slots| == |s.slots| && |r.fonts| == |s.fonts| && r.bindings.Keys == s.bindings.Keys
  {
    DestroySurfaceBelow(s, surface, |s.slots|)
  }

  // ----- Preflight -----

  predicate KnownProperty(name: string) {
    name in ["text", "enabled", "value", "checked", "min", "max", "step", "mode", "range", "selected", "items",
             "src", "backgroundColor", "color", "borderRadius", "textAlign", "fontSize"]
  }

  predicate PropertyOk(property: BoundedText, value: Value) {
    && !property.truncated && KnownProperty(property.chars)
    && (value.Words? ==> !value.text.truncated)
    && (property.chars == "fontSize" ==>
          value.Integer? && FONT_MIN_SIZE <= value.integer <= FONT_MAX_SIZE)
  }

  /** A create of the node comes before position `n`. */
  predicate CreatedBefore(operations: seq<Operation>, n: nat, node: NodeId)
    requires n <= |operations|
  {
    exists k :: 0 <= k < n && operations[k].CreateHost? && operations[k].node == node
  }

  predicate ExistsOrCreated(slots: Slots, t: Transaction, node: NodeId, n: nat)
    requires n <= |t.operations|
  {
    || (!t.full && FindSlot(slots, t.surface, node).Some?)
    || CreatedBefore(t.operations, n, node)
  }

  /** Both nodes are there, and the new parent does not lie below the node that moves. */
  predicate MoveOk(slots: Slots, f: Forest, surface: SurfaceId, node: NodeId, parent: NodeId) {
    var child, target := FindSlot(slots, surface, node), FindSlot(slots, surface, parent);
    && child.Some? && target.Some?
    && !Under(f, slots[target.value].value.widget, slots[child.value].value.widget)
  }

  predicate OperationOk(slots: Slots, f: Forest, t: Transaction, i: nat)
    requires i < |t.operations|
  {
    match t.operations[i]
    case CreateHost(node, kind) =>
      && (t.full || FindSlot(slots, t.surface, node).None?)
      && !CreatedBefore(t.operations, i, node)
    case SetHostProp(node, property, value) =>
      ExistsOrCreated(slots, t, node, i) && PropertyOk(property, value)
    case SetHostLayout(node, rect) =>
      ExistsOrCreated(slots, t, node, i) && rect.width >= 0 && rect.height >= 0
    case InsertHostChild(node, parent, index) =>
      && (|| CreatedBefore(t.operations, i, node)
          || (t.batchIndex > 0 && FindSlot(slots, t.surface, node).Some?))
      && ExistsOrCreated(slots, t, parent, i)
    case MoveHost(node, parent, index) => MoveOk(slots, f, t.surface, node, parent)
    case RemoveHost(node) => FindSlot(slots, t.surface, node).Some?
  }

  predicate HeaderOk(maxOperations: nat, t: Transaction) {
    && 0 < |t.operations| <= maxOperations && !t.source.truncated
    && t.batchIndex < t.batchCount && (t.isFinal <==> t.batchIndex + 1 == t.batchCount)
    && !(t.batchCount > 1 && t.full && t.batchIndex != 0)
    && 0 < |t.source.chars| <= MAX_PROPERTY_TEXT
  }

  /** A full mount creates something and neither moves nor removes. */
  predicate FullShape(operations: seq<Operation>) {
    && (exists i :: 0 <= i < |operations| && operations[i].CreateHost?)
    && (forall i :: 0 <= i < |operations| ==> !operations[i].MoveHost? && !operations[i].RemoveHost?)
  }

  predicate Preflight(maxOperations: nat, slots: Slots, f: Forest, t: Transaction) {
    && HeaderOk(maxOperations, t)
    && (t.full ==> FullShape(t.operations))
    && forall i :: 0 <= i < |t.operations| ==> OperationOk(slots, f, t, i)
  }

  // ----- Commit -----

  /** A value of the right form for a property of a host of this type. */
  predicate PropertyFits(kind: HostType, name: string, value: Value) {
    match name
    case "text" => value.Words?
    case "enabled" => value.Flag? && (kind.Button? || kind.Input? || kind.Switch?)
    case "checked" => value.Flag? && kind.Switch?
    case "min" => value.Number? && kind.Slider?
    case "max" => value.Number? && kind.Slider?
    case "step" => value.Number? && kind.Slider?
    case "value" => (kind.Input? && value.Words?) || (kind.Slider? && value.Number?)
    case "mode" => value.Words? && kind.Picker? && value.text.chars == "text"
    case "range" => value.Words? && kind.Picker?
    case "selected" =>
      value.Number? && (kind.Picker? || kind.Tabs?) && 0.0 <= value.number <= 4294967295.0
      && value.number == value.number.Floor as real
    case "items" => value.Words? && kind.Tabs? && !value.text.truncated && value.text.chars != ""
    case "src" => value.Words? && kind.Image?
    case "backgroundColor" => value.Words?
    case "color" => value.Words?
    case "borderRadius" => value.Integer? && value.integer >= 0
    case "textAlign" => value.Words?
    case _ => false
  }

  /** One step of a commit and whether it succeeded; a failed step may leave something behind. */
  datatype Step = Step(ok: bool, s: State)

  /** The font of a size for the slot, in place of the one it holds. */
  function GiveFont(native: Native, s: State, i: nat, size: int): Step
    requires i < |s.slots| && s.slots[i].Some?
  {
    var slot := s.slots[i].value;
    var a := AcquireFont(native, s.fonts, s.forest.clock, size);
    var acquired := s.(fonts := a.fonts, forest := s.forest.(clock := a.clock));
    if a.font.None? then Step(false, acquired)
    else
      Step(true, acquired.(
        fonts := if slot.font.Some? then ReleaseFont(a.fonts, slot.font.value) else a.fonts,
        slots := s.slots[i := Some(slot.(font := a.font))]))
  }

  /** A slot with a new, childless widget under its surface's root. */
  function PlaceSlot(s: State, i: nat, slot: Slot): State
    requires i < |s.slots|
  {
    s.(forest := AddWidget(Tick(s.forest), slot.widget, Root(slot.surface)),
       slots := s.slots[i := Some(slot)])
  }

  function TickState(s: State): State {
    s.(forest := Tick(s.forest))
  }

  /** A slot in the first free place with a new widget, and the default font unless it is a view.
      A button's label may fail after the slot is taken. */
  function CommitCreate(native: Native, s: State, surface: SurfaceId, node: NodeId, kind: HostType, attached: bool): Step {
    var free := FreeFrom(s.slots, 0);
    if free.None? then Step(false, s)
    else if !native.create(s.forest.clock) then Step(false, TickState(s))
    else
      var placed := PlaceSlot(
        s, free.value, Slot(surface, node, kind, Host(surface, s.forest.clock), attached, None));
      var captioned := if kind.Button? then TickState(placed) else placed;
      if kind.Button? && !native.caption(placed.forest.clock) then Step(false, captioned)
      else if kind.View? then Step(true, captioned)
      else GiveFont(native, captioned, free.value, DEFAULT_FONT_SIZE)
  }

  function CommitFontSize(native: Native, s: State, i: nat, value: Value): Step
    requires i < |s.slots| && s.slots[i].Some?
  {
    var slot := s.slots[i].value;
    if !value.Integer? || slot.kind.View? then Step(false, s)
    else if slot.font.Some? && slot.font.value < |s.fonts|
            && s.fonts[slot.font.value].live && s.fonts[slot.font.value].size == value.integer then
      Step(true, s)
    else GiveFont(native, s, i, value.integer)
  }

  function CommitProp(native: Native, s: State, surface: SurfaceId, node: NodeId, name: string, value: Value): Step {
    var target := FindSlot(s.slots, surface, node);
    if target.None? then Step(false, s)
    else if name == "fontSize" then CommitFontSize(native, s, target.value, value)
    else
      var slot := s.slots[target.value].value;
      if slot.widget !in s.forest.widgets then Step(false, s)
      else
        var ok := PropertyFits(slot.kind, name, value)
                  && native.accepts(s.forest.clock, slot.kind, name, value, s.forest.widgets[slot.widget].props);
        Step(ok, if ok then s.(forest := Tick(SetWidgetProp(s.forest, slot.widget, name, value)))
                 else s.(forest := Tick(s.forest)))
  }

  function CommitLayout(s: State, surface: SurfaceId, node: NodeId, rect: Rect): Step {
    var target := FindSlot(s.slots, surface, node);
    if target.None? || s.slots[target.value].value.widget !in s.forest.widgets then Step(false, s)
    else Step(true, s.(forest := SetWidgetRect(s.forest, s.slots[target.value].value.widget, rect)))
  }

  function CommitInsert(s: State, surface: SurfaceId, node: NodeId, parent: NodeId, index: nat): Step {
    var child, target := FindSlot(s.slots, surface, node), FindSlot(s.slots, surface, parent);
    if child.None? || target.None? || s.slots[child.value].value.attached
       || s.slots[child.value].value.widget !in s.forest.widgets then Step(false, s)
    else
      var slot := s.slots[child.value].value;
      Step(true, s.(
        forest := Reparent(s.forest, slot.widget, s.slots[target.value].value.widget, index),
        slots := s.slots[child.value := Some(slot.(attached := true))]))
  }

  function CommitMove(s: State, surface: SurfaceId, node: NodeId, parent: NodeId, index: nat): Step {
    var child, target := FindSlot(s.slots, surface, node), FindSlot(s.slots, surface, parent);
    if child.None? || target.None? || child.value == target.value
       || s.slots[child.value].value.widget !in s.forest.widgets then Step(false, s)
    else
      Step(true, s.(forest := Reparent(
        s.forest, s.slots[child.value].value.widget, s.slots[target.value].value.widget, index)))
  }

  function CommitRemove(s: State, surface: SurfaceId, node: NodeId): Step {
    var target := FindSlot(s.slots, surface, node);
    if target.None? then Step(false, s) else Step(true, DestroySlot(s, target.value))
  }

  function Commit(native: Native, s: State, surface: SurfaceId, first: bool, op: Operation): Step {
    match op
    case CreateHost(node, kind) => CommitCreate(native, s, surface, node, kind, first)
    case SetHostProp(node, property, value) => CommitProp(native, s, surface, node, property.chars, value)
    case SetHostLayout(node, rect) => CommitLayout(s, surface, node, rect)
    case InsertHostChild(node, parent, index) => CommitInsert(s, surface, node, parent, index)
    case MoveHost(node, parent, index) => CommitMove(s, surface, node, parent, index)
    case RemoveHost(node) => CommitRemove(s, surface, node)
  }

  type Stepper = (State, bool, Operation) -> Step

  function Committer(native: Native, surface: SurfaceId): Stepper {
    (s, first, op) => Commit(native, s, surface, first, op)
  }

  /** Runs the first `n` operations in order, as far as they succeed. `head` says that the first
      operation opens a full mount. */
  function RunSteps(step: Stepper, s: State, head: bool, operations: seq<Operation>, n: nat): Step
    requires n <= |operations|
  {
    if n == 0 then Step(true, s)
    else
      var before := RunSteps(step, s, head, operations, n - 1);
      if !before.ok then before else step(before.s, head && n == 1, operations[n - 1])
  }

  function CommitUpTo(native: Native, s: State, surface: SurfaceId, head: bool, operations: seq<Operation>, n: nat): Step
    requires n <= |operations|
  {
    RunSteps(Committer(native, surface), s, head, operations, n)
  }

  /** The whole transaction: preflight, clearing a full mount's surface, commit, and on failure
      clearing the surface again. */
  function Execute(native: Native, maxOperations: nat, rootOk: bool, s: State, t: Transaction): Step {
    if !rootOk || !Preflight(maxOperations, s.slots, s.forest, t) then
      Step(false, if t.batchCount > 1 then DestroySurface(s, t.surface) else s)
    else
      var start := if t.full then DestroySurface(s, t.surface) else s;
      var done := CommitUpTo(native, start, t.surface, t.full, t.operations, |t.operations|);
      if done.ok then done else Step(false, DestroySurface(done.s, t.surface))
  }
}
