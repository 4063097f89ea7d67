/** The virtual list's window: which rows of the full list have a physical slot, and which slot. */
module VirtualLists {
  import opened Wrappers
  import FixedPoint

  const INT32_MAX := 0x7FFF_FFFF
  const MAX_PHYSICAL_SLOTS := 4096

  datatype ListError = AbiInvalidArgument | LifecycleBusy | OutOfMemory

  datatype Item = Item(index: nat, key: string, slot: nat, y: int)

  datatype Window = Window(first: nat, last: nat, offset: int, items: seq<Item>)

  const NO_WINDOW := Window(0, 0, 0, [])

  datatype List = List(maxSlots: nat, rowHeight: int, viewportHeight: int, keys: seq<string>, window: Window)

  predicate Configured(l: List) {
    |l.keys| > 0 && l.rowHeight > 0 && l.viewportHeight > 0
  }

  function ContentHeight(l: List): int {
    if l.rowHeight > 0 && |l.keys| <= INT32_MAX / l.rowHeight then |l.keys| * l.rowHeight else INT32_MAX
  }

  function Clamped(l: List, offset: int): (r: int) {
    var most := if ContentHeight(l) - l.viewportHeight > 0 then ContentHeight(l) - l.viewportHeight else 0;
    if offset < 0 then 0 else if offset > most then most else offset
  }

  function Visible(l: List): int
    requires l.rowHeight > 0
  {
    (l.viewportHeight + l.rowHeight - 1) / l.rowHeight
  }

  function First(l: List, offset: int): (r: nat)
    requires l.rowHeight > 0
  {
    Clamped(l, offset) / l.rowHeight
  }

  function Last(l: List, offset: int): int
    requires l.rowHeight > 0
  {
    if First(l, offset) + Visible(l) + 1 < |l.keys| then First(l, offset) + Visible(l) + 1 else |l.keys|
  }

  /** The slot an old row of this key has, if it has one that is not used again already. */
  function OldSlot(items: seq<Item>, key: string, used: seq<nat>, i: nat): (r: Option<nat>)
    requires i <= |items|
    decreases |items| - i
  {
    if i == |items| then None
    else if items[i].key == key && items[i].slot !in used then Some(items[i].slot)
    else OldSlot(items, key, used, i + 1)
  }

  function FreeSlot(used: seq<nat>, maxSlots: nat, i: nat): (r: Option<nat>)
    requires i <= maxSlots
    ensures r.Some? ==> i <= r.value < maxSlots && r.value !in used
    ensures r.None? ==> forall k :: i <= k < maxSlots ==> k in used
    decreases maxSlots - i
  {
    if i == maxSlots then None else if i !in used then Some(i) else FreeSlot(used, maxSlots, i + 1)
  }

  function NextSlot(items: seq<Item>, key: string, used: seq<nat>, maxSlots: nat): Option<nat> {
    var kept := OldSlot(items, key, used, 0);
    if kept.Some? then kept else FreeSlot(used, maxSlots, 0)
  }

  /** The slots of the first `n` rows of a window that starts at `first`. */
  function Slots(items: seq<Item>, keys: seq<string>, first: nat, n: nat, maxSlots: nat): Option<seq<nat>>
    requires first + n <= |keys|
  {
    if n == 0 then Some([])
    else
      var before := Slots(items, keys, first, n - 1, maxSlots);
      if before.None? then None
      else
        var slot := NextSlot(items, keys[first + n - 1], before.value, maxSlots);
        if slot.None? then None else Some(before.value + [slot.value])
  }

  function Items(keys: seq<string>, first: nat, slots: seq<nat>, rowHeight: int): (r: seq<Item>)
    requires first + |slots| <= |keys|
    ensures |r| == |slots|
  {
    seq(|slots|, k requires 0 <= k < |slots| => Item(first + k, keys[first + k], slots[k], (first + k) * rowHeight))
  }

  /** The window at a scroll offset, in which rows seen before keep their slots if they can. */
  function Rebuilt(l: List, offset: int): Result<List, ListError>
    requires l.rowHeight > 0
  {
    var first, last := First(l, offset), Last(l, offset);
    if last - first > l.maxSlots || last < first then Failure(OutOfMemory)
    else
      var slots := Slots(l.window.items, l.keys, first, last - first, l.maxSlots);
      if slots.None? || |slots.value| != last - first then Failure(OutOfMemory)
      else
        Success(l.(window := Window(first, last, Clamped(l, offset), Items(l.keys, first, slots.value, l.rowHeight))))
  }

  predicate Unique(keys: seq<string>) {
    forall i, j :: 0 <= i < j < |keys| ==> keys[i] != keys[j]
  }

  predicate Acceptable(maxSlots: nat, count: nat, rowHeight: int, viewportHeight: int, keys: seq<string>) {
    && 0 < maxSlots <= MAX_PHYSICAL_SLOTS && rowHeight > 0 && viewportHeight > 0
    && count > 0 && |keys| == count && count <= INT32_MAX / rowHeight
  }

  function Reset(l: List): List {
    l.(rowHeight := 0, viewportHeight := 0, keys := [], window := NO_WINDOW)
  }

  function Configure(l: List, count: nat, rowHeight: int, viewportHeight: int, keys: seq<string>): (Option<ListError>, List)
  {
    if !Acceptable(l.maxSlots, count, rowHeight, viewportHeight, keys) || !Unique(keys) then (Some(AbiInvalidArgument), l)
    else
      var start := l.(rowHeight := rowHeight, viewportHeight := viewportHeight, keys := keys, window := NO_WINDOW);
      match Rebuilt(start, 0)
      case Success(built) => (None, built)
      case Failure(error) => (Some(error), Reset(start))
  }

  function ScrollTo(l: List, offset: int): (Option<ListError>, List) {
    if !Configured(l) then (Some(LifecycleBusy), l)
    else
      match Rebuilt(l, offset)
      case Success(built) => (None, built)
      case Failure(error) => (Some(error), l)
  }

  function ItemOf(items: seq<Item>, index: int, i: nat): Option<Item>
    requires i <= |items|
    decreases |items| - i
  {
    if i == |items| then None else if items[i].index == index then Some(items[i]) else ItemOf(items, index, i + 1)
  }

  /** The row under a point of the viewport. */
  function HitTest(l: List, y: int): Option<Item> {
    if y < 0 || l.window.offset + y < 0 || l.rowHeight <= 0 then None
    else
      var index := (l.window.offset + y) / l.rowHeight;
      if index < l.window.first || index >= l.window.last then None else ItemOf(l.window.items, index, 0)
  }

  // ----- What every window keeps -----

  /** The window's rows are a range of the list, each under its key, in distinct slots within the
      budget. */
  ghost predicate WindowOk(l: List) {
    var w := l.window;
    && w.first <= w.last <= |l.keys| && |w.items| == w.last - w.first <= l.maxSlots
    && (forall k :: 0 <= k < |w.items| ==>
          && w.items[k].index == w.first + k && w.items[k].key == l.keys[w.first + k]
          && w.items[k].slot < l.maxSlots && w.items[k].y == (w.first + k) * l.rowHeight)
    && (forall j, k :: 0 <= j < k < |w.items| ==> w.items[j].slot != w.items[k].slot)
  }

  /** A list in use: what configure accepted, and a window at an offset within the content. */
  ghost predicate ListOk(l: List) {
    && Unique(l.keys) && WindowOk(l)
    && (Configured(l) ==>
          && l.maxSlots > 0 && |l.keys| <= INT32_MAX / l.rowHeight
          && l.window.offset == Clamped(l, l.window.offset)
          && l.window.first == First(l, l.window.offset) && l.window.last == Last(l, l.window.offset))
    && (!Configured(l) ==> l.window == NO_WINDOW)
  }

  ghost predicate Distinct(slots: seq<nat>) {
    forall i, j :: 0 <= i < j < |slots| ==> slots[i] != slots[j]
  }

  lemma {:induction false} OldSlotFound(items: seq<Item>, key: string, used: seq<nat>, i: nat)
    requires i <= |items|
    ensures var r := OldSlot(items, key, used, i);
            && (r.Some? ==> r.value !in used
                            && exists k :: i <= k < |items| && items[k].key == key && items[k].slot == r.value)
            && (r.None? ==> forall k :: i <= k < |items| && items[k].key == key ==> items[k].slot in used)
    decreases |items| - i
  {
    if i < |items| {
      OldSlotFound(items, key, used, i + 1);
    }
  }

  function Below(n: nat): set<nat> {
    if n == 0 then {} else Below(n - 1) + {n - 1}
  }

  lemma {:induction false} BelowIs(n: nat)
    ensures |Below(n)| == n && forall k: nat :: k in Below(n) <==> k < n
  {
    if n > 0 {
      BelowIs(n - 1);
    }
  }

  function Taken(used: seq<nat>): set<nat> {
    if used == [] then {} else Taken(used[1..]) + {used[0]}
  }

  lemma {:induction false} TakenIs(used: seq<nat>)
    ensures |Taken(used)| <= |used| && forall k :: k in used ==> k in Taken(used)
  {
    if used != [] {
      TakenIs(used[1..]);
    }
  }

  lemma {:induction false} SubsetSize(a: set<nat>, b: set<nat>)
    requires a <= b
    ensures |a| <= |b|
    decreases a
  {
    if a != {} {
      var x :| x in a;
      SubsetSize(a - {x}, b - {x});
    }
  }

  /** Fewer slots than the budget leave one free. */
  lemma SomeSlotFree(used: seq<nat>, maxSlots: nat)
    requires |used| < maxSlots
    ensures FreeSlot(used, maxSlots, 0).Some?
  {
    BelowIs(maxSlots);
    TakenIs(used);
    if FreeSlot(used, maxSlots, 0).None? {
      SubsetSize(Below(maxSlots), Taken(used));
    }
  }

  /** Within the budget every row gets a slot, and no two the same. */
  lemma {:induction false} SlotsSucceed(l: List, first: nat, n: nat)
    requires WindowOk(l) && first + n <= |l.keys| && n <= l.maxSlots
    ensures var r := Slots(l.window.items, l.keys, first, n, l.maxSlots);
            r.Some? && |r.value| == n && Distinct(r.value) && forall k :: 0 <= k < n ==> r.value[k] < l.maxSlots
  {
    if n > 0 {
      SlotsSucceed(l, first, n - 1);
      var before := Slots(l.window.items, l.keys, first, n - 1, l.maxSlots).value;
      OldSlotFound(l.window.items, l.keys[first + n - 1], before, 0);
      SomeSlotFree(before, l.maxSlots);
    }
  }

  // ----- Windows within the content -----

  lemma DivBelow(a: nat, b: int, n: int)
    requires b > 0 && a < n * b
    ensures a / b < n
  {
    FixedPoint.QuotientBounds(a, b);
    FixedPoint.MulLess(a / b, n, b);
  }

  lemma ContentFits(l: List)
    requires Configured(l) && |l.keys| <= INT32_MAX / l.rowHeight
    ensures ContentHeight(l) == |l.keys| * l.rowHeight <= INT32_MAX
  {
    FixedPoint.QuotientBounds(INT32_MAX, l.rowHeight);
    FixedPoint.MulMonotone(|l.keys|, INT32_MAX / l.rowHeight, l.rowHeight);
  }

  /** The first row of a window is a row of the list. */
  lemma FirstInList(l: List, offset: int)
    requires Configured(l) && |l.keys| <= INT32_MAX / l.rowHeight
    ensures First(l, offset) < |l.keys| && First(l, offset) < Last(l, offset) <= |l.keys|
  {
    FixedPoint.MulMonotone(1, |l.keys|, l.rowHeight);
    ContentFits(l);
    DivBelow(Clamped(l, offset), l.rowHeight, |l.keys|);
    FixedPoint.QuotientBounds(l.viewportHeight + l.rowHeight - 1, l.rowHeight);
  }

  /** Rows in distinct slots within the budget make a window. */
  lemma WindowOfSlots(l: List, first: nat, offset: int, slots: seq<nat>)
    requires first + |slots| <= |l.keys| && |slots| <= l.maxSlots && Distinct(slots)
    requires forall k :: 0 <= k < |slots| ==> slots[k] < l.maxSlots
    ensures WindowOk(l.(window := Window(first, first + |slots|, offset, Items(l.keys, first, slots, l.rowHeight))))
  {
  }

  lemma RebuiltOk(l: List, offset: int)
    requires Configured(l) && Unique(l.keys) && WindowOk(l) && l.maxSlots > 0 && |l.keys| <= INT32_MAX / l.rowHeight
    ensures var r := Rebuilt(l, offset);
            && (r.Success? <==> Last(l, offset) - First(l, offset) <= l.maxSlots)
            && (r.Success? ==> ListOk(r.value) && Configured(r.value) && r.value.window.offset == Clamped(l, offset))
  {
    FirstInList(l, offset);
    var first, last := First(l, offset), Last(l, offset);
    if last - first <= l.maxSlots {
      SlotsSucceed(l, first, last - first);
      WindowOfSlots(l, first, Clamped(l, offset), Slots(l.window.items, l.keys, first, last - first, l.maxSlots).value);
    }
  }

  // ----- Hit test -----

  lemma {:induction false} ItemOfFound(items: seq<Item>, first: nat, index: int, i: nat)
    requires i <= |items| && forall k :: 0 <= k < |items| ==> items[k].index == first + k
    requires first + i <= index < first + |items|
    ensures ItemOf(items, index, i) == Some(items[index - first])
    decreases |items| - i
  {
    if items[i].index != index {
      ItemOfFound(items, first, index, i + 1);
    }
  }

  lemma OnRow(x: nat, q: nat, d: int)
    requires d > 0
    ensures x / d == q <==> q * d <= x < q * d + d
  {
    FixedPoint.QuotientBounds(x, d);
    if q * d <= x < q * d + d {
      FixedPoint.MulLess(q, x / d + 1, d);
      FixedPoint.MulLess(x / d, q + 1, d);
    }
  }

  /** A hit is exactly the row of the window that the point lies on. */
  lemma HitIsExact(l: List, y: nat, item: Item)
    requires WindowOk(l) && l.rowHeight > 0 && l.window.offset >= 0
    ensures HitTest(l, y) == Some(item)
       <==> item in l.window.items && item.y <= l.window.offset + y < item.y + l.rowHeight
  {
    var w := l.window;
    forall k | 0 <= k < |w.items|
      ensures (w.offset + y) / l.rowHeight == w.items[k].index
         <==> w.items[k].y <= w.offset + y < w.items[k].y + l.rowHeight
    {
      OnRow(w.offset + y, w.first + k, l.rowHeight);
    }
    HitIsIndexed(l, y, item);
  }

  lemma HitIsIndexed(l: List, y: nat, item: Item)
    requires WindowOk(l) && l.rowHeight > 0 && l.window.offset >= 0
    ensures HitTest(l, y) == Some(item)
       <==> item in l.window.items && item.index == (l.window.offset + y) / l.rowHeight
  {
    var w := l.window;
    var index := (w.offset + y) / l.rowHeight;
    if w.first <= index < w.last {
      ItemOfFound(w.items, w.first, index, 0);
    }
  }

  /** A point of the viewport lies on a row no further than the rows visible at once. */
  lemma RowsReach(offset: nat, y: nat, viewport: int, row: int)
    requires row > 0 && y < viewport
    ensures offset / row <= (offset + y) / row < offset / row + (viewport + row - 1) / row + 1
  {
    var q, v := offset / row, (viewport + row - 1) / row;
    FixedPoint.QuotientBounds(offset, row);
    FixedPoint.QuotientBounds(viewport + row - 1, row);
    assert offset + y < (q + 1) * row + v * row == (q + 1 + v) * row;
    DivBelow(offset + y, row, q + 1 + v);
    FixedPoint.DivMonotone(offset, offset + y, row);
  }

  /** Every point of the viewport that lies on content hits the row there. */
  lemma ViewportHits(l: List, y: nat)
    requires ListOk(l) && Configured(l) && y < l.viewportHeight && l.window.offset + y < ContentHeight(l)
    ensures HitTest(l, y).Some? && HitTest(l, y).value.index == (l.window.offset + y) / l.rowHeight
  {
    ContentFits(l);
    DivBelow(l.window.offset + y, l.rowHeight, |l.keys|);
    RowsReach(l.window.offset, y, l.viewportHeight, l.rowHeight);
    InWindowHits(l, y);
  }

  lemma InWindowHits(l: List, y: nat)
    requires WindowOk(l) && l.rowHeight > 0 && l.window.offset >= 0
    requires l.window.first <= (l.window.offset + y) / l.rowHeight < l.window.last
    ensures HitTest(l, y).Some? && HitTest(l, y).value.index == (l.window.offset + y) / l.rowHeight
  {
    ItemOfFound(l.window.items, l.window.first, (l.window.offset + y) / l.rowHeight, 0);
  }

  // ----- Slots of rows that stay -----

  lemma {:induction false} OldSlotIs(items: seq<Item>, key: string, used: seq<nat>, i: nat, j: nat)
    requires i <= j < |items| && items[j].key == key && items[j].slot !in used
    requires forall k :: 0 <= k < |items| && k != j ==> items[k].key != key
    ensures OldSlot(items, key, used, i) == Some(items[j].slot)
    decreases j - i
  {
    if i < j {
      OldSlotIs(items, key, used, i + 1, j);
    }
  }

  lemma {:induction false} NoOldSlot(items: seq<Item>, key: string, used: seq<nat>, i: nat)
    requires i <= |items| && forall k :: 0 <= k < |items| ==> items[k].key != key
    ensures OldSlot(items, key, used, i) == None
    decreases |items| - i
  {
    if i < |items| {
      NoOldSlot(items, key, used, i + 1);
    }
  }

  lemma {:induction false} FreeSlotIs(used: seq<nat>, maxSlots: nat, i: nat, n: nat)
    requires i <= n < maxSlots && n !in used && forall k :: 0 <= k < n ==> k in used
    ensures FreeSlot(used, maxSlots, i) == Some(n)
    decreases n - i
  {
    if i < n {
      FreeSlotIs(used, maxSlots, i + 1, n);
    }
  }

  /** How many rows of the window at `first` come before the rows of the old window. */
  function RowsInFront(l: List, first: nat): nat {
    if first < l.window.first then l.window.first - first else 0
  }

  /** 0, 1, 2, and so on. */
  function Ladder(n: nat): (r: seq<nat>)
    ensures |r| == n && forall k :: 0 <= k < n ==> r[k] == k
    ensures forall k: nat :: k in r <==> k < n
  {
    if n == 0 then [] else Ladder(n - 1) + [n - 1]
  }

  /** Rows in front of the old window take the lowest slots, in order. */
  lemma {:induction false} FrontSlots(l: List, first: nat, n: nat)
    requires WindowOk(l) && Unique(l.keys) && first + n <= |l.keys| && n <= l.maxSlots && n <= RowsInFront(l, first)
    ensures Slots(l.window.items, l.keys, first, n, l.maxSlots) == Some(Ladder(n))
  {
    if n > 0 {
      FrontSlots(l, first, n - 1);
      NoOldSlot(l.window.items, l.keys[first + n - 1], Ladder(n - 1), 0);
      FreeSlotIs(Ladder(n - 1), l.maxSlots, 0, n - 1);
    }
  }

  lemma {:induction false} SlotsPrefix(items: seq<Item>, keys: seq<string>, first: nat, m: nat, n: nat, maxSlots: nat)
    requires m <= n && first + n <= |keys| && Slots(items, keys, first, n, maxSlots).Some?
    ensures Slots(items, keys, first, m, maxSlots).Some?
    ensures Slots(items, keys, first, m, maxSlots).value <= Slots(items, keys, first, n, maxSlots).value
    ensures |Slots(items, keys, first, n, maxSlots).value| == n
  {
    if n > 0 {
      if m < n {
        SlotsPrefix(items, keys, first, m, n - 1, maxSlots);
      } else {
        SlotsPrefix(items, keys, first, m - 1, n - 1, maxSlots);
      }
    }
  }

  /** The row `first + n`, if it was in the old window, keeps its slot unless a row before it has got
      that. */
  lemma RetainedSlot(l: List, index: nat, used: seq<nat>)
    requires WindowOk(l) && Unique(l.keys) && l.window.first <= index < l.window.last
    requires l.window.items[index - l.window.first].slot !in used
    ensures NextSlot(l.window.items, l.keys[index], used, l.maxSlots)
         == Some(l.window.items[index - l.window.first].slot)
  {
    OldSlotIs(l.window.items, l.keys[index], used, 0, index - l.window.first);
  }

  /** Where the row `first + k` was in the old window. */
  predicate Retained(l: List, first: nat, k: nat) {
    l.window.first <= first + k < l.window.last
  }

  function KeptSlot(l: List, first: nat, k: nat): nat
    requires |l.window.items| == l.window.last - l.window.first && Retained(l, first, k)
  {
    l.window.items[first + k - l.window.first].slot
  }

  /** If no row that stays has one of the lowest slots, which the rows in front take, then the rows
      that stay keep their slots. */
  lemma {:induction false} SlotsKept(l: List, first: nat, n: nat)
    requires WindowOk(l) && Unique(l.keys) && first + n <= |l.keys| && n <= l.maxSlots
    requires n <= RowsInFront(l, first) || Retained(l, first, n - 1)
    requires forall k :: 0 <= k < n && Retained(l, first, k) ==> KeptSlot(l, first, k) >= RowsInFront(l, first)
    ensures var r := Slots(l.window.items, l.keys, first, n, l.maxSlots);
            && r.Some? && |r.value| == n
            && forall k :: 0 <= k < n ==>
                 r.value[k] == (if k < RowsInFront(l, first) then k else KeptSlot(l, first, k))
  {
    if n <= RowsInFront(l, first) {
      FrontSlots(l, first, n);
    } else {
      SlotsKept(l, first, n - 1);
      var before := Slots(l.window.items, l.keys, first, n - 1, l.maxSlots).value;
      RetainedSlot(l, first + n - 1, before);
    }
  }

  /** The rows of a window got their slots with regard to the old window's. */
  ghost predicate LaidOut(l: List, next: List) {
    && WindowOk(l) && WindowOk(next) && Unique(l.keys) && next.keys == l.keys && next.maxSlots == l.maxSlots
    && var w := next.window;
       var slots := Slots(l.window.items, l.keys, w.first, w.last - w.first, l.maxSlots);
       slots.Some? && |slots.value| == |w.items| && forall k :: 0 <= k < |w.items| ==> w.items[k].slot == slots.value[k]
  }

  lemma RebuiltIsLaidOut(l: List, offset: int)
    requires ListOk(l) && Configured(l) && Rebuilt(l, offset).Success?
    ensures LaidOut(l, Rebuilt(l, offset).value)
  {
    RebuiltOk(l, offset);
  }

  /** The row is in both windows. */
  predicate Stays(l: List, next: List, index: nat) {
    l.window.first <= index < l.window.last && next.window.first <= index < next.window.last
  }

  /** A row in both windows keeps its slot. */
  ghost predicate KeepsSlot(l: List, next: List, index: nat)
    requires WindowOk(l) && WindowOk(next)
  {
    Stays(l, next, index) ==>
      next.window.items[index - next.window.first].slot == l.window.items[index - l.window.first].slot
  }

  /** No row that stays has a slot below the number of rows that come in front. */
  ghost predicate SlotsClear(l: List, next: List)
    requires WindowOk(l) && WindowOk(next)
  {
    forall index: nat :: Stays(l, next, index) ==>
      l.window.items[index - l.window.first].slot >= RowsInFront(l, next.window.first)
  }

  lemma StaysPut(l: List, next: List, index: nat)
    requires LaidOut(l, next) && SlotsClear(l, next) && Stays(l, next, index)
    ensures KeepsSlot(l, next, index)
  {
    var first, last := next.window.first, next.window.last;
    var n := index - first + 1;
    forall k | 0 <= k < n && Retained(l, first, k) ensures KeptSlot(l, first, k) >= RowsInFront(l, first) {
      assert Stays(l, next, first + k);
    }
    SlotsKept(l, first, n);
    SlotsPrefix(l.window.items, l.keys, first, n, last - first, l.maxSlots);
  }

  lemma LosesSlot(l: List, next: List, index: nat)
    requires LaidOut(l, next) && Stays(l, next, index)
    requires l.window.items[index - l.window.first].slot < RowsInFront(l, next.window.first)
    ensures !KeepsSlot(l, next, index)
  {
    var first, last := next.window.first, next.window.last;
    var d := RowsInFront(l, first);
    var slot := l.window.items[index - l.window.first].slot;
    FrontSlots(l, first, d);
    SlotsPrefix(l.window.items, l.keys, first, d, last - first, l.maxSlots);
    assert next.window.items[slot].slot == slot;
  }

  /** Rows that stay all keep their slots exactly when none of them has a slot that a row coming in
      front takes first; rows in front take as many of the lowest slots as they are. */
  lemma SlotsStableIff(l: List, next: List)
    requires LaidOut(l, next)
    ensures (forall index: nat :: KeepsSlot(l, next, index)) <==> SlotsClear(l, next)
  {
    if SlotsClear(l, next) {
      forall index: nat ensures KeepsSlot(l, next, index) {
        if Stays(l, next, index) {
          StaysPut(l, next, index);
        }
      }
    } else {
      var index: nat :| Stays(l, next, index)
                        && l.window.items[index - l.window.first].slot < RowsInFront(l, next.window.first);
      LosesSlot(l, next, index);
    }
  }

  lemma FirstGrows(l: List, offset: int)
    requires ListOk(l) && Configured(l) && offset >= l.window.offset
    ensures First(l, offset) >= l.window.first
  {
    FixedPoint.DivMonotone(l.window.offset, Clamped(l, offset), l.rowHeight);
  }

  /** A scroll keeps the slots of all rows that stay under that condition, and a scroll forward
      always does. */
  lemma ScrollKeepsSlots(l: List, offset: int)
    requires ListOk(l) && Configured(l) && Rebuilt(l, offset).Success?
    ensures LaidOut(l, Rebuilt(l, offset).value)
    ensures (forall index: nat :: KeepsSlot(l, Rebuilt(l, offset).value, index))
       <==> SlotsClear(l, Rebuilt(l, offset).value)
    ensures offset >= l.window.offset ==> forall index: nat :: KeepsSlot(l, Rebuilt(l, offset).value, index)
  {
    RebuiltIsLaidOut(l, offset);
    SlotsStableIff(l, Rebuilt(l, offset).value);
    if offset >= l.window.offset {
      FirstGrows(l, offset);
    }
  }

  /** Four rows of height ten in a viewport of ten, of which two get slots. */
  function FourRows(): List {
    Configure(List(2, 0, 0, [], NO_WINDOW), 4, 10, 10, ["a", "b", "c", "d"]).1
  }

  function FourRowsAt(offset: nat, items: seq<Item>): List {
    List(2, 10, 10, ["a", "b", "c", "d"], Window(offset / 10, offset / 10 + 2, offset, items))
  }

  lemma RowsAt(items: seq<Item>, offset: nat)
    requires offset == 0 || offset == 10 || offset == 20
    ensures var l := FourRowsAt(offset, items);
            ContentHeight(l) == 40
            && First(l, 0) == 0 && Last(l, 0) == 2 && First(l, 10) == 1 && Last(l, 10) == 3
            && First(l, 20) == 2 && Last(l, 20) == 4
  {
  }

  lemma TwoSlots(items: seq<Item>, keys: seq<string>, first: nat, a: nat, b: nat)
    requires first + 2 <= |keys|
    requires NextSlot(items, keys[first], [], 2) == Some(a) && NextSlot(items, keys[first + 1], [a], 2) == Some(b)
    ensures Slots(items, keys, first, 2, 2) == Some([a, b])
  {
    assert Slots(items, keys, first, 0, 2) == Some([]);
    assert [] + [a] == [a] && Slots(items, keys, first, 1, 2) == Some([a]);
    assert [a] + [b] == [a, b];
  }

  lemma RowsConfigured()
    ensures FourRows() == FourRowsAt(0, [Item(0, "a", 0, 0), Item(1, "b", 1, 10)])
  {
    var start := List(2, 10, 10, ["a", "b", "c", "d"], NO_WINDOW);
    assert FreeSlot([0], 2, 1) == Some(1);
    TwoSlots([], start.keys, 0, 0, 1);
    assert Rebuilt(start, 0) == Success(FourRowsAt(0, Items(start.keys, 0, [0, 1], 10)));
    assert Items(start.keys, 0, [0, 1], 10) == [Item(0, "a", 0, 0), Item(1, "b", 1, 10)];
  }

  lemma RowsAtTen()
    ensures var l := FourRowsAt(0, [Item(0, "a", 0, 0), Item(1, "b", 1, 10)]);
            ScrollTo(l, 10).1 == FourRowsAt(10, [Item(1, "b", 1, 10), Item(2, "c", 0, 20)])
  {
    var l := FourRowsAt(0, [Item(0, "a", 0, 0), Item(1, "b", 1, 10)]);
    RowsAt(l.window.items, 0);
    assert OldSlot(l.window.items, "b", [], 1) == Some(1);
    assert OldSlot(l.window.items, "c", [1], 0) == None;
    TwoSlots(l.window.items, l.keys, 1, 1, 0);
    assert Rebuilt(l, 10) == Success(FourRowsAt(10, Items(l.keys, 1, [1, 0], 10)));
    assert Items(l.keys, 1, [1, 0], 10) == [Item(1, "b", 1, 10), Item(2, "c", 0, 20)];
  }

  lemma RowsAtTwenty()
    ensures var l := FourRowsAt(10, [Item(1, "b", 1, 10), Item(2, "c", 0, 20)]);
            ScrollTo(l, 20).1 == FourRowsAt(20, [Item(2, "c", 0, 20), Item(3, "d", 1, 30)])
  {
    var l := FourRowsAt(10, [Item(1, "b", 1, 10), Item(2, "c", 0, 20)]);
    RowsAt(l.window.items, 10);
    assert OldSlot(l.window.items, "c", [], 1) == Some(0);
    assert OldSlot(l.window.items, "d", [0], 0) == None;
    assert FreeSlot([0], 2, 1) == Some(1);
    TwoSlots(l.window.items, l.keys, 2, 0, 1);
    assert Rebuilt(l, 20) == Success(FourRowsAt(20, Items(l.keys, 2, [0, 1], 10)));
    assert Items(l.keys, 2, [0, 1], 10) == [Item(2, "c", 0, 20), Item(3, "d", 1, 30)];
  }

  lemma BackFromTwenty(l: List)
    requires l == FourRowsAt(20, [Item(2, "c", 0, 20), Item(3, "d", 1, 30)])
    ensures var next := ScrollTo(l, 10).1;
            ListOk(l) && LaidOut(l, next) && Stays(l, next, 2) && !KeepsSlot(l, next, 2)
  {
    RowsAt(l.window.items, 20);
    assert ListOk(l);
    RebuiltOk(l, 10);
    RebuiltIsLaidOut(l, 10);
    LosesSlot(l, Rebuilt(l, 10).value, 2);
  }

  /** After configuring and scrolling forward row by row, scrolling back by one row takes the slot of
      the row that stays. */
  lemma BackwardLosesSlot()
    ensures var l := ScrollTo(ScrollTo(FourRows(), 10).1, 20).1;
            var next := ScrollTo(l, 10).1;
            ListOk(l) && LaidOut(l, next) && Stays(l, next, 2) && !KeepsSlot(l, next, 2)
  {
    RowsConfigured();
    RowsAtTen();
    RowsAtTwenty();
    BackFromTwenty(ScrollTo(ScrollTo(FourRows(), 10).1, 20).1);
  }

  // ----- Every call -----

  lemma ConfigureOk(l: List, count: nat, rowHeight: int, viewportHeight: int, keys: seq<string>)
    requires ListOk(l)
    ensures ListOk(Configure(l, count, rowHeight, viewportHeight, keys).1)
    ensures Configure(l, count, rowHeight, viewportHeight, keys).0.None?
       <==> && Acceptable(l.maxSlots, count, rowHeight, viewportHeight, keys) && Unique(keys)
            && var start := l.(rowHeight := rowHeight, viewportHeight := viewportHeight, keys := keys, window := NO_WINDOW);
               Last(start, 0) - First(start, 0) <= l.maxSlots
  {
    if Acceptable(l.maxSlots, count, rowHeight, viewportHeight, keys) && Unique(keys) {
      RebuiltOk(l.(rowHeight := rowHeight, viewportHeight := viewportHeight, keys := keys, window := NO_WINDOW), 0);
    }
  }

  /** A scroll fails only on a list that is not configured or a window over the budget, and then
      changes nothing. */
  lemma ScrollToOk(l: List, offset: int)
    requires ListOk(l)
    ensures ListOk(ScrollTo(l, offset).1)
    ensures ScrollTo(l, offset).0.None? <==> Configured(l) && Last(l, offset) - First(l, offset) <= l.maxSlots
    ensures ScrollTo(l, offset).0.Some? ==> ScrollTo(l, offset).1 == l
  {
    if Configured(l) {
      RebuiltOk(l, offset);
    }
  }

  /** Where a scroll ends: at the offset asked for where the content reaches that far, at the top for
      one before it, and with the last row at the bottom for one behind; the window starts with the row
      there. Nothing but the window changes. */
  lemma ScrollEndsAt(l: List, offset: int)
    requires ListOk(l) && ScrollTo(l, offset).0.None?
    ensures var r, bottom := ScrollTo(l, offset).1, |l.keys| * l.rowHeight - l.viewportHeight;
            && r == l.(window := r.window)
            && (0 <= offset <= bottom ==> r.window.offset == offset)
            && (offset <= 0 || bottom <= 0 ==> r.window.offset == 0)
            && (0 <= bottom <= offset ==> r.window.offset == bottom)
            && r.window.first * l.rowHeight <= r.window.offset < (r.window.first + 1) * l.rowHeight
  {
    ContentFits(l);
    FixedPoint.QuotientBounds(Clamped(l, offset), l.rowHeight);
  }
}
