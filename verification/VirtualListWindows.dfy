/** The virtual list's window allocator over its fields, with the search loops it runs, against
    VirtualLists. */
module VirtualListWindows {
  import opened Wrappers
  import opened VirtualLists

  /** The window allocator as the object it is. Heights and offsets are 32-bit: callers keep the sums
      of a viewport height and a row height, and of an offset and a point, in range. */
  class VirtualListWindow {
    const maxSlots: nat
    var rowHeight: int
    var viewportHeight: int
    var keys: seq<string>
    var window: Window

    function Abs(): List
      reads this
    {
      List(maxSlots, rowHeight, viewportHeight, keys, window)
    }

    constructor (maxSlots: nat)
      ensures Abs() == List(maxSlots, 0, 0, [], NO_WINDOW) && ListOk(Abs())
    {
      this.maxSlots := maxSlots;
      rowHeight, viewportHeight, keys, window := 0, 0, [], NO_WINDOW;
    }

    method AllUnique(keys: seq<string>) returns (r: bool)
      ensures r == Unique(keys)
    {
      var seen: set<string> := {};
      for i := 0 to |keys|
        invariant seen == set k | k in keys[..i]
        invariant Unique(keys[..i])
      {
        if keys[i] in seen {
          assert exists j :: 0 <= j < i && keys[j] == keys[i];
          return false;
        }
        seen := seen + {keys[i]};
      }
      assert keys[..|keys|] == keys;
      return true;
    }

    /** The slot of the old row with this key, unless it is used again already. */
    method FindOldSlot(key: string, used: seq<nat>) returns (r: Option<nat>)
      ensures r == OldSlot(window.items, key, used, 0)
    {
      for i := 0 to |window.items|
        invariant OldSlot(window.items, key, used, 0) == OldSlot(window.items, key, used, i)
      {
        if window.items[i].key == key && window.items[i].slot !in used { return Some(window.items[i].slot); }
      }
      return None;
    }

    method FindFreeSlot(used: seq<nat>) returns (r: Option<nat>)
      ensures r == FreeSlot(used, maxSlots, 0)
    {
      for candidate := 0 to maxSlots
        invariant FreeSlot(used, maxSlots, 0) == FreeSlot(used, maxSlots, candidate)
      {
        if candidate !in used { return Some(candidate); }
      }
      return None;
    }

    /** Gives a slot to each row of a window in turn; within the budget the search never fails. */
    method LayOut(first: nat, last: nat) returns (slots: seq<nat>)
      requires WindowOk(Abs()) && first <= last <= |keys| && last - first <= maxSlots
      ensures Slots(window.items, keys, first, last - first, maxSlots) == Some(slots) && |slots| == last - first
    {
      slots := [];
      for n := 0 to last - first
        invariant Slots(window.items, keys, first, n, maxSlots) == Some(slots) && |slots| == n
      {
        SlotsSucceed(Abs(), first, n + 1);
        var slot := FindOldSlot(keys[first + n], slots);
        if slot.None? {
          slot := FindFreeSlot(slots);
        }
        slots := slots + [slot.value];
      }
    }

    method Rebuild(offset: int) returns (error: Option<ListError>)
      requires Configured(Abs()) && Unique(keys) && WindowOk(Abs()) && maxSlots > 0 && |keys| <= INT32_MAX / rowHeight
      requires viewportHeight + rowHeight - 1 <= INT32_MAX
      modifies this`window
      ensures match Rebuilt(old(Abs()), offset)
              case Success(next) => error == None && Abs() == next
              case Failure(failure) => error == Some(failure) && Abs() == old(Abs())
    {
      FirstInList(Abs(), offset);
      var first, last := First(Abs(), offset), Last(Abs(), offset);
      if last - first > maxSlots { return Some(OutOfMemory); }
      var slots := LayOut(first, last);
      window := Window(first, last, Clamped(Abs(), offset), Items(keys, first, slots, rowHeight));
      return None;
    }

    method Reset()
      modifies this
      ensures Abs() == VirtualLists.Reset(old(Abs()))
    {
      rowHeight, viewportHeight, keys, window := 0, 0, [], NO_WINDOW;
    }

    method Configure(count: nat, newRowHeight: int, newViewportHeight: int, newKeys: seq<string>)
      returns (error: Option<ListError>)
      requires ListOk(Abs()) && newViewportHeight + newRowHeight - 1 <= INT32_MAX
      modifies this
      ensures (error, Abs()) == VirtualLists.Configure(old(Abs()), count, newRowHeight, newViewportHeight, newKeys)
      ensures ListOk(Abs())
    {
      ConfigureOk(Abs(), count, newRowHeight, newViewportHeight, newKeys);
      if !Acceptable(maxSlots, count, newRowHeight, newViewportHeight, newKeys) { return Some(AbiInvalidArgument); }
      var unique := AllUnique(newKeys);
      if !unique { return Some(AbiInvalidArgument); }
      rowHeight, viewportHeight, keys, window := newRowHeight, newViewportHeight, newKeys, NO_WINDOW;
      error := Rebuild(0);
      if error.Some? {
        Reset();
      }
    }

    method ScrollTo(offset: int) returns (error: Option<ListError>)
      requires ListOk(Abs()) && viewportHeight + rowHeight - 1 <= INT32_MAX
      modifies this`window
      ensures (error, Abs()) == VirtualLists.ScrollTo(old(Abs()), offset) && ListOk(Abs())
    {
      ScrollToOk(Abs(), offset);
      if |keys| == 0 || rowHeight <= 0 || viewportHeight <= 0 { return Some(LifecycleBusy); }
      error := Rebuild(offset);
    }

    method HitTest(y: int) returns (r: Option<Item>)
      requires window.offset + y <= INT32_MAX
      ensures r == VirtualLists.HitTest(Abs(), y)
    {
      if y < 0 { return None; }
      var absolute := window.offset + y;
      if absolute < 0 || rowHeight <= 0 { return None; }
      var index := absolute / rowHeight;
      if index < window.first || index >= window.last { return None; }
      for i := 0 to |window.items|
        invariant ItemOf(window.items, index, 0) == ItemOf(window.items, index, i)
      {
        if window.items[i].index == index { return Some(window.items[i]); }
      }
      return None;
    }
  }
}
