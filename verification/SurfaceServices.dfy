/** What a service pass, a mounted surface and the close come to at the surface host. */
module SurfaceServices {
  import opened Wrappers
  import opened SurfaceCommands
  import opened SurfaceEffects
  import opened SurfaceProtocol
  import OwnerTasks

  // ----- Posting -----

  /** A refused command changes nothing, but that an overflow is counted when no slot is free or the
      owner queue is full; an admitted one takes a free slot and the last place among the tasks. */
  lemma PostMeans(p: Protocol, c: Command, guard: bool, queue: OwnerTasks.PostStatus)
    ensures var (admission, r) := Post(p, c, guard, queue);
            && (admission.NoFreeSlot? || admission.QueueFull? ==> r == p.(overflows := p.overflows + 1))
            && (!admission.Admitted? && !admission.NoFreeSlot? && !admission.QueueFull? ==> r == p)
            && (admission.Admitted? ==>
                  exists i :: 0 <= i < |p.slots| && p.slots[i].state.Free?
                              && r.slots == p.slots[i := OpSlot(Queued, Some(c), None, |p.accepted|)]
                              && r.tasks == p.tasks + [i] && r.accepted == p.accepted + [c] && r.host == p.host)
  {
    if Post(p, c, guard, queue).0.Admitted? {
      assert p.slots[FreeSlot(p.slots, 0).value].state.Free?;
    }
  }

  // ----- One slot -----

  /** A result is there where one waits, and a command where one has run. */
  predicate Filled(slot: OpSlot) {
    && (slot.state.ResultPending? ==> slot.result.Some? && slot.command.Some?)
    && (slot.state.Delivered? ==> slot.result.None? && slot.command.Some?)
  }

  ghost predicate AllFilled(slots: seq<OpSlot>) {
    forall i :: 0 <= i < |slots| ==> Filled(slots[i])
  }

  /** What a pass makes of a slot: a result that waits is settled unless the port overflows, and a settled
      slot is free again if the lock is. */
  function Handled(slot: OpSlot, port: PortAnswer, guard: bool): OpSlot {
    if !(slot.state.Delivered? || (slot.state.ResultPending? && !port.ResultOverflow?)) then slot
    else if guard then FREE_SLOT
    else OpSlot(Delivered, slot.command, None, slot.ticket)
  }

  lemma SlotServed(p: Protocol, i: nat, port: PortAnswer, guard: bool)
    requires i < |p.slots| && Filled(p.slots[i])
    ensures ServiceSlot(p, i, port, guard).slots == p.slots[i := Handled(p.slots[i], port, guard)]
    ensures Spent(p, i, port, guard) == Settling(p.slots[i], Handled(p.slots[i], port, guard))
  {
  }

  // ----- A pass and its budget -----

  /** A result settled counts, and a slot freed. */
  function Settling(before: OpSlot, after: OpSlot): nat {
    (if before.state.ResultPending? && !after.state.ResultPending? then 1 else 0)
    + (if !before.state.Free? && after.state.Free? then 1 else 0)
  }

  function Settlings(before: seq<OpSlot>, after: seq<OpSlot>, n: nat): nat
    requires n <= |before| == |after|
  {
    if n == 0 then 0 else Settlings(before, after, n - 1) + Settling(before[n - 1], after[n - 1])
  }

  lemma {:induction false} SameSettlings(before: seq<OpSlot>, a: seq<OpSlot>, b: seq<OpSlot>, n: nat)
    requires n <= |before| == |a| == |b| && forall k :: 0 <= k < n ==> a[k] == b[k]
    ensures Settlings(before, a, n) == Settlings(before, b, n)
  {
    if n > 0 {
      SameSettlings(before, a, b, n - 1);
    }
  }

  /** The first `n` slots handled, and what that took. */
  ghost predicate PassedTo(
    p: Protocol, r: (Protocol, nat), n: nat, budget: nat, ports: nat -> PortAnswer, guards: nat -> bool)
  {
    && n <= |p.slots| == |r.0.slots| && r.1 == Settlings(p.slots, r.0.slots, n) && r.1 <= budget + 1
    && (forall k :: n <= k < |p.slots| ==> r.0.slots[k] == p.slots[k])
    && (r.1 < budget ==> forall k :: 0 <= k < n ==> r.0.slots[k] == Handled(p.slots[k], ports(k), guards(k)))
  }

  lemma OneMorePassed(
    p: Protocol, m: (Protocol, nat), n: nat, budget: nat, ports: nat -> PortAnswer, guards: nat -> bool)
    requires AllFilled(p.slots) && n < |p.slots| && PassedTo(p, m, n, budget, ports, guards) && m.1 < budget
    ensures PassedTo(p, (ServiceSlot(m.0, n, ports(n), guards(n)), m.1 + Spent(m.0, n, ports(n), guards(n))), n + 1,
                     budget, ports, guards)
  {
    SlotServed(m.0, n, ports(n), guards(n));
    SameSettlings(p.slots, m.0.slots, ServiceSlot(m.0, n, ports(n), guards(n)).slots, n);
  }

  /** Once the budget is spent a slot stays as it is. */
  lemma OneSkipped(
    p: Protocol, m: (Protocol, nat), n: nat, budget: nat, ports: nat -> PortAnswer, guards: nat -> bool)
    requires n < |p.slots| && PassedTo(p, m, n, budget, ports, guards) && m.1 >= budget
    ensures PassedTo(p, m, n + 1, budget, ports, guards)
  {
    assert m.0.slots[n] == p.slots[n];
  }

  lemma NextPassed(
    p: Protocol, m: (Protocol, nat), n: nat, r: (Protocol, nat), budget: nat, ports: nat -> PortAnswer,
    guards: nat -> bool)
    requires AllFilled(p.slots) && n < |p.slots| && PassedTo(p, m, n, budget, ports, guards)
    requires r == if m.1 >= budget then m
                  else (ServiceSlot(m.0, n, ports(n), guards(n)), m.1 + Spent(m.0, n, ports(n), guards(n)))
    ensures PassedTo(p, r, n + 1, budget, ports, guards)
  {
    if m.1 < budget {
      OneMorePassed(p, m, n, budget, ports, guards);
    } else {
      OneSkipped(p, m, n, budget, ports, guards);
    }
  }

  /** What a pass spends is the results it settles and the slots it frees; it stops once that is the
      budget, which the last slot may pass by one, and otherwise handles every slot. */
  lemma {:induction false} PassSpends(p: Protocol, n: nat, budget: nat, ports: nat -> PortAnswer, guards: nat -> bool)
    requires AllFilled(p.slots) && n <= |p.slots|
    ensures PassedTo(p, Served(p, n, budget, ports, guards), n, budget, ports, guards)
  {
    if n > 0 {
      PassSpends(p, n - 1, budget, ports, guards);
      NextPassed(p, Served(p, n - 1, budget, ports, guards), n - 1, Served(p, n, budget, ports, guards),
                 budget, ports, guards);
    }
  }

  /** In every run, of a host that is not closed: the same of a service. */
  lemma ServiceMeans(
    maxOperations: nat, maxRoots: nat, events: seq<Event>, budget: nat, ports: nat -> PortAnswer, guards: nat -> bool)
    requires !History(maxOperations, maxRoots, events).closed
    ensures var p := History(maxOperations, maxRoots, events);
            var r := Service(p, budget, ports, guards);
            && |r.slots| == |p.slots| && Settlings(p.slots, r.slots, |p.slots|) <= budget + 1
            && (Settlings(p.slots, r.slots, |p.slots|) < budget ==>
                  forall k :: 0 <= k < |p.slots| ==> r.slots[k] == Handled(p.slots[k], ports(k), guards(k)))
  {
    var p := History(maxOperations, maxRoots, events);
    HistoryIsSound(maxOperations, maxRoots, events);
    forall i | 0 <= i < |p.slots| ensures Filled(p.slots[i]) {
      assert SlotSound(p.slots[i], p.accepted, p.fates);
    }
    PassSpends(p, |p.slots|, budget, ports, guards);
  }

  // ----- A surface is mounted -----

  /** A surface that is hidden and empty becomes one that is mounted, and still hidden; any other call
      changes nothing. */
  lemma MarkMeans(p: Protocol, surface: SurfaceId)
    requires Consistent(p.host)
    ensures var r := MarkMounted(p, surface);
            && r == p.(host := r.host) && SameContents(p.host, r.host)
            && (InPhase(p.host, surface, HiddenEmpty) ==>
                  Turns(p.host, r.host, surface, HiddenMounted, false) && OthersStay(p.host, r.host, {surface}))
            && (!InPhase(p.host, surface, HiddenEmpty) ==> r == p)
  {
    var found := Find(p.host, surface);
    if found.Some? {
      MarkAt(p, surface, found.value);
    }
  }

  lemma MarkAt(p: Protocol, surface: SurfaceId, i: nat)
    requires Consistent(p.host) && Find(p.host, surface) == Some(i)
    ensures InPhase(p.host, surface, HiddenEmpty) <==> p.host.records[i].value.phase.HiddenEmpty?
    ensures p.host.records[i].value.phase.HiddenEmpty? ==>
              var r := MarkMounted(p, surface);
              Turns(p.host, r.host, surface, HiddenMounted, false) && OthersStay(p.host, r.host, {surface})
  {
    assert IsAt(p.host, i, surface, p.host.records[i].value.phase);
    forall k: nat | k < |p.host.records| && p.host.records[k].Some? && p.host.records[k].value.surface == surface
      ensures k == i
    {
      FoundIn(p.host, k, surface);
    }
    if p.host.records[i].value.phase.HiddenEmpty? {
      assert TurnsAt(p.host, MarkMounted(p, surface).host, i, surface, HiddenMounted, false);
    }
  }

  // ----- The close -----

  /** The surface of a record, if its content can be released or cannot, as asked. */
  function Content(record: Option<Record>, releasable: SurfaceId -> bool, which: bool): multiset<SurfaceId> {
    if record.Some? && releasable(record.value.surface) == which then multiset{record.value.surface} else multiset{}
  }

  /** Those of all records from `i` on. */
  function Contents(
    records: seq<Option<Record>>, i: nat, releasable: SurfaceId -> bool, which: bool): multiset<SurfaceId>
    requires i <= |records|
    decreases |records| - i
  {
    if i == |records| then multiset{}
    else Content(records[i], releasable, which) + Contents(records, i + 1, releasable, which)
  }

  lemma {:induction false} SameContentsFrom(
    a: seq<Option<Record>>, b: seq<Option<Record>>, i: nat, releasable: SurfaceId -> bool, which: bool)
    requires i <= |a| == |b| && forall k :: i <= k < |a| ==> a[k] == b[k]
    ensures Contents(a, i, releasable, which) == Contents(b, i, releasable, which)
    decreases |a| - i
  {
    if i < |a| {
      SameContentsFrom(a, b, i + 1, releasable, which);
    }
  }

  lemma RecordReset(h: Host, i: nat, releasable: SurfaceId -> bool)
    requires i < |h.records|
    ensures var r := ResetRecord(h, i, releasable);
            && r.released == h.released + Content(h.records[i], releasable, true)
            && r.reset == h.reset + Content(h.records[i], releasable, false)
            && r.records == h.records[i := None]
  {
  }

  /** Every record from `i` on is free. */
  predicate FreeFrom(r: Host, i: nat) {
    forall k :: i <= k < |r.records| ==> r.records[k].None?
  }

  /** What resetting the records from `i` on leaves. */
  ghost predicate ResetTo(h: Host, r: Host, i: nat, releasable: SurfaceId -> bool)
    requires i <= |h.records|
  {
    && r.released == h.released + Contents(h.records, i, releasable, true)
    && r.reset == h.reset + Contents(h.records, i, releasable, false)
    && |r.records| == |h.records| && FreeFrom(r, i)
  }

  /** Content let go before the rest is let go with it. */
  lemma ContentFirst(
    base: multiset<SurfaceId>, before: seq<Option<Record>>, after: seq<Option<Record>>, i: nat,
    releasable: SurfaceId -> bool, which: bool)
    requires i < |before| == |after| && forall k :: i < k < |before| ==> after[k] == before[k]
    ensures base + Content(before[i], releasable, which) + Contents(after, i + 1, releasable, which)
         == base + Contents(before, i, releasable, which)
  {
    SameContentsFrom(after, before, i + 1, releasable, which);
    var x, rest := Content(before[i], releasable, which), Contents(before, i + 1, releasable, which);
    assert base + x + rest == base + (x + rest);
  }

  lemma OneMoreReset(h: Host, m: Host, r: Host, i: nat, releasable: SurfaceId -> bool)
    requires i < |h.records| && m == ResetRecord(h, i, releasable) && ResetTo(m, r, i + 1, releasable)
    requires r.records[i].None?
    ensures ResetTo(h, r, i, releasable)
  {
    RecordReset(h, i, releasable);
    ContentFirst(h.released, h.records, m.records, i, releasable, true);
    ContentFirst(h.reset, h.records, m.records, i, releasable, false);
    FreeBefore(r, i);
  }

  lemma FreeBefore(r: Host, i: nat)
    requires i < |r.records| && FreeFrom(r, i + 1) && r.records[i].None?
    ensures FreeFrom(r, i)
  {
  }

  lemma {:induction false} EarlierReset(h: Host, i: nat, k: nat, releasable: SurfaceId -> bool)
    requires k < i <= |h.records|
    ensures var r := ResetFrom(h, i, releasable).records; |r| == |h.records| && r[k] == h.records[k]
    decreases |h.records| - i
  {
    if i < |h.records| {
      EarlierReset(ResetRecord(h, i, releasable), i + 1, k, releasable);
    }
  }

  lemma {:induction false} ResetMeans(h: Host, i: nat, releasable: SurfaceId -> bool)
    requires i <= |h.records|
    ensures ResetTo(h, ResetFrom(h, i, releasable), i, releasable)
    decreases |h.records| - i
  {
    if i < |h.records| {
      var next := ResetRecord(h, i, releasable);
      ResetMeans(next, i + 1, releasable);
      EarlierReset(next, i + 1, i, releasable);
      OneMoreReset(h, next, ResetFrom(h, i, releasable), i, releasable);
    } else {
      assert h.released + multiset{} == h.released && h.reset + multiset{} == h.reset;
    }
  }

  /** The close is refused while commands are admitted. Then it serves its slots once more: if one is
      still taken it is busy, with what that pass came to; otherwise every record goes, content that can
      be released is released once and all other is reset once, and the host is closed. */
  lemma CloseMeans(p: Protocol, ports: nat -> PortAnswer, guards: nat -> bool, releasable: SurfaceId -> bool)
    ensures var (outcome, r) := FinishClose(p, ports, guards, releasable);
            var served := Service(p, COMPLETED_REQUESTS, ports, guards);
            var free := forall i :: 0 <= i < |served.slots| ==> served.slots[i].state.Free?;
            && (outcome.StillAccepting? <==> p.accepting) && (outcome.CloseDone? <==> !p.accepting && free)
            && (p.accepting ==> r == p) && (!p.accepting && !free ==> r == served)
            && (!p.accepting && free ==>
                  && r.closed && r.slots == served.slots
                  && (forall i :: 0 <= i < |r.host.records| ==> r.host.records[i].None?)
                  && r.host.released == served.host.released + Contents(served.host.records, 0, releasable, true)
                  && r.host.reset == served.host.reset + Contents(served.host.records, 0, releasable, false))
  {
    ResetMeans(Service(p, COMPLETED_REQUESTS, ports, guards).host, 0, releasable);
  }
}
