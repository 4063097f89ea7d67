/** What the bridge's close means: nothing more is taken, and a result that waits then stays. */
module BridgeCloses {
  import opened Wrappers
  import opened MountModel
  import opened MountConversion
  import opened MountBridges
  import opened BridgeResults
  import opened BridgeOrder
  import opened FalseReports

  lemma ClosedTakesOne(b: Bridge, event: Event)
    requires b.closed
    ensures Apply(b, event).closed && |Apply(b, event).records| == |b.records|
  {
    match event
    case DoMountDone(ok, a) =>
      if b.flights != [] {
        var c, f := Landed(b, ok), b.flights[0];
        assert MountDone(b, ok, a) == Complete(c, f, ok, a);
        CompleteLeaves(c, f, ok, a);
      }
    case DoPresented(surface, request, presented, core) => PresentedLeaves(b, surface, request, presented, core);
    case _ =>
  }

  lemma ConcludeLeaves(b: Bridge, i: nat, mounted: bool, core: bool)
    requires Has(b, i)
    ensures var c := Conclude(b, i, mounted, core); c.closed == b.closed && |c.records| == |b.records|
  {
  }

  lemma CompleteLeaves(b: Bridge, f: Flight, ok: bool, a: Answers)
    ensures var c := Complete(b, f, ok, a); c.closed == b.closed && |c.records| == |b.records|
  {
    var found := Find(b, f, 0);
    if found.Some? {
      var q := b.slots[found.value].value.(phase := PresentPending);
      ConcludeLeaves(b, found.value, true, a.core);
      ConcludeLeaves(b, found.value, false, a.core);
      ConcludeLeaves(Set(b, found.value, q), found.value, false, a.core);
    }
  }

  lemma PresentedLeaves(b: Bridge, surface: SurfaceId, request: RequestId, presented: bool, core: bool)
    ensures var c := AcceptPresented(b, surface, request, presented, core);
            c.closed == b.closed && |c.records| == |b.records|
  {
    var found := FindPresented(b, surface, request, 0);
    if found.Some? {
      var u := b.slots[found.value].value.ticket;
      if u < |b.records| {
        ConcludeLeaves(Noted(b, u, b.records[u].(presented := presented)), found.value, presented, core);
      } else {
        ConcludeLeaves(b, found.value, presented, core);
      }
    }
  }

  /** A closed bridge takes no transaction in any run, and never opens again. */
  lemma {:induction false} ClosedTakesNothing(b: Bridge, more: seq<Event>)
    requires b.closed
    ensures Run(b, more).closed && |Run(b, more).records| == |b.records|
  {
    if more != [] {
      ClosedTakesNothing(b, more[..|more| - 1]);
      ClosedTakesOne(Run(b, more[..|more| - 1]), more[|more| - 1]);
    }
  }

  // ----- Results that wait at the close -----

  /** A result waits, in a bridge in order that is closed. */
  ghost predicate Waiting(b: Bridge, i: nat, p: Pending) {
    Sound(b) && Ordered(b) && b.closed && Has(b, i) && b.slots[i].value == p && p.phase.CoreResultPending?
  }

  lemma WaitsOn(b: Bridge, event: Event, i: nat, p: Pending)
    requires Waiting(b, i, p)
    ensures Waiting(Apply(b, event), i, p)
  {
    ClosedTakesOne(b, event);
    ApplySound(b, event);
    match event
    case DoMountDone(ok, a) =>
      MountDoneOrdered(b, ok, a);
      LandingLeaves(b, ok, a, i);
    case DoPresented(surface, request, presented, core) =>
      AcceptPresentedOrdered(b, surface, request, presented, core);
      PresentedElsewhere(b, surface, request, presented, core, i);
    case _ =>
  }

  /** The batch that lands is of another slot. */
  lemma LandingLeaves(b: Bridge, ok: bool, a: Answers, i: nat)
    requires Sound(b) && Ordered(b) && Has(b, i) && b.slots[i].value.phase.CoreResultPending?
    ensures Has(MountDone(b, ok, a), i) && MountDone(b, ok, a).slots[i] == b.slots[i]
  {
    if b.flights != [] {
      var f := b.flights[0];
      assert Placed(f, b.slots);
      var j :| 0 <= j < |b.slots| && FlightOf(f, b.slots[j]);
      var c := Landed(b, ok);
      LandedStill(b, ok);
      BridgeOrder.FindFrom(c, f, 0, j);
      CompleteActs(c, f, ok, a);
    }
  }

  lemma PresentedElsewhere(b: Bridge, surface: SurfaceId, request: RequestId, presented: bool, core: bool, i: nat)
    requires Sound(b) && Has(b, i) && b.slots[i].value.phase.CoreResultPending?
    ensures var c := AcceptPresented(b, surface, request, presented, core); Has(c, i) && c.slots[i] == b.slots[i]
  {
    var found := FindPresented(b, surface, request, 0);
    if found.Some? {
      var u := b.slots[found.value].value.ticket;
      var noted := Noted(b, u, b.records[u].(presented := presented));
      ConcludeActs(noted, found.value, presented, core);
    }
  }

  lemma {:induction false} WaitsFor(b: Bridge, more: seq<Event>, i: nat, p: Pending)
    requires Waiting(b, i, p)
    ensures Waiting(Run(b, more), i, p)
  {
    if more != [] {
      WaitsFor(b, more[..|more| - 1], i, p);
      WaitsOn(Run(b, more[..|more| - 1]), more[|more| - 1], i, p);
    }
  }

  /** A result that waits when the bridge closes, after a careful run, is never offered to the core
      again: whatever happens, its slot stays taken and the transaction without a report. */
  lemma ResultsStayAtClose(autoPresent: bool, events: seq<Event>, more: seq<Event>, i: nat)
    requires CarefulRun(autoPresent, events)
    requires var b := History(autoPresent, events);
             b.closed && Has(b, i) && b.slots[i].value.phase.CoreResultPending?
    ensures var b, c := History(autoPresent, events), Run(History(autoPresent, events), more);
            && Has(c, i) && c.slots[i] == b.slots[i] && b.slots[i].value.ticket < |c.records|
            && c.records[b.slots[i].value.ticket].reports == []
  {
    HistoryIsOrdered(autoPresent, events);
    HistoryIsSound(autoPresent, events);
    var b := History(autoPresent, events);
    WaitsFor(b, more, i, b.slots[i].value);
    assert InSlot(Run(b, more).slots, b.slots[i].value.ticket);
  }
}
