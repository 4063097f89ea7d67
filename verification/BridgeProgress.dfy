/** Whether an accepted transaction can still be reported: it can, as long as it does not wait for a
    presentation that no request asks for. */
module BridgeProgress {
  import opened Wrappers
  import opened MountModel
  import opened MountConversion
  import opened MountBridges
  import opened BridgeResults
  import opened BridgeOrder
  import opened FalseReports
  import BridgeRollbacks

  predicate Reported(b: Bridge, t: nat) {
    t < |b.records| && b.records[t].reports != []
  }

  // ----- Reports stay -----

  /** Reports are only ever added. */
  ghost predicate Adds(b: Bridge, c: Bridge) {
    |b.records| <= |c.records| && forall t :: Reported(b, t) ==> Reported(c, t)
  }

  lemma ConcludeAdds(b: Bridge, i: nat, mounted: bool, core: bool)
    requires Has(b, i)
    ensures Adds(b, Conclude(b, i, mounted, core))
  {
  }

  lemma ServeAdds(b: Bridge, i: nat, a: Answers, released: bool)
    requires i < |b.slots|
    ensures Adds(b, ServiceSlot(b, i, a, released))
  {
    if Serviceable(b.slots[i]) {
      match b.slots[i].value.phase
      case MountPending =>
      case RollbackPending => ConcludeAdds(b, i, b.slots[i].value.mounted, a.core);
      case PresentPending => ConcludeAdds(b, i, false, a.core);
      case CoreResultPending =>
    }
  }

  lemma {:induction false} PassAdds(b: Bridge, i: nat, budget: nat, answers: nat -> Answers, released: nat -> bool)
    requires i <= |b.slots|
    ensures Adds(b, ServiceFrom(b, i, budget, answers, released))
    decreases |b.slots| - i
  {
    if i < |b.slots| && budget > 0 {
      ServeAdds(b, i, answers(i), released(i));
      PassAdds(ServiceSlot(b, i, answers(i), released(i)), i + 1,
               if Serviceable(b.slots[i]) then budget - 1 else budget, answers, released);
    }
  }

  // ----- A pass for one slot -----

  function Only(i: nat, a: Answers): nat -> Answers {
    k => if k == i then a else IDLE
  }

  function Alone(i: nat): nat -> bool {
    k => k == i
  }

  /** A pass comes to the slot with everything else as it was, and serves it. */
  lemma {:induction false} PassComesTo(b: Bridge, k: nat, budget: nat, i: nat, p: Pending, a: Answers)
    returns (m: Bridge, left: nat)
    requires Tracked(b, i, p) && k <= i < k + budget && Serviceable(Some(p))
    ensures Tracked(m, i, p) && m.flights == b.flights && m.records == b.records && m.autoPresent == b.autoPresent
    ensures ServiceFrom(b, k, budget, Only(i, a), Alone(i))
         == ServiceFrom(ServiceSlot(m, i, a, true), i + 1, left, Only(i, a), Alone(i))
    decreases i - k
  {
    if k < i {
      IdleTurn(b, k, i, p);
      m, left := PassComesTo(ServiceSlot(b, k, IDLE, false), k + 1,
                             if Serviceable(b.slots[k]) then budget - 1 else budget, i, p, a);
    } else {
      m, left := b, budget - 1;
    }
  }

  // ----- Nothing of its own at the mount host -----

  /** The slot's transaction has no batch at the mount host, by name. */
  ghost predicate Landed(b: Bridge, i: nat, p: Pending) {
    Tracked(b, i, p) && b.flights == []
  }

  lemma NoNamesake(b: Bridge, i: nat)
    requires Ordered(b) && Has(b, i) && !InFlight(b.flights, b.slots[i].value.ticket)
    ensures forall k :: 0 <= k < |b.flights| ==> !SameKey(b.slots[i].value, b.flights[k])
  {
    forall k | 0 <= k < |b.flights| ensures !SameKey(b.slots[i].value, b.flights[k]) {
      assert Placed(b.flights[k], b.slots);
      var j :| 0 <= j < |b.slots| && FlightOf(b.flights[k], b.slots[j]);
      if SameKey(b.slots[i].value, b.flights[k]) {
        assert SameName(b.slots[i].value, b.slots[j].value);
      }
    }
  }

  /** With nothing at the mount host a service of the one slot is careful. */
  lemma Serve(start: Bridge, b: Bridge, i: nat, p: Pending, a: Answers) returns (m: Bridge, left: nat)
    requires Reachable(start, b) && Landed(b, i, p) && Serviceable(Some(p))
    ensures Landed(m, i, p) && m.records == b.records && m.autoPresent == b.autoPresent
    ensures Reachable(start, ServiceFrom(ServiceSlot(m, i, a, true), i + 1, left, Only(i, a), Alone(i)))
  {
    var event := DoService(CAPACITY, Only(i, a), Alone(i));
    m, left := PassComesTo(b, 0, CAPACITY, i, p, a);
    assert QuietFrom(b, 0);
    ReachesNext(start, b, event);
  }

  /** A result that waits, or a rollback, is reported by one service. */
  lemma EndsByService(start: Bridge, b: Bridge, i: nat, p: Pending) returns (c: Bridge)
    requires Reachable(start, b) && Landed(b, i, p) && (p.phase.CoreResultPending? || p.phase.RollbackPending?)
    ensures Reachable(start, c) && Reported(c, p.ticket)
  {
    var m, left := Serve(start, b, i, p, EAGER);
    var served := ServiceSlot(m, i, EAGER, true);
    c := ServiceFrom(served, i + 1, left, Only(i, EAGER), Alone(i));
    PassAdds(served, i + 1, left, Only(i, EAGER), Alone(i));
  }

  const REFUSING := Answers(Never, true, Never, true)

  /** So is one that waits to be presented for a request, if the surface host refuses. */
  lemma EndsByRefusal(start: Bridge, b: Bridge, i: nat, p: Pending) returns (c: Bridge)
    requires Reachable(start, b) && Landed(b, i, p) && p.phase.PresentPending? && p.source.request.Some?
    ensures Reachable(start, c) && Reported(c, p.ticket)
  {
    var m, left := Serve(start, b, i, p, REFUSING);
    var served := ServiceSlot(m, i, REFUSING, true);
    c := ServiceFrom(served, i + 1, left, Only(i, REFUSING), Alone(i));
    PassAdds(served, i + 1, left, Only(i, REFUSING), Alone(i));
  }

  // ----- Presented -----

  ghost predicate Posted(b: Bridge, i: nat, p: Pending) {
    Tracked(b, i, p) && p.phase.PresentPosted? && p.source.request.Some?
  }

  lemma {:induction false} EndsByPresented(start: Bridge, b: Bridge, i: nat, p: Pending) returns (c: Bridge)
    requires Reachable(start, b) && Posted(b, i, p)
    ensures Reachable(start, c) && Reported(c, p.ticket)
    decreases i - FindPresented(b, p.surface, p.source.request.value, 0).value
  {
    var request := p.source.request.value;
    assert Awaits(b.slots[i], p.surface, request);
    var j := FindPresented(b, p.surface, request, 0).value;
    c := AcceptPresented(b, p.surface, request, true, true);
    ReachesNext(start, b, DoPresented(p.surface, request, true, true));
    if j != i {
      AcceptPresentedSound(b, p.surface, request, true, true);
      assert c.slots == b.slots[j := None];
      assert Awaits(c.slots[i], p.surface, request);
      c := EndsByPresented(start, c, i, p);
    }
  }

  // ----- At the mount host, or to be posted again -----

  /** Its batch fails at the mount host. */
  lemma FailsThere(start: Bridge, b: Bridge, i: nat, p: Pending) returns (c: Bridge)
    requires Reachable(start, b) && Tracked(b, i, p) && b.flights != [] && SameKey(p, b.flights[0])
    requires b.flights[0].batch.batchIndex == p.active && b.flights[0].batch.batchCount == |p.batches|
    ensures var q := p.(mounted := false, phase := RollbackPending);
            Reachable(start, c) && Tracked(c, i, q) && c.flights == b.flights[1..]
  {
    var q, f := p.(mounted := false, phase := RollbackPending), b.flights[0];
    var landed := b.(flights := b.flights[1..]);
    c := MountDone(b, false, EAGER);
    BridgeOrder.FindFrom(landed, f, 0, i);
    MountDoneSound(b, false, EAGER);
    SetNames(landed, i, q);
    ReachesNext(start, b, DoMountDone(false, EAGER));
  }

  /** The next batch is refused for good. */
  lemma RefusedThere(start: Bridge, b: Bridge, i: nat, p: Pending) returns (c: Bridge)
    requires Reachable(start, b) && Landed(b, i, p) && p.phase.MountPending? && p.next < |p.batches|
    ensures var q := Offered(p).(mounted := false, phase := RollbackPending);
            Reachable(start, c) && Landed(c, i, q)
  {
    var q := Offered(p).(mounted := false, phase := RollbackPending);
    var m, left := Serve(start, b, i, p, REFUSING);
    var served := ServiceSlot(m, i, REFUSING, true);
    ServiceSlotSound(m, i, REFUSING, true);
    SetNames(m, i, q);
    assert served == Set(m, i, q);
    c := ServiceFrom(served, i + 1, left, Only(i, REFUSING), Alone(i));
    PassLeaves(served, i + 1, left, i, q);
  }

  lemma {:induction false} PassLeaves(b: Bridge, k: nat, budget: nat, i: nat, p: Pending)
    requires Tracked(b, i, p) && i < k <= |b.slots|
    ensures var c := ServiceFrom(b, k, budget, Only(i, REFUSING), Alone(i));
            Tracked(c, i, p) && c.flights == b.flights
    decreases |b.slots| - k
  {
    if k < |b.slots| && budget > 0 {
      IdleTurn(b, k, i, p);
      PassLeaves(ServiceSlot(b, k, IDLE, false), k + 1, if Serviceable(b.slots[k]) then budget - 1 else budget, i, p);
    }
  }

  lemma TrackedSlot(b: Bridge, i: nat)
    requires Sound(b) && Ordered(b) && !b.closed && Has(b, i)
    ensures Tracked(b, i, b.slots[i].value)
  {
    assert Recorded(b, b.slots[i].value);
  }

  /** One that is not at the mount host. */
  lemma LandedEnds(b: Bridge, i: nat) returns (c: Bridge)
    requires Sound(b) && Ordered(b) && !b.closed && Has(b, i) && !InFlight(b.flights, b.slots[i].value.ticket)
    requires b.slots[i].value.phase.PresentPending? ==> b.slots[i].value.source.request.Some?
    requires b.slots[i].value.phase.PresentPosted? ==> b.slots[i].value.source.request.Some?
    ensures Reachable(b, c) && Reported(c, b.slots[i].value.ticket)
  {
    var p := b.slots[i].value;
    TrackedSlot(b, i);
    NoNamesake(b, i);
    StaysReachable(b);
    var d := Drain(b, b, i, p, |b.flights|);
    match p.phase
    case MountPending =>
      c := RefusedThere(b, d, i, p);
      c := EndsByService(b, c, i, Offered(p).(mounted := false, phase := RollbackPending));
    case PresentPending => c := EndsByRefusal(b, d, i, p);
    case PresentPosted => c := EndsByPresented(b, d, i, p);
    case CoreResultPending => c := EndsByService(b, d, i, p);
    case RollbackPending => c := EndsByService(b, d, i, p);
  }

  /** One whose batch is at the mount host: those before it fail there, and then it does. */
  lemma FlyingEnds(b: Bridge, i: nat) returns (c: Bridge)
    requires Sound(b) && Ordered(b) && !b.closed && Has(b, i) && InFlight(b.flights, b.slots[i].value.ticket)
    ensures Reachable(b, c) && Reported(c, b.slots[i].value.ticket)
  {
    var p := b.slots[i].value;
    var n :| 0 <= n < |b.flights| && b.flights[n].ticket == p.ticket;
    TrackedSlot(b, i);
    OwnOnly(b, i, n);
    StaysReachable(b);
    c := Drain(b, b, i, p, n);
    c := FailsAndEnds(b, c, i, p);
  }

  /** The slot's batch is the next to come from the mount host, and its only one there. */
  lemma FailsAndEnds(start: Bridge, b: Bridge, i: nat, p: Pending) returns (c: Bridge)
    requires Reachable(start, b) && Tracked(b, i, p) && b.flights != [] && SameKey(p, b.flights[0])
    requires b.flights[0].batch.batchIndex == p.active && b.flights[0].batch.batchCount == |p.batches|
    requires forall k :: 0 < k < |b.flights| ==> !SameKey(p, b.flights[k])
    ensures Reachable(start, c) && Reported(c, p.ticket)
  {
    var q := p.(mounted := false, phase := RollbackPending);
    c := FailsThere(start, b, i, p);
    forall k | 0 <= k < |c.flights| ensures !SameKey(q, c.flights[k]) {
      assert c.flights[k] == b.flights[k + 1];
    }
    c := Drain(start, c, i, q, |c.flights|);
    c := EndsByService(start, c, i, q);
  }

  /** Only the one flight is the slot's, and it is the batch that the slot waits for. */
  lemma OwnOnly(b: Bridge, i: nat, n: nat)
    requires Ordered(b) && Has(b, i) && n < |b.flights| && b.flights[n].ticket == b.slots[i].value.ticket
    ensures var p := b.slots[i].value;
            && SameKey(p, b.flights[n]) && b.flights[n].batch.batchIndex == p.active
            && b.flights[n].batch.batchCount == |p.batches|
            && forall k :: 0 <= k < |b.flights| && k != n ==> !SameKey(p, b.flights[k])
  {
    var p := b.slots[i].value;
    assert InFlight(b.flights, p.ticket);
    InOrder(b, i);
    assert Placed(b.flights[n], b.slots);
    var j :| 0 <= j < |b.slots| && FlightOf(b.flights[n], b.slots[j]);
    assert j == i;
  }

  // ----- Nobody to ask -----

  /** It waits to be presented, and its source is no request. */
  ghost predicate Unasked(b: Bridge, i: nat, p: Pending) {
    && Sound(b) && Ordered(b) && Has(b, i) && b.slots[i].value == p
    && p.phase.PresentPending? && p.source.request.None?
  }

  lemma UnaskedStays(b: Bridge, event: Event, i: nat, p: Pending)
    requires Unasked(b, i, p) && Careful(b, event)
    ensures Unasked(Apply(b, event), i, p)
  {
    ApplySound(b, event);
    ApplyOrdered(b, event);
    match event
    case DoPost(surface, source, attempt, full, batches, bytes, guard, mount) =>
    case DoMountDone(ok, a) => UnaskedLanding(b, ok, a, i, p);
    case DoPresented(surface, request, presented, core) =>
      var found := FindPresented(b, surface, request, 0);
      if found.Some? {
        var u := b.slots[found.value].value.ticket;
        ConcludeActs(Noted(b, u, b.records[u].(presented := presented)), found.value, presented, core);
      }
    case DoService(budget, answers, released) => UnaskedPass(b, 0, budget, answers, released, i, p);
    case DoClose =>
  }

  lemma UnaskedLanding(b: Bridge, ok: bool, a: Answers, i: nat, p: Pending)
    requires Unasked(b, i, p)
    ensures Has(MountDone(b, ok, a), i) && MountDone(b, ok, a).slots[i].value == p
  {
    if b.flights != [] {
      var f := b.flights[0];
      assert Placed(f, b.slots);
      var j :| 0 <= j < |b.slots| && FlightOf(f, b.slots[j]);
      var c := BridgeOrder.Landed(b, ok);
      LandedStill(b, ok);
      BridgeOrder.FindFrom(c, f, 0, j);
      CompleteActs(c, f, ok, a);
    }
  }

  lemma {:induction false} UnaskedPass(
    b: Bridge, k: nat, budget: nat, answers: nat -> Answers, released: nat -> bool, i: nat, p: Pending)
    requires Has(b, i) && b.slots[i].value == p && p.phase.PresentPending? && p.source.request.None? && k <= |b.slots|
    ensures var c := ServiceFrom(b, k, budget, answers, released); Has(c, i) && c.slots[i].value == p
    decreases |b.slots| - k
  {
    if k < |b.slots| && budget > 0 {
      if k != i && Has(b, k) {
        ServeActs(b, k, answers(k), released(k));
      }
      UnaskedPass(ServiceSlot(b, k, answers(k), released(k)), k + 1,
                  if Serviceable(b.slots[k]) then budget - 1 else budget, answers, released, i, p);
    }
  }

  lemma {:induction false} UnaskedForEver(b: Bridge, more: seq<Event>, i: nat, p: Pending)
    requires Unasked(b, i, p) && CarefulFrom(b, more)
    ensures Unasked(Run(b, more), i, p) && !Reported(Run(b, more), p.ticket)
  {
    if more != [] {
      var before := more[..|more| - 1];
      forall k | 0 <= k < |before| ensures Careful(Run(b, before[..k]), before[k]) {
        assert before[..k] == more[..k];
      }
      UnaskedForEver(b, before, i, p);
      UnaskedStays(Run(b, before), more[|more| - 1], i, p);
    }
    NoReportYet(Run(b, more), i);
  }

  // ----- The exact condition -----

  /** After every careful run of a bridge that is not closed, for every slot: some careful continuation
      reports its transaction to the core, if and only if it does not wait for a presentation while its
      source is no request. */
  lemma ReportedInTheEndIff(autoPresent: bool, events: seq<Event>, i: nat)
    requires CarefulRun(autoPresent, events) && !History(autoPresent, events).closed
    requires Has(History(autoPresent, events), i)
    ensures var b := History(autoPresent, events);
            var p := b.slots[i].value;
            (exists more :: CarefulFrom(b, more) && Reported(Run(b, more), p.ticket))
            <==> !(p.phase.PresentPending? && p.source.request.None?)
  {
    var b := History(autoPresent, events);
    var p := b.slots[i].value;
    HistoryIsOrdered(autoPresent, events);
    HistoryIsSound(autoPresent, events);
    BridgeRollbacks.HistoryFits(autoPresent, events);
    if p.phase.PresentPending? && p.source.request.None? {
      forall more | CarefulFrom(b, more) ensures !Reported(Run(b, more), p.ticket) {
        UnaskedForEver(b, more, i, p);
      }
    } else {
      var c: Bridge;
      if InFlight(b.flights, p.ticket) {
        c := FlyingEnds(b, i);
      } else {
        c := LandedEnds(b, i);
      }
      var more :| CarefulFrom(b, more) && Run(b, more) == c;
    }
  }
}
