/** A mounted result means that every batch was mounted, in order, and that what was to be presented
    was, as long as the bridge is not serviced while a batch of a slot it would post for is with the
    mount host. */
module BridgeOrder {
  import opened Wrappers
  import opened MountModel
  import opened MountConversion
  import opened MountBridges
  import opened BridgeResults

  /** 0, 1, and so on below `n`. */
  function Upto(n: nat): (r: seq<nat>)
    ensures |r| == n
  {
    if n == 0 then [] else Upto(n - 1) + [n - 1]
  }

  ghost predicate InFlight(flights: seq<Flight>, ticket: nat) {
    exists k :: 0 <= k < |flights| && flights[k].ticket == ticket
  }

  /** What a mounted result stands for. */
  predicate Done(autoPresent: bool, r: Record) {
    r.mounted == Upto(r.batches) && (r.full && autoPresent ==> r.presented)
  }

  /** The batch at the mount host is the last one posted; those before it were mounted, in order. */
  predicate Flying(p: Pending, r: Record) {
    && 1 <= p.next <= |p.batches| && p.active == p.next - 1
    && (p.activeFinal <==> p.next == |p.batches|) && r.mounted == Upto(p.next - 1)
  }

  /** How far a slot's transaction has come. */
  ghost predicate Reached(b: Bridge, p: Pending, flying: bool)
    requires p.ticket < |b.records|
  {
    var r := b.records[p.ticket];
    match p.phase
    case MountPending => if flying then Flying(p, r) else p.next < |p.batches| && r.mounted == Upto(p.next)
    case PresentPending => !flying && r.mounted == Upto(|p.batches|) && p.full && b.autoPresent
    case PresentPosted => !flying && r.mounted == Upto(|p.batches|) && p.full && b.autoPresent
    case CoreResultPending => !flying && (p.mounted ==> Done(b.autoPresent, r))
    case RollbackPending => !flying && !p.mounted
  }

  ghost predicate Recorded(b: Bridge, p: Pending) {
    && p.ticket < |b.records| && b.records[p.ticket].full == p.full && b.records[p.ticket].batches == |p.batches|
    && WellFormed(p.batches)
  }

  predicate SameName(p: Pending, q: Pending) {
    p.surface == q.surface && p.attempt == q.attempt && p.source.wire == q.source.wire
  }

  ghost predicate NamesApart(slots: seq<Option<Pending>>) {
    forall i, j :: 0 <= i < j < |slots| && slots[i].Some? && slots[j].Some? ==>
      !SameName(slots[i].value, slots[j].value)
  }

  /** The flight is that of the slot's last posted batch. */
  predicate FlightOf(f: Flight, slot: Option<Pending>) {
    && slot.Some? && slot.value.ticket == f.ticket && SameKey(slot.value, f) && slot.value.phase.MountPending?
    && f.batch.batchIndex + 1 == slot.value.next && f.batch.batchCount == |slot.value.batches|
    && 0 < slot.value.next <= |slot.value.batches| && f.batch == slot.value.batches[slot.value.next - 1]
  }

  ghost predicate Placed(f: Flight, slots: seq<Option<Pending>>) {
    exists i :: 0 <= i < |slots| && FlightOf(f, slots[i])
  }

  ghost predicate FlightsFit(b: Bridge) {
    && (forall k :: 0 <= k < |b.flights| ==> Placed(b.flights[k], b.slots))
    && (forall k, l :: 0 <= k < l < |b.flights| ==> b.flights[k].ticket != b.flights[l].ticket)
  }

  ghost predicate ReportsTrue(b: Bridge) {
    forall t :: 0 <= t < |b.records| && true in b.records[t].reports ==> Done(b.autoPresent, b.records[t])
  }

  /** Everything is in order, but perhaps for how far the transaction of slot `but` has come. */
  ghost predicate OrderedBut(b: Bridge, but: int) {
    && TicketsApart(b) && NamesApart(b.slots) && FlightsFit(b) && ReportsTrue(b)
    && (forall i :: 0 <= i < |b.slots| && b.slots[i].Some? ==> Recorded(b, b.slots[i].value))
    && (forall i :: 0 <= i < |b.slots| && b.slots[i].Some? && i != but ==>
          Reached(b, b.slots[i].value, InFlight(b.flights, b.slots[i].value.ticket)))
    && (0 <= but < |b.slots| && b.slots[but].Some? ==> !InFlight(b.flights, b.slots[but].value.ticket))
  }

  ghost predicate Ordered(b: Bridge) {
    OrderedBut(b, -1)
  }

  /** No slot whose next batch a service would post has a batch at the mount host, from `i` on. */
  ghost predicate QuietFrom(b: Bridge, i: nat) {
    forall k :: i <= k < |b.slots| && Serviceable(b.slots[k]) && b.slots[k].value.phase.MountPending? ==>
      !InFlight(b.flights, b.slots[k].value.ticket)
  }

  /** The same flights fit slots that did not change. */
  lemma FlightsKept(b: Bridge, c: Bridge)
    requires FlightsFit(b) && c.flights == b.flights && |c.slots| == |b.slots|
    requires forall k, j :: 0 <= k < |b.flights| && 0 <= j < |b.slots| && FlightOf(b.flights[k], b.slots[j]) ==>
               c.slots[j] == b.slots[j]
    ensures FlightsFit(c)
  {
    forall k | 0 <= k < |c.flights| ensures Placed(c.flights[k], c.slots) {
      assert Placed(b.flights[k], b.slots);
      var j :| 0 <= j < |b.slots| && FlightOf(b.flights[k], b.slots[j]);
      assert FlightOf(c.flights[k], c.slots[j]);
    }
  }

  /** A slot's transaction moves on while none of its batches is at the mount host. */
  lemma SetOrdered(b: Bridge, i: nat, p: Pending)
    requires OrderedBut(b, i) && Has(b, i)
    requires var q := b.slots[i].value;
             && p.ticket == q.ticket && p.surface == q.surface && p.attempt == q.attempt && p.source == q.source
             && p.batches == q.batches && p.full == q.full
    requires Reached(b, p, false)
    ensures Ordered(Set(b, i, p))
  {
    FlightsKept(b, Set(b, i, p));
  }

  lemma FlownFits(b: Bridge, i: nat)
    requires OrderedBut(b, i) && Has(b, i) && b.slots[i].value.next < |b.slots[i].value.batches|
    ensures FlightsFit(PostBatch(b, i, Taken))
  {
    var c := PostBatch(b, i, Taken);
    assert FlightOf(c.flights[|b.flights|], c.slots[i]);
    forall k | 0 <= k < |b.flights| ensures Placed(c.flights[k], c.slots) {
      assert Placed(b.flights[k], b.slots);
      var j :| 0 <= j < |b.slots| && FlightOf(b.flights[k], b.slots[j]);
      assert FlightOf(c.flights[k], c.slots[j]);
    }
    forall k | 0 <= k < |b.flights| ensures b.flights[k].ticket != b.slots[i].value.ticket {
    }
  }

  /** The next batch goes to the mount host. */
  lemma FlyOrdered(b: Bridge, i: nat)
    requires OrderedBut(b, i) && Has(b, i)
    requires var p := b.slots[i].value;
             p.next < |p.batches| && b.records[p.ticket].mounted == Upto(p.next)
    ensures Ordered(PostBatch(b, i, Taken))
  {
    var c := PostBatch(b, i, Taken);
    FlownFits(b, i);
    forall t ensures InFlight(c.flights, t) <==> InFlight(b.flights, t) || t == b.slots[i].value.ticket {
      AppendedFlight(b.flights, c.flights[|b.flights|], t);
    }
  }

  lemma AppendedFlight(flights: seq<Flight>, f: Flight, t: nat)
    ensures InFlight(flights + [f], t) <==> InFlight(flights, t) || t == f.ticket
  {
    var after := flights + [f];
    assert after[|flights|] == f;
    if InFlight(flights, t) {
      var k :| 0 <= k < |flights| && flights[k].ticket == t;
      assert after[k].ticket == t;
    }
  }

  lemma PostBatchOrdered(b: Bridge, i: nat, mount: PortAnswer)
    requires OrderedBut(b, i) && Has(b, i)
    requires var p := b.slots[i].value;
             p.next < |p.batches| && b.records[p.ticket].mounted == Upto(p.next)
    ensures Ordered(PostBatch(b, i, mount))
  {
    if mount.Taken? {
      FlyOrdered(b, i);
    } else {
      SetOrdered(b, i, PostBatch(b, i, mount).slots[i].value);
    }
  }

  /** The core takes a result: it was true. */
  lemma ReportOrdered(b: Bridge, i: nat, core: bool)
    requires Ordered(b) && Has(b, i) && b.slots[i].value.phase.CoreResultPending?
    ensures Ordered(TryCoreResult(b, i, core))
  {
    if core {
      FlightsKept(b, TryCoreResult(b, i, core));
    }
  }

  lemma ConcludeOrdered(b: Bridge, i: nat, mounted: bool, core: bool)
    requires OrderedBut(b, i) && Has(b, i)
    requires mounted ==> Done(b.autoPresent, b.records[b.slots[i].value.ticket])
    ensures Ordered(Conclude(b, i, mounted, core))
  {
    var p := b.slots[i].value.(mounted := mounted, phase := CoreResultPending);
    SetOrdered(b, i, p);
    ReportOrdered(Set(b, i, p), i, core);
  }

  lemma NotFlying(b: Bridge, i: nat)
    requires Ordered(b) && Has(b, i) && !InFlight(b.flights, b.slots[i].value.ticket)
    ensures OrderedBut(b, i)
  {
  }

  lemma TryPresentOrdered(b: Bridge, i: nat, present: PortAnswer, core: bool)
    requires Ordered(b) && Has(b, i) && b.slots[i].value.phase.PresentPending?
    ensures Ordered(TryPresent(b, i, present, core))
  {
    var p := b.slots[i].value;
    NotFlying(b, i);
    if p.source.request.Some? {
      SetOrdered(b, i, p.(phase := PresentPosted));
      ConcludeOrdered(b, i, false, core);
    }
  }

  lemma AllMountedOrdered(b: Bridge, i: nat, a: Answers)
    requires OrderedBut(b, i) && Has(b, i)
    requires b.records[b.slots[i].value.ticket].mounted == Upto(|b.slots[i].value.batches|)
    ensures Ordered(AllMounted(b, i, a))
  {
    var p := b.slots[i].value;
    if !p.full || (a.mark && !b.autoPresent) {
      ConcludeOrdered(b, i, true, a.core);
    } else if !a.mark {
      ConcludeOrdered(b, i, false, a.core);
    } else {
      SetOrdered(b, i, p.(phase := PresentPending));
      TryPresentOrdered(Set(b, i, p.(phase := PresentPending)), i, a.present, a.core);
    }
  }

  // ----- A batch lands -----

  lemma {:induction false} FindFrom(b: Bridge, f: Flight, j: nat, i: nat)
    requires NamesApart(b.slots) && j <= i && Has(b, i) && SameKey(b.slots[i].value, f)
    ensures Find(b, f, j) == Some(i)
    decreases i - j
  {
    if j < i {
      FindFrom(b, f, j + 1, i);
    }
  }

  /** The first flight leaves the mount host; its batch may have been mounted. */
  function Landed(b: Bridge, ok: bool): Bridge
    requires b.flights != []
  {
    var f := b.flights[0];
    var landed := b.(flights := b.flights[1..]);
    if ok && f.ticket < |b.records| then
      Noted(landed, f.ticket, b.records[f.ticket].(mounted := b.records[f.ticket].mounted + [f.batch.batchIndex]))
    else landed
  }

  lemma RemovedFlight(flights: seq<Flight>, t: nat)
    requires flights != [] && forall k :: 0 < k < |flights| ==> flights[k].ticket != flights[0].ticket
    ensures InFlight(flights[1..], t) <==> InFlight(flights, t) && t != flights[0].ticket
  {
    if InFlight(flights, t) && t != flights[0].ticket {
      var k :| 0 <= k < |flights| && flights[k].ticket == t;
      assert flights[1..][k - 1].ticket == t;
    }
    if InFlight(flights[1..], t) {
      var k :| 0 <= k < |flights[1..]| && flights[1..][k].ticket == t;
      assert flights[k + 1].ticket == t;
    }
  }

  lemma NoReportYet(b: Bridge, i: nat)
    requires Sound(b) && Has(b, i)
    ensures b.slots[i].value.ticket < |b.records| && b.records[b.slots[i].value.ticket].reports == []
  {
    assert InSlot(b.slots, b.slots[i].value.ticket);
  }

  lemma LandedFlights(b: Bridge, ok: bool, i: nat)
    requires FlightsFit(b) && b.flights != [] && i < |b.slots| && FlightOf(b.flights[0], b.slots[i])
    ensures forall t :: InFlight(Landed(b, ok).flights, t) <==> InFlight(b.flights, t) && t != b.slots[i].value.ticket
  {
    forall t ensures InFlight(Landed(b, ok).flights, t) <==> InFlight(b.flights, t) && t != b.slots[i].value.ticket {
      RemovedFlight(b.flights, t);
    }
  }

  /** What the landing flight's transaction had come to, and comes to. */
  lemma LandedMounted(b: Bridge, ok: bool, i: nat)
    requires Ordered(b) && b.flights != [] && i < |b.slots| && FlightOf(b.flights[0], b.slots[i])
    ensures var c, p := Landed(b, ok), b.slots[i].value;
            && p.ticket < |b.records| && Flying(p, b.records[p.ticket])
            && c.records[p.ticket].mounted == (if ok then Upto(p.next) else Upto(p.next - 1))
  {
    var p := b.slots[i].value;
    assert InFlight(b.flights, p.ticket);
    assert Upto(p.next) == Upto(p.next - 1) + [p.next - 1];
  }

  lemma LandedReports(b: Bridge, ok: bool, i: nat)
    requires Sound(b) && Ordered(b) && b.flights != [] && i < |b.slots| && FlightOf(b.flights[0], b.slots[i])
    ensures ReportsTrue(Landed(b, ok))
  {
    NoReportYet(b, i);
  }

  /** The other transactions are as far as they were. */
  lemma LandedElsewhere(b: Bridge, ok: bool, i: nat, k: nat)
    requires Ordered(b) && b.flights != [] && i < |b.slots| && FlightOf(b.flights[0], b.slots[i])
    requires k < |b.slots| && b.slots[k].Some? && k != i
    ensures b.slots[k].value.ticket < |Landed(b, ok).records|
    ensures Reached(Landed(b, ok), b.slots[k].value, InFlight(Landed(b, ok).flights, b.slots[k].value.ticket))
  {
    LandedFlights(b, ok, i);
    var t := b.slots[k].value.ticket;
    assert t != b.slots[i].value.ticket && Landed(b, ok).records[t] == b.records[t];
  }

  lemma LandedOrdered(b: Bridge, ok: bool, i: nat)
    requires Sound(b) && Ordered(b) && b.flights != [] && i < |b.slots| && FlightOf(b.flights[0], b.slots[i])
    ensures var c := Landed(b, ok);
            && OrderedBut(c, i) && c.slots == b.slots && Flying(b.slots[i].value, b.records[b.slots[i].value.ticket])
            && c.autoPresent == b.autoPresent
            && c.records[b.slots[i].value.ticket].mounted
            == (if ok then Upto(b.slots[i].value.next) else Upto(b.slots[i].value.next - 1))
  {
    LandedFlights(b, ok, i);
    LandedMounted(b, ok, i);
    LandedFits(b, ok);
    LandedReports(b, ok, i);
    LandedRecorded(b, ok);
    forall k | 0 <= k < |b.slots| && b.slots[k].Some? && k != i
      ensures Reached(Landed(b, ok), b.slots[k].value, InFlight(Landed(b, ok).flights, b.slots[k].value.ticket))
    {
      LandedElsewhere(b, ok, i, k);
    }
  }

  lemma LandedRecorded(b: Bridge, ok: bool)
    requires Ordered(b) && b.flights != []
    ensures var c := Landed(b, ok);
            forall k :: 0 <= k < |c.slots| && c.slots[k].Some? ==> Recorded(c, c.slots[k].value)
  {
  }

  lemma LandedFits(b: Bridge, ok: bool)
    requires FlightsFit(b) && b.flights != []
    ensures FlightsFit(Landed(b, ok))
  {
    var c := Landed(b, ok);
    forall k | 0 <= k < |c.flights| ensures Placed(c.flights[k], c.slots) {
      assert c.flights[k] == b.flights[k + 1];
    }
  }

  lemma CompleteOrdered(b: Bridge, f: Flight, i: nat, ok: bool, a: Answers)
    requires OrderedBut(b, i) && Has(b, i) && FlightOf(f, b.slots[i]) && f.batch.batchIndex == b.slots[i].value.active
    requires var p := b.slots[i].value;
             && p.next <= |p.batches| && (p.activeFinal <==> p.next == |p.batches|)
             && (ok ==> b.records[p.ticket].mounted == Upto(p.next))
    ensures Ordered(Complete(b, f, ok, a))
  {
    var p := b.slots[i].value;
    FindFrom(b, f, 0, i);
    if !ok {
      SetOrdered(b, i, p.(mounted := false, phase := RollbackPending));
    } else if !p.activeFinal {
      PostBatchOrdered(b, i, a.mount);
    } else {
      AllMountedOrdered(b, i, a);
    }
  }

  lemma MountDoneOrdered(b: Bridge, ok: bool, a: Answers)
    requires Sound(b) && Ordered(b)
    ensures Ordered(MountDone(b, ok, a))
  {
    if b.flights != [] {
      assert Placed(b.flights[0], b.slots);
      var i: nat :| i < |b.slots| && FlightOf(b.flights[0], b.slots[i]);
      LandedOrdered(b, ok, i);
      CompleteOrdered(Landed(b, ok), b.flights[0], i, ok, a);
    }
  }

  // ----- A presentation is answered -----

  lemma PresentedOrdered(b: Bridge, i: nat, presented: bool)
    requires Sound(b) && Ordered(b) && Has(b, i) && b.slots[i].value.phase.PresentPosted?
    ensures var t := b.slots[i].value.ticket;
            t < |b.records|
    ensures var t := b.slots[i].value.ticket;
            var c := Noted(b, t, b.records[t].(presented := presented));
            OrderedBut(c, i) && c.slots == b.slots && c.autoPresent == b.autoPresent
            && (presented ==> Done(c.autoPresent, c.records[t]))
  {
    NoReportYet(b, i);
  }

  lemma AcceptPresentedOrdered(b: Bridge, surface: SurfaceId, request: RequestId, presented: bool, core: bool)
    requires Sound(b) && Ordered(b)
    ensures Ordered(AcceptPresented(b, surface, request, presented, core))
  {
    var found := FindPresented(b, surface, request, 0);
    if found.Some? {
      var i := found.value;
      var t := b.slots[i].value.ticket;
      PresentedOrdered(b, i, presented);
      ConcludeOrdered(Noted(b, t, b.records[t].(presented := presented)), i, presented, core);
    }
  }

  // ----- Service -----

  lemma ServiceSlotOrdered(b: Bridge, i: nat, a: Answers, released: bool)
    requires Ordered(b) && i < |b.slots|
    requires Serviceable(b.slots[i]) && b.slots[i].value.phase.MountPending? ==>
               !InFlight(b.flights, b.slots[i].value.ticket)
    ensures Ordered(ServiceSlot(b, i, a, released))
  {
    if Serviceable(b.slots[i]) {
      var p := b.slots[i].value;
      match p.phase
      case MountPending =>
        NotFlying(b, i);
        PostBatchOrdered(b, i, a.mount);
      case RollbackPending =>
        NotFlying(b, i);
        ConcludeOrdered(b, i, p.mounted, a.core);
      case PresentPending => TryPresentOrdered(b, i, a.present, a.core);
      case CoreResultPending => ReportOrdered(b, i, a.core);
    }
  }

  /** Nothing but slot `i` changes, and at most a batch of its transaction takes off. */
  ghost predicate OnlySlot(b: Bridge, c: Bridge, i: nat) {
    && |c.slots| == |b.slots| && i < |b.slots|
    && (forall k :: 0 <= k < |b.slots| && k != i ==> c.slots[k] == b.slots[k])
    && (c.flights == b.flights
        || (b.slots[i].Some? && exists f: Flight :: f.ticket == b.slots[i].value.ticket && c.flights == b.flights + [f]))
  }

  lemma PostBatchOnly(b: Bridge, i: nat, mount: PortAnswer)
    requires Has(b, i)
    ensures OnlySlot(b, PostBatch(b, i, mount), i)
  {
  }

  lemma ConcludeOnly(b: Bridge, i: nat, mounted: bool, core: bool)
    requires Has(b, i)
    ensures OnlySlot(b, Conclude(b, i, mounted, core), i)
  {
  }

  lemma TryPresentOnly(b: Bridge, i: nat, present: PortAnswer, core: bool)
    requires Has(b, i)
    ensures OnlySlot(b, TryPresent(b, i, present, core), i)
  {
    ConcludeOnly(b, i, false, core);
  }

  lemma TryCoreResultOnly(b: Bridge, i: nat, core: bool)
    requires Has(b, i)
    ensures OnlySlot(b, TryCoreResult(b, i, core), i)
  {
  }

  lemma ServiceSlotOnly(b: Bridge, i: nat, a: Answers, released: bool)
    requires i < |b.slots|
    ensures OnlySlot(b, ServiceSlot(b, i, a, released), i)
  {
    if Serviceable(b.slots[i]) {
      match b.slots[i].value.phase
      case MountPending => PostBatchOnly(b, i, a.mount);
      case RollbackPending => ConcludeOnly(b, i, b.slots[i].value.mounted, a.core);
      case PresentPending => TryPresentOnly(b, i, a.present, a.core);
      case CoreResultPending => TryCoreResultOnly(b, i, a.core);
    }
  }

  lemma QuietElsewhere(b: Bridge, c: Bridge, i: nat)
    requires TicketsApart(b) && QuietFrom(b, i) && OnlySlot(b, c, i)
    ensures QuietFrom(c, i + 1)
  {
    forall k | i + 1 <= k < |c.slots| && Serviceable(c.slots[k]) && c.slots[k].value.phase.MountPending?
      ensures !InFlight(c.flights, c.slots[k].value.ticket)
    {
      if c.flights != b.flights {
        var f: Flight :| f.ticket == b.slots[i].value.ticket && c.flights == b.flights + [f];
        AppendedFlight(b.flights, f, c.slots[k].value.ticket);
      }
    }
  }

  lemma {:induction false} ServiceOrdered(
    b: Bridge, i: nat, budget: nat, answers: nat -> Answers, released: nat -> bool)
    requires Ordered(b) && i <= |b.slots| && QuietFrom(b, i)
    ensures Ordered(ServiceFrom(b, i, budget, answers, released))
    decreases |b.slots| - i
  {
    if i < |b.slots| && budget > 0 {
      ServiceSlotOrdered(b, i, answers(i), released(i));
      ServiceSlotOnly(b, i, answers(i), released(i));
      QuietElsewhere(b, ServiceSlot(b, i, answers(i), released(i)), i);
      ServiceOrdered(ServiceSlot(b, i, answers(i), released(i)), i + 1,
                     if Serviceable(b.slots[i]) then budget - 1 else budget, answers, released);
    }
  }

  // ----- Posting -----

  /** The core names its transactions apart, and conversion numbers their batches. */
  ghost predicate NewName(b: Bridge, surface: SurfaceId, source: Source, attempt: AttemptId) {
    forall i :: 0 <= i < |b.slots| && b.slots[i].Some? ==>
      !(b.slots[i].value.surface == surface && b.slots[i].value.attempt == attempt
        && b.slots[i].value.source.wire == source.wire)
  }

  lemma AdmitOrdered(
    b: Bridge, i: nat, surface: SurfaceId, source: Source, attempt: AttemptId, full: bool, batches: seq<Transaction>,
    bytes: nat)
    requires Ordered(b) && i < |b.slots| && b.slots[i].None? && NewName(b, surface, source, attempt)
    requires WellFormed(batches)
    ensures OrderedBut(Admit(b, i, surface, source, attempt, full, batches, bytes), i)
  {
    var c := Admit(b, i, surface, source, attempt, full, batches, bytes);
    FlightsKept(b, c);
    forall k | 0 <= k < |b.flights| ensures b.flights[k].ticket != |b.records| {
      assert Placed(b.flights[k], b.slots);
      var j :| 0 <= j < |b.slots| && FlightOf(b.flights[k], b.slots[j]);
    }
  }

  lemma PostOrdered(
    b: Bridge, surface: SurfaceId, source: Source, attempt: AttemptId, full: bool, batches: seq<Transaction>,
    bytes: nat, guard: bool, mount: PortAnswer)
    requires Ordered(b) && NewName(b, surface, source, attempt) && WellFormed(batches)
    ensures Ordered(Post(b, surface, source, attempt, full, batches, bytes, guard, mount).1)
  {
    if Refusal(b, bytes, guard).None? {
      var i := FreeSlot(b.slots, 0).value;
      AdmitOrdered(b, i, surface, source, attempt, full, batches, bytes);
      PostBatchOrdered(Admit(b, i, surface, source, attempt, full, batches, bytes), i, Taken);
    }
  }

  // ----- Whole runs -----

  /** A call made with care: names are new, batches numbered, and a service only when no slot it would
      post for has a batch at the mount host. */
  ghost predicate Careful(b: Bridge, event: Event) {
    match event
    case DoPost(surface, source, attempt, full, batches, bytes, guard, mount) =>
      NewName(b, surface, source, attempt) && WellFormed(batches)
    case DoService(budget, answers, released) => QuietFrom(b, 0)
    case _ => true
  }

  ghost predicate CarefulRun(autoPresent: bool, events: seq<Event>) {
    forall k :: 0 <= k < |events| ==> Careful(History(autoPresent, events[..k]), events[k])
  }

  lemma ApplyOrdered(b: Bridge, event: Event)
    requires Sound(b) && Ordered(b) && Careful(b, event)
    ensures Ordered(Apply(b, event))
  {
    match event
    case DoPost(surface, source, attempt, full, batches, bytes, guard, mount) =>
      PostOrdered(b, surface, source, attempt, full, batches, bytes, guard, mount);
    case DoMountDone(ok, a) => MountDoneOrdered(b, ok, a);
    case DoPresented(surface, request, presented, core) =>
      AcceptPresentedOrdered(b, surface, request, presented, core);
    case DoService(budget, answers, released) => ServiceOrdered(b, 0, budget, answers, released);
    case DoClose =>
  }

  lemma CarefulPrefix(autoPresent: bool, events: seq<Event>)
    requires CarefulRun(autoPresent, events) && events != []
    ensures CarefulRun(autoPresent, events[..|events| - 1])
    ensures Careful(History(autoPresent, events[..|events| - 1]), events[|events| - 1])
  {
    var before := events[..|events| - 1];
    forall k | 0 <= k < |before| ensures Careful(History(autoPresent, before[..k]), before[k]) {
      assert before[..k] == events[..k];
    }
  }

  lemma {:induction false} HistoryIsOrdered(autoPresent: bool, events: seq<Event>)
    requires CarefulRun(autoPresent, events)
    ensures Ordered(History(autoPresent, events))
  {
    if events != [] {
      CarefulPrefix(autoPresent, events);
      HistoryIsOrdered(autoPresent, events[..|events| - 1]);
      HistoryIsSound(autoPresent, events[..|events| - 1]);
      ApplyOrdered(History(autoPresent, events[..|events| - 1]), events[|events| - 1]);
    }
  }

  /** Over every careful run: a result that says mounted is of a transaction whose batches were all
      mounted, each once and in order, and that was presented if it was a full mount to be. */
  lemma MountedMeansMounted(autoPresent: bool, events: seq<Event>, t: nat)
    requires CarefulRun(autoPresent, events)
    requires var b := History(autoPresent, events); t < |b.records| && true in b.records[t].reports
    ensures var r := History(autoPresent, events).records[t];
            r.mounted == Upto(r.batches) && (r.full && History(autoPresent, events).autoPresent ==> r.presented)
  {
    HistoryIsOrdered(autoPresent, events);
  }
}
