/** The core mount bridge over an array of slots, method by method against the steps of
    MountBridges. */
module CoreMountBridges {
  import opened Wrappers
  import opened MountModel
  import opened MountConversion
  import opened MountBridges

  /** The bridge as the object it is: sixteen slots that its calls move on in place. */
  class CoreMountBridge {
    const autoPresent: bool
    const size: Transaction -> nat
    const slots: array<Option<Pending>>
    var retained: nat
    var accepting: bool
    var closed: bool
    /** The batches that the mount host has taken and not yet answered. */
    var flights: seq<Flight>
    /** What happened to every accepted transaction; a slot's ticket is its transaction's place. */
    var records: seq<Record>

    ghost function Abs(): Bridge
      reads this, slots
    {
      Bridge(slots[..], retained, accepting, closed, autoPresent, flights, records)
    }

    constructor (autoPresent: bool, size: Transaction -> nat)
      ensures fresh(slots) && this.autoPresent == autoPresent && this.size == size && Abs() == Opened(autoPresent)
    {
      this.autoPresent, this.size := autoPresent, size;
      slots := new Option<Pending>[CAPACITY](i => None);
      retained, accepting, closed, flights, records := 0, true, false, [], [];
    }

    // ----- One slot -----

    method ClearSlot(i: nat)
      requires i < slots.Length && slots[i].Some?
      modifies this`retained, slots
      ensures Abs() == Clear(old(Abs()), i)
    {
      var bytes := slots[i].value.bytes;
      retained := if retained >= bytes then retained - bytes else 0;
      slots[i] := None;
    }

    method OfferBatch(i: nat, mount: PortAnswer)
      requires i < slots.Length && slots[i].Some?
      modifies this`flights, slots
      ensures Abs() == PostBatch(old(Abs()), i, mount)
    {
      var p := slots[i].value;
      if p.next >= |p.batches| { return; }
      var batch := p.batches[p.next];
      p := p.(active := batch.batchIndex, activeFinal := batch.isFinal);
      if mount.Taken? {
        flights := flights + [Flight(p.surface, p.source, p.attempt, batch, p.ticket)];
        p := p.(next := p.next + 1, phase := MountPending);
      } else if mount.Later? {
        p := p.(phase := MountPending);
      } else {
        p := p.(mounted := false, phase := RollbackPending);
      }
      slots[i] := Some(p);
    }

    method OfferResult(i: nat, core: bool)
      requires i < slots.Length && slots[i].Some?
      modifies this`retained, this`records, slots
      ensures Abs() == TryCoreResult(old(Abs()), i, core)
    {
      var p := slots[i].value;
      if !p.phase.CoreResultPending? || !core { return; }
      ClearSlot(i);
      if p.ticket < |records| {
        var record := records[p.ticket];
        records := records[p.ticket := record.(reports := record.reports + [p.mounted])];
      }
    }

    method Settle(i: nat, mounted: bool, core: bool)
      requires i < slots.Length && slots[i].Some?
      modifies this`retained, this`records, slots
      ensures Abs() == Conclude(old(Abs()), i, mounted, core)
    {
      slots[i] := Some(slots[i].value.(mounted := mounted, phase := CoreResultPending));
      OfferResult(i, core);
    }

    method OfferPresent(i: nat, present: PortAnswer, core: bool)
      requires i < slots.Length && slots[i].Some?
      modifies this`retained, this`records, slots
      ensures Abs() == TryPresent(old(Abs()), i, present, core)
    {
      var p := slots[i].value;
      if !p.phase.PresentPending? || p.source.request.None? { return; }
      if present.Taken? {
        slots[i] := Some(p.(phase := PresentPosted));
      } else if present.Never? {
        Settle(i, false, core);
      }
    }

    // ----- Posting -----

    method FindFree() returns (r: Option<nat>)
      ensures r == FreeSlot(slots[..], 0)
    {
      for i := 0 to slots.Length
        invariant FreeSlot(slots[..], 0) == FreeSlot(slots[..], i)
      {
        if slots[i].None? { return Some(i); }
      }
      return None;
    }

    method CountHeld() returns (r: int)
      ensures r == Held(slots[..])
    {
      r := 0;
      for i := 0 to slots.Length
        invariant r == Held(slots[..i])
      {
        assert slots[..i + 1][..i] == slots[..i];
        if slots[i].Some? {
          r := r + |slots[i].value.batches| - slots[i].value.next;
        }
      }
      assert slots[..slots.Length] == slots[..];
    }

    method Weigh(batches: seq<Transaction>) returns (r: nat)
      ensures r == Weight(batches, size, 0)
    {
      r := 0;
      for k := 0 to |batches|
        invariant Weight(batches, size, 0) == r + Weight(batches, size, k)
      {
        r := r + size(batches[k]);
      }
    }

    method Take(i: nat, surface: SurfaceId, source: Source, attempt: AttemptId, full: bool, batches: seq<Transaction>, bytes: nat)
      requires i < slots.Length
      modifies this`retained, this`records, slots
      ensures Abs() == Admit(old(Abs()), i, surface, source, attempt, full, batches, bytes)
    {
      slots[i] := Some(Pending(surface, source, attempt, batches, bytes, full, 0, 0, true, MountPending, false, |records|));
      retained := retained + bytes;
      records := records + [Record(full, |batches|, [], false, [])];
    }

    /** Converts a core transaction and posts its first batch; the rest wait in the slot. */
    method PostTransaction(t: CoreTransaction, request: Option<RequestId>, attempt: AttemptId, guard: bool, mount: PortAnswer)
      returns (result: PostResult)
      modifies this, slots
      ensures match Convert(t)
              case Failure(error) =>
                && Abs() == old(Abs())
                && result == if old(accepting) && !old(closed) then Inconvertible(error) else NotAccepting
              case Success(batches) =>
                (result, Abs()) == Post(old(Abs()), t.surface, Source(t.source, request), attempt, t.full, batches,
                                    Weight(batches, size, 0), guard, mount)
    {
      if !accepting || closed { return NotAccepting; }
      var converted := ConvertTransaction(t);
      if converted.Failure? { return Inconvertible(converted.error); }
      result := PostConverted(t.surface, Source(t.source, request), attempt, t.full, converted.value, guard, mount);
    }

    method PostConverted(surface: SurfaceId, source: Source, attempt: AttemptId, full: bool, batches: seq<Transaction>,
                         guard: bool, mount: PortAnswer)
      returns (result: PostResult)
      modifies this, slots
      ensures (result, Abs()) == Post(old(Abs()), surface, source, attempt, full, batches, Weight(batches, size, 0), guard, mount)
    {
      var bytes := Weigh(batches);
      var free := FindFree();
      var held := CountHeld();
      if !accepting || closed { return NotAccepting; }
      if bytes > MAX_RETAINED_BYTES { return TooLarge; }
      if !guard { return AdmissionBusy; }
      if free.None? { return CapacityFull; }
      if held >= CAPACITY || bytes > MAX_RETAINED_BYTES - retained { return BackPressure; }
      if batches == [] || !mount.Taken? { return MountRefused(mount); }
      Take(free.value, surface, source, attempt, full, batches, bytes);
      OfferBatch(free.value, Taken);
      return Accepted;
    }

    // ----- Answers -----

    method FindFlight(f: Flight) returns (r: Option<nat>)
      ensures r == Find(Abs(), f, 0)
    {
      for i := 0 to slots.Length
        invariant Find(Abs(), f, 0) == Find(Abs(), f, i)
      {
        if slots[i].Some? && SameKey(slots[i].value, f) { return Some(i); }
      }
      return None;
    }

    method FinishMount(i: nat, a: Answers)
      requires i < slots.Length && slots[i].Some?
      modifies this`retained, this`records, slots
      ensures Abs() == AllMounted(old(Abs()), i, a)
    {
      var p := slots[i].value;
      if !p.full {
        Settle(i, true, a.core);
      } else if !a.mark {
        Settle(i, false, a.core);
      } else if !autoPresent {
        Settle(i, true, a.core);
      } else {
        slots[i] := Some(p.(phase := PresentPending));
        OfferPresent(i, a.present, a.core);
      }
    }

    /** The mount host's answer to a batch. */
    method CompleteBatch(f: Flight, ok: bool, a: Answers)
      modifies this, slots
      ensures Abs() == Complete(old(Abs()), f, ok, a)
    {
      var found := FindFlight(f);
      if found.None? { return; }
      var i := found.value;
      var p := slots[i].value;
      if f.batch.batchIndex != p.active || f.batch.batchCount != |p.batches| { return; }
      if !ok {
        slots[i] := Some(p.(mounted := false, phase := RollbackPending));
      } else if !p.activeFinal {
        OfferBatch(i, a.mount);
      } else {
        FinishMount(i, a);
      }
    }

    method FindPosted(surface: SurfaceId, request: RequestId) returns (r: Option<nat>)
      ensures r == FindPresented(Abs(), surface, request, 0)
    {
      for i := 0 to slots.Length
        invariant FindPresented(Abs(), surface, request, 0) == FindPresented(Abs(), surface, request, i)
      {
        if slots[i].Some? && slots[i].value.phase.PresentPosted? && slots[i].value.surface == surface
           && slots[i].value.source.request == Some(request) { return Some(i); }
      }
      return None;
    }

    /** The surface host's answer to a presentation. */
    method AcceptSurfaceResult(surface: SurfaceId, request: RequestId, presented: bool, core: bool)
      modifies this, slots
      ensures Abs() == AcceptPresented(old(Abs()), surface, request, presented, core)
    {
      var found := FindPosted(surface, request);
      if found.None? { return; }
      var ticket := slots[found.value].value.ticket;
      if ticket < |records| {
        records := records[ticket := records[ticket].(presented := presented)];
      }
      Settle(found.value, presented, core);
    }

    // ----- Service -----

    method ServeSlot(i: nat, a: Answers, released: bool)
      requires i < slots.Length
      modifies this, slots
      ensures Abs() == ServiceSlot(old(Abs()), i, a, released)
    {
      if !Serviceable(slots[i]) { return; }
      match slots[i].value.phase
      case MountPending => OfferBatch(i, a.mount);
      case RollbackPending =>
        if released {
          Settle(i, slots[i].value.mounted, a.core);
        }
      case PresentPending => OfferPresent(i, a.present, a.core);
      case CoreResultPending => OfferResult(i, a.core);
    }

    method Serve(budget: nat, answers: nat -> Answers, released: nat -> bool)
      modifies this, slots
      ensures Abs() == Service(old(Abs()), budget, answers, released)
    {
      if !closed {
        ServeAll(budget, answers, released);
      }
    }

    /** One step of a service pass. */
    method ServeNext(i: nat, budget: nat, answers: nat -> Answers, released: nat -> bool, ghost target: Bridge)
      returns (spent: nat)
      requires i < slots.Length && budget > 0 && target == ServiceFrom(Abs(), i, budget, answers, released)
      modifies this, slots
      ensures spent <= budget && target == ServiceFrom(Abs(), i + 1, budget - spent, answers, released)
    {
      spent := if Serviceable(slots[i]) then 1 else 0;
      ServeSlot(i, answers(i), released(i));
    }

    method ServeAll(budget: nat, answers: nat -> Answers, released: nat -> bool)
      modifies this, slots
      ensures Abs() == ServiceFrom(old(Abs()), 0, budget, answers, released)
    {
      ghost var target := ServiceFrom(Abs(), 0, budget, answers, released);
      var i, attempted: nat := 0, 0;
      while i < slots.Length && attempted < budget
        invariant i <= slots.Length && attempted <= budget
        invariant target == ServiceFrom(Abs(), i, budget - attempted, answers, released)
        decreases slots.Length - i
      {
        var spent := ServeNext(i, budget - attempted, answers, released, target);
        i, attempted := i + 1, attempted + spent;
      }
    }

    method CloseBridge()
      modifies this`accepting, this`closed
      ensures Abs() == old(Abs()).(accepting := false, closed := true)
    {
      accepting, closed := false, true;
    }
  }
}
