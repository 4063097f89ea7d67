/** What posting to the bridge and an answered presentation come to. */
module BridgeCalls {
  import opened Wrappers
  import opened MountModel
  import opened MountConversion
  import opened MountBridges

  /** The transaction is in a slot that was free, and its first batch is with the mount host. */
  predicate TakenAt(
    b: Bridge, c: Bridge, i: nat, surface: SurfaceId, source: Source, attempt: AttemptId, full: bool,
    batches: seq<Transaction>, bytes: nat)
  {
    && i < |b.slots| && b.slots[i].None? && batches != []
    && c.slots == b.slots[i := Some(Pending(surface, source, attempt, batches, bytes, full, 1, batches[0].batchIndex,
                                            batches[0].isFinal, MountPending, false, |b.records|))]
    && c.flights == b.flights + [Flight(surface, source, attempt, batches[0], |b.records|)]
    && c.retained == b.retained + bytes && c.records == b.records + [Record(full, |batches|, [], false, [])]
  }

  /** A transaction is taken exactly by an open bridge with the admission lock, a free slot, fewer than
      sixteen batches held back and room for its bytes, when the mount host takes its first batch; then it
      is in a slot with that batch posted. Otherwise nothing changes. */
  lemma PostMeans(
    b: Bridge, surface: SurfaceId, source: Source, attempt: AttemptId, full: bool, batches: seq<Transaction>,
    bytes: nat, guard: bool, mount: PortAnswer)
    ensures var (result, c) := Post(b, surface, source, attempt, full, batches, bytes, guard, mount);
            var open, room := b.accepting && !b.closed, exists i :: 0 <= i < |b.slots| && b.slots[i].None?;
            var fits := Held(b.slots) < CAPACITY && bytes <= MAX_RETAINED_BYTES - b.retained;
            && (result.NotAccepting? <==> !open)
            && (result.TooLarge? <==> open && bytes > MAX_RETAINED_BYTES)
            && (result.AdmissionBusy? <==> open && bytes <= MAX_RETAINED_BYTES && !guard)
            && (result.CapacityFull? <==> open && bytes <= MAX_RETAINED_BYTES && guard && !room)
            && (result.BackPressure? <==> open && bytes <= MAX_RETAINED_BYTES && guard && room && !fits)
            && (result.Accepted?
                <==> open && bytes <= MAX_RETAINED_BYTES && guard && room && fits && mount.Taken? && batches != [])
            && (result.Accepted? ==> exists i :: TakenAt(b, c, i, surface, source, attempt, full, batches, bytes))
            && (!result.Accepted? ==> c == b)
  {
    var free := FreeSlot(b.slots, 0);
    NoneFree(b.slots, 0);
    var (result, c) := Post(b, surface, source, attempt, full, batches, bytes, guard, mount);
    if result.Accepted? {
      assert TakenAt(b, c, free.value, surface, source, attempt, full, batches, bytes);
    }
  }

  lemma {:induction false} NoneFree(slots: seq<Option<Pending>>, i: nat)
    requires i <= |slots|
    ensures FreeSlot(slots, i).None? <==> forall k :: i <= k < |slots| ==> slots[k].Some?
    decreases |slots| - i
  {
    if i < |slots| {
      NoneFree(slots, i + 1);
    }
  }

  /** The slot's result is offered: taken, it is the transaction's report; otherwise it waits. */
  predicate Offered(b: Bridge, c: Bridge, i: nat, mounted: bool, core: bool)
    requires Has(b, i) && b.slots[i].value.ticket < |b.records|
  {
    var p := b.slots[i].value;
    && |c.records| == |b.records|
    && c.slots == b.slots[i := if core then None else Some(p.(mounted := mounted, phase := CoreResultPending))]
    && c.records[p.ticket].reports == b.records[p.ticket].reports + (if core then [mounted] else [])
  }

  /** A presentation of this surface was posted for the slot under this request. */
  predicate AskedFor(slot: Option<Pending>, surface: SurfaceId, request: RequestId) {
    slot.Some? && slot.value.phase == PresentPosted && slot.value.surface == surface
    && slot.value.source.request == Some(request)
  }

  /** An answered presentation concludes the first slot that waits for one of this surface under this
      request, with what the surface host says; if no slot does, nothing changes. */
  lemma PresentedMeans(b: Bridge, surface: SurfaceId, request: RequestId, presented: bool, core: bool)
    requires forall i :: 0 <= i < |b.slots| && b.slots[i].Some? ==> b.slots[i].value.ticket < |b.records|
    ensures var c := AcceptPresented(b, surface, request, presented, core);
            if forall i :: 0 <= i < |b.slots| ==> !AskedFor(b.slots[i], surface, request) then c == b
            else
              exists i: nat ::
                && i < |b.slots| && AskedFor(b.slots[i], surface, request)
                && (forall k :: 0 <= k < i ==> !AskedFor(b.slots[k], surface, request))
                && Offered(b, c, i, presented, core)
                && c.records[b.slots[i].value.ticket].presented == presented
  {
    forall slot: Option<Pending> ensures AskedFor(slot, surface, request) <==> Awaits(slot, surface, request) {
    }
    var found := FindPresented(b, surface, request, 0);
    if found.Some? {
      assert Offered(b, AcceptPresented(b, surface, request, presented, core), found.value, presented, core);
    }
  }

  /** The turn of a slot that waits to be presented for a request: it is asked for, or kept for another
      turn, or, refused for good, the mount has failed. */
  lemma PresentTurn(b: Bridge, i: nat, a: Answers, released: bool)
    requires Has(b, i) && b.slots[i].value.ticket < |b.records|
    requires b.slots[i].value.phase.PresentPending? && b.slots[i].value.source.request.Some?
    ensures var c := ServiceSlot(b, i, a, released);
            match a.present
            case Taken => c == b.(slots := b.slots[i := Some(b.slots[i].value.(phase := PresentPosted))])
            case Later => c == b
            case Never => Offered(b, c, i, false, a.core)
  {
  }
}
