/** When a failed mount is reported: by the turn whose release of the surface succeeds, and not before. */
module BridgeRollbacks {
  import opened Wrappers
  import opened MountModel
  import opened MountConversion
  import opened MountBridges
  import opened BridgeResults
  import BridgeOrder

  /** What waits to be rolled back did not succeed, and what a presentation was posted for is a request. */
  ghost predicate PhasesFit(b: Bridge) {
    forall i :: 0 <= i < |b.slots| && b.slots[i].Some? ==>
      && (b.slots[i].value.phase.RollbackPending? ==> !b.slots[i].value.mounted)
      && (b.slots[i].value.phase.PresentPosted? ==> b.slots[i].value.source.request.Some?)
  }

  lemma PostBatchFits(b: Bridge, i: nat, mount: PortAnswer)
    requires PhasesFit(b) && Has(b, i)
    ensures PhasesFit(PostBatch(b, i, mount))
  {
  }

  lemma ConcludeFits(b: Bridge, i: nat, mounted: bool, core: bool)
    requires PhasesFit(b) && Has(b, i)
    ensures PhasesFit(Conclude(b, i, mounted, core))
  {
  }

  lemma TryPresentFits(b: Bridge, i: nat, present: PortAnswer, core: bool)
    requires PhasesFit(b) && Has(b, i)
    ensures PhasesFit(TryPresent(b, i, present, core))
  {
    ConcludeFits(b, i, false, core);
  }

  lemma AllMountedFits(b: Bridge, i: nat, a: Answers)
    requires PhasesFit(b) && Has(b, i)
    ensures PhasesFit(AllMounted(b, i, a))
  {
    ConcludeFits(b, i, true, a.core);
    ConcludeFits(b, i, false, a.core);
    TryPresentFits(Set(b, i, b.slots[i].value.(phase := PresentPending)), i, a.present, a.core);
  }

  lemma CompleteFits(b: Bridge, f: Flight, ok: bool, a: Answers)
    requires PhasesFit(b)
    ensures PhasesFit(Complete(b, f, ok, a))
  {
    var found := Find(b, f, 0);
    if found.Some? {
      PostBatchFits(b, found.value, a.mount);
      AllMountedFits(b, found.value, a);
    }
  }

  lemma ServiceSlotFits(b: Bridge, i: nat, a: Answers, released: bool)
    requires PhasesFit(b) && i < |b.slots|
    ensures PhasesFit(ServiceSlot(b, i, a, released))
  {
    if Serviceable(b.slots[i]) {
      match b.slots[i].value.phase
      case MountPending => PostBatchFits(b, i, a.mount);
      case RollbackPending => ConcludeFits(b, i, b.slots[i].value.mounted, a.core);
      case PresentPending => TryPresentFits(b, i, a.present, a.core);
      case CoreResultPending =>
    }
  }

  lemma {:induction false} ServiceFits(
    b: Bridge, i: nat, budget: nat, answers: nat -> Answers, released: nat -> bool)
    requires PhasesFit(b) && i <= |b.slots|
    ensures PhasesFit(ServiceFrom(b, i, budget, answers, released))
    decreases |b.slots| - i
  {
    if i < |b.slots| && budget > 0 {
      ServiceSlotFits(b, i, answers(i), released(i));
      ServiceFits(ServiceSlot(b, i, answers(i), released(i)), i + 1,
                   if Serviceable(b.slots[i]) then budget - 1 else budget, answers, released);
    }
  }

  lemma PostFits(
    b: Bridge, surface: SurfaceId, source: Source, attempt: AttemptId, full: bool, batches: seq<Transaction>,
    bytes: nat, guard: bool, mount: PortAnswer)
    requires PhasesFit(b)
    ensures PhasesFit(Post(b, surface, source, attempt, full, batches, bytes, guard, mount).1)
  {
    if Refusal(b, bytes, guard).None? {
      var i := FreeSlot(b.slots, 0).value;
      PostBatchFits(Admit(b, i, surface, source, attempt, full, batches, bytes), i, Taken);
    }
  }

  lemma MountDoneFits(b: Bridge, ok: bool, a: Answers)
    requires PhasesFit(b)
    ensures PhasesFit(MountDone(b, ok, a))
  {
    if b.flights != [] {
      CompleteFits(BridgeOrder.Landed(b, ok), b.flights[0], ok, a);
    }
  }

  lemma PresentedFits(b: Bridge, surface: SurfaceId, request: RequestId, presented: bool, core: bool)
    requires PhasesFit(b)
    ensures PhasesFit(AcceptPresented(b, surface, request, presented, core))
  {
    var found := FindPresented(b, surface, request, 0);
    if found.Some? {
      var t := b.slots[found.value].value.ticket;
      ConcludeFits(if t < |b.records| then Noted(b, t, b.records[t].(presented := presented)) else b, found.value,
                   presented, core);
    }
  }

  lemma ApplyFits(b: Bridge, event: Event)
    requires PhasesFit(b)
    ensures PhasesFit(Apply(b, event))
  {
    match event
    case DoPost(surface, source, attempt, full, batches, bytes, guard, mount) =>
      PostFits(b, surface, source, attempt, full, batches, bytes, guard, mount);
    case DoMountDone(ok, a) => MountDoneFits(b, ok, a);
    case DoPresented(surface, request, presented, core) => PresentedFits(b, surface, request, presented, core);
    case DoService(budget, answers, released) => ServiceFits(b, 0, budget, answers, released);
    case DoClose =>
  }

  lemma {:induction false} HistoryFits(autoPresent: bool, events: seq<Event>)
    ensures PhasesFit(History(autoPresent, events))
  {
    if events != [] {
      HistoryFits(autoPresent, events[..|events| - 1]);
      ApplyFits(History(autoPresent, events[..|events| - 1]), events[|events| - 1]);
    }
  }

  /** In every run, for every slot that waits to be rolled back: its turn while the surface cannot be
      released changes nothing; a turn that releases it, with the core taking the result, frees the slot
      and reports failure, that once; and one whose result the core does not take leaves a failed result
      waiting, the surface released. */
  lemma RollbackReports(autoPresent: bool, events: seq<Event>, i: nat, a: Answers, released: bool)
    requires Has(History(autoPresent, events), i)
    requires History(autoPresent, events).slots[i].value.phase.RollbackPending?
    ensures var b := History(autoPresent, events);
            var c, t := ServiceSlot(b, i, a, released), b.slots[i].value.ticket;
            && t < |b.records| == |c.records| && b.records[t].reports == []
            && (!released ==> c == b)
            && (released && a.core ==> c.slots == b.slots[i := None] && c.records[t].reports == [false])
            && (released && !a.core ==>
                  && c.slots == b.slots[i := Some(b.slots[i].value.(phase := CoreResultPending))]
                  && !c.slots[i].value.mounted && c.records == b.records)
  {
    var b := History(autoPresent, events);
    HistoryFits(autoPresent, events);
    HistoryIsSound(autoPresent, events);
    assert InSlot(b.slots, b.slots[i].value.ticket);
  }
}
