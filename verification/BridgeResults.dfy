/** What the bridge promises the core: at most one result for each transaction it took, within its
    memory; and, while it is serviced with care, a result that says mounted only when everything was. */
module BridgeResults {
  import opened Wrappers
  import opened MountModel
  import opened MountConversion
  import opened MountBridges

  // ----- One result each, within memory -----

  ghost predicate InSlot(slots: seq<Option<Pending>>, ticket: nat) {
    exists i :: 0 <= i < |slots| && slots[i].Some? && slots[i].value.ticket == ticket
  }

  /** Every slot holds a transaction of its own. */
  ghost predicate TicketsApart(b: Bridge) {
    && (forall i :: 0 <= i < |b.slots| && b.slots[i].Some? ==> b.slots[i].value.ticket < |b.records|)
    && (forall i, j :: 0 <= i < j < |b.slots| && b.slots[i].Some? && b.slots[j].Some? ==>
          b.slots[i].value.ticket != b.slots[j].value.ticket)
  }

  /** A transaction is in a slot until the core takes its result, which happens once. */
  ghost predicate OneReport(b: Bridge) {
    forall t :: 0 <= t < |b.records| ==> |b.records[t].reports| == if InSlot(b.slots, t) then 0 else 1
  }

  ghost predicate Sound(b: Bridge) {
    && |b.slots| == CAPACITY && b.retained == RetainedBytes(b.slots) <= MAX_RETAINED_BYTES
    && TicketsApart(b) && OneReport(b)
  }

  lemma {:induction false} BytesUpdate(slots: seq<Option<Pending>>, i: nat, slot: Option<Pending>)
    requires i < |slots|
    ensures RetainedBytes(slots[i := slot]) == RetainedBytes(slots) - Bytes(slots[i]) + Bytes(slot)
  {
    var n := |slots| - 1;
    if i == n {
      assert slots[i := slot][..n] == slots[..n];
    } else {
      assert slots[i := slot][..n] == slots[..n][i := slot];
      BytesUpdate(slots[..n], i, slot);
    }
  }

  lemma {:induction false} NoBytes(slots: seq<Option<Pending>>)
    requires forall i :: 0 <= i < |slots| ==> slots[i].None?
    ensures RetainedBytes(slots) == 0
  {
    if slots != [] {
      NoBytes(slots[..|slots| - 1]);
    }
  }

  /** A slot's transaction moves on. */
  lemma SetSound(b: Bridge, i: nat, p: Pending)
    requires Sound(b) && Has(b, i) && p.ticket == b.slots[i].value.ticket && p.bytes == b.slots[i].value.bytes
    ensures Sound(Set(b, i, p))
  {
    BytesUpdate(b.slots, i, Some(p));
    SameTickets(b.slots, i, p);
  }

  lemma SameTickets(slots: seq<Option<Pending>>, i: nat, p: Pending)
    requires i < |slots| && slots[i].Some? && p.ticket == slots[i].value.ticket
    ensures forall t :: InSlot(slots[i := Some(p)], t) <==> InSlot(slots, t)
  {
    var after := slots[i := Some(p)];
    forall t ensures InSlot(after, t) <==> InSlot(slots, t) {
      if InSlot(slots, t) {
        var k :| 0 <= k < |slots| && slots[k].Some? && slots[k].value.ticket == t;
        assert after[k].Some? && after[k].value.ticket == t;
      }
    }
  }

  /** What else happens leaves slots, memory and reports alone. */
  ghost predicate SameReports(b: Bridge, c: Bridge) {
    && c.slots == b.slots && c.retained == b.retained && |c.records| == |b.records|
    && forall t :: 0 <= t < |b.records| ==> c.records[t].reports == b.records[t].reports
  }

  lemma SameReportsSound(b: Bridge, c: Bridge)
    requires Sound(b) && SameReports(b, c)
    ensures Sound(c)
  {
  }

  lemma PostBatchSound(b: Bridge, i: nat, mount: PortAnswer)
    requires Sound(b) && Has(b, i)
    ensures Sound(PostBatch(b, i, mount))
  {
    var p := b.slots[i].value;
    if p.next < |p.batches| {
      var q := PostBatch(b, i, mount).slots[i].value;
      SetSound(b, i, q);
      SameReportsSound(Set(b, i, q), PostBatch(b, i, mount));
    }
  }

  /** The core takes a result: the slot is free, and the transaction has its report. */
  lemma TryCoreResultSound(b: Bridge, i: nat, core: bool)
    requires Sound(b) && Has(b, i)
    ensures Sound(TryCoreResult(b, i, core))
  {
    var p := b.slots[i].value;
    if p.phase.CoreResultPending? && core {
      BytesUpdate(b.slots, i, None);
      ReportSound(b, i);
    }
  }

  lemma ReportSound(b: Bridge, i: nat)
    requires Sound(b) && Has(b, i) && b.slots[i].value.phase.CoreResultPending?
    ensures TicketsApart(TryCoreResult(b, i, true)) && OneReport(TryCoreResult(b, i, true))
  {
    var c := TryCoreResult(b, i, true);
    assert c.slots == b.slots[i := None];
    forall t | 0 <= t < |b.records|
      ensures InSlot(c.slots, t) <==> InSlot(b.slots, t) && t != b.slots[i].value.ticket
    {
      ClearedTickets(b, i, t);
    }
    assert InSlot(b.slots, b.slots[i].value.ticket);
  }

  lemma ClearedTickets(b: Bridge, i: nat, t: nat)
    requires TicketsApart(b) && Has(b, i)
    ensures InSlot(b.slots[i := None], t) <==> InSlot(b.slots, t) && t != b.slots[i].value.ticket
  {
    var after := b.slots[i := None];
    if InSlot(b.slots, t) && t != b.slots[i].value.ticket {
      var k :| 0 <= k < |b.slots| && b.slots[k].Some? && b.slots[k].value.ticket == t;
      assert after[k].Some? && after[k].value.ticket == t;
    }
  }

  lemma ConcludeSound(b: Bridge, i: nat, mounted: bool, core: bool)
    requires Sound(b) && Has(b, i)
    ensures Sound(Conclude(b, i, mounted, core))
  {
    var p := b.slots[i].value.(mounted := mounted, phase := CoreResultPending);
    SetSound(b, i, p);
    TryCoreResultSound(Set(b, i, p), i, core);
  }

  lemma TryPresentSound(b: Bridge, i: nat, present: PortAnswer, core: bool)
    requires Sound(b) && Has(b, i)
    ensures Sound(TryPresent(b, i, present, core))
  {
    var p := b.slots[i].value;
    if p.phase.PresentPending? && p.source.request.Some? {
      SetSound(b, i, p.(phase := PresentPosted));
      ConcludeSound(b, i, false, core);
    }
  }

  lemma AllMountedSound(b: Bridge, i: nat, a: Answers)
    requires Sound(b) && Has(b, i)
    ensures Sound(AllMounted(b, i, a))
  {
    var p := b.slots[i].value;
    ConcludeSound(b, i, true, a.core);
    ConcludeSound(b, i, false, a.core);
    SetSound(b, i, p.(phase := PresentPending));
    TryPresentSound(Set(b, i, p.(phase := PresentPending)), i, a.present, a.core);
  }

  lemma CompleteSound(b: Bridge, f: Flight, ok: bool, a: Answers)
    requires Sound(b)
    ensures Sound(Complete(b, f, ok, a))
  {
    var found := Find(b, f, 0);
    if found.Some? {
      var i := found.value;
      SetSound(b, i, b.slots[i].value.(mounted := false, phase := RollbackPending));
      PostBatchSound(b, i, a.mount);
      AllMountedSound(b, i, a);
    }
  }

  lemma MountDoneSound(b: Bridge, ok: bool, a: Answers)
    requires Sound(b)
    ensures Sound(MountDone(b, ok, a))
  {
    if b.flights != [] {
      var f := b.flights[0];
      var landed := b.(flights := b.flights[1..]);
      var noted := if ok && f.ticket < |b.records| then
                     Noted(landed, f.ticket, b.records[f.ticket].(mounted := b.records[f.ticket].mounted + [f.batch.batchIndex]))
                   else landed;
      SameReportsSound(b, noted);
      CompleteSound(noted, f, ok, a);
    }
  }

  lemma AcceptPresentedSound(b: Bridge, surface: SurfaceId, request: RequestId, presented: bool, core: bool)
    requires Sound(b)
    ensures Sound(AcceptPresented(b, surface, request, presented, core))
  {
    var found := FindPresented(b, surface, request, 0);
    if found.Some? {
      var ticket := b.slots[found.value].value.ticket;
      var noted := Noted(b, ticket, b.records[ticket].(presented := presented));
      SameReportsSound(b, noted);
      ConcludeSound(noted, found.value, presented, core);
    }
  }

  lemma ServiceSlotSound(b: Bridge, i: nat, a: Answers, released: bool)
    requires Sound(b) && i < |b.slots|
    ensures Sound(ServiceSlot(b, i, a, released))
  {
    if Serviceable(b.slots[i]) {
      match b.slots[i].value.phase
      case MountPending => PostBatchSound(b, i, a.mount);
      case RollbackPending => ConcludeSound(b, i, b.slots[i].value.mounted, a.core);
      case PresentPending => TryPresentSound(b, i, a.present, a.core);
      case CoreResultPending => TryCoreResultSound(b, i, a.core);
    }
  }

  lemma {:induction false} ServiceSound(
    b: Bridge, i: nat, budget: nat, answers: nat -> Answers, released: nat -> bool)
    requires Sound(b) && i <= |b.slots|
    ensures Sound(ServiceFrom(b, i, budget, answers, released))
    decreases |b.slots| - i
  {
    if i < |b.slots| && budget > 0 {
      ServiceSlotSound(b, i, answers(i), released(i));
      ServiceSound(ServiceSlot(b, i, answers(i), released(i)), i + 1,
                   if Serviceable(b.slots[i]) then budget - 1 else budget, answers, released);
    }
  }

  lemma AdmitSound(
    b: Bridge, i: nat, surface: SurfaceId, source: Source, attempt: AttemptId, full: bool, batches: seq<Transaction>,
    bytes: nat)
    requires Sound(b) && i < |b.slots| && b.slots[i].None? && b.retained + bytes <= MAX_RETAINED_BYTES
    ensures Sound(Admit(b, i, surface, source, attempt, full, batches, bytes))
  {
    var c := Admit(b, i, surface, source, attempt, full, batches, bytes);
    BytesUpdate(b.slots, i, c.slots[i]);
    forall t | 0 <= t < |c.records| ensures InSlot(c.slots, t) <==> InSlot(b.slots, t) || t == |b.records| {
      AdmittedTickets(b, i, c.slots[i].value, t);
    }
    assert !InSlot(b.slots, |b.records|);
  }

  lemma AdmittedTickets(b: Bridge, i: nat, p: Pending, t: nat)
    requires i < |b.slots| && b.slots[i].None?
    ensures InSlot(b.slots[i := Some(p)], t) <==> InSlot(b.slots, t) || t == p.ticket
  {
    var after := b.slots[i := Some(p)];
    if InSlot(b.slots, t) {
      var k :| 0 <= k < |b.slots| && b.slots[k].Some? && b.slots[k].value.ticket == t;
      assert after[k].Some? && after[k].value.ticket == t;
    }
    assert after[i].Some?;
  }

  lemma PostSound(
    b: Bridge, surface: SurfaceId, source: Source, attempt: AttemptId, full: bool, batches: seq<Transaction>,
    bytes: nat, guard: bool, mount: PortAnswer)
    requires Sound(b)
    ensures Sound(Post(b, surface, source, attempt, full, batches, bytes, guard, mount).1)
  {
    if Refusal(b, bytes, guard).None? {
      var i := FreeSlot(b.slots, 0).value;
      AdmitSound(b, i, surface, source, attempt, full, batches, bytes);
      PostBatchSound(Admit(b, i, surface, source, attempt, full, batches, bytes), i, Taken);
    }
  }

  lemma ApplySound(b: Bridge, event: Event)
    requires Sound(b)
    ensures Sound(Apply(b, event))
  {
    match event
    case DoPost(surface, source, attempt, full, batches, bytes, guard, mount) =>
      PostSound(b, surface, source, attempt, full, batches, bytes, guard, mount);
    case DoMountDone(ok, a) => MountDoneSound(b, ok, a);
    case DoPresented(surface, request, presented, core) =>
      AcceptPresentedSound(b, surface, request, presented, core);
    case DoService(budget, answers, released) => ServiceSound(b, 0, budget, answers, released);
    case DoClose =>
  }

  /** Over every run: each accepted transaction is in a slot of its own until the core takes exactly
      one result of it, and what is retained is what the slots hold, within the bound. */
  lemma {:induction false} HistoryIsSound(autoPresent: bool, events: seq<Event>)
    ensures Sound(History(autoPresent, events))
  {
    if events == [] {
      NoBytes(Opened(autoPresent).slots);
    } else {
      HistoryIsSound(autoPresent, events[..|events| - 1]);
      ApplySound(History(autoPresent, events[..|events| - 1]), events[|events| - 1]);
    }
  }
}
