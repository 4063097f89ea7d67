/** How the bridge takes a core mount transaction through its batches, its presentation and its
    result. */
module MountBridges {
  import opened Wrappers
  import opened MountModel
  import opened MountConversion

  const CAPACITY := 16
  const MAX_RETAINED_BYTES := 2 * 1024 * 1024

  type AttemptId = nat
  type RequestId = nat

  /** The core names what asks for a mount by its wire text; a request can ask for a presentation. */
  datatype Source = Source(wire: string, request: Option<RequestId>)

  datatype Phase = MountPending | PresentPending | PresentPosted | CoreResultPending | RollbackPending

  /** `ticket` numbers the accepted transaction that the slot holds. */
  datatype Pending = Pending(
    surface: SurfaceId, source: Source, attempt: AttemptId, batches: seq<Transaction>, bytes: nat, full: bool,
    next: nat, active: nat, activeFinal: bool, phase: Phase, mounted: bool, ticket: nat)

  /** A batch that the mount host has taken and not yet answered. */
  datatype Flight = Flight(
    surface: SurfaceId, source: Source, attempt: AttemptId, batch: Transaction, ticket: nat)

  /** What happened to an accepted transaction: its batches mounted, in order, whether its
      presentation completed, and its results that the core took. */
  datatype Record = Record(full: bool, batches: nat, mounted: seq<nat>, presented: bool, reports: seq<bool>)

  datatype Bridge = Bridge(
    slots: seq<Option<Pending>>, retained: nat, accepting: bool, closed: bool, autoPresent: bool,
    flights: seq<Flight>, records: seq<Record>)

  /** What a port answers to a post: taken, to be tried again, or refused for good. */
  datatype PortAnswer = Taken | Later | Never

  datatype Answers = Answers(mount: PortAnswer, mark: bool, present: PortAnswer, core: bool)

  function Opened(autoPresent: bool): Bridge {
    Bridge(seq(CAPACITY, i => None), 0, true, false, autoPresent, [], [])
  }

  function FreeSlot(slots: seq<Option<Pending>>, i: nat): (r: Option<nat>)
    requires i <= |slots|
    ensures r.Some? ==> i <= r.value < |slots| && slots[r.value].None?
    decreases |slots| - i
  {
    if i == |slots| then None else if slots[i].None? then Some(i) else FreeSlot(slots, i + 1)
  }

  function Has(b: Bridge, i: nat): (r: bool)
    ensures r ==> i < |b.slots| && b.slots[i].Some?
  {
    i < |b.slots| && b.slots[i].Some?
  }

  function Set(b: Bridge, i: nat, p: Pending): Bridge
    requires i < |b.slots|
  {
    b.(slots := b.slots[i := Some(p)])
  }

  /** How many batches the bridge still holds back. */
  function Held(slots: seq<Option<Pending>>): int {
    if slots == [] then 0
    else
      Held(slots[..|slots| - 1])
      + (if slots[|slots| - 1].Some? then |slots[|slots| - 1].value.batches| - slots[|slots| - 1].value.next else 0)
  }

  function Bytes(slot: Option<Pending>): nat {
    if slot.Some? then slot.value.bytes else 0
  }

  function RetainedBytes(slots: seq<Option<Pending>>): nat {
    if slots == [] then 0 else RetainedBytes(slots[..|slots| - 1]) + Bytes(slots[|slots| - 1])
  }

  function Noted(b: Bridge, ticket: nat, record: Record): Bridge {
    if ticket < |b.records| then b.(records := b.records[ticket := record]) else b
  }

  // ----- One slot -----

  function Clear(b: Bridge, i: nat): Bridge
    requires Has(b, i)
  {
    var bytes := b.slots[i].value.bytes;
    b.(slots := b.slots[i := None], retained := if b.retained >= bytes then b.retained - bytes else 0)
  }

  /** Offers the next batch to the mount host. */
  function PostBatch(b: Bridge, i: nat, mount: PortAnswer): Bridge
    requires Has(b, i)
  {
    var p := b.slots[i].value;
    if p.next >= |p.batches| then b
    else
      var batch := p.batches[p.next];
      var offered := p.(active := batch.batchIndex, activeFinal := batch.isFinal);
      match mount
      case Taken =>
        Set(b, i, offered.(next := p.next + 1, phase := MountPending)).(
          flights := b.flights + [Flight(p.surface, p.source, p.attempt, batch, p.ticket)])
      case Later => Set(b, i, offered.(phase := MountPending))
      case Never => Set(b, i, offered.(mounted := false, phase := RollbackPending))
  }

  /** Offers the result to the core; that the core takes it frees the slot. */
  function TryCoreResult(b: Bridge, i: nat, core: bool): Bridge
    requires Has(b, i)
  {
    var p := b.slots[i].value;
    if !p.phase.CoreResultPending? || !core then b
    else
      var cleared := Clear(b, i);
      if p.ticket >= |b.records| then cleared
      else
        var record := b.records[p.ticket];
        cleared.(records := b.records[p.ticket := record.(reports := record.reports + [p.mounted])])
  }

  function Conclude(b: Bridge, i: nat, mounted: bool, core: bool): Bridge
    requires Has(b, i)
  {
    TryCoreResult(Set(b, i, b.slots[i].value.(mounted := mounted, phase := CoreResultPending)), i, core)
  }

  /** Asks the surface host to present the mounted root. Only a request can. */
  function TryPresent(b: Bridge, i: nat, present: PortAnswer, core: bool): Bridge
    requires Has(b, i)
  {
    var p := b.slots[i].value;
    if !p.phase.PresentPending? || p.source.request.None? then b
    else
      match present
      case Taken => Set(b, i, p.(phase := PresentPosted))
      case Later => b
      case Never => Conclude(b, i, false, core)
  }

  // ----- Posting -----

  /** What the batches from `k` on weigh, each as much as `size` says. */
  function Weight(batches: seq<Transaction>, size: Transaction -> nat, k: nat): nat
    requires k <= |batches|
    decreases |batches| - k
  {
    if k == |batches| then 0 else size(batches[k]) + Weight(batches, size, k + 1)
  }

  datatype PostResult =
    | Accepted | NotAccepting | Inconvertible(error: ConvertError) | TooLarge | AdmissionBusy | CapacityFull
    | BackPressure | MountRefused(answer: PortAnswer)

  /** Why converted batches of this weight are not even offered, if so. */
  function Refusal(b: Bridge, bytes: nat, guard: bool): Option<PostResult> {
    if !b.accepting || b.closed then Some(NotAccepting)
    else if bytes > MAX_RETAINED_BYTES then Some(TooLarge)
    else if !guard then Some(AdmissionBusy)
    else if FreeSlot(b.slots, 0).None? then Some(CapacityFull)
    else if Held(b.slots) >= CAPACITY || bytes > MAX_RETAINED_BYTES - b.retained then Some(BackPressure)
    else None
  }

  function Admit(
    b: Bridge, i: nat, surface: SurfaceId, source: Source, attempt: AttemptId, full: bool, batches: seq<Transaction>,
    bytes: nat): Bridge
    requires i < |b.slots|
  {
    b.(slots := b.slots[i := Some(Pending(surface, source, attempt, batches, bytes, full, 0, 0, true, MountPending,
                                          false, |b.records|))],
       retained := b.retained + bytes,
       records := b.records + [Record(full, |batches|, [], false, [])])
  }

  /** A converted transaction: it must fit, and its first batch must be taken at once. */
  function Post(
    b: Bridge, surface: SurfaceId, source: Source, attempt: AttemptId, full: bool, batches: seq<Transaction>,
    bytes: nat, guard: bool, mount: PortAnswer): (PostResult, Bridge)
  {
    var refusal := Refusal(b, bytes, guard);
    if refusal.Some? then (refusal.value, b)
    else if batches == [] || !mount.Taken? then (MountRefused(mount), b)
    else
      var i := FreeSlot(b.slots, 0).value;
      (Accepted, PostBatch(Admit(b, i, surface, source, attempt, full, batches, bytes), i, Taken))
  }

  // ----- The mount host answers -----

  function Find(b: Bridge, f: Flight, i: nat): (r: Option<nat>)
    requires i <= |b.slots|
    ensures r.Some? ==> i <= r.value && Has(b, r.value)
    decreases |b.slots| - i
  {
    if i == |b.slots| then None
    else if b.slots[i].Some? && SameKey(b.slots[i].value, f) then Some(i)
    else Find(b, f, i + 1)
  }

  predicate SameKey(p: Pending, f: Flight) {
    p.surface == f.surface && p.attempt == f.attempt && p.source.wire == f.source.wire
  }

  /** All batches are mounted: an incremental transaction is done, a full one is to be presented. */
  function AllMounted(b: Bridge, i: nat, a: Answers): Bridge
    requires Has(b, i)
  {
    var p := b.slots[i].value;
    if !p.full then Conclude(b, i, true, a.core)
    else if !a.mark then Conclude(b, i, false, a.core)
    else if !b.autoPresent then Conclude(b, i, true, a.core)
    else TryPresent(Set(b, i, p.(phase := PresentPending)), i, a.present, a.core)
  }

  function Complete(b: Bridge, f: Flight, ok: bool, a: Answers): Bridge {
    var found := Find(b, f, 0);
    if found.None? then b
    else
      var i := found.value;
      var p := b.slots[i].value;
      if f.batch.batchIndex != p.active || f.batch.batchCount != |p.batches| then b
      else if !ok then Set(b, i, p.(mounted := false, phase := RollbackPending))
      else if !p.activeFinal then PostBatch(b, i, a.mount)
      else AllMounted(b, i, a)
  }

  /** The mount host is done with its first batch. */
  function MountDone(b: Bridge, ok: bool, a: Answers): Bridge {
    if b.flights == [] then b
    else
      var f := b.flights[0];
      var landed := b.(flights := b.flights[1..]);
      var noted := if ok && f.ticket < |b.records| then
                     Noted(landed, f.ticket, b.records[f.ticket].(mounted := b.records[f.ticket].mounted + [f.batch.batchIndex]))
                   else landed;
      Complete(noted, f, ok, a)
  }

  // ----- The surface host answers -----

  /** A slot waits for this presentation. */
  predicate Awaits(slot: Option<Pending>, surface: SurfaceId, request: RequestId) {
    && slot.Some? && slot.value.phase.PresentPosted? && slot.value.surface == surface
    && slot.value.source.request == Some(request)
  }

  function FindPresented(b: Bridge, surface: SurfaceId, request: RequestId, i: nat): (r: Option<nat>)
    requires i <= |b.slots|
    ensures r.Some? ==> i <= r.value < |b.slots| && Awaits(b.slots[r.value], surface, request)
    ensures r.Some? ==> forall k :: i <= k < r.value ==> !Awaits(b.slots[k], surface, request)
    ensures r.None? ==> forall k :: i <= k < |b.slots| ==> !Awaits(b.slots[k], surface, request)
    decreases |b.slots| - i
  {
    if i == |b.slots| then None
    else if Awaits(b.slots[i], surface, request) then Some(i)
    else FindPresented(b, surface, request, i + 1)
  }

  function AcceptPresented(b: Bridge, surface: SurfaceId, request: RequestId, presented: bool, core: bool): Bridge {
    var found := FindPresented(b, surface, request, 0);
    if found.None? then b
    else
      var ticket := b.slots[found.value].value.ticket;
      var noted := if ticket < |b.records| then Noted(b, ticket, b.records[ticket].(presented := presented)) else b;
      Conclude(noted, found.value, presented, core)
  }

  // ----- Service -----

  predicate Serviceable(slot: Option<Pending>) {
    slot.Some? && match slot.value.phase
                  case MountPending => slot.value.next < |slot.value.batches|
                  case RollbackPending => true
                  case PresentPending => true
                  case CoreResultPending => true
                  case PresentPosted => false
  }

  /** One slot's turn; `released` says whether its surface could be released. */
  function ServiceSlot(b: Bridge, i: nat, a: Answers, released: bool): (r: Bridge)
    requires i < |b.slots|
    ensures |r.slots| == |b.slots|
  {
    if !Serviceable(b.slots[i]) then b
    else
      match b.slots[i].value.phase
      case MountPending => PostBatch(b, i, a.mount)
      case RollbackPending => if released then Conclude(b, i, b.slots[i].value.mounted, a.core) else b
      case PresentPending => TryPresent(b, i, a.present, a.core)
      case CoreResultPending => TryCoreResult(b, i, a.core)
  }

  function ServiceFrom(b: Bridge, i: nat, budget: nat, answers: nat -> Answers, released: nat -> bool): Bridge
    requires i <= |b.slots|
    decreases |b.slots| - i
  {
    if i == |b.slots| || budget == 0 then b
    else
      ServiceFrom(ServiceSlot(b, i, answers(i), released(i)), i + 1,
                  if Serviceable(b.slots[i]) then budget - 1 else budget, answers, released)
  }

  function Service(b: Bridge, budget: nat, answers: nat -> Answers, released: nat -> bool): Bridge {
    if b.closed then b else ServiceFrom(b, 0, budget, answers, released)
  }

  // ----- Whole runs -----

  datatype Event =
    | DoPost(surface: SurfaceId, source: Source, attempt: AttemptId, full: bool, batches: seq<Transaction>, bytes: nat,
             guard: bool, mount: PortAnswer)
    | DoMountDone(ok: bool, a: Answers)
    | DoPresented(presentedSurface: SurfaceId, request: RequestId, presented: bool, core: bool)
    | DoService(budget: nat, answers: nat -> Answers, released: nat -> bool)
    | DoClose

  function Apply(b: Bridge, event: Event): Bridge {
    match event
    case DoPost(surface, source, attempt, full, batches, bytes, guard, mount) =>
      Post(b, surface, source, attempt, full, batches, bytes, guard, mount).1
    case DoMountDone(ok, a) => MountDone(b, ok, a)
    case DoPresented(surface, request, presented, core) => AcceptPresented(b, surface, request, presented, core)
    case DoService(budget, answers, released) => Service(b, budget, answers, released)
    case DoClose => b.(accepting := false, closed := true)
  }

  function History(autoPresent: bool, events: seq<Event>): Bridge {
    if events == [] then Opened(autoPresent) else Apply(History(autoPresent, events[..|events| - 1]), events[|events| - 1])
  }
}
