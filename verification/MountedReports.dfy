/** What a mounted report says of the mount host: the surface shows what the mount draws as one
    transaction, whatever went on on other surfaces in between. */
module MountedReports {
  import opened Wrappers
  import opened MountModel
  import opened MountTables
  import opened MountBatches
  import opened MountConversion
  import opened MountBridges
  import opened MountFamilies
  import opened BridgeResults
  import opened BridgeOrder
  import opened MountPictures
  import opened BridgedMounts

  // ----- Runs with care -----

  /** Names are new, and a service comes only when no slot it would post for has a batch at the mount
      host. */
  ghost predicate Heedful(j: Joint, act: Act) {
    match act
    case CoreAsks(t, request, attempt, guard, mount) => NewName(j.bridge, t.surface, Source(t.source, request), attempt)
    case OwnerServes(budget, answers) => QuietFrom(j.bridge, 0)
    case _ => true
  }

  ghost predicate HeedfulRun(l: Setting, start: Joint, acts: seq<Act>) {
    forall k :: 0 <= k < |acts| ==> Heedful(Run(l, start, acts[..k]), acts[k])
  }

  /** The bridge's own promises, the mount host's tables, and its lists of children. */
  ghost predicate InStep(j: Joint) {
    Sound(j.bridge) && Ordered(j.bridge) && Tables(j.host) && Families(j.host)
  }

  lemma LetGoKeeps(j: Joint, surface: SurfaceId)
    requires Tables(j.host) && Families(j.host)
    ensures Tables(LetGo(j, surface)) && Families(LetGo(j, surface))
    ensures forall other :: other != surface ==> SamePicture(j.host, LetGo(j, surface), other)
  {
    DestroySurfaceClears(j.host, surface);
    DestroyFamilies(j.host, surface);
    DestroyOnly(j.host, surface);
    forall other | other != surface ensures SamePicture(j.host, LetGo(j, surface), other) {
      OtherPicture(j.host, DestroySurface(j.host, surface), surface, other);
    }
  }

  lemma TurnInStep(j: Joint, k: nat, a: Answers)
    requires InStep(j) && k < |j.bridge.slots| && QuietFrom(j.bridge, k)
    ensures InStep(Turn(j, k, a)) && QuietFrom(Turn(j, k, a).bridge, k + 1)
  {
    var slot := j.bridge.slots[k];
    var released := slot.Some? && slot.value.phase.RollbackPending? && !Waits(j.bridge.flights, slot.value.surface);
    var c := ServiceSlot(j.bridge, k, a, released);
    ServiceSlotSound(j.bridge, k, a, released);
    ServiceSlotOrdered(j.bridge, k, a, released);
    ServiceSlotOnly(j.bridge, k, a, released);
    QuietElsewhere(j.bridge, c, k);
    assert Turn(j, k, a).bridge == c;
    if slot.Some? {
      LetGoKeeps(j, slot.value.surface);
    }
  }

  lemma {:induction false} PassInStep(j: Joint, k: nat, budget: nat, answers: nat -> Answers)
    requires InStep(j) && k <= |j.bridge.slots| && QuietFrom(j.bridge, k)
    ensures InStep(Pass(j, k, budget, answers))
    decreases |j.bridge.slots| - k
  {
    if k < |j.bridge.slots| && budget > 0 {
      TurnInStep(j, k, answers(k));
      PassInStep(Turn(j, k, answers(k)), k + 1, if Serviceable(j.bridge.slots[k]) then budget - 1 else budget, answers);
    }
  }

  lemma AskInStep(
    l: Setting, j: Joint, t: CoreTransaction, request: Option<RequestId>, attempt: AttemptId, guard: bool,
    mount: PortAnswer)
    requires InStep(j) && NewName(j.bridge, t.surface, Source(t.source, request), attempt)
    ensures InStep(Ask(l, j, t, request, attempt, guard, mount))
  {
    if Convert(t).Success? {
      var batches := Convert(t).value;
      ConvertConcatenates(t);
      PostSound(j.bridge, t.surface, Source(t.source, request), attempt, t.full, batches, Weight(batches, l.size, 0),
                guard, mount);
      PostOrdered(j.bridge, t.surface, Source(t.source, request), attempt, t.full, batches, Weight(batches, l.size, 0),
                  guard, mount);
    }
  }

  lemma RunBatchInStep(l: Setting, j: Joint, rootOk: bool, a: Answers)
    requires InStep(j)
    ensures InStep(RunBatch(l, j, rootOk, a))
  {
    if j.bridge.flights != [] {
      var batch := j.bridge.flights[0].batch;
      var ok := Execute(l.native, l.maxOperations, rootOk, j.host, batch).ok;
      ExecuteKeepsTables(l.native, l.maxOperations, rootOk, j.host, batch);
      ExecuteOnly(l.native, l.maxOperations, rootOk, j.host, batch);
      MountDoneSound(j.bridge, ok, a);
      MountDoneOrdered(j.bridge, ok, a);
    }
  }

  lemma ActInStep(l: Setting, j: Joint, act: Act)
    requires InStep(j) && Heedful(j, act)
    ensures InStep(BridgedMounts.Apply(l, j, act))
  {
    match act
    case CoreAsks(t, request, attempt, guard, mount) => AskInStep(l, j, t, request, attempt, guard, mount);
    case HostRuns(rootOk, a) => RunBatchInStep(l, j, rootOk, a);
    case RootPresented(surface, request, presented, core) =>
      AcceptPresentedSound(j.bridge, surface, request, presented, core);
      AcceptPresentedOrdered(j.bridge, surface, request, presented, core);
    case OwnerServes(budget, answers) => PassInStep(j, 0, budget, answers);
    case SurfaceLetGo(surface) => LetGoKeeps(j, surface);
    case Closes =>
  }

  lemma {:induction false} RunInStep(l: Setting, start: Joint, acts: seq<Act>, n: nat)
    requires InStep(start) && HeedfulRun(l, start, acts) && n <= |acts|
    ensures InStep(Run(l, start, acts[..n]))
  {
    if n > 0 {
      RunInStep(l, start, acts, n - 1);
      assert acts[..n][..n - 1] == acts[..n - 1];
      ActInStep(l, Run(l, start, acts[..n - 1]), acts[n - 1]);
    }
  }

  // ----- What a slot's calls leave -----

  /** The transaction posts no more batches. */
  predicate Over(p: Pending) {
    p.phase.RollbackPending? || p.phase.CoreResultPending?
  }

  predicate Follows(p: Pending, q: Pending) {
    q.ticket == p.ticket && q.surface == p.surface && q.batches == p.batches && (Over(p) ==> Over(q))
  }

  /** Each slot goes on with what it held, or is free. */
  ghost predicate Onward(b: Bridge, c: Bridge) {
    && |c.slots| == |b.slots|
    && (forall i :: 0 <= i < |b.slots| && c.slots[i].Some? ==>
          b.slots[i].Some? && Follows(b.slots[i].value, c.slots[i].value))
  }

  /** What was mounted stays the same. */
  ghost predicate SameMounted(b: Bridge, c: Bridge) {
    && |c.records| == |b.records|
    && forall t :: 0 <= t < |b.records| ==>
         c.records[t].mounted == b.records[t].mounted && c.records[t].batches == b.records[t].batches
  }

  ghost predicate Moves(b: Bridge, c: Bridge) {
    Onward(b, c) && SameMounted(b, c)
  }

  lemma ReportMoves(b: Bridge, i: nat, core: bool)
    requires Has(b, i)
    ensures Moves(b, TryCoreResult(b, i, core))
  {
  }

  lemma ConcludeMoves(b: Bridge, i: nat, mounted: bool, core: bool)
    requires Has(b, i)
    ensures Moves(b, Conclude(b, i, mounted, core))
  {
    ReportMoves(Set(b, i, b.slots[i].value.(mounted := mounted, phase := CoreResultPending)), i, core);
  }

  lemma PresentMoves(b: Bridge, i: nat, present: PortAnswer, core: bool)
    requires Has(b, i)
    ensures Moves(b, TryPresent(b, i, present, core))
  {
    ConcludeMoves(b, i, false, core);
  }

  lemma PostMoves(b: Bridge, i: nat, mount: PortAnswer)
    requires Has(b, i) && b.slots[i].value.phase.MountPending?
    ensures Moves(b, PostBatch(b, i, mount))
  {
  }

  lemma AllMountedMoves(b: Bridge, i: nat, a: Answers)
    requires Has(b, i) && b.slots[i].value.phase.MountPending?
    ensures Moves(b, AllMounted(b, i, a))
  {
    var next := Set(b, i, b.slots[i].value.(phase := PresentPending));
    ConcludeMoves(b, i, true, a.core);
    ConcludeMoves(b, i, false, a.core);
    PresentMoves(next, i, a.present, a.core);
  }

  lemma ServiceSlotMoves(b: Bridge, i: nat, a: Answers, released: bool)
    requires i < |b.slots|
    ensures Moves(b, ServiceSlot(b, i, a, released))
  {
    if Serviceable(b.slots[i]) {
      match b.slots[i].value.phase
      case MountPending => PostMoves(b, i, a.mount);
      case RollbackPending => ConcludeMoves(b, i, b.slots[i].value.mounted, a.core);
      case PresentPending => PresentMoves(b, i, a.present, a.core);
      case CoreResultPending => ReportMoves(b, i, a.core);
    }
  }

  lemma CompleteMoves(b: Bridge, f: Flight, i: nat, ok: bool, a: Answers)
    requires NamesApart(b.slots) && Has(b, i) && FlightOf(f, b.slots[i])
    ensures Moves(b, Complete(b, f, ok, a))
  {
    BridgeOrder.FindFrom(b, f, 0, i);
    PostMoves(b, i, a.mount);
    AllMountedMoves(b, i, a);
  }

  lemma AcceptPresentedMoves(b: Bridge, surface: SurfaceId, request: RequestId, presented: bool, core: bool)
    requires TicketsApart(b)
    ensures Moves(b, AcceptPresented(b, surface, request, presented, core))
  {
    var found := FindPresented(b, surface, request, 0);
    if found.Some? {
      var ticket := b.slots[found.value].value.ticket;
      ConcludeMoves(Noted(b, ticket, b.records[ticket].(presented := presented)), found.value, presented, core);
    }
  }

  // ----- How far a mount has been drawn -----

  /** A building full mount that the bridge has taken, and a host where it succeeds as one transaction. */
  datatype Mounting = Mounting(
    ticket: nat, surface: SurfaceId, source: BoundedText, operations: seq<Operation>, right: Native, origin: State)

  function BatchesOf(m: Mounting): seq<Transaction> {
    Split(m.surface, m.source, m.operations)
  }

  ghost predicate Modelled(m: Mounting) {
    Model(m.right, m.origin, m.surface, m.source, m.operations)
  }

  /** What the first `k` batches draw. */
  function DrawnBy(m: Mounting, k: nat): State {
    Drawn(m.right, m.origin, m.surface, m.operations, BatchStart(|m.operations|, k)).s
  }

  ghost predicate HeldBy(b: Bridge, m: Mounting) {
    forall i :: 0 <= i < |b.slots| && b.slots[i].Some? && b.slots[i].value.ticket == m.ticket ==>
      b.slots[i].value.batches == BatchesOf(m)
  }

  ghost predicate AtRest(b: Bridge, m: Mounting) {
    forall i :: 0 <= i < |b.slots| && b.slots[i].Some? && b.slots[i].value.ticket == m.ticket ==> Over(b.slots[i].value)
  }

  /** The surface shows what the batches mounted so far draw, unless one failed. */
  ghost predicate Drawing(j: Joint, m: Mounting) {
    && m.ticket < |j.bridge.records| && j.bridge.records[m.ticket].batches == |BatchesOf(m)| && HeldBy(j.bridge, m)
    && var k := |j.bridge.records[m.ticket].mounted|;
       k == 0 || (k < |BatchesOf(m)| && AtRest(j.bridge, m)) || SamePicture(j.host, DrawnBy(m, k), m.surface)
  }

  lemma DrawingMoves(j: Joint, r: Joint, m: Mounting)
    requires Drawing(j, m) && Moves(j.bridge, r.bridge) && SamePicture(j.host, r.host, m.surface)
    ensures Drawing(r, m)
  {
    if SamePicture(j.host, DrawnBy(m, |j.bridge.records[m.ticket].mounted|), m.surface) {
      SamePictureTwice(r.host, j.host, DrawnBy(m, |j.bridge.records[m.ticket].mounted|), m.surface);
    }
  }

  lemma StillPicture(s: State, surface: SurfaceId)
    ensures SamePicture(s, s, surface)
  {
  }

  // ----- Its own batches -----

  lemma OwnFlight(j: Joint, m: Mounting) returns (i: nat)
    requires InStep(j) && Drawing(j, m) && j.bridge.flights != [] && j.bridge.flights[0].ticket == m.ticket
    ensures i < |j.bridge.slots| && FlightOf(j.bridge.flights[0], j.bridge.slots[i])
    ensures var k := |j.bridge.records[m.ticket].mounted|;
            && j.bridge.slots[i].value.next == k + 1 && k < |BatchesOf(m)|
            && j.bridge.flights[0].batch == Batch(m.surface, m.source, m.operations, k)
  {
    assert Placed(j.bridge.flights[0], j.bridge.slots);
    i :| i < |j.bridge.slots| && FlightOf(j.bridge.flights[0], j.bridge.slots[i]);
    LandedMounted(j.bridge, true, i);
  }

  lemma OwnBatchDraws(l: Setting, j: Joint, m: Mounting, rootOk: bool, k: nat)
    requires InStep(j) && Modelled(m) && k < |BatchesOf(m)|
    requires k == 0 || SamePicture(j.host, DrawnBy(m, k), m.surface)
    requires Execute(l.native, l.maxOperations, rootOk, j.host, Batch(m.surface, m.source, m.operations, k)).ok
    ensures SamePicture(
              Execute(l.native, l.maxOperations, rootOk, j.host, Batch(m.surface, m.source, m.operations, k)).s,
              DrawnBy(m, k + 1), m.surface)
  {
    if k == 0 {
      FirstBatchDraws(l.native, l.maxOperations, rootOk, j.host, m.right, m.origin, m.surface, m.source, m.operations);
    } else {
      LaterBatchDraws(l.native, l.maxOperations, rootOk, j.host, m.right, m.origin, m.surface, m.source, m.operations,
                      k);
    }
  }

  /** A slot that waits for its mount is not at rest. */
  lemma NotAtRest(b: Bridge, m: Mounting, i: nat)
    requires Has(b, i) && b.slots[i].value.ticket == m.ticket && b.slots[i].value.phase.MountPending?
    ensures !AtRest(b, m)
  {
  }

  lemma OwnLanded(j: Joint, r: State, m: Mounting)
    requires InStep(j) && Drawing(j, m) && j.bridge.flights != [] && j.bridge.flights[0].ticket == m.ticket
    requires SamePicture(r, DrawnBy(m, |j.bridge.records[m.ticket].mounted| + 1), m.surface)
    ensures Drawing(Joint(Landed(j.bridge, true), r), m)
  {
    var i := OwnFlight(j, m);
    LandedMounted(j.bridge, true, i);
  }

  /** Its batch was mounted. */
  lemma OwnBatchLands(j: Joint, r: State, m: Mounting, a: Answers)
    requires InStep(j) && Drawing(j, m) && j.bridge.flights != [] && j.bridge.flights[0].ticket == m.ticket
    requires SamePicture(r, DrawnBy(m, |j.bridge.records[m.ticket].mounted| + 1), m.surface)
    ensures Drawing(Joint(MountDone(j.bridge, true, a), r), m)
  {
    var i := OwnFlight(j, m);
    var landed, f := Landed(j.bridge, true), j.bridge.flights[0];
    OwnLanded(j, r, m);
    LandedOrdered(j.bridge, true, i);
    CompleteMoves(landed, f, i, true, a);
    StillPicture(r, m.surface);
    DrawingMoves(Joint(landed, r), Joint(MountDone(j.bridge, true, a), r), m);
  }

  /** Its batch failed, and it never goes on. */
  lemma OwnBatchFails(j: Joint, r: State, m: Mounting, a: Answers)
    requires InStep(j) && Drawing(j, m) && j.bridge.flights != [] && j.bridge.flights[0].ticket == m.ticket
    ensures Drawing(Joint(MountDone(j.bridge, false, a), r), m)
  {
    var i := OwnFlight(j, m);
    var b, f := j.bridge, j.bridge.flights[0];
    var landed := Landed(b, false);
    LandedOrdered(b, false, i);
    LandedMounted(b, false, i);
    BridgeOrder.FindFrom(landed, f, 0, i);
    assert MountDone(b, false, a) == Set(landed, i, b.slots[i].value.(mounted := false, phase := RollbackPending));
    assert AtRest(MountDone(b, false, a), m);
  }

  lemma OwnRun(l: Setting, j: Joint, m: Mounting, rootOk: bool, a: Answers)
    requires InStep(j) && Modelled(m) && Drawing(j, m)
    requires j.bridge.flights != [] && j.bridge.flights[0].ticket == m.ticket
    ensures Drawing(RunBatch(l, j, rootOk, a), m)
  {
    var i := OwnFlight(j, m);
    var step := Execute(l.native, l.maxOperations, rootOk, j.host, j.bridge.flights[0].batch);
    if step.ok {
      NotAtRest(j.bridge, m, i);
      OwnBatchDraws(l, j, m, rootOk, |j.bridge.records[m.ticket].mounted|);
      OwnBatchLands(j, step.s, m, a);
    } else {
      OwnBatchFails(j, step.s, m, a);
    }
  }

  // ----- Other transactions -----

  /** Nothing else runs on the surface, and nothing lets it go. */
  ghost predicate Spares(j: Joint, act: Act, surface: SurfaceId, ticket: nat) {
    match act
    case HostRuns(rootOk, a) =>
      j.bridge.flights != [] && j.bridge.flights[0].batch.surface == surface ==> j.bridge.flights[0].ticket == ticket
    case OwnerServes(budget, answers) => NoRollbackFrom(j.bridge, 0, surface)
    case SurfaceLetGo(gone) => gone != surface
    case _ => true
  }

  ghost predicate NoRollbackFrom(b: Bridge, i: nat, surface: SurfaceId) {
    forall k :: i <= k < |b.slots| && b.slots[k].Some? && b.slots[k].value.phase.RollbackPending? ==>
      b.slots[k].value.surface != surface
  }

  lemma OtherLanded(j: Joint, m: Mounting, ok: bool)
    requires Drawing(j, m) && j.bridge.flights != [] && j.bridge.flights[0].ticket != m.ticket
    ensures Drawing(j.(bridge := Landed(j.bridge, ok)), m)
  {
  }

  lemma StillMoves(b: Bridge)
    ensures Moves(b, b)
  {
  }

  lemma OtherDone(j: Joint, m: Mounting, ok: bool, a: Answers)
    requires InStep(j) && Drawing(j, m) && j.bridge.flights != [] && j.bridge.flights[0].ticket != m.ticket
    ensures Drawing(j.(bridge := MountDone(j.bridge, ok, a)), m)
  {
    var b, f := j.bridge, j.bridge.flights[0];
    assert Placed(f, b.slots);
    var i: nat :| i < |b.slots| && FlightOf(f, b.slots[i]);
    var landed := Landed(b, ok);
    LandedOrdered(b, ok, i);
    CompleteMoves(landed, f, i, ok, a);
    OtherLanded(j, m, ok);
    StillPicture(j.host, m.surface);
    DrawingMoves(j.(bridge := landed), j.(bridge := MountDone(b, ok, a)), m);
  }

  lemma OtherRun(l: Setting, j: Joint, m: Mounting, rootOk: bool, a: Answers)
    requires InStep(j) && Drawing(j, m) && j.bridge.flights != []
    requires j.bridge.flights[0].ticket != m.ticket && j.bridge.flights[0].batch.surface != m.surface
    ensures Drawing(RunBatch(l, j, rootOk, a), m)
  {
    var batch := j.bridge.flights[0].batch;
    var ok := Execute(l.native, l.maxOperations, rootOk, j.host, batch).ok;
    var told := j.(bridge := MountDone(j.bridge, ok, a));
    OthersKeepPicture(l.native, l.maxOperations, rootOk, j.host, batch, m.surface);
    OtherDone(j, m, ok, a);
    StillMoves(told.bridge);
    DrawingMoves(told, RunBatch(l, j, rootOk, a), m);
  }

  lemma TurnDraws(j: Joint, k: nat, a: Answers, m: Mounting)
    requires InStep(j) && Drawing(j, m) && k < |j.bridge.slots| && NoRollbackFrom(j.bridge, k, m.surface)
    ensures Drawing(Turn(j, k, a), m) && NoRollbackFrom(Turn(j, k, a).bridge, k + 1, m.surface)
  {
    var slot := j.bridge.slots[k];
    var released := slot.Some? && slot.value.phase.RollbackPending? && !Waits(j.bridge.flights, slot.value.surface);
    ServiceSlotMoves(j.bridge, k, a, released);
    ServiceSlotOnly(j.bridge, k, a, released);
    StillPicture(j.host, m.surface);
    if slot.Some? {
      LetGoKeeps(j, slot.value.surface);
    }
    DrawingMoves(j, Turn(j, k, a), m);
  }

  lemma {:induction false} PassDraws(j: Joint, k: nat, budget: nat, answers: nat -> Answers, m: Mounting)
    requires InStep(j) && Drawing(j, m) && k <= |j.bridge.slots|
    requires QuietFrom(j.bridge, k) && NoRollbackFrom(j.bridge, k, m.surface)
    ensures Drawing(Pass(j, k, budget, answers), m)
    decreases |j.bridge.slots| - k
  {
    if k < |j.bridge.slots| && budget > 0 {
      TurnInStep(j, k, answers(k));
      TurnDraws(j, k, answers(k), m);
      PassDraws(Turn(j, k, answers(k)), k + 1, if Serviceable(j.bridge.slots[k]) then budget - 1 else budget, answers,
                m);
    }
  }

  lemma AskDraws(
    l: Setting, j: Joint, t: CoreTransaction, request: Option<RequestId>, attempt: AttemptId, guard: bool,
    mount: PortAnswer, m: Mounting)
    requires Drawing(j, m)
    ensures Drawing(Ask(l, j, t, request, attempt, guard, mount), m)
  {
  }

  lemma ActDraws(l: Setting, j: Joint, act: Act, m: Mounting)
    requires InStep(j) && Heedful(j, act) && Modelled(m) && Drawing(j, m) && Spares(j, act, m.surface, m.ticket)
    ensures Drawing(BridgedMounts.Apply(l, j, act), m)
  {
    StillPicture(j.host, m.surface);
    match act
    case CoreAsks(t, request, attempt, guard, mount) => AskDraws(l, j, t, request, attempt, guard, mount, m);
    case HostRuns(rootOk, a) =>
      if j.bridge.flights != [] {
        if j.bridge.flights[0].ticket == m.ticket {
          OwnRun(l, j, m, rootOk, a);
        } else {
          OtherRun(l, j, m, rootOk, a);
        }
      }
    case RootPresented(surface, request, presented, core) =>
      AcceptPresentedMoves(j.bridge, surface, request, presented, core);
      DrawingMoves(j, BridgedMounts.Apply(l, j, act), m);
    case OwnerServes(budget, answers) => PassDraws(j, 0, budget, answers, m);
    case SurfaceLetGo(gone) =>
      LetGoKeeps(j, gone);
      DrawingMoves(j, BridgedMounts.Apply(l, j, act), m);
    case Closes =>
  }

  // ----- Whole runs -----

  /** From act `from` on. */
  ghost predicate LeftAlone(l: Setting, start: Joint, acts: seq<Act>, from: nat, surface: SurfaceId, ticket: nat) {
    forall k :: from <= k < |acts| ==> Spares(Run(l, start, acts[..k]), acts[k], surface, ticket)
  }

  lemma NextDraws(l: Setting, start: Joint, acts: seq<Act>, n: nat, m: Mounting)
    requires n < |acts| && Modelled(m)
    requires var j := Run(l, start, acts[..n]);
             InStep(j) && Heedful(j, acts[n]) && Drawing(j, m) && Spares(j, acts[n], m.surface, m.ticket)
    ensures Drawing(Run(l, start, acts[..n + 1]), m)
  {
    assert acts[..n + 1][..n] == acts[..n];
    ActDraws(l, Run(l, start, acts[..n]), acts[n], m);
  }

  /** What holds first and is kept by every act holds at the end. */
  lemma {:induction false} Onwards(holds: nat -> bool, from: nat, n: nat)
    requires from <= n && holds(from) && forall k: nat :: from <= k < n && holds(k) ==> holds(k + 1)
    ensures holds(n)
    decreases n
  {
    if n > from {
      Onwards(holds, from, n - 1);
    }
  }

  ghost predicate DrawingAfter(l: Setting, start: Joint, acts: seq<Act>, m: Mounting, k: nat) {
    k <= |acts| && Drawing(Run(l, start, acts[..k]), m)
  }

  lemma RunDraws(l: Setting, start: Joint, acts: seq<Act>, from: nat, m: Mounting)
    requires InStep(start) && HeedfulRun(l, start, acts) && Modelled(m)
    requires LeftAlone(l, start, acts, from, m.surface, m.ticket) && DrawingAfter(l, start, acts, m, from)
    ensures DrawingAfter(l, start, acts, m, |acts|)
  {
    forall k: nat | from <= k < |acts| && DrawingAfter(l, start, acts, m, k)
      ensures DrawingAfter(l, start, acts, m, k + 1)
    {
      RunInStep(l, start, acts, k);
      NextDraws(l, start, acts, k, m);
    }
    Onwards((k: nat) => DrawingAfter(l, start, acts, m, k), from, |acts|);
  }

  /** What the core's transaction is once it is taken. */
  function Taking(j: Joint, t: CoreTransaction, right: Native, origin: State): Mounting
    requires Convert(t).Success?
  {
    Mounting(|j.bridge.records|, t.surface, Bounded(t.source), ConvertUpTo(t.operations, |t.operations|).value, right,
             origin)
  }

  lemma TakenDraws(
    l: Setting, j: Joint, t: CoreTransaction, request: Option<RequestId>, attempt: AttemptId, guard: bool,
    mount: PortAnswer, right: Native, origin: State)
    requires InStep(j) && t.full && Convert(t).Success?
    requires |Ask(l, j, t, request, attempt, guard, mount).bridge.records| > |j.bridge.records|
    ensures Drawing(Ask(l, j, t, request, attempt, guard, mount), Taking(j, t, right, origin))
  {
  }

  /** Once the core is told, all of it is drawn. */
  lemma ToldIsDrawn(j: Joint, m: Mounting)
    requires InStep(j) && Modelled(m) && Drawing(j, m) && true in j.bridge.records[m.ticket].reports
    ensures SamePicture(j.host, Execute(m.right, |m.operations|, true, m.origin,
                                        Whole(m.surface, m.source, m.operations)).s, m.surface)
  {
    assert Done(j.bridge.autoPresent, j.bridge.records[m.ticket]);
    assert |j.bridge.records[m.ticket].mounted| == BatchCount(|m.operations|);
    BatchEnds(|m.operations|, BatchCount(|m.operations|) - 1);
    DrawnSoFar(m.right, m.origin, m.surface, m.source, m.operations, |m.operations|);
  }

  lemma StartInStep(autoPresent: bool, host: State)
    requires Tables(host) && Families(host)
    ensures InStep(Joint(Opened(autoPresent), host))
  {
    HistoryIsSound(autoPresent, []);
    HistoryIsOrdered(autoPresent, []);
  }

  /** The core's transaction is accepted by act `at`, and nothing else happens to its surface since. */
  ghost predicate TakenAndLeftAlone(l: Setting, start: Joint, acts: seq<Act>, at: nat, m: Mounting) {
    && at < |acts| && acts[at].CoreAsks? && acts[at].t.full && Convert(acts[at].t).Success?
    && m == Taking(Run(l, start, acts[..at]), acts[at].t, m.right, m.origin)
    && |Run(l, start, acts[..at + 1]).bridge.records| > m.ticket
    && LeftAlone(l, start, acts, at + 1, m.surface, m.ticket)
  }

  lemma TakenAtAct(l: Setting, start: Joint, acts: seq<Act>, at: nat, m: Mounting)
    requires InStep(start) && HeedfulRun(l, start, acts) && TakenAndLeftAlone(l, start, acts, at, m)
    ensures DrawingAfter(l, start, acts, m, at + 1)
  {
    var before, ask := Run(l, start, acts[..at]), acts[at];
    RunInStep(l, start, acts, at);
    assert acts[..at + 1][..at] == acts[..at];
    TakenDraws(l, before, ask.t, ask.source, ask.attempt, ask.guard, ask.mount, m.right, m.origin);
  }

  lemma TakenThenDrawn(l: Setting, start: Joint, acts: seq<Act>, at: nat, m: Mounting)
    requires InStep(start) && HeedfulRun(l, start, acts) && Modelled(m) && TakenAndLeftAlone(l, start, acts, at, m)
    ensures InStep(Run(l, start, acts)) && Drawing(Run(l, start, acts), m)
  {
    TakenAtAct(l, start, acts, at, m);
    RunDraws(l, start, acts, at + 1, m);
    RunInStep(l, start, acts, |acts|);
    assert acts[..|acts|] == acts;
  }

  /** Over every careful run of the bridge with its mount host: a building full mount that the core is
      told to be mounted shows on its surface what it draws as one transaction on any host where that
      succeeds, whatever other surfaces' transactions ran in between and since, as long as nothing else
      ran on the surface and nothing let it go. */
  lemma MountedIsDrawn(l: Setting, autoPresent: bool, host: State, acts: seq<Act>, at: nat, m: Mounting)
    requires Tables(host) && Families(host) && HeedfulRun(l, Joint(Opened(autoPresent), host), acts)
    requires TakenAndLeftAlone(l, Joint(Opened(autoPresent), host), acts, at, m)
    requires Model(m.right, m.origin, m.surface, m.source, m.operations)
    requires var end := Run(l, Joint(Opened(autoPresent), host), acts);
             m.ticket < |end.bridge.records| && true in end.bridge.records[m.ticket].reports
    ensures SamePicture(Run(l, Joint(Opened(autoPresent), host), acts).host,
                        Execute(m.right, |m.operations|, true, m.origin, Whole(m.surface, m.source, m.operations)).s,
                        m.surface)
  {
    var start := Joint(Opened(autoPresent), host);
    StartInStep(autoPresent, host);
    TakenThenDrawn(l, start, acts, at, m);
    ToldIsDrawn(Run(l, start, acts), m);
  }
}
