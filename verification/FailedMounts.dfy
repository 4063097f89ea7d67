/** What a failed mount leaves on the mount host: once it is reported, or its result waits, nothing of
    its surface, if nothing else was mounted there meanwhile. */
module FailedMounts {
  import opened Wrappers
  import opened MountModel
  import opened MountTables
  import opened MountBatches
  import opened MountConversion
  import opened MountBridges
  import opened BridgeResults
  import opened BridgeOrder
  import opened BridgedMounts
  import opened MountedReports
  import MountFamilies

  // ----- One turn -----

  /** A turn of a slot that waits to be rolled back, in any joint state whose tables agree: while a batch
      of the surface waits nothing changes; otherwise the surface is let go, so that the host has no slot
      and no binding of it, and the slot's result is offered at once. */
  lemma RollbackTurn(j: Joint, k: nat, a: Answers)
    requires Tables(j.host) && Has(j.bridge, k) && j.bridge.slots[k].value.phase.RollbackPending?
    ensures var p, r := j.bridge.slots[k].value, Turn(j, k, a);
            && (Waits(j.bridge.flights, p.surface) ==> r == j)
            && (!Waits(j.bridge.flights, p.surface) ==>
                  && NoSlotOf(r.host.slots, p.surface) && NoBindingOf(r.host.bindings, p.surface)
                  && SameElsewhere(j.host.slots, r.host.slots, p.surface)
                  && (r.bridge.slots[k].None? <==> a.core)
                  && (!a.core ==> r.bridge.slots[k] == Some(p.(phase := CoreResultPending))))
  {
    DestroySurfaceClears(j.host, j.bridge.slots[k].value.surface);
  }

  // ----- Whole runs -----

  /** A transaction that the bridge has taken. */
  datatype Attempt = Attempt(ticket: nat, surface: SurfaceId)

  /** Its slot is of its surface. */
  ghost predicate SlotsOf(b: Bridge, m: Attempt) {
    && m.ticket < |b.records|
    && forall i :: 0 <= i < |b.slots| && b.slots[i].Some? && b.slots[i].value.ticket == m.ticket ==>
         b.slots[i].value.surface == m.surface
  }

  /** It is reported, or its result waits. */
  ghost predicate Settled(b: Bridge, m: Attempt) {
    forall i :: 0 <= i < |b.slots| && b.slots[i].Some? && b.slots[i].value.ticket == m.ticket ==>
      b.slots[i].value.phase.CoreResultPending?
  }

  predicate AllIn(b: Bridge, m: Attempt)
    requires m.ticket < |b.records|
  {
    |b.records[m.ticket].mounted| == b.records[m.ticket].batches
  }

  /** Settled without all its batches mounted: nothing of the surface is left. */
  ghost predicate ClearedIfFailed(j: Joint, m: Attempt) {
    SlotsOf(j.bridge, m) && (Settled(j.bridge, m) && !AllIn(j.bridge, m) ==> NoSlotOf(j.host.slots, m.surface))
  }

  lemma NoneStays(s: State, r: State, other: SurfaceId, surface: SurfaceId)
    requires SameElsewhere(s.slots, r.slots, other) && other != surface && NoSlotOf(s.slots, surface)
    ensures NoSlotOf(r.slots, surface)
  {
  }

  /** The transaction was settled before, too, or has come there with all its batches mounted. */
  ghost predicate SettlesWell(b: Bridge, c: Bridge, m: Attempt) {
    && Moves(b, c)
    && (m.ticket < |b.records| && Settled(c, m) ==> Settled(b, m) || AllIn(c, m))
  }

  lemma SettledKept(j: Joint, r: Joint, m: Attempt)
    requires ClearedIfFailed(j, m) && SettlesWell(j.bridge, r.bridge, m)
    requires NoSlotOf(j.host.slots, m.surface) ==> NoSlotOf(r.host.slots, m.surface)
    ensures ClearedIfFailed(r, m)
  {
  }

  // ----- What a slot's calls settle -----

  /** The slot of another transaction. */
  lemma OtherSettles(b: Bridge, c: Bridge, i: nat, m: Attempt)
    requires TicketsApart(b) && OnlySlot(b, c, i) && Moves(b, c)
    requires b.slots[i].Some? && b.slots[i].value.ticket != m.ticket
    ensures SettlesWell(b, c, m)
  {
    if Settled(c, m) {
      forall k | 0 <= k < |b.slots| && b.slots[k].Some? && b.slots[k].value.ticket == m.ticket
        ensures b.slots[k].value.phase.CoreResultPending?
      {
        assert c.slots[k] == b.slots[k];
      }
    }
  }

  // ----- A turn -----

  lemma OwnTurn(j: Joint, k: nat, a: Answers, m: Attempt)
    requires InStep(j) && ClearedIfFailed(j, m) && Has(j.bridge, k) && j.bridge.slots[k].value.ticket == m.ticket
    ensures ClearedIfFailed(Turn(j, k, a), m)
  {
    var b, slot := j.bridge, j.bridge.slots[k];
    var released := slot.value.phase.RollbackPending? && !Waits(b.flights, slot.value.surface);
    ServiceSlotMoves(b, k, a, released);
    if slot.value.phase.RollbackPending? {
      RollbackTurn(j, k, a);
    } else {
      OwnServed(b, k, a, m);
      SettledKept(j, Turn(j, k, a), m);
    }
  }

  /** A turn other than a rollback settles nothing but what was presented or waits to be. */
  lemma OwnServed(b: Bridge, k: nat, a: Answers, m: Attempt)
    requires Ordered(b) && SlotsOf(b, m) && Has(b, k) && b.slots[k].value.ticket == m.ticket
    requires !b.slots[k].value.phase.RollbackPending?
    ensures SettlesWell(b, ServiceSlot(b, k, a, false), m)
  {
    var c := ServiceSlot(b, k, a, false);
    ServiceSlotMoves(b, k, a, false);
    if b.slots[k].value.phase.CoreResultPending? {
      assert Settled(b, m);
    } else if b.slots[k].value.phase.MountPending? {
      assert c.slots[k].Some? && !c.slots[k].value.phase.CoreResultPending?;
    } else {
      assert AllIn(b, m);
    }
  }

  lemma OtherTurn(j: Joint, k: nat, a: Answers, m: Attempt)
    requires InStep(j) && ClearedIfFailed(j, m) && k < |j.bridge.slots|
    requires j.bridge.slots[k].None? || j.bridge.slots[k].value.ticket != m.ticket
    ensures ClearedIfFailed(Turn(j, k, a), m)
  {
    var b, slot := j.bridge, j.bridge.slots[k];
    var released := slot.Some? && slot.value.phase.RollbackPending? && !Waits(b.flights, slot.value.surface);
    var c := ServiceSlot(b, k, a, released);
    ServiceSlotMoves(b, k, a, released);
    ServiceSlotOnly(b, k, a, released);
    if slot.Some? {
      OtherSettles(b, c, k, m);
      if NoSlotOf(j.host.slots, m.surface) {
        LetGoClears(j, slot.value.surface, m.surface);
      }
      SettledKept(j, Turn(j, k, a), m);
    }
  }

  /** Letting a surface go never brings slots back. */
  lemma LetGoClears(j: Joint, gone: SurfaceId, surface: SurfaceId)
    requires Tables(j.host) && NoSlotOf(j.host.slots, surface)
    ensures NoSlotOf(LetGo(j, gone).slots, surface)
  {
    DestroySurfaceClears(j.host, gone);
  }

  lemma TurnClears(j: Joint, k: nat, a: Answers, m: Attempt)
    requires InStep(j) && ClearedIfFailed(j, m) && k < |j.bridge.slots|
    ensures ClearedIfFailed(Turn(j, k, a), m)
  {
    if Has(j.bridge, k) && j.bridge.slots[k].value.ticket == m.ticket {
      OwnTurn(j, k, a, m);
    } else {
      OtherTurn(j, k, a, m);
    }
  }

  ghost predicate ClearsFrom(j: Joint, k: nat, m: Attempt) {
    InStep(j) && ClearedIfFailed(j, m) && QuietFrom(j.bridge, k)
  }

  lemma ClearsNext(j: Joint, k: nat, a: Answers, m: Attempt)
    requires ClearsFrom(j, k, m) && k < |j.bridge.slots|
    ensures ClearsFrom(Turn(j, k, a), k + 1, m)
  {
    TurnInStep(j, k, a);
    TurnClears(j, k, a, m);
  }

  /** What each turn keeps is kept by a pass. */
  lemma {:induction false} TurnsKeep(
    holds: (Joint, nat) -> bool, j: Joint, k: nat, budget: nat, answers: nat -> Answers) returns (n: nat)
    requires k <= |j.bridge.slots| && holds(j, k)
    requires forall i: Joint, n: nat, a: Answers :: n < |i.bridge.slots| && holds(i, n) ==> holds(Turn(i, n, a), n + 1)
    ensures holds(Pass(j, k, budget, answers), n)
    decreases |j.bridge.slots| - k
  {
    if k < |j.bridge.slots| && budget > 0 {
      n := TurnsKeep(holds, Turn(j, k, answers(k)), k + 1,
                     if Serviceable(j.bridge.slots[k]) then budget - 1 else budget, answers);
    } else {
      n := k;
    }
  }

  lemma PassClears(j: Joint, budget: nat, answers: nat -> Answers, m: Attempt)
    requires InStep(j) && ClearedIfFailed(j, m) && QuietFrom(j.bridge, 0)
    ensures ClearedIfFailed(Pass(j, 0, budget, answers), m)
  {
    forall i: Joint, n: nat, a: Answers | n < |i.bridge.slots| && ClearsFrom(i, n, m)
      ensures ClearsFrom(Turn(i, n, a), n + 1, m)
    {
      ClearsNext(i, n, a, m);
    }
    var n := TurnsKeep((i: Joint, n: nat) => ClearsFrom(i, n, m), j, 0, budget, answers);
  }

  // ----- Other acts -----

  /** A batch of another surface is run. */
  lemma OtherRuns(l: Setting, j: Joint, m: Attempt, rootOk: bool, a: Answers)
    requires InStep(j) && ClearedIfFailed(j, m) && j.bridge.flights != []
    requires j.bridge.flights[0].ticket != m.ticket && j.bridge.flights[0].batch.surface != m.surface
    ensures ClearedIfFailed(RunBatch(l, j, rootOk, a), m)
  {
    var batch := j.bridge.flights[0].batch;
    var step := Execute(l.native, l.maxOperations, rootOk, j.host, batch);
    ExecuteKeepsTables(l.native, l.maxOperations, rootOk, j.host, batch);
    OtherDone(j, m, step.ok, a);
    var told := j.(bridge := MountDone(j.bridge, step.ok, a));
    StillSettles(told.bridge, m);
    if NoSlotOf(j.host.slots, m.surface) {
      NoneStays(j.host, step.s, batch.surface, m.surface);
    }
    SettledKept(told, Joint(told.bridge, step.s), m);
  }

  lemma StillSettles(b: Bridge, m: Attempt)
    ensures SettlesWell(b, b, m)
  {
  }

  lemma LandedClears(j: Joint, m: Attempt, ok: bool)
    requires ClearedIfFailed(j, m) && j.bridge.flights != [] && j.bridge.flights[0].ticket != m.ticket
    ensures ClearedIfFailed(j.(bridge := Landed(j.bridge, ok)), m)
  {
    if Settled(Landed(j.bridge, ok), m) {
      assert Settled(j.bridge, m);
    }
  }

  lemma OtherCompletes(b: Bridge, f: Flight, i: nat, ok: bool, a: Answers, m: Attempt)
    requires OrderedBut(b, i) && Has(b, i) && FlightOf(f, b.slots[i]) && f.ticket != m.ticket
    ensures SettlesWell(b, Complete(b, f, ok, a), m)
  {
    CompleteMoves(b, f, i, ok, a);
    CompleteOnly(b, f, i, ok, a);
    OtherSettles(b, Complete(b, f, ok, a), i, m);
  }

  lemma OtherDone(j: Joint, m: Attempt, ok: bool, a: Answers)
    requires InStep(j) && ClearedIfFailed(j, m) && j.bridge.flights != [] && j.bridge.flights[0].ticket != m.ticket
    ensures ClearedIfFailed(j.(bridge := MountDone(j.bridge, ok, a)), m)
  {
    var b, f := j.bridge, j.bridge.flights[0];
    assert Placed(f, b.slots);
    var i: nat :| i < |b.slots| && FlightOf(f, b.slots[i]);
    var landed := Landed(b, ok);
    var done := Complete(landed, f, ok, a);
    LandedOrdered(b, ok, i);
    LandedClears(j, m, ok);
    OtherCompletes(landed, f, i, ok, a, m);
    SettledKept(j.(bridge := landed), j.(bridge := done), m);
  }

  lemma CompleteOnly(b: Bridge, f: Flight, i: nat, ok: bool, a: Answers)
    requires NamesApart(b.slots) && Has(b, i) && FlightOf(f, b.slots[i])
    ensures OnlySlot(b, Complete(b, f, ok, a), i)
  {
    BridgeOrder.FindFrom(b, f, 0, i);
    PostBatchOnly(b, i, a.mount);
    ConcludeOnly(b, i, true, a.core);
    ConcludeOnly(b, i, false, a.core);
    TryPresentOnly(Set(b, i, b.slots[i].value.(phase := PresentPending)), i, a.present, a.core);
  }

  /** A batch of its own fails, or is mounted and more are to come, or all are mounted. */
  lemma OwnRuns(l: Setting, j: Joint, m: Attempt, rootOk: bool, a: Answers)
    requires InStep(j) && ClearedIfFailed(j, m) && j.bridge.flights != [] && j.bridge.flights[0].ticket == m.ticket
    ensures ClearedIfFailed(RunBatch(l, j, rootOk, a), m)
  {
    var b, f := j.bridge, j.bridge.flights[0];
    var ok := Execute(l.native, l.maxOperations, rootOk, j.host, f.batch).ok;
    assert Placed(f, b.slots);
    var i: nat :| i < |b.slots| && FlightOf(f, b.slots[i]);
    var landed := Landed(b, ok);
    LandedOrdered(b, ok, i);
    CompleteMoves(landed, f, i, ok, a);
    OwnCompletes(landed, f, i, ok, a, m);
  }

  lemma OwnCompletes(b: Bridge, f: Flight, i: nat, ok: bool, a: Answers, m: Attempt)
    requires OrderedBut(b, i) && Has(b, i) && FlightOf(f, b.slots[i]) && f.ticket == m.ticket && SlotsOf(b, m)
    requires Flying(b.slots[i].value, b.records[m.ticket].(mounted := Upto(b.slots[i].value.next - 1)))
    requires ok ==> b.records[m.ticket].mounted == Upto(b.slots[i].value.next)
    ensures var c := Complete(b, f, ok, a);
            SlotsOf(c, m) && (Settled(c, m) ==> AllIn(c, m))
  {
    CompleteMoves(b, f, i, ok, a);
    if !(ok && b.slots[i].value.activeFinal) {
      StillUnsettled(b, f, i, ok, a);
    }
  }

  /** A batch that fails, or is not the last, leaves its slot with more to do. */
  lemma StillUnsettled(b: Bridge, f: Flight, i: nat, ok: bool, a: Answers)
    requires NamesApart(b.slots) && Has(b, i) && FlightOf(f, b.slots[i])
    requires f.batch.batchIndex == b.slots[i].value.active
    requires !(ok && b.slots[i].value.activeFinal)
    ensures var slot := Complete(b, f, ok, a).slots[i];
            slot.Some? && slot.value.ticket == f.ticket && !slot.value.phase.CoreResultPending?
  {
    BridgeOrder.FindFrom(b, f, 0, i);
  }

  lemma PresentedClears(j: Joint, surface: SurfaceId, request: RequestId, presented: bool, core: bool, m: Attempt)
    requires InStep(j) && ClearedIfFailed(j, m)
    ensures ClearedIfFailed(j.(bridge := AcceptPresented(j.bridge, surface, request, presented, core)), m)
  {
    var b, c := j.bridge, AcceptPresented(j.bridge, surface, request, presented, core);
    var found := FindPresented(b, surface, request, 0);
    AcceptPresentedMoves(b, surface, request, presented, core);
    if found.Some? {
      var i := found.value;
      var t := b.slots[i].value.ticket;
      var noted := Noted(b, t, b.records[t].(presented := presented));
      ConcludeOnly(noted, i, presented, core);
      ConcludeMoves(noted, i, presented, core);
      if t == m.ticket {
        assert AllIn(b, m);
      } else {
        OtherSettles(noted, c, i, m);
      }
      assert ClearedIfFailed(j.(bridge := noted), m);
      SettledKept(j.(bridge := noted), j.(bridge := c), m);
    }
  }

  lemma AskClears(
    l: Setting, j: Joint, t: CoreTransaction, request: Option<RequestId>, attempt: AttemptId, guard: bool,
    mount: PortAnswer, m: Attempt)
    requires TicketsApart(j.bridge) && ClearedIfFailed(j, m)
    ensures ClearedIfFailed(Ask(l, j, t, request, attempt, guard, mount), m)
  {
    var r := Ask(l, j, t, request, attempt, guard, mount);
    if r != j && Settled(r.bridge, m) {
      forall k | 0 <= k < |j.bridge.slots| && j.bridge.slots[k].Some? && j.bridge.slots[k].value.ticket == m.ticket
        ensures j.bridge.slots[k].value.phase.CoreResultPending?
      {
        assert r.bridge.slots[k] == j.bridge.slots[k];
      }
    }
  }

  /** No other transaction's batch is run on the surface. */
  ghost predicate RunsAlone(j: Joint, act: Act, m: Attempt) {
    act.HostRuns? && j.bridge.flights != [] && j.bridge.flights[0].batch.surface == m.surface ==>
      j.bridge.flights[0].ticket == m.ticket
  }

  lemma ActClears(l: Setting, j: Joint, act: Act, m: Attempt)
    requires InStep(j) && Heedful(j, act) && ClearedIfFailed(j, m) && RunsAlone(j, act, m)
    ensures ClearedIfFailed(BridgedMounts.Apply(l, j, act), m)
  {
    match act
    case CoreAsks(t, request, attempt, guard, mount) => AskClears(l, j, t, request, attempt, guard, mount, m);
    case HostRuns(rootOk, a) =>
      if j.bridge.flights != [] {
        if j.bridge.flights[0].ticket == m.ticket {
          OwnRuns(l, j, m, rootOk, a);
        } else {
          OtherRuns(l, j, m, rootOk, a);
        }
      }
    case RootPresented(surface, request, presented, core) => PresentedClears(j, surface, request, presented, core, m);
    case OwnerServes(budget, answers) => PassClears(j, budget, answers, m);
    case SurfaceLetGo(gone) =>
      if NoSlotOf(j.host.slots, m.surface) {
        LetGoClears(j, gone, m.surface);
      }
    case Closes =>
  }

  // ----- From when it is taken -----

  /** The core's transaction is accepted by act `at`, and no other is run on its surface since. */
  ghost predicate TakenAndAlone(l: Setting, start: Joint, acts: seq<Act>, at: nat, m: Attempt) {
    && at < |acts| && acts[at].CoreAsks? && m.surface == acts[at].t.surface
    && m.ticket == |Run(l, start, acts[..at]).bridge.records|
    && |Run(l, start, acts[..at + 1]).bridge.records| > m.ticket
    && forall k :: at < k < |acts| ==> RunsAlone(Run(l, start, acts[..k]), acts[k], m)
  }

  ghost predicate ClearAfter(l: Setting, start: Joint, acts: seq<Act>, m: Attempt, k: nat) {
    k <= |acts| && ClearedIfFailed(Run(l, start, acts[..k]), m)
  }

  lemma TakenClears(l: Setting, j: Joint, act: Act, m: Attempt)
    requires TicketsApart(j.bridge) && act.CoreAsks? && m == Attempt(|j.bridge.records|, act.t.surface)
    requires |BridgedMounts.Apply(l, j, act).bridge.records| > |j.bridge.records|
    ensures ClearedIfFailed(BridgedMounts.Apply(l, j, act), m)
  {
    var r := BridgedMounts.Apply(l, j, act).bridge;
    var i := FreeSlot(j.bridge.slots, 0).value;
    assert r.slots[i].Some? && r.slots[i].value.ticket == m.ticket && r.slots[i].value.phase.MountPending?;
  }

  lemma NextClears(l: Setting, start: Joint, acts: seq<Act>, n: nat, m: Attempt)
    requires n < |acts|
    requires var j := Run(l, start, acts[..n]);
             InStep(j) && Heedful(j, acts[n]) && ClearedIfFailed(j, m) && RunsAlone(j, acts[n], m)
    ensures ClearedIfFailed(Run(l, start, acts[..n + 1]), m)
  {
    assert acts[..n + 1][..n] == acts[..n];
    ActClears(l, Run(l, start, acts[..n]), acts[n], m);
  }

  lemma TakenAtAct(l: Setting, start: Joint, acts: seq<Act>, at: nat, m: Attempt)
    requires InStep(start) && HeedfulRun(l, start, acts) && TakenAndAlone(l, start, acts, at, m)
    ensures ClearAfter(l, start, acts, m, at + 1)
  {
    RunInStep(l, start, acts, at);
    assert acts[..at + 1][..at] == acts[..at];
    TakenClears(l, Run(l, start, acts[..at]), acts[at], m);
  }

  lemma RunClears(l: Setting, start: Joint, acts: seq<Act>, at: nat, m: Attempt)
    requires InStep(start) && HeedfulRun(l, start, acts) && TakenAndAlone(l, start, acts, at, m)
    ensures ClearAfter(l, start, acts, m, |acts|)
  {
    TakenAtAct(l, start, acts, at, m);
    forall k: nat | at + 1 <= k < |acts| && ClearAfter(l, start, acts, m, k)
      ensures ClearAfter(l, start, acts, m, k + 1)
    {
      RunInStep(l, start, acts, k);
      NextClears(l, start, acts, k, m);
    }
    MountedReports.Onwards((k: nat) => ClearAfter(l, start, acts, m, k), at + 1, |acts|);
  }

  /** Over every careful run of the bridge with its mount host: when a transaction of which not all
      batches were mounted has been reported, or its result waits, the host holds no slot of its surface,
      as long as no other transaction was run there since it was taken. */
  lemma FailedIsCleared(l: Setting, autoPresent: bool, host: State, acts: seq<Act>, at: nat, m: Attempt)
    requires Tables(host) && MountFamilies.Families(host) && HeedfulRun(l, Joint(Opened(autoPresent), host), acts)
    requires TakenAndAlone(l, Joint(Opened(autoPresent), host), acts, at, m)
    requires var end := Run(l, Joint(Opened(autoPresent), host), acts);
             Settled(end.bridge, m) && m.ticket < |end.bridge.records| && !AllIn(end.bridge, m)
    ensures NoSlotOf(Run(l, Joint(Opened(autoPresent), host), acts).host.slots, m.surface)
  {
    var start := Joint(Opened(autoPresent), host);
    StartInStep(autoPresent, host);
    RunClears(l, start, acts, at, m);
    assert acts[..|acts|] == acts;
  }
}
