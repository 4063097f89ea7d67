/** The surface host over its fixed arrays, method by method against the steps of SurfaceProtocol. */
module SurfaceHosts {
  import opened Wrappers
  import opened SurfaceCommands
  import opened SurfaceOrder
  import opened SurfaceProtocol
  import OwnerTasks

  /** The surface host as the object it is: operation slots, surface records and the ring of
      finished requests, all of fixed size and changed in place. */
  class SurfaceHostAdapter {
    const operations: array<OpSlot>
    const records: array<Option<Record>>
    const completed: array<Option<RequestId>>
    var cursor: nat
    var accepting: bool
    var closed: bool
    var overflows: nat
    /** The root backend: which roots are live and which of them are shown. */
    var roots: map<Root, bool>
    var released: multiset<SurfaceId>
    var reset: multiset<SurfaceId>
    /** The slots of the owner tasks that are pending. */
    var tasks: seq<nat>
    /** Every command accepted so far; a slot's ticket is its command's place in it. */
    var accepted: seq<Command>
    ghost var lost: set<nat>
    ghost var fates: seq<Fate>
    ghost var finished: seq<RequestId>

    ghost function HostNow(): Host
      reads this, records
    {
      Host(records[..], roots, released, reset)
    }

    ghost function Abs(): Protocol
      reads this, operations, records, completed
    {
      Protocol(accepting, closed, operations[..], completed[..], cursor, tasks, lost, HostNow(), overflows,
               accepted, fates, finished)
    }

    constructor (maxOperations: nat, maxRoots: nat)
      ensures fresh(operations) && fresh(records) && fresh(completed)
      ensures Abs() == Opened(maxOperations, maxRoots)
    {
      operations := new OpSlot[maxOperations](i => FREE_SLOT);
      records := new Option<Record>[maxRoots](i => None);
      completed := new Option<RequestId>[COMPLETED_REQUESTS](i => None);
      cursor, accepting, closed, overflows := 0, LimitsOk(maxOperations, maxRoots), false, 0;
      roots, released, reset, tasks := map[], multiset{}, multiset{}, [];
      lost, accepted, fates, finished := {}, [], [], [];
    }

    // ----- Records -----

    method FindRecord(surface: SurfaceId) returns (r: Option<nat>)
      ensures r == Find(HostNow(), surface)
    {
      for i := 0 to records.Length
        invariant RecordFrom(records[..], surface, 0) == RecordFrom(records[..], surface, i)
      {
        if records[i].Some? && records[i].value.surface == surface { return Some(i); }
      }
      return None;
    }

    method FindFreeRecord() returns (r: Option<nat>)
      ensures r == FreeRecord(records[..], 0)
    {
      for i := 0 to records.Length
        invariant FreeRecord(records[..], 0) == FreeRecord(records[..], i)
      {
        if records[i].None? { return Some(i); }
      }
      return None;
    }

    predicate RootValid(answers: Answers, request: RequestId, i: nat)
      reads this, records
      requires i < records.Length && records[i].Some?
    {
      records[i].value.root in roots && answers.valid(request, records[i].value.root)
    }

    method SetPhase(i: nat, phase: Phase)
      requires i < records.Length && records[i].Some?
      modifies records
      ensures records[..] == old(records[..])[i := Phased(old(HostNow()), i, phase)]
    {
      records[i] := Some(records[i].value.(phase := phase));
    }

    /** Shows or hides a root; a root that is gone stays gone. */
    method SetShown(root: Root, shown: bool)
      modifies this`roots
      ensures roots == if root in old(roots) then old(roots)[root := shown] else old(roots)
    {
      if root in roots {
        roots := roots[root := shown];
      }
    }

    // ----- Commands -----

    method ExecuteCreate(answers: Answers, c: Command) returns (status: Status)
      requires c.Create?
      modifies this`roots, records
      ensures (HostNow(), status) == Done(old(HostNow()), CreateSurface(answers, old(HostNow()), c))
    {
      ghost var before := HostNow();
      NothingChanged(before);
      if c.width <= 0.0 || c.height <= 0.0 { return Failed(AbiInvalidArgument); }
      var existing := FindRecord(c.surface);
      if existing.Some? { return Failed(SurfaceHostAlreadyExists); }
      var free := FindFreeRecord();
      if free.None? { return Failed(OutOfMemory); }
      match answers.create(c.request)
      case NoCapacity => return Failed(OutOfMemory);
      case Refused => return Failed(PlatformRejected);
      case NewRoot(root) =>
        roots := roots[root := false];
        records[free.value] := Some(Record(c.surface, c.width, c.height, root, HiddenEmpty));
        OneChanged(before, free.value, records[free.value], root, false);
        return Created;
    }

    method ExecutePresentRoot(answers: Answers, c: Command) returns (status: Status)
      modifies this`roots, records
      ensures (HostNow(), status) == Done(old(HostNow()), PresentRootSurface(answers, old(HostNow()), c))
    {
      ghost var before := HostNow();
      NothingChanged(before);
      var i := FindRecord(c.surface);
      if i.None? || !records[i.value].value.phase.HiddenMounted? || !RootValid(answers, c.request, i.value) {
        return Failed(SurfacePresentationFailed);
      }
      SetShown(records[i.value].value.root, true);
      SetPhase(i.value, Visible);
      OneChanged(before, i.value, records[i.value], records[i.value].value.root, true);
      return Presented;
    }

    method ExecutePresentPush(answers: Answers, c: Command) returns (status: Status)
      requires c.PresentPush?
      modifies this`roots, records
      ensures (HostNow(), status) == Done(old(HostNow()), PresentPushSurface(answers, old(HostNow()), c))
    {
      ghost var before := HostNow();
      NothingChanged(before);
      var t := FindRecord(c.surface);
      var s := FindRecord(c.source);
      if t.None? || s.None? || t == s || !records[t.value].value.phase.HiddenMounted?
         || !records[s.value].value.phase.Visible? || !RootValid(answers, c.request, t.value)
         || !RootValid(answers, c.request, s.value) {
        return Failed(SurfacePresentationFailed);
      }
      SetShown(records[t.value].value.root, true);
      SetShown(records[s.value].value.root, false);
      SetPhase(t.value, Visible);
      SetPhase(s.value, Hidden);
      TwoChanged(before, t.value, records[t.value], s.value, records[s.value], records[t.value].value.root,
                 records[s.value].value.root);
      return Presented;
    }

    method ExecuteVisibility(c: Command) returns (status: Status)
      requires c.SetVisibility?
      modifies this`roots, records
      ensures (HostNow(), status) == Done(old(HostNow()), SetSurfaceVisibility(old(HostNow()), c))
    {
      ghost var before := HostNow();
      NothingChanged(before);
      var i := FindRecord(c.surface);
      if i.None? { return Failed(SurfaceHostNotFound); }
      var phase := records[i.value].value.phase;
      if phase != Visible && phase != Hidden { return Failed(PlatformRejected); }
      if phase.Visible? != c.visible {
        SetShown(records[i.value].value.root, c.visible);
        SetPhase(i.value, if c.visible then Visible else Hidden);
        OneChangedIfLive(before, i.value, records[i.value], records[i.value].value.root, c.visible);
      }
      return Completed;
    }

    method ExecuteClose(answers: Answers, c: Command) returns (status: Status)
      requires c.Close?
      modifies this`roots, this`released, records
      ensures (HostNow(), status) == Done(old(HostNow()), CloseSurface(answers, old(HostNow()), c))
    {
      ghost var before := HostNow();
      NothingChanged(before);
      var i := FindRecord(c.surface);
      var j := FindRecord(c.below);
      if i.None? || j.None? || i == j || !records[i.value].value.phase.Visible?
         || !records[j.value].value.phase.Hidden? || !RootValid(answers, c.request, i.value)
         || !RootValid(answers, c.request, j.value) {
        return Failed(PlatformRejected);
      }
      if !answers.canRelease(c.request, c.surface) { return Failed(PlatformRejected); }
      released := released + multiset{c.surface};
      Drop(i.value);
      SetShown(records[j.value].value.root, true);
      SetPhase(j.value, Visible);
      GoneAndShown(before, i.value, before.records[i.value].value.root, j.value, records[j.value],
                   records[j.value].value.root, multiset{c.surface});
      return Completed;
    }

    /** Removes a record and its root, which is half destroyed meanwhile. */
    method Drop(i: nat)
      requires i < records.Length && records[i].Some?
      modifies this`roots, records
      ensures HostNow() == old(HostNow()).(records := old(records[..])[i := None],
                                           roots := old(roots) - {old(records[i]).value.root})
    {
      SetPhase(i, Destroying);
      roots := roots - {records[i].value.root};
      records[i] := None;
    }

    method ExecuteDestroy(answers: Answers, c: Command) returns (status: Status)
      modifies this`roots, this`released, this`reset, records
      ensures (HostNow(), status) == Done(old(HostNow()), DestroySurface(answers, old(HostNow()), c))
    {
      ghost var before := HostNow();
      NothingChanged(before);
      var i := FindRecord(c.surface);
      if i.None? { return Failed(SurfaceHostNotFound); }
      Drop(i.value);
      OneGone(before, i.value, before.records[i.value].value.root, c.surface);
      if answers.canRelease(c.request, c.surface) {
        released := released + multiset{c.surface};
        status := Destroyed;
      } else {
        reset := reset + multiset{c.surface};
        status := Failed(PlatformRejected);
      }
    }

    method ExecuteCommand(answers: Answers, c: Command) returns (result: SurfaceResult)
      modifies this`roots, this`released, this`reset, records
      ensures (HostNow(), result) == Execute(answers, old(HostNow()), c)
    {
      var status: Status;
      match c {
      case Create(_, _, _, _) => status := ExecuteCreate(answers, c);
      case PresentRoot(_, _) => status := ExecutePresentRoot(answers, c);
      case PresentPush(_, _, _) => status := ExecutePresentPush(answers, c);
      case SetVisibility(_, _, _) => status := ExecuteVisibility(c);
      case Close(_, _, _) => status := ExecuteClose(answers, c);
      case Destroy(_, _) => status := ExecuteDestroy(answers, c);
      }
      return SurfaceResult(c, status);
    }

    // ----- Admission -----

    method FindFreeSlot() returns (r: Option<nat>)
      ensures r == FreeSlot(operations[..], 0)
    {
      for i := 0 to operations.Length
        invariant FreeSlot(operations[..], 0) == FreeSlot(operations[..], i)
      {
        if operations[i].state.Free? { return Some(i); }
      }
      return None;
    }

    method MeetsInFlight(c: Command) returns (r: bool)
      ensures r == ConflictsInFlight(operations[..], c)
    {
      for i := 0 to operations.Length
        invariant forall k :: 0 <= k < i && Holds(operations[k]) ==> !Conflicts(c, operations[k].command.value)
      {
        if operations[i].command.Some? && Conflicts(c, operations[i].command.value) { return true; }
      }
      return false;
    }

    method RequestInUse(request: RequestId) returns (r: bool)
      ensures r == RequestHeld(operations[..], request)
    {
      for i := 0 to operations.Length
        invariant forall k :: 0 <= k < i && Holds(operations[k]) ==> operations[k].command.value.request != request
      {
        if operations[i].command.Some? && operations[i].command.value.request == request { return true; }
      }
      return false;
    }

    method WasCompleted(request: RequestId) returns (r: bool)
      ensures r == (Some(request) in completed[..])
    {
      for i := 0 to completed.Length
        invariant forall k :: 0 <= k < i ==> completed[k] != Some(request)
      {
        if completed[i] == Some(request) { return true; }
      }
      return false;
    }

    method Check(c: Command, guard: bool) returns (refusal: Option<Admission>)
      ensures refusal == Refusal(Abs(), c, guard)
    {
      if !accepting || closed { return Some(HostClosed); }
      if !guard { return Some(AdmissionBusy); }
      var conflicting := MeetsInFlight(c);
      if conflicting { return Some(Conflicting); }
      var inUse := RequestInUse(c.request);
      if inUse { return Some(RequestInFlight); }
      var done := WasCompleted(c.request);
      if done { return Some(RequestCompleted); }
      return None;
    }

    method TakeSlot(i: nat, c: Command)
      requires i < operations.Length
      modifies this`tasks, this`accepted, this`fates, operations
      ensures Abs() == Admit(old(Abs()), c, i)
    {
      operations[i] := OpSlot(Queued, Some(c), None, |accepted|);
      tasks := tasks + [i];
      accepted := accepted + [c];
      fates := fates + [Fate(0, 0, 0)];
    }

    method Post(c: Command, guard: bool, queue: OwnerTasks.PostStatus) returns (admission: Admission)
      modifies this, operations
      ensures (admission, Abs()) == SurfaceProtocol.Post(old(Abs()), c, guard, queue)
    {
      var refusal := Check(c, guard);
      if refusal.Some? { return refusal.value; }
      var free := FindFreeSlot();
      if free.None? || queue.Full? {
        overflows := overflows + 1;
        return if free.None? then NoFreeSlot else QueueFull;
      }
      if !queue.Accepted? { return QueueRefused; }
      TakeSlot(free.value, c);
      return Admitted;
    }

    // ----- Execution and delivery -----

    method DeliverResult(i: nat, port: PortAnswer)
      requires i < operations.Length
      modifies this`fates, operations
      ensures Abs() == Deliver(old(Abs()), i, port)
    {
      var slot := operations[i];
      if !slot.state.ResultPending? || slot.result.None? { return; }
      if port.ResultOverflow? { return; }
      operations[i] := slot.(state := Delivered, result := None);
      ghost var fate := FateOf(Abs(), slot.ticket);
      fates := Fated(Abs(), slot.ticket,
                     if port.ResultTaken? then fate.(taken := fate.taken + 1)
                     else fate.(refused := fate.refused + 1)).fates;
    }

    method RecordResult(i: nat, result: SurfaceResult)
      requires i < operations.Length
      modifies this`fates, operations
      ensures Abs() == Recorded(old(Abs()), i, result)
    {
      var slot := operations[i];
      operations[i] := slot.(state := ResultPending, result := Some(result));
      ghost var fate := FateOf(Abs(), slot.ticket);
      fates := Fated(Abs(), slot.ticket, fate.(runs := fate.runs + 1)).fates;
    }

    method ExecuteOperation(answers: Answers, i: nat)
      requires i < operations.Length
      modifies this`fates, this`roots, this`released, this`reset, records, operations
      ensures Abs() == ExecuteSlot(answers, old(Abs()), i)
    {
      var slot := operations[i];
      if !slot.state.Queued? || slot.command.None? { return; }
      var result := ExecuteCommand(answers, slot.command.value);
      RecordResult(i, result);
    }

    /** The owner queue runs this host's first pending task; `answers` is what the backend and the
        content port answer then. */
    method RunTask(answers: Answers, port: PortAnswer)
      modifies this, records, operations
      ensures Abs() == SurfaceProtocol.RunTask(answers, old(Abs()), port)
    {
      if tasks == [] || tasks[0] >= operations.Length { return; }
      var i := tasks[0];
      tasks := tasks[1..];
      ExecuteOperation(answers, i);
      DeliverResult(i, port);
    }

    method ClearOperation(i: nat)
      requires i < operations.Length
      modifies this`cursor, this`finished, operations, completed
      ensures Abs() == Clear(old(Abs()), i)
    {
      var slot := operations[i];
      if slot.command.Some? && cursor < completed.Length {
        completed[cursor] := Some(slot.command.value.request);
        cursor := (cursor + 1) % completed.Length;
        finished := finished + [slot.command.value.request];
      }
      operations[i] := FREE_SLOT;
    }

    method ServiceOne(i: nat, port: PortAnswer, guard: bool) returns (spent: nat)
      requires i < operations.Length
      modifies this`fates, this`cursor, this`finished, operations, completed
      ensures Abs() == ServiceSlot(old(Abs()), i, port, guard) && spent == Spent(old(Abs()), i, port, guard)
    {
      spent := 0;
      if operations[i].state.ResultPending? {
        DeliverResult(i, port);
        if !operations[i].state.ResultPending? {
          spent := spent + 1;
        }
      }
      if operations[i].state.Delivered? && guard {
        ClearOperation(i);
        spent := spent + 1;
      }
    }

    method Service(budget: nat, ports: nat -> PortAnswer, guards: nat -> bool)
      modifies this`fates, this`cursor, this`finished, operations, completed
      ensures Abs() == SurfaceProtocol.Service(old(Abs()), budget, ports, guards)
    {
      if !closed {
        ServeAll(budget, ports, guards);
      }
    }

    method ServeAll(budget: nat, ports: nat -> PortAnswer, guards: nat -> bool)
      modifies this`fates, this`cursor, this`finished, operations, completed
      ensures Abs() == Served(old(Abs()), operations.Length, budget, ports, guards).0
    {
      ghost var start := Abs();
      var i, used := 0, 0;
      while i < operations.Length && used < budget
        invariant i <= operations.Length == |start.slots|
        invariant Served(start, i, budget, ports, guards) == (Abs(), used)
        decreases operations.Length - i
      {
        used := ServiceNext(i, used, budget, ports, guards, start);
        i := i + 1;
      }
      ServedStays(start, i, operations.Length, budget, ports, guards);
    }

    /** One step of a service pass. */
    method ServiceNext(
      i: nat, used: nat, budget: nat, ports: nat -> PortAnswer, guards: nat -> bool, ghost start: Protocol)
      returns (spent: nat)
      requires i < operations.Length == |start.slots| && used < budget
      requires Served(start, i, budget, ports, guards) == (Abs(), used)
      modifies this`fates, this`cursor, this`finished, operations, completed
      ensures Served(start, i + 1, budget, ports, guards) == (Abs(), spent)
    {
      ghost var before := Abs();
      spent := ServiceOne(i, ports(i), guards(i));
      spent := used + spent;
      ServedNext(start, i, budget, ports, guards, before, used);
    }

    method MarkFullMountCommitted(surface: SurfaceId) returns (ok: bool)
      modifies records
      ensures Abs() == MarkMounted(old(Abs()), surface)
      ensures ok <==> Find(old(HostNow()), surface).Some?
                      && old(records[..])[Find(old(HostNow()), surface).value].value.phase.HiddenEmpty?
    {
      var i := FindRecord(surface);
      if i.None? || !records[i.value].value.phase.HiddenEmpty? { return false; }
      SetPhase(i.value, HiddenMounted);
      return true;
    }

    method ResetRecordAt(i: nat, releasable: SurfaceId -> bool)
      requires i < records.Length
      modifies this`roots, this`released, this`reset, records
      ensures HostNow() == ResetRecord(old(HostNow()), i, releasable)
    {
      if records[i].None? { return; }
      var record := records[i].value;
      if releasable(record.surface) {
        released := released + multiset{record.surface};
      } else {
        reset := reset + multiset{record.surface};
      }
      roots := roots - {record.root};
      records[i] := None;
    }

    method ResetRecords(releasable: SurfaceId -> bool)
      modifies this`roots, this`released, this`reset, records
      ensures HostNow() == ResetFrom(old(HostNow()), 0, releasable)
    {
      ghost var start := HostNow();
      for i := 0 to records.Length
        invariant ResetFrom(start, 0, releasable) == ResetFrom(HostNow(), i, releasable)
      {
        ResetRecordAt(i, releasable);
      }
    }

    method NothingInFlight() returns (r: bool)
      ensures r == AllFree(operations[..])
    {
      for i := 0 to operations.Length
        invariant forall k :: 0 <= k < i ==> operations[k].state.Free?
      {
        if !operations[i].state.Free? { return false; }
      }
      return true;
    }

    method StopAccepting()
      modifies this`accepting
      ensures Abs() == old(Abs()).(accepting := false)
    {
      accepting := false;
    }

    method FinishClose(ports: nat -> PortAnswer, guards: nat -> bool, releasable: SurfaceId -> bool)
      returns (outcome: CloseOutcome)
      modifies this, operations, records, completed
      ensures (outcome, Abs()) == SurfaceProtocol.FinishClose(old(Abs()), ports, guards, releasable)
    {
      if accepting { return StillAccepting; }
      Service(COMPLETED_REQUESTS, ports, guards);
      var idle := NothingInFlight();
      if !idle { return CloseBusy; }
      ResetRecords(releasable);
      closed := true;
      return CloseDone;
    }
  }

  /** With the budget used up nothing more is served. */
  lemma {:induction false} ServedStays(
    p: Protocol, m: nat, n: nat, budget: nat, ports: nat -> PortAnswer, guards: nat -> bool)
    requires m <= n <= |p.slots| && (m == n || Served(p, m, budget, ports, guards).1 >= budget)
    ensures Served(p, n, budget, ports, guards) == Served(p, m, budget, ports, guards)
    decreases n - m
  {
    if m < n {
      ServedStays(p, m, n - 1, budget, ports, guards);
    }
  }

  lemma ServedNext(
    p: Protocol, i: nat, budget: nat, ports: nat -> PortAnswer, guards: nat -> bool, before: Protocol, used: nat)
    requires i < |p.slots| && Served(p, i, budget, ports, guards) == (before, used) && used < budget
    ensures Served(p, i + 1, budget, ports, guards)
         == (ServiceSlot(before, i, ports(i), guards(i)), used + Spent(before, i, ports(i), guards(i)))
  {
  }

  lemma NothingChanged(h: Host)
    ensures Changed(h, NOTHING) == h
  {
    assert Changed(h, NOTHING).records == h.records;
    assert Changed(h, NOTHING).roots == h.roots;
  }

  /** One record and its root change. */
  lemma OneChanged(h: Host, i: nat, record: Option<Record>, root: Root, shown: bool)
    requires i < |h.records|
    ensures Changed(h, NOTHING.(records := map[i := record], shown := map[root := shown]))
         == h.(records := h.records[i := record], roots := h.roots[root := shown])
  {
    var c := Changed(h, NOTHING.(records := map[i := record], shown := map[root := shown]));
    assert c.records == h.records[i := record];
    assert c.roots == h.roots[root := shown];
  }

  /** Two records and their roots change. */
  lemma TwoChanged(h: Host, i: nat, x: Option<Record>, j: nat, y: Option<Record>, root: Root, other: Root)
    requires i < |h.records| && j < |h.records| && i != j
    ensures Changed(h, NOTHING.(records := map[i := x, j := y], shown := map[root := true, other := false]))
         == h.(records := h.records[i := x][j := y], roots := h.roots[root := true][other := false])
  {
    var c := Changed(h, NOTHING.(records := map[i := x, j := y], shown := map[root := true, other := false]));
    assert c.records == h.records[i := x][j := y];
    assert c.roots == h.roots[root := true][other := false];
  }

  lemma OneChangedIfLive(h: Host, i: nat, record: Option<Record>, root: Root, shown: bool)
    requires i < |h.records|
    ensures Changed(h, NOTHING.(records := map[i := record], shown := if root in h.roots then map[root := shown] else map[]))
         == h.(records := h.records[i := record], roots := if root in h.roots then h.roots[root := shown] else h.roots)
  {
    var c := Changed(h, NOTHING.(records := map[i := record], shown := if root in h.roots then map[root := shown] else map[]));
    assert c.records == h.records[i := record];
    assert c.roots == if root in h.roots then h.roots[root := shown] else h.roots;
  }

  /** A record goes with its root, its content released or reset. */
  lemma OneGone(h: Host, i: nat, root: Root, surface: SurfaceId)
    requires i < |h.records|
    ensures Changed(h, Change(map[i := None], map[], {root}, multiset{surface}, multiset{}))
         == Host(h.records[i := None], h.roots - {root}, h.released + multiset{surface}, h.reset)
    ensures Changed(h, Change(map[i := None], map[], {root}, multiset{}, multiset{surface}))
         == Host(h.records[i := None], h.roots - {root}, h.released, h.reset + multiset{surface})
  {
    var c := Changed(h, Change(map[i := None], map[], {root}, multiset{surface}, multiset{}));
    var d := Changed(h, Change(map[i := None], map[], {root}, multiset{}, multiset{surface}));
    assert c.records == h.records[i := None] && d.records == h.records[i := None];
    assert c.roots == h.roots - {root} && d.roots == h.roots - {root};
  }

  /** One record goes with its root and another is shown. */
  lemma GoneAndShown(h: Host, i: nat, root: Root, j: nat, y: Option<Record>, other: Root, released: multiset<SurfaceId>)
    requires i < |h.records| && j < |h.records| && i != j && other in h.roots
    ensures Changed(h, Change(map[i := None, j := y], map[other := true], {root}, released, multiset{}))
         == Host(h.records[i := None][j := y],
                 if other == root then h.roots - {root} else (h.roots - {root})[other := true],
                 h.released + released, h.reset)
  {
    var c := Changed(h, Change(map[i := None, j := y], map[other := true], {root}, released, multiset{}));
    assert c.records == h.records[i := None][j := y];
    assert c.roots == if other == root then h.roots - {root} else (h.roots - {root})[other := true];
  }

  ghost function Done(h: Host, outcome: Outcome): (Host, Status) {
    (Changed(h, outcome.change), outcome.status)
  }
}
