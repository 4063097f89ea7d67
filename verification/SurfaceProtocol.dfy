/** How the surface host admits commands, runs them as owner tasks and delivers their results. */
module SurfaceProtocol {
  import opened Wrappers
  import opened SurfaceCommands
  import opened SurfaceOrder
  import OwnerTasks

  const COMPLETED_REQUESTS := 16

  datatype SlotState = Free | Queued | ResultPending | Delivered

  /** `ticket` numbers the accepted command that the slot holds. */
  datatype OpSlot = OpSlot(state: SlotState, command: Option<Command>, result: Option<SurfaceResult>, ticket: nat)

  const FREE_SLOT := OpSlot(Free, None, None, 0)

  /** What became of an accepted command: how often it ran, its result was taken, and its result
      was refused for good. */
  datatype Fate = Fate(runs: nat, taken: nat, refused: nat)

  /** `tasks` are the slots of this host's pending owner tasks in order, `lost` those of cancelled
      tasks; `accepted`, `fates` and `finished` are history. */
  datatype Protocol = Protocol(
    accepting: bool, closed: bool, slots: seq<OpSlot>, completed: seq<Option<RequestId>>, cursor: nat,
    tasks: seq<nat>, lost: set<nat>, host: Host, overflows: nat,
    accepted: seq<Command>, fates: seq<Fate>, finished: seq<RequestId>)

  datatype Admission =
    | Admitted | HostClosed | AdmissionBusy | Conflicting | RequestInFlight | RequestCompleted
    | NoFreeSlot | QueueFull | QueueRefused

  datatype PortAnswer = ResultTaken | ResultOverflow | ResultRefused

  const MAX_STORAGE := 16

  /** A host with limits out of range takes nothing. */
  predicate LimitsOk(maxOperations: nat, maxRoots: nat) {
    0 < maxOperations <= MAX_STORAGE && 0 < maxRoots <= MAX_STORAGE
  }

  function Opened(maxOperations: nat, maxRoots: nat): Protocol {
    Protocol(LimitsOk(maxOperations, maxRoots), false, seq(maxOperations, i => FREE_SLOT), seq(COMPLETED_REQUESTS, i => None), 0, [], {},
             Host(seq(maxRoots, i => None), map[], multiset{}, multiset{}), 0, [], [], [])
  }

  // ----- Admission -----

  predicate Holds(slot: OpSlot) {
    slot.command.Some?
  }

  predicate ConflictsInFlight(slots: seq<OpSlot>, c: Command) {
    exists i :: 0 <= i < |slots| && Holds(slots[i]) && Conflicts(c, slots[i].command.value)
  }

  predicate RequestHeld(slots: seq<OpSlot>, request: RequestId) {
    exists i :: 0 <= i < |slots| && Holds(slots[i]) && slots[i].command.value.request == request
  }

  function FreeSlot(slots: seq<OpSlot>, i: nat): (r: Option<nat>)
    requires i <= |slots|
    ensures r.Some? ==> i <= r.value < |slots| && slots[r.value].state.Free?
    ensures r.None? ==> forall k :: i <= k < |slots| ==> !slots[k].state.Free?
    decreases |slots| - i
  {
    if i == |slots| then None else if slots[i].state.Free? then Some(i) else FreeSlot(slots, i + 1)
  }

  /** Why a command is not even tried, if so. `guard` says whether the admission lock was free. */
  function Refusal(p: Protocol, c: Command, guard: bool): Option<Admission> {
    if !p.accepting || p.closed then Some(HostClosed)
    else if !guard then Some(AdmissionBusy)
    else if ConflictsInFlight(p.slots, c) then Some(Conflicting)
    else if RequestHeld(p.slots, c.request) then Some(RequestInFlight)
    else if Some(c.request) in p.completed then Some(RequestCompleted)
    else None
  }

  /** The command takes a free slot and a place among the owner tasks. */
  function Admit(p: Protocol, c: Command, i: nat): Protocol
    requires i < |p.slots|
  {
    p.(slots := p.slots[i := OpSlot(Queued, Some(c), None, |p.accepted|)], tasks := p.tasks + [i],
       accepted := p.accepted + [c], fates := p.fates + [Fate(0, 0, 0)])
  }

  /** `queue` is what the owner queue answered. */
  function Post(p: Protocol, c: Command, guard: bool, queue: OwnerTasks.PostStatus): (Admission, Protocol) {
    var refusal := Refusal(p, c, guard);
    var free := FreeSlot(p.slots, 0);
    if refusal.Some? then (refusal.value, p)
    else if free.None? then (NoFreeSlot, p.(overflows := p.overflows + 1))
    else if queue.Full? then (QueueFull, p.(overflows := p.overflows + 1))
    else if !queue.Accepted? then (QueueRefused, p)
    else (Admitted, Admit(p, c, free.value))
  }

  // ----- Execution and delivery -----

  function Fated(p: Protocol, ticket: nat, fate: Fate): Protocol {
    if ticket < |p.fates| then p.(fates := p.fates[ticket := fate]) else p
  }

  function FateOf(p: Protocol, ticket: nat): Fate {
    if ticket < |p.fates| then p.fates[ticket] else Fate(0, 0, 0)
  }

  /** Offers a pending result to the core. On overflow it stays for another time. */
  function Deliver(p: Protocol, i: nat, port: PortAnswer): (r: Protocol)
    requires i < |p.slots|
    ensures |r.slots| == |p.slots|
  {
    var slot := p.slots[i];
    if !slot.state.ResultPending? || slot.result.None? || port.ResultOverflow? then p
    else
      var fate := FateOf(p, slot.ticket);
      Fated(p.(slots := p.slots[i := slot.(state := Delivered, result := None)]), slot.ticket,
            if port.ResultTaken? then fate.(taken := fate.taken + 1) else fate.(refused := fate.refused + 1))
  }

  /** A slot's command has run: its result waits. */
  function Recorded(p: Protocol, i: nat, result: SurfaceResult): (r: Protocol)
    requires i < |p.slots|
    ensures |r.slots| == |p.slots|
  {
    var slot := p.slots[i];
    var fate := FateOf(p, slot.ticket);
    Fated(p.(slots := p.slots[i := slot.(state := ResultPending, result := Some(result))]),
          slot.ticket, fate.(runs := fate.runs + 1))
  }

  /** Executes the command of a queued slot. */
  function ExecuteSlot(e: Answers, p: Protocol, i: nat): (r: Protocol)
    requires i < |p.slots|
    ensures |r.slots| == |p.slots|
  {
    var slot := p.slots[i];
    if !slot.state.Queued? || slot.command.None? then p
    else
      var done := Execute(e, p.host, slot.command.value);
      Recorded(p.(host := done.0), i, done.1)
  }

  /** The owner runs the first pending task. */
  function RunTask(e: Answers, p: Protocol, port: PortAnswer): Protocol {
    if p.tasks == [] || p.tasks[0] >= |p.slots| then p
    else Deliver(ExecuteSlot(e, p.(tasks := p.tasks[1..]), p.tasks[0]), p.tasks[0], port)
  }

  /** The owner queue drops the first pending task without running it. */
  function CancelTask(p: Protocol): Protocol {
    if p.tasks == [] then p else p.(tasks := p.tasks[1..], lost := p.lost + {p.tasks[0]})
  }

  /** Frees a slot and remembers its request among the last completed. */
  function Clear(p: Protocol, i: nat): (r: Protocol)
    requires i < |p.slots|
    ensures |r.slots| == |p.slots|
  {
    var slot := p.slots[i];
    var cleared := p.(slots := p.slots[i := FREE_SLOT]);
    if slot.command.None? || p.cursor >= |p.completed| then cleared
    else
      cleared.(
        completed := p.completed[p.cursor := Some(slot.command.value.request)],
        cursor := (p.cursor + 1) % |p.completed|,
        finished := p.finished + [slot.command.value.request])
  }

  /** One slot of a service pass: a second try to deliver, then freeing the slot if the lock is
      free. */
  function ServiceSlot(p: Protocol, i: nat, port: PortAnswer, guard: bool): (r: Protocol)
    requires i < |p.slots|
    ensures |r.slots| == |p.slots|
  {
    var tried := Deliver(p, i, port);
    if tried.slots[i].state.Delivered? && guard then Clear(tried, i) else tried
  }

  /** How much of the budget a slot takes. */
  function Spent(p: Protocol, i: nat, port: PortAnswer, guard: bool): nat
    requires i < |p.slots|
  {
    var tried := Deliver(p, i, port);
    (if p.slots[i].state.ResultPending? && !tried.slots[i].state.ResultPending? then 1 else 0)
    + (if tried.slots[i].state.Delivered? && guard then 1 else 0)
  }

  /** What a service pass comes to at slot `n`, and what of its budget it has used. */
  function Served(p: Protocol, n: nat, budget: nat, ports: nat -> PortAnswer, guards: nat -> bool): (r: (Protocol, nat))
    requires n <= |p.slots|
    ensures |r.0.slots| == |p.slots|
  {
    if n == 0 then (p, 0)
    else
      var before := Served(p, n - 1, budget, ports, guards);
      if before.1 >= budget then before
      else
        (ServiceSlot(before.0, n - 1, ports(n - 1), guards(n - 1)),
         before.1 + Spent(before.0, n - 1, ports(n - 1), guards(n - 1)))
  }

  function Service(p: Protocol, budget: nat, ports: nat -> PortAnswer, guards: nat -> bool): Protocol {
    if p.closed then p else Served(p, |p.slots|, budget, ports, guards).0
  }

  function MarkMounted(p: Protocol, surface: SurfaceId): Protocol {
    var i := Find(p.host, surface);
    if i.None? || !p.host.records[i.value].value.phase.HiddenEmpty? then p
    else p.(host := p.host.(records := p.host.records[i.value := Phased(p.host, i.value, HiddenMounted)]))
  }

  predicate AllFree(slots: seq<OpSlot>) {
    forall i :: 0 <= i < |slots| ==> slots[i].state.Free?
  }

  /** Lets the content and the root of a record go. */
  function ResetRecord(h: Host, i: nat, releasable: SurfaceId -> bool): (r: Host)
    requires i < |h.records|
    ensures |r.records| == |h.records|
  {
    if h.records[i].None? then h
    else
      var record := h.records[i].value;
      var gone := Host(h.records[i := None], h.roots - {record.root}, h.released, h.reset);
      if releasable(record.surface) then gone.(released := h.released + multiset{record.surface})
      else gone.(reset := h.reset + multiset{record.surface})
  }

  function ResetFrom(h: Host, i: nat, releasable: SurfaceId -> bool): (r: Host)
    requires i <= |h.records|
    decreases |h.records| - i
  {
    if i == |h.records| then h else ResetFrom(ResetRecord(h, i, releasable), i + 1, releasable)
  }

  datatype CloseOutcome = CloseDone | CloseBusy | StillAccepting

  function FinishClose(
    p: Protocol, ports: nat -> PortAnswer, guards: nat -> bool, releasable: SurfaceId -> bool): (CloseOutcome, Protocol)
  {
    if p.accepting then (StillAccepting, p)
    else
      var served := Service(p, COMPLETED_REQUESTS, ports, guards);
      if !AllFree(served.slots) then (CloseBusy, served)
      else (CloseDone, served.(host := ResetFrom(served.host, 0, releasable), closed := true))
  }

  // ----- Whole runs -----

  datatype Event =
    | DoPost(command: Command, guard: bool, queue: OwnerTasks.PostStatus)
    | DoRunTask(answers: Answers, port: PortAnswer)
    | DoCancelTask
    | DoService(budget: nat, ports: nat -> PortAnswer, guards: nat -> bool)
    | DoMarkMounted(surface: SurfaceId)
    | DoClose
    | DoFinishClose(ports: nat -> PortAnswer, guards: nat -> bool, releasable: SurfaceId -> bool)

  function Apply(p: Protocol, event: Event): Protocol {
    match event
    case DoPost(c, guard, queue) => Post(p, c, guard, queue).1
    case DoRunTask(answers, port) => RunTask(answers, p, port)
    case DoCancelTask => CancelTask(p)
    case DoService(budget, ports, guards) => Service(p, budget, ports, guards)
    case DoMarkMounted(surface) => MarkMounted(p, surface)
    case DoClose => p.(accepting := false)
    case DoFinishClose(ports, guards, releasable) => FinishClose(p, ports, guards, releasable).1
  }

  function History(maxOperations: nat, maxRoots: nat, events: seq<Event>): Protocol {
    if events == [] then Opened(maxOperations, maxRoots)
    else Apply(History(maxOperations, maxRoots, events[..|events| - 1]), events[|events| - 1])
  }

  // ----- What every run keeps -----

  /** A slot's fields go with its state, and so does what happened to its command so far. */
  predicate SlotSound(slot: OpSlot, accepted: seq<Command>, fates: seq<Fate>) {
    match slot.state
    case Free => slot.command.None? && slot.result.None?
    case Queued => InSlot(slot, accepted, fates) && slot.result.None? && fates[slot.ticket] == Fate(0, 0, 0)
    case ResultPending =>
      && InSlot(slot, accepted, fates) && fates[slot.ticket] == Fate(1, 0, 0)
      && slot.result.Some? && slot.result.value.command == slot.command.value
    case Delivered => InSlot(slot, accepted, fates) && slot.result.None? && Settled(fates[slot.ticket])
  }

  predicate InSlot(slot: OpSlot, accepted: seq<Command>, fates: seq<Fate>) {
    slot.ticket < |accepted| == |fates| && slot.command == Some(accepted[slot.ticket])
  }

  /** It ran once, and its result was once taken or refused for good. */
  predicate Settled(fate: Fate) {
    fate.runs == 1 && fate.taken + fate.refused == 1
  }

  /** Commands in flight have their own tickets and requests and touch different surfaces. */
  ghost predicate InFlightApart(slots: seq<OpSlot>) {
    forall i, j :: 0 <= i < |slots| && 0 <= j < |slots| && i != j && Holds(slots[i]) && Holds(slots[j]) ==>
      SlotsApart(slots[i], slots[j])
  }

  predicate SlotsApart(a: OpSlot, b: OpSlot)
    requires Holds(a) && Holds(b)
  {
    && a.ticket != b.ticket && a.command.value.request != b.command.value.request
    && !Conflicts(a.command.value, b.command.value)
  }

  /** Queued slots and pending owner tasks correspond one to one, tasks that were cancelled apart. */
  ghost predicate TasksMatch(p: Protocol) {
    && (forall i :: 0 <= i < |p.slots| ==> (p.slots[i].state.Queued? <==> i in p.tasks || i in p.lost))
    && (forall k :: 0 <= k < |p.tasks| ==> p.tasks[k] < |p.slots| && p.tasks[k] !in p.lost)
    && (forall k, l :: 0 <= k < l < |p.tasks| ==> p.tasks[k] != p.tasks[l])
    && (forall i :: i in p.lost ==> i < |p.slots|)
  }

  /** Every accepted command is in a slot or settled. */
  ghost predicate NoneForgotten(p: Protocol) {
    forall t :: 0 <= t < |p.fates| ==> Settled(p.fates[t]) || TicketHeld(p.slots, t)
  }

  ghost predicate TicketHeld(slots: seq<OpSlot>, ticket: nat) {
    exists i :: 0 <= i < |slots| && Holds(slots[i]) && slots[i].ticket == ticket
  }

  /** The ring holds the last sixteen finished requests. */
  ghost predicate RingHolds(p: Protocol) {
    && |p.completed| == COMPLETED_REQUESTS && p.cursor == |p.finished| % COMPLETED_REQUESTS
    && (forall j :: 0 <= j < |p.finished| && |p.finished| - j <= COMPLETED_REQUESTS ==>
          p.completed[j % COMPLETED_REQUESTS] == Some(p.finished[j]))
    && forall j :: |p.finished| <= j < COMPLETED_REQUESTS ==> p.completed[j].None?
  }

  ghost predicate SlotsSound(p: Protocol) {
    forall i :: 0 <= i < |p.slots| ==> SlotSound(p.slots[i], p.accepted, p.fates)
  }

  /** Slots, owner tasks and fates go together. */
  ghost predicate SlotsInStep(p: Protocol) {
    && |p.accepted| == |p.fates|
    && SlotsSound(p) && InFlightApart(p.slots) && TasksMatch(p) && NoneForgotten(p)
    && (p.closed ==> !p.accepting && AllFree(p.slots))
  }

  ghost predicate Sound(p: Protocol) {
    SlotsInStep(p) && RingHolds(p)
  }

  lemma OpenedSound(maxOperations: nat, maxRoots: nat)
    ensures Sound(Opened(maxOperations, maxRoots)) && Consistent(Opened(maxOperations, maxRoots).host)
  {
  }

  // ----- Admission -----

  lemma PostKeeps(p: Protocol, c: Command, guard: bool, queue: OwnerTasks.PostStatus)
    requires Sound(p)
    ensures Sound(Post(p, c, guard, queue).1)
  {
    var r := Post(p, c, guard, queue).1;
    if Post(p, c, guard, queue).0.Admitted? {
      PostApart(p, c, FreeSlot(p.slots, 0).value);
      PostTasks(p, c, FreeSlot(p.slots, 0).value);
      PostSlots(p, c, FreeSlot(p.slots, 0).value);
      PostForgets(p, c, FreeSlot(p.slots, 0).value);
    }
  }

  lemma PostSlots(p: Protocol, c: Command, i: nat)
    requires |p.accepted| == |p.fates| && SlotsSound(p) && i < |p.slots|
    ensures SlotsSound(Admit(p, c, i))
  {
    var r := Admit(p, c, i);
    forall k | 0 <= k < |p.slots| ensures SlotSound(r.slots[k], r.accepted, r.fates) {
      if k != i {
        assert SlotSound(p.slots[k], p.accepted, p.fates);
      }
    }
  }

  lemma PostApart(p: Protocol, c: Command, i: nat)
    requires SlotsSound(p) && InFlightApart(p.slots) && i < |p.slots|
    requires !ConflictsInFlight(p.slots, c) && !RequestHeld(p.slots, c.request)
    ensures InFlightApart(Admit(p, c, i).slots)
  {
    var slots := Admit(p, c, i).slots;
    forall j | 0 <= j < |slots| && j != i && Holds(slots[j])
      ensures SlotsApart(slots[i], slots[j]) && SlotsApart(slots[j], slots[i])
    {
      assert SlotSound(p.slots[j], p.accepted, p.fates);
      assert !Conflicts(c, p.slots[j].command.value);
    }
  }

  lemma PostTasks(p: Protocol, c: Command, i: nat)
    requires TasksMatch(p) && i < |p.slots| && p.slots[i].state.Free?
    ensures TasksMatch(Admit(p, c, i))
  {
    assert i !in p.tasks && i !in p.lost;
  }

  lemma PostForgets(p: Protocol, c: Command, i: nat)
    requires |p.accepted| == |p.fates| && SlotsSound(p) && NoneForgotten(p) && i < |p.slots| && p.slots[i].state.Free?
    ensures NoneForgotten(Admit(p, c, i))
  {
    var r := Admit(p, c, i);
    assert SlotSound(p.slots[i], p.accepted, p.fates);
    forall t | 0 <= t < |r.fates| && !Settled(r.fates[t]) ensures TicketHeld(r.slots, t) {
      if t == |p.fates| {
        assert Holds(r.slots[i]) && r.slots[i].ticket == t;
      } else {
        var k :| 0 <= k < |p.slots| && Holds(p.slots[k]) && p.slots[k].ticket == t;
        assert Holds(r.slots[k]) && r.slots[k].ticket == t;
      }
    }
  }

  // ----- One slot moves on -----

  /** A slot changes state with its command and ticket, and its fate with it. */
  function Advance(p: Protocol, i: nat, slot: OpSlot, fate: Fate): Protocol
    requires i < |p.slots| && slot.ticket < |p.fates|
  {
    p.(slots := p.slots[i := slot], fates := p.fates[slot.ticket := fate])
  }

  lemma AdvanceKeeps(p: Protocol, i: nat, slot: OpSlot, fate: Fate)
    requires |p.accepted| == |p.fates| && SlotsSound(p) && InFlightApart(p.slots) && NoneForgotten(p)
    requires i < |p.slots| && Holds(p.slots[i]) && slot.ticket == p.slots[i].ticket < |p.fates|
    requires slot.command == p.slots[i].command && !slot.state.Free?
    requires SlotSound(slot, p.accepted, p.fates[slot.ticket := fate])
    ensures var r := Advance(p, i, slot, fate);
            |r.accepted| == |r.fates| && SlotsSound(r) && InFlightApart(r.slots) && NoneForgotten(r)
  {
    var r := Advance(p, i, slot, fate);
    forall k | 0 <= k < |p.slots| ensures SlotSound(r.slots[k], r.accepted, r.fates) {
      if k != i {
        assert SlotSound(p.slots[k], p.accepted, p.fates);
        assert Holds(p.slots[k]) ==> SlotsApart(p.slots[k], p.slots[i]);
      }
    }
    forall t | 0 <= t < |r.fates| && !Settled(r.fates[t]) ensures TicketHeld(r.slots, t) {
      if t == slot.ticket {
        assert Holds(r.slots[i]) && r.slots[i].ticket == t;
      } else {
        var k :| 0 <= k < |p.slots| && Holds(p.slots[k]) && p.slots[k].ticket == t;
        assert Holds(r.slots[k]) && r.slots[k].ticket == t;
      }
    }
  }

  lemma AdvanceTasks(p: Protocol, i: nat, slot: OpSlot)
    requires TasksMatch(p) && i < |p.slots| && !p.slots[i].state.Queued? && !slot.state.Queued?
    ensures TasksMatch(p.(slots := p.slots[i := slot]))
  {
  }

  /** Moving a slot on, neither from nor to the queue, keeps everything. */
  lemma AdvanceSound(p: Protocol, i: nat, slot: OpSlot, fate: Fate)
    requires Sound(p) && i < |p.slots| && Holds(p.slots[i]) && slot.ticket == p.slots[i].ticket < |p.fates|
    requires slot.command == p.slots[i].command && !p.slots[i].state.Free?
    requires !slot.state.Free? && !slot.state.Queued? && !p.slots[i].state.Queued?
    requires SlotSound(slot, p.accepted, p.fates[slot.ticket := fate])
    ensures Sound(Advance(p, i, slot, fate))
  {
    AdvanceKeeps(p, i, slot, fate);
    AdvanceTasks(p, i, slot);
  }

  /** A delivery that is not put off moves its slot on. */
  lemma DeliverAdvances(p: Protocol, i: nat, port: PortAnswer)
    requires i < |p.slots| && p.slots[i].state.ResultPending? && !port.ResultOverflow?
    requires p.slots[i].ticket < |p.fates| && p.slots[i].result.Some?
    ensures var slot := p.slots[i];
            var fate := p.fates[slot.ticket];
            Deliver(p, i, port) == Advance(
              p, i, slot.(state := Delivered, result := None),
              if port.ResultTaken? then fate.(taken := fate.taken + 1) else fate.(refused := fate.refused + 1))
  {
  }

  lemma DeliverKeeps(p: Protocol, i: nat, port: PortAnswer)
    requires Sound(p) && i < |p.slots|
    ensures Sound(Deliver(p, i, port))
  {
    var slot := p.slots[i];
    assert SlotSound(slot, p.accepted, p.fates);
    if slot.state.ResultPending? && !port.ResultOverflow? {
      var fate := if port.ResultTaken? then Fate(1, 1, 0) else Fate(1, 0, 1);
      DeliverAdvances(p, i, port);
      AdvanceSound(p, i, slot.(state := Delivered, result := None), fate);
    }
  }

  /** Running the first task executes the command of its slot, once and for all. */
  lemma RunKeeps(e: Answers, p: Protocol)
    requires Sound(p) && p.tasks != [] && !p.closed
    ensures var r := ExecuteSlot(e, p.(tasks := p.tasks[1..]), p.tasks[0]);
            Sound(r) && r.host == Execute(e, p.host, p.slots[p.tasks[0]].command.value).0
  {
    var i := p.tasks[0];
    var slot := p.slots[i];
    assert i in p.tasks && SlotSound(slot, p.accepted, p.fates);
    var done := Execute(e, p.host, slot.command.value);
    AdvanceKeeps(p, i, slot.(state := ResultPending, result := Some(done.1)), Fate(1, 0, 0));
    PopTask(p, i, slot.(state := ResultPending, result := Some(done.1)));
  }

  lemma PopTask(p: Protocol, i: nat, slot: OpSlot)
    requires TasksMatch(p) && p.tasks != [] && i == p.tasks[0] && i < |p.slots| && !slot.state.Queued?
    ensures TasksMatch(p.(tasks := p.tasks[1..], slots := p.slots[i := slot]))
  {
    forall k | k in p.tasks ensures k == i || k in p.tasks[1..] {
      assert p.tasks == [i] + p.tasks[1..];
    }
  }

  lemma CancelKeeps(p: Protocol)
    requires Sound(p)
    ensures Sound(CancelTask(p))
  {
    if p.tasks != [] {
      var i := p.tasks[0];
      assert i in p.tasks;
      forall k | k in p.tasks ensures k == i || k in p.tasks[1..] {
        assert p.tasks == [i] + p.tasks[1..];
      }
    }
  }

  // ----- A slot is freed -----

  lemma ClearKeeps(p: Protocol, i: nat)
    requires Sound(p) && i < |p.slots| && p.slots[i].state.Delivered?
    ensures Sound(Clear(p, i)) && Clear(p, i).closed == p.closed
  {
    var request := p.slots[i].command.value.request;
    var slots := p.slots[i := FREE_SLOT];
    SlotCleared(p, i);
    RingTurns(p, request);
    assert Clear(p, i) == Turned(p, request).(slots := slots);
    OtherRing(p.(slots := slots), Turned(p, request));
  }

  lemma SlotCleared(p: Protocol, i: nat)
    requires Sound(p) && i < |p.slots| && p.slots[i].state.Delivered?
    ensures SlotsInStep(p.(slots := p.slots[i := FREE_SLOT]))
    ensures Holds(p.slots[i]) && p.cursor < |p.completed| == COMPLETED_REQUESTS
  {
    var r := p.(slots := p.slots[i := FREE_SLOT]);
    assert SlotSound(p.slots[i], p.accepted, p.fates);
    forall k | 0 <= k < |r.slots| ensures SlotSound(r.slots[k], r.accepted, r.fates) {
      assert SlotSound(p.slots[k], p.accepted, p.fates);
    }
    ClearForgets(p, i);
  }

  /** The ring and the slots have nothing to do with each other. */
  lemma OtherRing(p: Protocol, r: Protocol)
    requires SlotsInStep(p) && RingHolds(r)
    requires r.(slots := p.slots, completed := p.completed, cursor := p.cursor, finished := p.finished) == p
    ensures Sound(r.(slots := p.slots))
  {
  }

  lemma ClearForgets(p: Protocol, i: nat)
    requires SlotsSound(p) && NoneForgotten(p) && |p.accepted| == |p.fates| && i < |p.slots| && p.slots[i].state.Delivered?
    ensures NoneForgotten(p.(slots := p.slots[i := FREE_SLOT]))
  {
    var slots := p.slots[i := FREE_SLOT];
    assert SlotSound(p.slots[i], p.accepted, p.fates);
    forall t | 0 <= t < |p.fates| && !Settled(p.fates[t]) ensures TicketHeld(slots, t) {
      var k :| 0 <= k < |p.slots| && Holds(p.slots[k]) && p.slots[k].ticket == t;
      assert Holds(slots[k]) && slots[k].ticket == t;
    }
  }

  /** One more finished request. */
  ghost function Turned(p: Protocol, request: RequestId): Protocol
    requires RingHolds(p)
  {
    p.(completed := p.completed[p.cursor := Some(request)], cursor := (p.cursor + 1) % COMPLETED_REQUESTS,
       finished := p.finished + [request])
  }

  lemma RingTurns(p: Protocol, request: RequestId)
    requires RingHolds(p)
    ensures RingHolds(Turned(p, request))
  {
    var n := |p.finished|;
    NextPlace(n);
    forall j | 0 <= j < n && n + 1 - j <= COMPLETED_REQUESTS ensures j % COMPLETED_REQUESTS != p.cursor {
      PlacesDiffer(j, n);
    }
  }

  lemma NextPlace(n: nat)
    ensures (n % COMPLETED_REQUESTS + 1) % COMPLETED_REQUESTS == (n + 1) % COMPLETED_REQUESTS
  {
  }

  lemma PlacesDiffer(j: nat, n: nat)
    requires j < n < j + COMPLETED_REQUESTS
    ensures j % COMPLETED_REQUESTS != n % COMPLETED_REQUESTS
  {
  }

  // ----- Whole steps -----

  lemma RunTaskKeeps(e: Answers, p: Protocol, port: PortAnswer)
    requires Sound(p)
    ensures Sound(RunTask(e, p, port))
  {
    if p.tasks != [] {
      assert p.tasks[0] in p.tasks;
      RunKeeps(e, p);
      DeliverKeeps(ExecuteSlot(e, p.(tasks := p.tasks[1..]), p.tasks[0]), p.tasks[0], port);
    }
  }

  lemma ServiceSlotKeeps(p: Protocol, i: nat, port: PortAnswer, guard: bool)
    requires Sound(p) && i < |p.slots|
    ensures Sound(ServiceSlot(p, i, port, guard))
  {
    DeliverKeeps(p, i, port);
    var tried := Deliver(p, i, port);
    if tried.slots[i].state.Delivered? {
      ClearKeeps(tried, i);
    }
  }

  /** What serving any slot keeps, a service pass keeps. */
  lemma {:induction false} ServicePreserves(
    keeps: Protocol -> bool, p: Protocol, n: nat, budget: nat, ports: nat -> PortAnswer, guards: nat -> bool)
    requires keeps(p) && n <= |p.slots|
    requires forall q: Protocol, k: nat, port, guard ::
               k < |q.slots| && keeps(q) ==> keeps(ServiceSlot(q, k, port, guard))
    ensures keeps(Served(p, n, budget, ports, guards).0)
  {
    if n > 0 {
      ServicePreserves(keeps, p, n - 1, budget, ports, guards);
    }
  }

  lemma ServiceKeeps(p: Protocol, budget: nat, ports: nat -> PortAnswer, guards: nat -> bool)
    requires Sound(p)
    ensures Sound(Service(p, budget, ports, guards))
  {
    ghost var keeps := (q: Protocol) => Sound(q);
    forall q: Protocol, k: nat, port, guard | k < |q.slots| && keeps(q)
      ensures keeps(ServiceSlot(q, k, port, guard))
    {
      ServiceSlotKeeps(q, k, port, guard);
    }
    ServicePreserves(keeps, p, |p.slots|, budget, ports, guards);
  }

  lemma FinishCloseKeeps(
    p: Protocol, ports: nat -> PortAnswer, guards: nat -> bool, releasable: SurfaceId -> bool)
    requires Sound(p)
    ensures Sound(FinishClose(p, ports, guards, releasable).1)
  {
    ServiceKeeps(p, COMPLETED_REQUESTS, ports, guards);
    ServiceOnly(p, COMPLETED_REQUESTS, ports, guards);
  }

  /** A service pass concerns only the slots, the finished requests and the fates. */
  ghost predicate OnlySlots(p: Protocol, r: Protocol) {
    && r.accepting == p.accepting && r.closed == p.closed && r.host == p.host && r.tasks == p.tasks
    && r.lost == p.lost && r.accepted == p.accepted
  }

  lemma ServiceSlotOnly(p: Protocol, q: Protocol, i: nat, port: PortAnswer, guard: bool)
    requires i < |q.slots| && OnlySlots(p, q)
    ensures OnlySlots(p, ServiceSlot(q, i, port, guard))
  {
  }

  lemma ServiceOnly(p: Protocol, budget: nat, ports: nat -> PortAnswer, guards: nat -> bool)
    ensures OnlySlots(p, Service(p, budget, ports, guards))
  {
    ghost var keeps := (q: Protocol) => OnlySlots(p, q);
    forall q: Protocol, k: nat, port, guard | k < |q.slots| && keeps(q)
      ensures keeps(ServiceSlot(q, k, port, guard))
    {
      ServiceSlotOnly(p, q, k, port, guard);
    }
    ServicePreserves(keeps, p, |p.slots|, budget, ports, guards);
  }

  lemma ApplyKeeps(p: Protocol, event: Event)
    requires Sound(p)
    ensures Sound(Apply(p, event))
  {
    match event
    case DoPost(c, guard, queue) => PostKeeps(p, c, guard, queue);
    case DoRunTask(answers, port) => RunTaskKeeps(answers, p, port);
    case DoCancelTask => CancelKeeps(p);
    case DoService(budget, ports, guards) => ServiceKeeps(p, budget, ports, guards);
    case DoMarkMounted(surface) =>
    case DoClose =>
    case DoFinishClose(ports, guards, releasable) => FinishCloseKeeps(p, ports, guards, releasable);
  }

  lemma {:induction false} HistoryIsSound(maxOperations: nat, maxRoots: nat, events: seq<Event>)
    ensures Sound(History(maxOperations, maxRoots, events))
  {
    if events == [] {
      OpenedSound(maxOperations, maxRoots);
    } else {
      HistoryIsSound(maxOperations, maxRoots, events[..|events| - 1]);
      ApplyKeeps(History(maxOperations, maxRoots, events[..|events| - 1]), events[|events| - 1]);
    }
  }

  // ----- What runs come to -----

  /** Over every run, no accepted command runs twice, and no result is delivered or given up twice;
      queued slots are those of the pending owner tasks, cancelled ones apart. */
  lemma NothingRunsTwice(maxOperations: nat, maxRoots: nat, events: seq<Event>)
    ensures var p := History(maxOperations, maxRoots, events);
            && TasksMatch(p) && |p.fates| == |p.accepted|
            && forall t :: 0 <= t < |p.fates| ==> p.fates[t].runs <= 1 && p.fates[t].taken + p.fates[t].refused <= 1
  {
    HistoryIsSound(maxOperations, maxRoots, events);
    var p := History(maxOperations, maxRoots, events);
    forall t | 0 <= t < |p.fates| ensures p.fates[t].runs <= 1 && p.fates[t].taken + p.fates[t].refused <= 1 {
      if !Settled(p.fates[t]) {
        var i :| 0 <= i < |p.slots| && Holds(p.slots[i]) && p.slots[i].ticket == t;
        assert SlotSound(p.slots[i], p.accepted, p.fates);
      }
    }
  }

  lemma FirstTaskQueued(p: Protocol)
    requires TasksMatch(p) && p.tasks != []
    ensures p.tasks[0] < |p.slots| && p.slots[p.tasks[0]].state.Queued?
  {
    assert p.tasks[0] in p.tasks;
  }

  lemma FreeIsSettled(p: Protocol)
    requires Sound(p) && AllFree(p.slots)
    ensures p.tasks == [] && forall t :: 0 <= t < |p.fates| ==> Settled(p.fates[t])
  {
    if p.tasks != [] {
      FirstTaskQueued(p);
    }
    forall i | 0 <= i < |p.slots| ensures !Holds(p.slots[i]) {
      assert SlotSound(p.slots[i], p.accepted, p.fates);
    }
  }

  /** When the host has closed, every command it ever accepted ran exactly once and had its result
      taken once, or refused for good once. */
  lemma ClosedIsSettled(maxOperations: nat, maxRoots: nat, events: seq<Event>)
    requires History(maxOperations, maxRoots, events).closed
    ensures var p := History(maxOperations, maxRoots, events);
            p.tasks == [] && forall t :: 0 <= t < |p.fates| ==> Settled(p.fates[t])
  {
    HistoryIsSound(maxOperations, maxRoots, events);
    FreeIsSettled(History(maxOperations, maxRoots, events));
  }

  /** From any state on. */
  function Run(p: Protocol, events: seq<Event>): Protocol {
    if events == [] then p else Apply(Run(p, events[..|events| - 1]), events[|events| - 1])
  }

  /** Once admission has stopped, whatever happens no more commands are accepted. */
  lemma {:induction false} StoppedTakesNothing(p: Protocol, events: seq<Event>)
    requires !p.accepting
    ensures !Run(p, events).accepting && Run(p, events).accepted == p.accepted
  {
    if events != [] {
      var last := |events| - 1;
      StoppedTakesNothing(p, events[..last]);
      StoppedStays(Run(p, events[..last]), events[last]);
    }
  }

  lemma StoppedStays(p: Protocol, event: Event)
    requires !p.accepting
    ensures !Apply(p, event).accepting && Apply(p, event).accepted == p.accepted
  {
    match event
    case DoService(budget, ports, guards) => ServiceOnly(p, budget, ports, guards);
    case DoFinishClose(ports, guards, releasable) => ServiceOnly(p, COMPLETED_REQUESTS, ports, guards);
    case _ =>
  }

  // ----- Records and roots over whole runs -----

  /** The backend never hands out a root that is in use when a queued create runs. */
  ghost predicate GoodBackend(p: Protocol, event: Event) {
    event.DoRunTask? && p.tasks != [] && p.tasks[0] < |p.slots| && Holds(p.slots[p.tasks[0]]) ==>
      FreshRoot(event.answers, p.host, p.slots[p.tasks[0]].command.value)
  }

  ghost predicate GoodRun(maxOperations: nat, maxRoots: nat, events: seq<Event>) {
    forall k :: 0 <= k < |events| ==> GoodBackend(History(maxOperations, maxRoots, events[..k]), events[k])
  }

  lemma MarkConsistent(p: Protocol, surface: SurfaceId)
    requires Consistent(p.host)
    ensures Consistent(MarkMounted(p, surface).host)
  {
    var r := MarkMounted(p, surface).host;
    forall root | root in r.roots ensures Held(r, root) {
      var k :| 0 <= k < |p.host.records| && p.host.records[k].Some? && p.host.records[k].value.root == root;
      assert r.records[k].Some? && r.records[k].value.root == root;
    }
  }

  lemma OthersHeld(h: Host, records: seq<Option<Record>>, i: nat, root: Root)
    requires Consistent(h) && i < |h.records| && h.records[i].Some? && records == h.records[i := None]
    requires root in h.roots && root != h.records[i].value.root
    ensures exists k :: 0 <= k < |records| && records[k].Some? && records[k].value.root == root
  {
    var k :| 0 <= k < |h.records| && h.records[k].Some? && h.records[k].value.root == root;
    assert records[k].Some? && records[k].value.root == root;
  }

  lemma ResetOne(h: Host, i: nat, releasable: SurfaceId -> bool)
    requires Consistent(h) && i < |h.records|
    ensures Consistent(ResetRecord(h, i, releasable))
  {
    var g := ResetRecord(h, i, releasable);
    if h.records[i].Some? {
      forall root | root in g.roots ensures Held(g, root) {
        OthersHeld(h, g.records, i, root);
      }
    }
  }

  /** Resetting from `i` on leaves no record from there, and records and roots in step. */
  lemma {:induction false} ResetConsistent(h: Host, i: nat, releasable: SurfaceId -> bool)
    requires Consistent(h) && i <= |h.records| && forall k :: 0 <= k < i ==> h.records[k].None?
    ensures var r := ResetFrom(h, i, releasable);
            Consistent(r) && |r.records| == |h.records| && forall k :: 0 <= k < |r.records| ==> r.records[k].None?
    decreases |h.records| - i
  {
    if i < |h.records| {
      ResetOne(h, i, releasable);
      ResetConsistent(ResetRecord(h, i, releasable), i + 1, releasable);
    }
  }

  lemma RunTaskConsistent(e: Answers, p: Protocol, port: PortAnswer)
    requires Sound(p) && Consistent(p.host) && GoodBackend(p, DoRunTask(e, port))
    ensures Consistent(RunTask(e, p, port).host)
  {
    if p.tasks != [] {
      FirstTaskQueued(p);
      var i := p.tasks[0];
      assert SlotSound(p.slots[i], p.accepted, p.fates);
      ExecuteKeepsConsistent(e, p.host, p.slots[i].command.value);
    }
  }

  lemma ApplyConsistent(p: Protocol, event: Event)
    requires Sound(p) && Consistent(p.host) && GoodBackend(p, event)
    ensures Consistent(Apply(p, event).host)
  {
    match event
    case DoPost(c, guard, queue) =>
    case DoRunTask(answers, port) => RunTaskConsistent(answers, p, port);
    case DoCancelTask =>
    case DoService(budget, ports, guards) => ServiceOnly(p, budget, ports, guards);
    case DoMarkMounted(surface) => MarkConsistent(p, surface);
    case DoClose =>
    case DoFinishClose(ports, guards, releasable) =>
      ServiceOnly(p, COMPLETED_REQUESTS, ports, guards);
      ResetConsistent(p.host, 0, releasable);
  }

  /** Over every run with such a backend: the live roots are the recorded ones, shown exactly when
      their surface is visible, and no surface is left half destroyed. */
  lemma {:induction false} HistoryIsConsistent(maxOperations: nat, maxRoots: nat, events: seq<Event>)
    requires GoodRun(maxOperations, maxRoots, events)
    ensures Consistent(History(maxOperations, maxRoots, events).host)
  {
    if events == [] {
      OpenedSound(maxOperations, maxRoots);
    } else {
      var last := |events| - 1;
      GoodPrefix(maxOperations, maxRoots, events);
      HistoryIsConsistent(maxOperations, maxRoots, events[..last]);
      HistoryIsSound(maxOperations, maxRoots, events[..last]);
      ApplyConsistent(History(maxOperations, maxRoots, events[..last]), events[last]);
    }
  }

  lemma GoodPrefix(maxOperations: nat, maxRoots: nat, events: seq<Event>)
    requires GoodRun(maxOperations, maxRoots, events) && events != []
    ensures GoodRun(maxOperations, maxRoots, events[..|events| - 1])
    ensures GoodBackend(History(maxOperations, maxRoots, events[..|events| - 1]), events[|events| - 1])
  {
    var before := events[..|events| - 1];
    forall k | 0 <= k < |before| ensures GoodBackend(History(maxOperations, maxRoots, before[..k]), before[k]) {
      assert before[..k] == events[..k];
    }
  }

  /** Finishing the close lets every root go. */
  lemma CloseLetsRootsGo(
    p: Protocol, ports: nat -> PortAnswer, guards: nat -> bool, releasable: SurfaceId -> bool)
    requires Consistent(p.host) && FinishClose(p, ports, guards, releasable).0.CloseDone?
    ensures FinishClose(p, ports, guards, releasable).1.host.roots == map[]
  {
    ServiceOnly(p, COMPLETED_REQUESTS, ports, guards);
    ResetConsistent(p.host, 0, releasable);
    NoRecordNoRoot(FinishClose(p, ports, guards, releasable).1.host);
  }

  lemma NoRecordNoRoot(h: Host)
    requires Consistent(h) && forall k :: 0 <= k < |h.records| ==> h.records[k].None?
    ensures h.roots == map[]
  {
    assert h.roots.Keys == {};
  }

  // ----- Admission -----

  ghost predicate AmongLast(finished: seq<RequestId>, request: RequestId) {
    exists j :: 0 <= j < |finished| && |finished| - j <= COMPLETED_REQUESTS && finished[j] == request
  }

  lemma CompletedAreLast(p: Protocol, request: RequestId)
    requires RingHolds(p)
    ensures Some(request) in p.completed <==> AmongLast(p.finished, request)
  {
    if Some(request) in p.completed {
      var k :| 0 <= k < COMPLETED_REQUESTS && p.completed[k] == Some(request);
      PlaceOf(k, |p.finished|);
    }
  }

  lemma PlaceAt(k: nat, m: nat)
    requires k < COMPLETED_REQUESTS
    ensures (k + COMPLETED_REQUESTS * m) % COMPLETED_REQUESTS == k
  {
  }

  /** Every place below `n` of the ring is that of one of the last sixteen positions. */
  lemma PlaceOf(k: nat, n: nat)
    requires k < COMPLETED_REQUESTS && k < n
    ensures exists j :: 0 <= j < n && n - j <= COMPLETED_REQUESTS && j % COMPLETED_REQUESTS == k
  {
    var m := (n - 1 - k) / COMPLETED_REQUESTS;
    var j := k + COMPLETED_REQUESTS * m;
    PlaceAt(k, m);
    assert 0 <= j < n && n - j <= COMPLETED_REQUESTS && j % COMPLETED_REQUESTS == k;
  }

  /** Admission takes exactly the commands that touch no surface of a command in flight, whose
      request is neither in flight nor among the last sixteen finished, while there is room. */
  lemma AdmittedExactly(p: Protocol, c: Command, guard: bool, queue: OwnerTasks.PostStatus)
    requires Sound(p)
    ensures Post(p, c, guard, queue).0.Admitted?
       <==> (&& p.accepting && !p.closed && guard && queue.Accepted?
             && (exists i :: 0 <= i < |p.slots| && p.slots[i].state.Free?)
             && (forall i :: 0 <= i < |p.slots| && !p.slots[i].state.Free? ==>
                   && !Conflicts(c, p.slots[i].command.value)
                   && p.slots[i].command.value.request != c.request)
             && !AmongLast(p.finished, c.request))
  {
    CompletedAreLast(p, c.request);
    forall i | 0 <= i < |p.slots| ensures Holds(p.slots[i]) <==> !p.slots[i].state.Free? {
      assert SlotSound(p.slots[i], p.accepted, p.fates);
    }
  }

  /** Commands waiting in the queue can be executed in either order, creations apart. */
  lemma QueuedCommute(e: Answers, p: Protocol, i: nat, j: nat)
    requires Sound(p) && Consistent(p.host) && i < |p.slots| && j < |p.slots| && i != j
    requires p.slots[i].state.Queued? && p.slots[j].state.Queued?
    requires !p.slots[i].command.value.Create? && !p.slots[j].command.value.Create?
    ensures var a, b := p.slots[i].command.value, p.slots[j].command.value;
            var ab, ba := Execute(e, Execute(e, p.host, a).0, b), Execute(e, Execute(e, p.host, b).0, a);
            ab.0 == ba.0 && ab.1 == Execute(e, p.host, b).1 && ba.1 == Execute(e, p.host, a).1
  {
    assert SlotSound(p.slots[i], p.accepted, p.fates) && SlotSound(p.slots[j], p.accepted, p.fates);
    assert SlotsApart(p.slots[i], p.slots[j]);
    CommandsCommute(e, p.host, p.slots[i].command.value, p.slots[j].command.value);
  }
}
