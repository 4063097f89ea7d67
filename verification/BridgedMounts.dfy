/** The bridge together with the mount host that it posts to: what the bridge reports against what the
    host did. */
module BridgedMounts {
  import opened Wrappers
  import opened MountModel
  import opened MountTables
  import opened MountBatches
  import opened MountConversion
  import opened MountBridges

  /** What is fixed: the native side, the longest transaction the mount host takes, and what a batch
      weighs. */
  datatype Setting = Setting(native: Native, maxOperations: nat, size: Transaction -> nat)

  datatype Joint = Joint(bridge: Bridge, host: State)

  /** The core posts a transaction. */
  function Ask(
    l: Setting, j: Joint, t: CoreTransaction, request: Option<RequestId>, attempt: AttemptId, guard: bool,
    mount: PortAnswer): Joint
  {
    match Convert(t)
    case Failure(_) => j
    case Success(batches) =>
      j.(bridge := Post(j.bridge, t.surface, Source(t.source, request), attempt, t.full, batches,
                        Weight(batches, l.size, 0), guard, mount).1)
  }

  /** The mount host executes the batch it has had longest, and tells the bridge. */
  function RunBatch(l: Setting, j: Joint, rootOk: bool, a: Answers): Joint {
    if j.bridge.flights == [] then j
    else
      var step := Execute(l.native, l.maxOperations, rootOk, j.host, j.bridge.flights[0].batch);
      Joint(MountDone(j.bridge, step.ok, a), step.s)
  }

  predicate Waits(flights: seq<Flight>, surface: SurfaceId) {
    exists k :: 0 <= k < |flights| && flights[k].batch.surface == surface
  }

  /** The mount host lets a surface go, unless a batch of it waits. */
  function LetGo(j: Joint, surface: SurfaceId): State {
    if Waits(j.bridge.flights, surface) then j.host else DestroySurface(j.host, surface)
  }

  /** One slot's turn; a rollback clears the surface at the mount host. */
  function Turn(j: Joint, k: nat, a: Answers): (r: Joint)
    requires k < |j.bridge.slots|
    ensures |r.bridge.slots| == |j.bridge.slots|
  {
    var slot := j.bridge.slots[k];
    if slot.Some? && slot.value.phase.RollbackPending? then
      Joint(ServiceSlot(j.bridge, k, a, !Waits(j.bridge.flights, slot.value.surface)), LetGo(j, slot.value.surface))
    else j.(bridge := ServiceSlot(j.bridge, k, a, false))
  }

  function Pass(j: Joint, k: nat, budget: nat, answers: nat -> Answers): Joint
    requires k <= |j.bridge.slots|
    decreases |j.bridge.slots| - k
  {
    if k == |j.bridge.slots| || budget == 0 then j
    else Pass(Turn(j, k, answers(k)), k + 1, if Serviceable(j.bridge.slots[k]) then budget - 1 else budget, answers)
  }

  datatype Act =
    | CoreAsks(t: CoreTransaction, source: Option<RequestId>, attempt: AttemptId, guard: bool, mount: PortAnswer)
    | HostRuns(rootOk: bool, a: Answers)
    | RootPresented(surface: SurfaceId, request: RequestId, presented: bool, core: bool)
    | OwnerServes(budget: nat, answers: nat -> Answers)
    | SurfaceLetGo(gone: SurfaceId)
    | Closes

  function Apply(l: Setting, j: Joint, act: Act): Joint {
    match act
    case CoreAsks(t, request, attempt, guard, mount) => Ask(l, j, t, request, attempt, guard, mount)
    case HostRuns(rootOk, a) => RunBatch(l, j, rootOk, a)
    case RootPresented(surface, request, presented, core) =>
      j.(bridge := AcceptPresented(j.bridge, surface, request, presented, core))
    case OwnerServes(budget, answers) => if j.bridge.closed then j else Pass(j, 0, budget, answers)
    case SurfaceLetGo(surface) => j.(host := LetGo(j, surface))
    case Closes => j.(bridge := j.bridge.(accepting := false, closed := true))
  }

  function Run(l: Setting, j: Joint, acts: seq<Act>): Joint {
    if acts == [] then j else Apply(l, Run(l, j, acts[..|acts| - 1]), acts[|acts| - 1])
  }

  // ----- A false report -----

  const EAGER := Answers(Taken, true, Taken, true)

  /** A page of views, one more than a batch holds. */
  const PAGE := CoreTransaction(0, "page", true, seq(257, i requires i >= 0 => CoreCreate(i, View)))

  function PageBatch(k: nat): Transaction {
    Batch(0, BoundedText("page", false), Views(257), k)
  }

  lemma {:induction false} PageConverts(n: nat)
    requires n <= 257
    ensures ConvertUpTo(PAGE.operations, n) == Success(Views(n))
  {
    if n == 0 {
      assert Views(0) == [];
    } else {
      PageConverts(n - 1);
      assert PAGE.operations[n - 1] == CoreCreate(n - 1, View);
      assert Views(n - 1) + [CreateHost(n - 1, View)] == Views(n);
    }
  }

  lemma PageBatches()
    ensures BatchCount(257) == 2
    ensures PageBatch(0) == Transaction(0, BoundedText("page", false), true, Views(256), 0, 2, false)
    ensures PageBatch(1) == Transaction(0, BoundedText("page", false), false, [CreateHost(256, View)], 1, 2, true)
    ensures Split(0, BoundedText("page", false), Views(257)) == [PageBatch(0), PageBatch(1)]
  {
    assert Views(257)[0..256] == Views(256);
    assert Views(257)[256..257] == [CreateHost(256, View)];
    assert |Views(257)| == 257;
    assert Split(0, BoundedText("page", false), Views(257))[0] == PageBatch(0);
    assert Split(0, BoundedText("page", false), Views(257))[1] == PageBatch(1);
  }

  lemma PageSplits()
    ensures Convert(PAGE) == Success([PageBatch(0), PageBatch(1)])
  {
    PageConverts(257);
    PageBatches();
    var operations := PAGE.operations;
    assert |operations| == 257 && operations != [];
    assert Bounded("page") == BoundedText("page", false);
    assert ConvertText(PAGE.source) == Success(BoundedText("page", false));
    assert ConvertUpTo(operations, |operations|) == Success(Views(257));
    assert Convert(PAGE) == Success(Split(0, BoundedText("page", false), Views(257)));
  }

  /** On a host with too few places the first batch fails. */
  lemma FirstBatchFails(maxOperations: nat, places: nat)
    requires 0 < places < 256
    ensures var step := Execute(WILLING, maxOperations, true, Unmounted(places), PageBatch(0));
            && !step.ok && Tables(step.s) && |step.s.slots| == places
            && forall i :: 0 <= i < places ==> step.s.slots[i].None?
  {
    var s := Unmounted(places);
    PageBatches();
    NoHolders(s.slots);
    UnmountedDestroyed(places, places);
    TooManyViews(places, 256);
    ExecuteKeepsTables(WILLING, maxOperations, true, s, PageBatch(0));
    FailureLeavesNothing(WILLING, maxOperations, true, s, PageBatch(0));
  }

  /** The second is mounted on what that leaves. */
  lemma SecondBatchMounts(maxOperations: nat, s: State)
    requires maxOperations > 0 && Tables(s) && s.slots != [] && forall i :: 0 <= i < |s.slots| ==> s.slots[i].None?
    ensures var step := Execute(WILLING, maxOperations, true, s, PageBatch(1));
            && step.ok && FindSlot(step.s.slots, 0, 256).Some?
            && forall node: NodeId :: node != 256 ==> FindSlot(step.s.slots, 0, node).None?
  {
    PageBatches();
    var t := PageBatch(1);
    assert FindSlot(s.slots, 0, 256).None? && FreeFrom(s.slots, 0) == Some(0);
    assert OperationOk(s.slots, s.forest, t, 0);
    assert Preflight(maxOperations, s.slots, s.forest, t);
    assert CommitUpTo(WILLING, s, 0, false, t.operations, 0) == Step(true, s);
    var done := CommitUpTo(WILLING, s, 0, false, t.operations, 1);
    assert done == Commit(WILLING, s, 0, false, CreateHost(256, View));
    assert done.s.slots == s.slots[0 := Some(Slot(0, 256, View, Host(0, s.forest.clock), false, None))];
  }

  const PAGE_SOURCE := Source("page", Some(7))

  /** The page in the first slot, as far as it has come. */
  function OneSlot(
    bytes: nat, next: nat, active: nat, activeFinal: bool, phase: Phase, flights: seq<Flight>, mounted: seq<nat>)
    : Bridge
  {
    Opened(true).(
      slots := Opened(true).slots[0 := Some(Pending(0, PAGE_SOURCE, 0, [PageBatch(0), PageBatch(1)], bytes, true, next,
                                                    active, activeFinal, phase, false, 0))],
      retained := bytes, flights := flights, records := [Record(true, 2, mounted, false, [])])
  }

  function PageFlight(k: nat): Flight {
    Flight(0, PAGE_SOURCE, 0, PageBatch(k), 0)
  }

  function Posted(bytes: nat): Bridge {
    OneSlot(bytes, 1, 0, false, MountPending, [PageFlight(0)], [])
  }

  function BothPosted(bytes: nat): Bridge {
    OneSlot(bytes, 2, 1, true, MountPending, [PageFlight(0), PageFlight(1)], [])
  }

  function FirstGone(bytes: nat): Bridge {
    OneSlot(bytes, 2, 1, true, MountPending, [PageFlight(1)], [])
  }

  function BothGone(bytes: nat): Bridge {
    OneSlot(bytes, 2, 1, true, PresentPosted, [], [1])
  }

  lemma {:induction false} NothingHeld(slots: seq<Option<Pending>>)
    requires forall i :: 0 <= i < |slots| ==> slots[i].None?
    ensures Held(slots) == 0
  {
    if slots != [] {
      NothingHeld(slots[..|slots| - 1]);
    }
  }

  lemma PagePosted(bytes: nat)
    requires bytes <= MAX_RETAINED_BYTES
    ensures Post(Opened(true), 0, PAGE_SOURCE, 0, true, [PageBatch(0), PageBatch(1)], bytes, true, Taken).1
         == Posted(bytes)
  {
    var batches := [PageBatch(0), PageBatch(1)];
    assert FreeSlot(Opened(true).slots, 0) == Some(0);
    NothingHeld(Opened(true).slots);
    PageBatches();
    var admitted := Admit(Opened(true), 0, 0, PAGE_SOURCE, 0, true, batches, bytes);
    assert PostBatch(admitted, 0, Taken).flights == [PageFlight(0)];
    assert PostBatch(admitted, 0, Taken).slots == Posted(bytes).slots;
    assert PostBatch(admitted, 0, Taken).records == Posted(bytes).records;
  }

  lemma PageServed(bytes: nat, host: State)
    ensures Pass(Joint(Posted(bytes), host), 0, 1, k => EAGER) == Joint(BothPosted(bytes), host)
  {
    PageBatches();
    var c := ServiceSlot(Posted(bytes), 0, EAGER, false);
    assert c.flights == [PageFlight(0), PageFlight(1)];
    assert c.slots == BothPosted(bytes).slots;
    assert Turn(Joint(Posted(bytes), host), 0, EAGER) == Joint(BothPosted(bytes), host);
  }

  /** The failure goes unheard: the slot waits for its second batch by now. */
  lemma PageFailed(bytes: nat)
    ensures MountDone(BothPosted(bytes), false, EAGER) == FirstGone(bytes)
  {
    PageBatches();
    var b := BothPosted(bytes);
    assert b.flights[1..] == [PageFlight(1)];
    assert Find(b.(flights := [PageFlight(1)]), PageFlight(0), 0) == Some(0);
  }

  lemma PageLanded(bytes: nat)
    ensures MountDone(FirstGone(bytes), true, EAGER) == BothGone(bytes)
  {
    PageBatches();
    var b := FirstGone(bytes);
    var noted := OneSlot(bytes, 2, 1, true, MountPending, [], [1]);
    assert b.flights[1..] == [] && [] + [1] == [1];
    assert Find(noted, PageFlight(1), 0) == Some(0);
    var pending := Set(noted, 0, noted.slots[0].value.(phase := PresentPending));
    assert TryPresent(pending, 0, Taken, true).slots == BothGone(bytes).slots;
  }

  lemma PagePresented(bytes: nat)
    ensures AcceptPresented(BothGone(bytes), 0, 7, true, true).records == [Record(true, 2, [1], true, [true])]
  {
    assert FindPresented(BothGone(bytes), 0, 7, 0) == Some(0);
    assert [] + [true] == [true];
  }

  const FALSE_RUN := [
    CoreAsks(PAGE, Some(7), 0, true, Taken), OwnerServes(1, k => EAGER), HostRuns(true, EAGER), HostRuns(true, EAGER),
    RootPresented(0, 7, true, true)]

  lemma RunOne(l: Setting, start: Joint, n: nat, before: Joint, after: Joint)
    requires n < 5 && Run(l, start, FALSE_RUN[..n]) == before && Apply(l, before, FALSE_RUN[n]) == after
    ensures Run(l, start, FALSE_RUN[..n + 1]) == after
  {
    assert FALSE_RUN[..n + 1][..n] == FALSE_RUN[..n];
  }

  lemma RunFive(l: Setting, start: Joint, a: Joint, b: Joint, c: Joint, d: Joint, e: Joint)
    requires Apply(l, start, FALSE_RUN[0]) == a && Apply(l, a, FALSE_RUN[1]) == b && Apply(l, b, FALSE_RUN[2]) == c
    requires Apply(l, c, FALSE_RUN[3]) == d && Apply(l, d, FALSE_RUN[4]) == e
    ensures Run(l, start, FALSE_RUN) == e
  {
    assert Run(l, start, FALSE_RUN[..0]) == start;
    RunOne(l, start, 0, start, a);
    RunOne(l, start, 1, a, b);
    RunOne(l, start, 2, b, c);
    RunOne(l, start, 3, c, d);
    RunOne(l, start, 4, d, e);
    assert FALSE_RUN[..5] == FALSE_RUN;
  }

  lemma AsksAndServes(l: Setting, host: State, bytes: nat)
    requires bytes == Weight([PageBatch(0), PageBatch(1)], l.size, 0) <= MAX_RETAINED_BYTES
    ensures Apply(l, Joint(Opened(true), host), FALSE_RUN[0]) == Joint(Posted(bytes), host)
    ensures Apply(l, Joint(Posted(bytes), host), FALSE_RUN[1]) == Joint(BothPosted(bytes), host)
  {
    PageSplits();
    PagePosted(bytes);
    PageServed(bytes, host);
  }

  lemma HostFails(l: Setting, bytes: nat, s: State, t: State)
    requires Execute(l.native, l.maxOperations, true, s, PageBatch(0)) == Step(false, t)
    ensures Apply(l, Joint(BothPosted(bytes), s), FALSE_RUN[2]) == Joint(FirstGone(bytes), t)
  {
    PageFailed(bytes);
  }

  lemma HostMounts(l: Setting, bytes: nat, s: State, t: State)
    requires Execute(l.native, l.maxOperations, true, s, PageBatch(1)) == Step(true, t)
    ensures Apply(l, Joint(FirstGone(bytes), s), FALSE_RUN[3]) == Joint(BothGone(bytes), t)
  {
    PageLanded(bytes);
  }

  /** A core full mount of 257 views on a mount host with too few places for the first batch, serviced
      once while that batch is with the mount host: the batch fails and is rolled back, the second is
      mounted on the emptied surface and presented, and the mount is reported to have taken place. On
      the host there is the last view and nothing else of the page. */
  lemma CarelessServiceLies(l: Setting, places: nat)
    requires l.native == WILLING && l.maxOperations > 0 && 0 < places < 256
    requires Weight([PageBatch(0), PageBatch(1)], l.size, 0) <= MAX_RETAINED_BYTES
    ensures var j := Run(l, Joint(Opened(true), Unmounted(places)), FALSE_RUN);
            && j.bridge.records == [Record(true, 2, [1], true, [true])]
            && forall node: NodeId :: FindSlot(j.host.slots, 0, node).Some? <==> node == 256
  {
    var bytes := Weight([PageBatch(0), PageBatch(1)], l.size, 0);
    var s0 := Unmounted(places);
    var s1 := Execute(WILLING, l.maxOperations, true, s0, PageBatch(0)).s;
    var s2 := Execute(WILLING, l.maxOperations, true, s1, PageBatch(1)).s;
    FirstBatchFails(l.maxOperations, places);
    SecondBatchMounts(l.maxOperations, s1);
    AsksAndServes(l, s0, bytes);
    HostFails(l, bytes, s0, s1);
    HostMounts(l, bytes, s1, s2);
    PagePresented(bytes);
    RunFive(l, Joint(Opened(true), s0), Joint(Posted(bytes), s0), Joint(BothPosted(bytes), s0),
            Joint(FirstGone(bytes), s1), Joint(BothGone(bytes), s2),
            Joint(AcceptPresented(BothGone(bytes), 0, 7, true, true), s2));
  }
}
