/** How the mount host takes transactions: each waits in a slot for its owner task, runs once, and is
    answered before its slot is free again. */
module MountPools {
  import opened Wrappers
  import opened MountModel
  import opened MountTables
  import opened MountHandlers
  import opened MountBatches
  import OwnerTasks

  /** What is fixed: the native side, how long and heavy a transaction may be, and how many may wait. */
  datatype Limits = Limits(native: Native, maxOperations: nat, maxBytes: nat, maxDepth: nat, size: Transaction -> nat)

  /** `ticket` numbers the accepted transaction. */
  datatype Waiting = Waiting(transaction: Transaction, ticket: nat)

  /** What became of an accepted transaction whose task has left the owner queue: it ran, with or
      without a root to mount under, or its task was dropped. */
  datatype Fate = Ran(rootOk: bool, mounted: bool) | Dropped

  /** `tasks` are the slots of the pending owner tasks in order, `running` that of the task that runs,
      `lost` those of dropped tasks; `accepted` and `fates` are history. */
  datatype Pool = Pool(
    host: State, slots: seq<Option<Waiting>>, tasks: seq<nat>, running: Option<nat>, lost: set<nat>,
    accepting: bool, closed: bool, accepted: seq<Transaction>, fates: seq<Fate>)

  datatype Answer = Posted | HostClosed | AdmissionBusy | CapacityFull | TooLarge | DepthReached | QueueRefused

  function EmptyHost(maxObjects: nat, maxFonts: nat): State {
    State(seq(maxObjects, i => None), seq(maxFonts, i => NO_FONT), Forest(map[], map[], 0), NoBindings())
  }

  function Opened(host: State, maxTransactions: nat, accepting: bool): Pool {
    Pool(host, seq(maxTransactions, i => None), [], None, {}, accepting, false, [], [])
  }

  // ----- Posting -----

  function FreePlace(slots: seq<Option<Waiting>>, i: nat): (r: Option<nat>)
    requires i <= |slots|
    ensures r.Some? ==> i <= r.value < |slots| && slots[r.value].None?
    decreases |slots| - i
  {
    if i == |slots| then None else if slots[i].None? then Some(i) else FreePlace(slots, i + 1)
  }

  function Weight(slot: Option<Waiting>): nat {
    if slot.Some? then 1 else 0
  }

  /** How many slots are occupied. */
  function Occupied(slots: seq<Option<Waiting>>): nat {
    if slots == [] then 0 else Occupied(slots[..|slots| - 1]) + Weight(slots[|slots| - 1])
  }

  function Admit(p: Pool, t: Transaction, i: nat): Pool
    requires i < |p.slots|
  {
    p.(slots := p.slots[i := Some(Waiting(t, |p.accepted|))], tasks := p.tasks + [i], accepted := p.accepted + [t])
  }

  /** `guard` says whether the admission lock was free, `queue` what the owner queue answered. */
  function Post(l: Limits, p: Pool, t: Transaction, guard: bool, queue: OwnerTasks.PostStatus): (Answer, Pool) {
    var free := FreePlace(p.slots, 0);
    if !p.accepting || p.closed then (HostClosed, p)
    else if !guard then (AdmissionBusy, p)
    else if free.None? then (CapacityFull, p)
    else if l.size(t) > l.maxBytes then (TooLarge, p)
    else if Occupied(p.slots) >= l.maxDepth then (DepthReached, p)
    else if !queue.Accepted? then (QueueRefused, p)
    else (Posted, Admit(p, t, free.value))
  }

  // ----- Running -----

  datatype Offer = Offer(transaction: Transaction, guard: bool, queue: OwnerTasks.PostStatus)

  /** Whoever is told a result may post on the spot. */
  function PostAll(l: Limits, p: Pool, offers: seq<Offer>): Pool
    decreases |offers|
  {
    if offers == [] then p
    else PostAll(l, Post(l, p, offers[0].transaction, offers[0].guard, offers[0].queue).1, offers[1..])
  }

  /** The first task leaves the queue and its transaction is executed. */
  function Started(l: Limits, p: Pool, rootOk: bool): Pool
    requires p.tasks != []
  {
    var i := p.tasks[0];
    var popped := p.(tasks := p.tasks[1..]);
    if i >= |p.slots| || p.slots[i].None? then popped
    else
      var step := Execute(l.native, l.maxOperations, rootOk, p.host, p.slots[i].value.transaction);
      popped.(host := step.s, running := Some(i), fates := p.fates + [Ran(rootOk, step.ok)])
  }

  /** The slot of the transaction that ran is freed. */
  function Freed(p: Pool): Pool {
    if p.running.None? || p.running.value >= |p.slots| then p.(running := None)
    else p.(slots := p.slots[p.running.value := None], running := None)
  }

  function RunTask(l: Limits, p: Pool, rootOk: bool, offers: seq<Offer>): Pool {
    if p.tasks == [] then p
    else if p.tasks[0] >= |p.slots| || p.slots[p.tasks[0]].None? then p.(tasks := p.tasks[1..])
    else Freed(PostAll(l, Started(l, p, rootOk), offers))
  }

  /** The owner queue drops the first task without running it. */
  function DropTask(p: Pool): Pool {
    if p.tasks == [] then p
    else p.(tasks := p.tasks[1..], lost := p.lost + {p.tasks[0]}, fates := p.fates + [Dropped])
  }

  // ----- Releasing and closing -----

  predicate WaitsFor(slot: Option<Waiting>, surface: SurfaceId) {
    slot.Some? && slot.value.transaction.surface == surface
  }

  predicate SurfaceWaits(slots: seq<Option<Waiting>>, surface: SurfaceId) {
    exists i :: 0 <= i < |slots| && WaitsFor(slots[i], surface)
  }

  function Release(p: Pool, surface: SurfaceId): (bool, Pool) {
    if SurfaceWaits(p.slots, surface) then (false, p) else (true, p.(host := DestroySurface(p.host, surface)))
  }

  function DestroyAllBelow(s: State, n: nat): (r: State)
    requires n <= |s.slots|
    ensures |r.slots| == |s.slots| && |r.fonts| == |s.fonts|
    decreases n
  {
    if n == 0 then s else DestroyAllBelow(DestroySlot(s, n - 1), n - 1)
  }

  function WithoutFonts(s: State): State {
    s.(fonts := seq(|s.fonts|, i => NO_FONT))
  }

  /** Every object and every font goes. */
  function Emptied(s: State): State {
    WithoutFonts(DestroyAllBelow(s, |s.slots|))
  }

  function FinishClose(p: Pool): (bool, Pool) {
    if p.accepting || Occupied(p.slots) != 0 then (false, p)
    else (true, p.(host := Emptied(p.host), closed := true))
  }

  // ----- Whole runs -----

  datatype Event =
    | DoPost(offer: Offer)
    | DoRunTask(rootOk: bool, offers: seq<Offer>)
    | DoDropTask
    | DoInstall(handler: HandlerKind, binding: Binding)
    | DoRelease(surface: SurfaceId)
    | DoClose
    | DoFinishClose

  function Apply(l: Limits, p: Pool, event: Event): Pool {
    match event
    case DoPost(offer) => Post(l, p, offer.transaction, offer.guard, offer.queue).1
    case DoRunTask(rootOk, offers) => RunTask(l, p, rootOk, offers)
    case DoDropTask => DropTask(p)
    case DoInstall(handler, binding) => p.(host := Install(p.host, handler, binding).s)
    case DoRelease(surface) => Release(p, surface).1
    case DoClose => p.(accepting := false)
    case DoFinishClose => FinishClose(p).1
  }

  /** From any state on. */
  function Run(l: Limits, p: Pool, events: seq<Event>): Pool {
    if events == [] then p else Apply(l, Run(l, p, events[..|events| - 1]), events[|events| - 1])
  }

  // ----- What every run keeps -----

  ghost predicate HostOk(s: State) {
    Tables(s) && OneBindingPerNode(s.bindings)
  }

  /** The pending tasks are those of the transactions accepted last, in the order of acceptance. */
  ghost predicate TasksInOrder(p: Pool) {
    && |p.accepted| == |p.fates| + |p.tasks|
    && forall k :: 0 <= k < |p.tasks| ==>
         && p.tasks[k] < |p.slots|
         && p.slots[p.tasks[k]] == Some(Waiting(p.accepted[|p.fates| + k], |p.fates| + k))
  }

  /** A slot is occupied by a pending, a running or a dropped task, by one of them only. */
  ghost predicate SlotsMatch(p: Pool) {
    && (forall i :: 0 <= i < |p.slots| && p.slots[i].Some? ==> i in p.tasks || i in p.lost || p.running == Some(i))
    && (forall i :: i in p.lost ==> i < |p.slots| && p.slots[i].Some? && i !in p.tasks && p.running != Some(i))
    && (p.running.Some? ==>
          p.running.value < |p.slots| && p.slots[p.running.value].Some? && p.running.value !in p.tasks)
  }

  ghost predicate Sound(l: Limits, p: Pool) {
    && TasksInOrder(p) && SlotsMatch(p) && Occupied(p.slots) <= l.maxDepth
    && (p.lost == {} <==> Dropped !in p.fates)
    && (p.closed ==> !p.accepting && Occupied(p.slots) == 0)
  }

  lemma {:induction false} OccupiedUpdate(slots: seq<Option<Waiting>>, i: nat, slot: Option<Waiting>)
    requires i < |slots|
    ensures Occupied(slots[i := slot]) == Occupied(slots) - Weight(slots[i]) + Weight(slot)
  {
    var n := |slots| - 1;
    if i == n {
      assert slots[i := slot][..n] == slots[..n];
    } else {
      assert slots[i := slot][..n] == slots[..n][i := slot];
      OccupiedUpdate(slots[..n], i, slot);
    }
  }

  lemma {:induction false} NoneOccupied(slots: seq<Option<Waiting>>)
    ensures Occupied(slots) == 0 <==> forall i :: 0 <= i < |slots| ==> slots[i].None?
  {
    if slots != [] {
      NoneOccupied(slots[..|slots| - 1]);
    }
  }

  lemma OpenedSound(l: Limits, host: State, maxTransactions: nat, accepting: bool)
    ensures Sound(l, Opened(host, maxTransactions, accepting))
  {
    NoneOccupied(Opened(host, maxTransactions, accepting).slots);
  }

  lemma EmptyHostOk(maxObjects: nat, maxFonts: nat)
    ensures HostOk(EmptyHost(maxObjects, maxFonts))
  {
    NoHolders(EmptyHost(maxObjects, maxFonts).slots);
  }

  /** Posting leaves the running task and the host alone. */
  lemma {:induction false} PostAllLeaves(l: Limits, p: Pool, offers: seq<Offer>)
    ensures var r := PostAll(l, p, offers); r.running == p.running && |r.slots| == |p.slots| && r.host == p.host
    decreases |offers|
  {
    if offers != [] {
      PostAllLeaves(l, Post(l, p, offers[0].transaction, offers[0].guard, offers[0].queue).1, offers[1..]);
    }
  }

  lemma AdmitKeeps(l: Limits, p: Pool, t: Transaction, i: nat)
    requires Sound(l, p) && !p.closed && i < |p.slots| && p.slots[i].None? && Occupied(p.slots) < l.maxDepth
    ensures Sound(l, Admit(p, t, i))
  {
    OccupiedUpdate(p.slots, i, Admit(p, t, i).slots[i]);
    forall k | 0 <= k < |p.tasks| ensures p.tasks[k] != i {
    }
  }

  lemma PostKeeps(l: Limits, p: Pool, t: Transaction, guard: bool, queue: OwnerTasks.PostStatus)
    requires Sound(l, p)
    ensures var r := Post(l, p, t, guard, queue).1;
            Sound(l, r) && r.host == p.host && r.running == p.running && r.fates == p.fates
  {
    if Post(l, p, t, guard, queue).0.Posted? {
      AdmitKeeps(l, p, t, FreePlace(p.slots, 0).value);
    }
  }

  /** The occupied places of the pool. */
  function TakenPlaces(slots: seq<Option<Waiting>>): set<nat> {
    set i: nat | i < |slots| && slots[i].Some?
  }

  lemma {:induction false} OccupiedCounts(slots: seq<Option<Waiting>>)
    ensures Occupied(slots) == |TakenPlaces(slots)|
  {
    if slots != [] {
      var n: nat := |slots| - 1;
      OccupiedCounts(slots[..n]);
      assert TakenPlaces(slots) == TakenPlaces(slots[..n]) + if slots[n].Some? then {n} else {};
    }
  }

  lemma {:induction false} NoFreePlace(slots: seq<Option<Waiting>>, i: nat)
    requires i <= |slots|
    ensures FreePlace(slots, i).None? ==> forall k :: i <= k < |slots| ==> slots[k].Some?
    decreases |slots| - i
  {
    if i < |slots| {
      NoFreePlace(slots, i + 1);
    }
  }

  /** A post is taken on exactly if the host accepts, the lock is free, a place is free, fewer than may
      wait, this transaction is not too large and the owner queue takes its task; then it waits alone in
      a place that was free. A refused one changes nothing. */
  lemma PostMeans(l: Limits, p: Pool, t: Transaction, guard: bool, queue: OwnerTasks.PostStatus)
    ensures var (answer, r) := Post(l, p, t, guard, queue);
            && (answer.Posted?
                <==> p.accepting && !p.closed && guard && None in p.slots && |TakenPlaces(p.slots)| < l.maxDepth
                     && l.size(t) <= l.maxBytes && queue.Accepted?)
            && (answer.Posted? ==>
                  exists i :: 0 <= i < |p.slots| && p.slots[i].None?
                    && r.slots == p.slots[i := Some(Waiting(t, |p.accepted|))] && r.tasks == p.tasks + [i])
            && (answer.HostClosed? <==> !p.accepting || p.closed)
            && (!answer.Posted? ==> r == p)
  {
    OccupiedCounts(p.slots);
    NoFreePlace(p.slots, 0);
  }

  lemma {:induction false} PostAllKeeps(l: Limits, p: Pool, offers: seq<Offer>)
    requires Sound(l, p)
    ensures var r := PostAll(l, p, offers);
            Sound(l, r) && r.host == p.host && r.running == p.running && r.fates == p.fates
    decreases |offers|
  {
    if offers != [] {
      PostKeeps(l, p, offers[0].transaction, offers[0].guard, offers[0].queue);
      PostAllKeeps(l, Post(l, p, offers[0].transaction, offers[0].guard, offers[0].queue).1, offers[1..]);
    }
  }

  /** Tasks in order are tasks of different slots. */
  lemma TasksApart(p: Pool, j: nat, k: nat)
    requires TasksInOrder(p) && j < k < |p.tasks|
    ensures p.tasks[j] != p.tasks[k]
  {
  }

  lemma FirstLeaves(p: Pool)
    requires TasksInOrder(p) && p.tasks != []
    ensures p.tasks[0] !in p.tasks[1..]
    ensures forall i :: i in p.tasks ==> i == p.tasks[0] || i in p.tasks[1..]
  {
    forall k | 1 <= k < |p.tasks| ensures p.tasks[k] != p.tasks[0] {
      TasksApart(p, 0, k);
    }
  }

  /** The first task leaves the queue to run, and leaves its fate. */
  function Leaves(p: Pool, host: State, fate: Fate): Pool
    requires p.tasks != []
  {
    p.(host := host, tasks := p.tasks[1..], running := Some(p.tasks[0]), fates := p.fates + [fate])
  }

  lemma LeavesKeeps(l: Limits, p: Pool, host: State, fate: Fate)
    requires Sound(l, p) && p.running.None? && p.tasks != [] && fate.Ran?
    ensures Sound(l, Leaves(p, host, fate))
  {
    FirstLeaves(p);
    OccupiedHas(p.slots, p.tasks[0]);
    var r := Leaves(p, host, fate);
    assert TasksInOrder(r);
    assert SlotsMatch(r);
  }

  lemma StartedKeeps(l: Limits, p: Pool, rootOk: bool)
    requires Sound(l, p) && p.running.None? && p.tasks != []
    ensures var step := Execute(l.native, l.maxOperations, rootOk, p.host, p.accepted[|p.fates|]);
            Started(l, p, rootOk) == Leaves(p, step.s, Ran(rootOk, step.ok)) && Sound(l, Started(l, p, rootOk))
  {
    var step := Execute(l.native, l.maxOperations, rootOk, p.host, p.accepted[|p.fates|]);
    LeavesKeeps(l, p, step.s, Ran(rootOk, step.ok));
  }

  lemma OccupiedHas(slots: seq<Option<Waiting>>, i: nat)
    requires i < |slots| && slots[i].Some?
    ensures Occupied(slots) != 0
  {
    NoneOccupied(slots);
  }

  lemma FreedKeeps(l: Limits, p: Pool)
    requires Sound(l, p)
    ensures Sound(l, Freed(p)) && Freed(p).running.None?
  {
    if p.running.Some? {
      OccupiedUpdate(p.slots, p.running.value, None);
    }
  }

  lemma RunTaskKeeps(l: Limits, p: Pool, rootOk: bool, offers: seq<Offer>)
    requires Sound(l, p) && p.running.None?
    ensures Sound(l, RunTask(l, p, rootOk, offers)) && RunTask(l, p, rootOk, offers).running.None?
  {
    if p.tasks != [] {
      StartedKeeps(l, p, rootOk);
      PostAllKeeps(l, Started(l, p, rootOk), offers);
      FreedKeeps(l, PostAll(l, Started(l, p, rootOk), offers));
    }
  }

  lemma DropMatches(p: Pool)
    requires TasksInOrder(p) && SlotsMatch(p) && p.running.None? && p.tasks != []
    ensures TasksInOrder(DropTask(p)) && SlotsMatch(DropTask(p))
  {
    FirstLeaves(p);
  }

  lemma DropKeeps(l: Limits, p: Pool)
    requires Sound(l, p) && p.running.None?
    ensures Sound(l, DropTask(p))
  {
    if p.tasks != [] {
      OccupiedHas(p.slots, p.tasks[0]);
      DropMatches(p);
      assert p.tasks[0] in DropTask(p).lost;
    }
  }

  /** The host changes, or the end comes nearer. */
  lemma OtherwiseKeeps(l: Limits, p: Pool, r: Pool)
    requires Sound(l, p) && r == p.(host := r.host, accepting := r.accepting, closed := r.closed)
    requires r.closed ==> !r.accepting && Occupied(p.slots) == 0
    ensures Sound(l, r)
  {
  }

  lemma ApplyKeeps(l: Limits, p: Pool, event: Event)
    requires Sound(l, p) && p.running.None?
    ensures Sound(l, Apply(l, p, event)) && Apply(l, p, event).running.None?
  {
    match event
    case DoPost(offer) => PostKeeps(l, p, offer.transaction, offer.guard, offer.queue);
    case DoRunTask(rootOk, offers) => RunTaskKeeps(l, p, rootOk, offers);
    case DoDropTask => DropKeeps(l, p);
    case _ => OtherwiseKeeps(l, p, Apply(l, p, event));
  }

  /** Over every run: accepted transactions leave the owner queue one by one in the order they were
      accepted, each once; those that have not left wait in slots of their own, no more of them than
      the depth allows. */
  lemma {:induction false} RunIsSound(l: Limits, p: Pool, events: seq<Event>)
    requires Sound(l, p) && p.running.None?
    ensures Sound(l, Run(l, p, events)) && Run(l, p, events).running.None?
  {
    if events != [] {
      RunIsSound(l, p, events[..|events| - 1]);
      ApplyKeeps(l, Run(l, p, events[..|events| - 1]), events[|events| - 1]);
    }
  }

  // ----- The tables over whole runs -----

  ghost predicate NoneFrom(slots: Slots, n: nat) {
    forall k :: n <= k < |slots| ==> slots[k].None?
  }

  lemma {:induction false} DestroyAllKeeps(s: State, n: nat)
    requires HostOk(s) && n <= |s.slots| && NoneFrom(s.slots, n)
    ensures HostOk(DestroyAllBelow(s, n)) && NoneFrom(DestroyAllBelow(s, n).slots, 0)
    decreases n
  {
    if n > 0 {
      DestroySlotKeeps(s, n - 1);
      DestroySlotKeepsOneBinding(s, n - 1);
      DestroyedFrom(s, n);
      DestroyAllKeeps(DestroySlot(s, n - 1), n - 1);
    }
  }

  lemma DestroyedFrom(s: State, n: nat)
    requires Tables(s) && 0 < n <= |s.slots| && NoneFrom(s.slots, n)
    ensures NoneFrom(DestroySlot(s, n - 1).slots, n - 1)
  {
    if s.slots[n - 1].Some? {
      DestroySlotSlots(s, n - 1);
    }
  }

  /** A closed host holds nothing: no slot, no binding, no font. */
  ghost predicate HoldsNothing(s: State) {
    && NoneFrom(s.slots, 0) && NoneBound(s.bindings)
    && (forall f :: 0 <= f < |s.fonts| ==> s.fonts[f] == NO_FONT)
  }

  ghost predicate NoneBound(bindings: Bindings) {
    forall kind, k :: kind in bindings && 0 <= k < |bindings[kind]| ==> bindings[kind][k].None?
  }

  lemma EmptiedHoldsNothing(s: State)
    requires HostOk(s)
    ensures HostOk(Emptied(s)) && HoldsNothing(Emptied(s))
  {
    DestroyAllKeeps(s, |s.slots|);
    NoHolders(DestroyAllBelow(s, |s.slots|).slots);
    NamelessUnbound(Emptied(s));
  }

  lemma NamelessUnbound(s: State)
    requires BindingsNameSlots(s.slots, s.bindings) && NoneFrom(s.slots, 0)
    ensures NoneBound(s.bindings)
  {
    forall kind, k | kind in s.bindings && 0 <= k < |s.bindings[kind]| ensures s.bindings[kind][k].None? {
      if s.bindings[kind][k].Some? {
        assert false;
      }
    }
  }

  lemma ExecuteHostOk(l: Limits, rootOk: bool, s: State, t: Transaction)
    requires HostOk(s)
    ensures HostOk(Execute(l.native, l.maxOperations, rootOk, s, t).s)
  {
    ExecuteKeepsTables(l.native, l.maxOperations, rootOk, s, t);
    ExecuteKeepsOneBinding(l.native, l.maxOperations, rootOk, s, t);
  }

  lemma RunTaskHostOk(l: Limits, p: Pool, rootOk: bool, offers: seq<Offer>)
    requires Sound(l, p) && p.running.None? && HostOk(p.host) && p.tasks != []
    ensures HostOk(RunTask(l, p, rootOk, offers).host)
  {
    ExecuteHostOk(l, rootOk, p.host, p.accepted[|p.fates|]);
    StartedKeeps(l, p, rootOk);
    PostAllKeeps(l, Started(l, p, rootOk), offers);
  }

  lemma ApplyHostOk(l: Limits, p: Pool, event: Event)
    requires Sound(l, p) && p.running.None? && HostOk(p.host)
    ensures HostOk(Apply(l, p, event).host)
  {
    match event
    case DoPost(offer) => PostKeeps(l, p, offer.transaction, offer.guard, offer.queue);
    case DoRunTask(rootOk, offers) =>
      if p.tasks != [] {
        RunTaskHostOk(l, p, rootOk, offers);
      }
    case DoDropTask =>
    case DoInstall(handler, binding) => InstallKeeps(p.host, handler, binding);
    case DoRelease(surface) =>
      DestroySurfaceClears(p.host, surface);
      DestroyKeepsOneBinding(p.host, surface);
    case DoClose =>
    case DoFinishClose => EmptiedHoldsNothing(p.host);
  }

  /** Over every run of transactions, handlers, releases and the close, the tables agree. */
  lemma {:induction false} RunKeepsTables(l: Limits, p: Pool, events: seq<Event>)
    requires Sound(l, p) && p.running.None? && HostOk(p.host)
    ensures HostOk(Run(l, p, events).host)
  {
    if events != [] {
      RunKeepsTables(l, p, events[..|events| - 1]);
      RunIsSound(l, p, events[..|events| - 1]);
      ApplyHostOk(l, Run(l, p, events[..|events| - 1]), events[|events| - 1]);
    }
  }

  // ----- Releasing and closing -----

  /** A surface is released exactly when none of its transactions waits or runs, and then nothing of
      it is left. */
  lemma ReleaseClears(p: Pool, surface: SurfaceId)
    requires HostOk(p.host)
    ensures Release(p, surface).0 <==> forall i :: 0 <= i < |p.slots| && p.slots[i].Some? ==>
                                         p.slots[i].value.transaction.surface != surface
    ensures Release(p, surface).0 ==>
              var after := Release(p, surface).1.host;
              NoSlotOf(after.slots, surface) && NoBindingOf(after.bindings, surface)
              && SameElsewhere(p.host.slots, after.slots, surface)
  {
    DestroySurfaceClears(p.host, surface);
    if !Release(p, surface).0 {
      var i :| 0 <= i < |p.slots| && WaitsFor(p.slots[i], surface);
      assert p.slots[i].value.transaction.surface == surface;
    } else {
      forall i | 0 <= i < |p.slots| && p.slots[i].Some? ensures p.slots[i].value.transaction.surface != surface {
        assert !WaitsFor(p.slots[i], surface);
      }
    }
  }

  lemma IdleIffAllRan(l: Limits, p: Pool)
    requires Sound(l, p) && p.running.None?
    ensures Occupied(p.slots) == 0 <==> p.tasks == [] && Dropped !in p.fates
  {
    NoneOccupied(p.slots);
    if p.tasks != [] {
      assert p.slots[p.tasks[0]].Some?;
    }
    if i: nat :| i in p.lost {
      assert p.slots[i].Some?;
    }
  }

  /** The close finishes exactly when the host takes nothing more and every transaction it ever
      accepted has run: a task that the owner queue dropped keeps its slot, and the close, busy for
      ever. A closed host holds nothing. */
  lemma CloseFinishesIff(l: Limits, p: Pool, events: seq<Event>)
    requires Sound(l, p) && p.running.None? && HostOk(p.host)
    ensures var r := Run(l, p, events);
            && (FinishClose(r).0
                <==> !r.accepting && |r.fates| == |r.accepted| && forall k :: 0 <= k < |r.fates| ==> r.fates[k].Ran?)
            && (FinishClose(r).0 ==> HoldsNothing(FinishClose(r).1.host))
  {
    RunIsSound(l, p, events);
    RunKeepsTables(l, p, events);
    var r := Run(l, p, events);
    IdleIffAllRan(l, r);
    EmptiedHoldsNothing(r.host);
    AllRanMeans(r.fates);
  }

  lemma AllRanMeans(fates: seq<Fate>)
    ensures Dropped !in fates <==> forall k :: 0 <= k < |fates| ==> fates[k].Ran?
  {
    if Dropped !in fates {
      forall k | 0 <= k < |fates| ensures fates[k].Ran? {
        assert fates[k] in fates;
      }
    }
  }

  /** Fates are only added. */
  lemma FatesStay(l: Limits, p: Pool, event: Event)
    requires Sound(l, p) && p.running.None?
    ensures p.fates <= Apply(l, p, event).fates
  {
    match event
    case DoPost(offer) => PostKeeps(l, p, offer.transaction, offer.guard, offer.queue);
    case DoRunTask(rootOk, offers) =>
      if p.tasks != [] && p.tasks[0] < |p.slots| && p.slots[p.tasks[0]].Some? {
        StartedKeeps(l, p, rootOk);
        PostAllKeeps(l, Started(l, p, rootOk), offers);
      }
    case _ =>
  }

  /** A dropped task is never forgotten: from then on the close is busy, whatever happens. */
  lemma {:induction false} DroppedBlocksClose(l: Limits, p: Pool, events: seq<Event>, more: seq<Event>)
    requires Sound(l, p) && p.running.None? && HostOk(p.host) && Dropped in Run(l, p, events).fates
    ensures Dropped in Run(l, p, events + more).fates && !FinishClose(Run(l, p, events + more)).0
    decreases |more|
  {
    if more == [] {
      assert events + more == events;
    } else {
      var before := events + more[..|more| - 1];
      assert (events + more)[..|events + more| - 1] == before;
      DroppedBlocksClose(l, p, events, more[..|more| - 1]);
      RunIsSound(l, p, before);
      FatesStay(l, Run(l, p, before), more[|more| - 1]);
    }
    AllRanMeans(Run(l, p, events + more).fates);
    CloseFinishesIff(l, p, events + more);
  }

  const SMALL := Limits(WILLING, 16, 100, 4, t => 1)

  const SOME_MOUNT := Transaction(0, BoundedText("page", false), true, [CreateHost(0, View)], 0, 1, true)

  /** A transaction is posted, its task dropped and the host closed: the close is busy for ever. */
  const DROPPED_RUN := [DoPost(Offer(SOME_MOUNT, true, OwnerTasks.Accepted)), DoDropTask, DoClose]

  lemma CloseCanBlock(more: seq<Event>)
    ensures var p := Opened(EmptyHost(1, 0), 1, true);
            !Run(SMALL, p, DROPPED_RUN).accepting && !FinishClose(Run(SMALL, p, DROPPED_RUN + more)).0
  {
    var p := Opened(EmptyHost(1, 0), 1, true);
    var posted := Admit(p, SOME_MOUNT, 0);
    assert Run(SMALL, p, DROPPED_RUN[..0]) == p;
    assert Post(SMALL, p, SOME_MOUNT, true, OwnerTasks.Accepted).1 == posted;
    assert DROPPED_RUN[..1][..0] == DROPPED_RUN[..0] && Run(SMALL, p, DROPPED_RUN[..1]) == posted;
    assert DROPPED_RUN[..2][..1] == DROPPED_RUN[..1] && Run(SMALL, p, DROPPED_RUN[..2]) == DropTask(posted);
    assert Run(SMALL, p, DROPPED_RUN) == DropTask(posted).(accepting := false);
    OpenedSound(SMALL, EmptyHost(1, 0), 1, true);
    EmptyHostOk(1, 0);
    assert Dropped in Run(SMALL, p, DROPPED_RUN).fates;
    DroppedBlocksClose(SMALL, p, DROPPED_RUN, more);
  }

  lemma {:induction false} PostAllStopped(l: Limits, p: Pool, offers: seq<Offer>)
    requires !p.accepting
    ensures PostAll(l, p, offers) == p
    decreases |offers|
  {
    if offers != [] {
      PostAllStopped(l, p, offers[1..]);
    }
  }

  lemma StoppedStays(l: Limits, p: Pool, event: Event)
    requires !p.accepting
    ensures !Apply(l, p, event).accepting && Apply(l, p, event).accepted == p.accepted
  {
    if event.DoRunTask? && p.tasks != [] {
      PostAllStopped(l, Started(l, p, event.rootOk), event.offers);
    }
  }

  /** Once admission has stopped, whatever happens no more transactions are accepted. */
  lemma {:induction false} StoppedTakesNothing(l: Limits, p: Pool, events: seq<Event>)
    requires !p.accepting
    ensures !Run(l, p, events).accepting && Run(l, p, events).accepted == p.accepted
  {
    if events != [] {
      StoppedTakesNothing(l, p, events[..|events| - 1]);
      StoppedStays(l, Run(l, p, events[..|events| - 1]), events[|events| - 1]);
    }
  }

  // ----- The pool adds nothing -----

  /** Executes a transaction, with or without a root to mount under. */
  type Runner = (bool, State, Transaction) -> Step

  function Running(l: Limits): Runner {
    (rootOk, s, t) => Execute(l.native, l.maxOperations, rootOk, s, t)
  }

  /** The host after the transactions from `m` up to `n`, one after the other as far as they ran. */
  function Replay(run: Runner, s: State, accepted: seq<Transaction>, fates: seq<Fate>, m: nat, n: nat): State
    requires m <= n <= |fates| && n <= |accepted|
    decreases n
  {
    if n == m then s
    else
      var before := Replay(run, s, accepted, fates, m, n - 1);
      match fates[n - 1]
      case Ran(rootOk, _) => run(rootOk, before, accepted[n - 1]).s
      case Dropped => before
  }

  lemma {:induction false} ReplayExtends(
    run: Runner, s: State, a: seq<Transaction>, f: seq<Fate>, b: seq<Transaction>, g: seq<Fate>, m: nat, n: nat)
    requires m <= n <= |f| && n <= |a| && a <= b && f <= g
    ensures Replay(run, s, b, g, m, n) == Replay(run, s, a, f, m, n)
    decreases n
  {
    if m < n {
      ReplayExtends(run, s, a, f, b, g, m, n - 1);
    }
  }

  /** Only mounting happens: no handler is installed, nothing is released, the close is not finished. */
  ghost predicate OnlyMounts(events: seq<Event>) {
    forall k :: 0 <= k < |events| ==>
      events[k].DoPost? || events[k].DoRunTask? || events[k].DoDropTask? || events[k].DoClose?
  }

  /** The transactions that left the queue since `m` have made the host what it is, and each was
      reported as it came out. */
  ghost predicate Replayed(run: Runner, s: State, m: nat, p: Pool) {
    && m <= |p.fates| <= |p.accepted|
    && p.host == Replay(run, s, p.accepted, p.fates, m, |p.fates|)
    && ReportsTrue(run, s, m, p.accepted, p.fates)
  }

  ghost predicate ReportTrue(run: Runner, s: State, m: nat, accepted: seq<Transaction>, fates: seq<Fate>, k: nat)
    requires m <= k < |fates| && k < |accepted|
  {
    fates[k].Ran? ==>
      fates[k].mounted
      == run(fates[k].rootOk, Replay(run, s, accepted, fates, m, k), accepted[k]).ok
  }

  lemma ReportStays(
    run: Runner, s: State, m: nat, a: seq<Transaction>, f: seq<Fate>, b: seq<Transaction>, g: seq<Fate>, k: nat)
    requires m <= k < |f| && k < |a| && ReportTrue(run, s, m, a, f, k) && a <= b && f <= g
    ensures ReportTrue(run, s, m, b, g, k)
  {
    ReplayExtends(run, s, a, f, b, g, m, k);
  }

  /** More transactions are accepted, none leaves. */
  lemma AcceptedReplays(run: Runner, s: State, m: nat, p: Pool, r: Pool)
    requires Replayed(run, s, m, p) && r.host == p.host && r.fates == p.fates && p.accepted <= r.accepted
    ensures Replayed(run, s, m, r)
  {
    ReplayExtends(run, s, p.accepted, p.fates, r.accepted, r.fates, m, |p.fates|);
    ReportsStay(run, s, m, p.accepted, p.fates, r.accepted, r.fates);
  }

  /** What a transaction that leaves the queue does to the host, and how it is reported. */
  predicate LeavesAs(run: Runner, before: State, t: Transaction, fate: Fate, after: State) {
    match fate
    case Ran(rootOk, mounted) => Step(mounted, after) == run(rootOk, before, t)
    case Dropped => after == before
  }

  lemma LeftHost(
    run: Runner, s: State, m: nat, accepted: seq<Transaction>, fates: seq<Fate>, n: nat, before: State, after: State)
    requires m <= n < |fates| && n < |accepted| && before == Replay(run, s, accepted, fates, m, n)
    requires LeavesAs(run, before, accepted[n], fates[n], after)
    ensures after == Replay(run, s, accepted, fates, m, n + 1) && ReportTrue(run, s, m, accepted, fates, n)
  {
  }

  ghost predicate ReportsTrue(run: Runner, s: State, m: nat, accepted: seq<Transaction>, fates: seq<Fate>) {
    |fates| <= |accepted| && forall k :: m <= k < |fates| ==> ReportTrue(run, s, m, accepted, fates, k)
  }

  lemma ReportsStay(
    run: Runner, s: State, m: nat, a: seq<Transaction>, f: seq<Fate>, b: seq<Transaction>, g: seq<Fate>)
    requires ReportsTrue(run, s, m, a, f) && a <= b && f <= g && m <= |f| <= |g| <= |b|
    ensures forall k :: m <= k < |f| ==> ReportTrue(run, s, m, b, g, k)
  {
    forall k | m <= k < |f| ensures ReportTrue(run, s, m, b, g, k) {
      ReportStays(run, s, m, a, f, b, g, k);
    }
  }

  /** One more leaves. */
  lemma LeftReplays(run: Runner, s: State, m: nat, p: Pool, fate: Fate, r: Pool)
    requires Replayed(run, s, m, p) && |p.fates| < |p.accepted| && r.accepted == p.accepted && r.fates == p.fates + [fate]
    requires LeavesAs(run, p.host, p.accepted[|p.fates|], fate, r.host)
    ensures Replayed(run, s, m, r)
  {
    ReplayExtends(run, s, p.accepted, p.fates, r.accepted, r.fates, m, |p.fates|);
    LeftHost(run, s, m, r.accepted, r.fates, |p.fates|, p.host, r.host);
    ReportsStay(run, s, m, p.accepted, p.fates, r.accepted, r.fates);
  }

  lemma {:induction false} PostAllAccepts(l: Limits, p: Pool, offers: seq<Offer>)
    ensures p.accepted <= PostAll(l, p, offers).accepted
    decreases |offers|
  {
    if offers != [] {
      PostAllAccepts(l, Post(l, p, offers[0].transaction, offers[0].guard, offers[0].queue).1, offers[1..]);
    }
  }

  lemma RunTaskReplays(l: Limits, s: State, m: nat, p: Pool, rootOk: bool, offers: seq<Offer>)
    requires Sound(l, p) && p.running.None? && Replayed(Running(l), s, m, p)
    ensures Replayed(Running(l), s, m, RunTask(l, p, rootOk, offers))
  {
    if p.tasks != [] {
      var started := Started(l, p, rootOk);
      var step := Running(l)(rootOk, p.host, p.accepted[|p.fates|]);
      StartedKeeps(l, p, rootOk);
      LeftReplays(Running(l), s, m, p, Ran(rootOk, step.ok), started);
      PostAllKeeps(l, started, offers);
      PostAllAccepts(l, started, offers);
      AcceptedReplays(Running(l), s, m, started, Freed(PostAll(l, started, offers)));
    }
  }

  lemma ApplyReplays(l: Limits, s: State, m: nat, p: Pool, event: Event)
    requires Sound(l, p) && p.running.None? && Replayed(Running(l), s, m, p) && OnlyMounts([event])
    ensures Replayed(Running(l), s, m, Apply(l, p, event))
  {
    assert [event][0] == event;
    match event
    case DoPost(offer) => AcceptedReplays(Running(l), s, m, p, Apply(l, p, event));
    case DoRunTask(rootOk, offers) => RunTaskReplays(l, s, m, p, rootOk, offers);
    case DoDropTask =>
      if p.tasks != [] {
        LeftReplays(Running(l), s, m, p, Dropped, DropTask(p));
      }
    case DoClose => AcceptedReplays(Running(l), s, m, p, Apply(l, p, event));
  }

  /** Whatever posts and tasks interleave, the host is what the transactions make of it one after the
      other in the order they were accepted, and each is reported as it comes out there. */
  lemma {:induction false} RunReplays(l: Limits, p: Pool, events: seq<Event>)
    requires Sound(l, p) && p.running.None? && OnlyMounts(events)
    ensures Replayed(Running(l), p.host, |p.fates|, Run(l, p, events))
  {
    if events != [] {
      var last := |events| - 1;
      RunReplays(l, p, events[..last]);
      RunIsSound(l, p, events[..last]);
      ApplyReplays(l, p.host, |p.fates|, Run(l, p, events[..last]), events[last]);
    }
  }

  // ----- Batches through the pool -----

  ghost predicate MountedAt(run: Runner, s: State, m: nat, accepted: seq<Transaction>, fates: seq<Fate>, k: nat)
    requires m <= k < |fates| && k < |accepted|
  {
    fates[k].Ran? && fates[k].mounted && ReportTrue(run, s, m, accepted, fates, k)
  }

  /** The transactions since `m` are the batches, and all mounted. */
  ghost predicate AllMounted(
    run: Runner, s: State, batches: seq<Transaction>, accepted: seq<Transaction>, fates: seq<Fate>, m: nat)
  {
    && |fates| == |accepted| == m + |batches| && accepted[m..] == batches
    && forall j :: m <= j < |fates| ==> MountedAt(run, s, m, accepted, fates, j)
  }

  lemma AllMountedFrom(
    run: Runner, s: State, batches: seq<Transaction>, accepted: seq<Transaction>, fates: seq<Fate>, m: nat)
    requires ReportsTrue(run, s, m, accepted, fates)
    requires |fates| == |accepted| == m + |batches| && accepted[m..] == batches
    requires forall k :: m <= k < |fates| ==> fates[k].Ran? && fates[k].mounted
    ensures AllMounted(run, s, batches, accepted, fates, m)
  {
    forall j | m <= j < |fates| ensures MountedAt(run, s, m, accepted, fates, j) {
      assert ReportTrue(run, s, m, accepted, fates, j);
    }
  }

  /** What mounts for the runner does so for the executor. */
  ghost predicate Agree(run: Runner, execute: Executor) {
    forall rootOk, s, t :: run(rootOk, s, t).ok ==> execute(s, t) == run(rootOk, s, t)
  }

  ghost function Replays(run: Runner, s: State, accepted: seq<Transaction>, fates: seq<Fate>, m: nat): nat -> Step {
    (k: nat) => if m + k <= |fates| && m + k <= |accepted| then Step(true, Replay(run, s, accepted, fates, m, m + k))
                else Step(true, s)
  }

  lemma ReplayAdvances(
    run: Runner, execute: Executor, s: State, batches: seq<Transaction>, accepted: seq<Transaction>, fates: seq<Fate>,
    m: nat, k: nat)
    requires Agree(run, execute) && k < |batches| && m + k < |fates| && m + k < |accepted|
    requires accepted[m + k] == batches[k] && MountedAt(run, s, m, accepted, fates, m + k)
    ensures Advances(execute, batches, Replays(run, s, accepted, fates, m), k)
  {
    var before := Replay(run, s, accepted, fates, m, m + k);
    var next := Replay(run, s, accepted, fates, m, m + k + 1);
    assert execute(before, batches[k]) == run(fates[m + k].rootOk, before, accepted[m + k]) == Step(true, next);
    assert Replays(run, s, accepted, fates, m)(k) == Step(true, before);
    assert Replays(run, s, accepted, fates, m)(k + 1) == Step(true, next);
  }

  /** Transactions that all ran and mounted are a run of batches that succeeds. */
  lemma MountedIsRunBatches(
    run: Runner, execute: Executor, s: State, batches: seq<Transaction>, accepted: seq<Transaction>, fates: seq<Fate>,
    m: nat)
    requires Agree(run, execute) && AllMounted(run, s, batches, accepted, fates, m)
    ensures RunBatches(execute, s, batches, 0) == Step(true, Replay(run, s, accepted, fates, m, |fates|))
  {
    var progress := Replays(run, s, accepted, fates, m);
    forall k | 0 <= k < |batches| ensures Advances(execute, batches, progress, k) {
      assert accepted[m + k] == batches[k];
      assert MountedAt(run, s, m, accepted, fates, m + k);
      ReplayAdvances(run, execute, s, batches, accepted, fates, m, k);
    }
    assert m + 0 == m && progress(0) == Step(true, Replay(run, s, accepted, fates, m, m)) == Step(true, s);
    BatchesFinish(execute, batches, progress, 0);
  }

  lemma RootNeeded(l: Limits, rootOk: bool, s: State, t: Transaction)
    requires Execute(l.native, l.maxOperations, rootOk, s, t).ok
    ensures rootOk
  {
  }

  lemma RunnersAgree(l: Limits)
    ensures Agree(Running(l), Executing(l.native, l.maxOperations, true))
  {
    forall rootOk, s, t | Running(l)(rootOk, s, t).ok
      ensures Executing(l.native, l.maxOperations, true)(s, t) == Running(l)(rootOk, s, t)
    {
      RootNeeded(l, rootOk, s, t);
    }
  }

  /** The whole way: when the batches of a full mount are what an idle host accepts, whatever else is
      offered and refused meanwhile, and all are reported mounted, the host is as if the mount had
      been one transaction, which would have succeeded. */
  lemma MountedBatchesEqualWhole(
    l: Limits, p: Pool, events: seq<Event>, surface: SurfaceId, source: BoundedText, operations: seq<Operation>)
    requires Sound(l, p) && p.running.None? && p.tasks == [] && HostOk(p.host) && OnlyMounts(events)
    requires BuildsOnly(operations) && operations != [] && GoodSource(source)
    requires var r := Run(l, p, events);
             && r.accepted == p.accepted + Split(surface, source, operations) && |r.fates| == |r.accepted|
             && forall k :: |p.fates| <= k < |r.fates| ==> r.fates[k].Ran? && r.fates[k].mounted
    ensures Execute(l.native, |operations|, true, p.host, Whole(surface, source, operations))
         == Step(true, Run(l, p, events).host)
  {
    var r, batches := Run(l, p, events), Split(surface, source, operations);
    RunReplays(l, p, events);
    assert |p.accepted| == |p.fates| && r.accepted[|p.fates|..] == batches;
    AllMountedFrom(Running(l), p.host, batches, r.accepted, r.fates, |p.fates|);
    RunnersAgree(l);
    MountedIsRunBatches(Running(l), Executing(l.native, l.maxOperations, true), p.host, batches, r.accepted, r.fates, |p.fates|);
    BatchedEqualsSingle(l.native, l.maxOperations, true, p.host, surface, source, operations);
  }
}
