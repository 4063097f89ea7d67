/** Does a teardown of the runtime host end? It does once nothing is busy any more, unless the stop of
    the backends got stuck half begun, and then it never does. */
module RuntimeTeardowns {
  import opened Wrappers
  import Tasks = OwnerTasks
  import opened RuntimeHosts
  import BL = BackendLifecycles

  // ----- What every run keeps of the backends -----

  /** Open backends belong to the owner; they run with their queue until their stop, which drains, is
      begun. */
  ghost predicate Tended(w: World, d: Teardown) {
    var b := d.backend;
    && BL.Sound(w.setup, b) && !b.state.Constructed?
    && (b.state.Running? || b.state.Stopping? ==> b.owner == Some(w.owner))
    && (b.state.Running? ==> b.queue.state.Running? && !d.stopBegun)
    && (b.state.Stopping? ==> b.policy.Drain?)
  }

  /** The package source is closed before the stop of the backends is begun. */
  predicate PackageFirst(d: Teardown) {
    d.backend.state.Stopping? || d.backend.state.Closed? ==> !d.packageOpen
  }

  /** The backends are opened with the start and closed with the host. */
  ghost predicate RunOk(w: World, h: Host) {
    && (h.state.New? ==> h.teardown == NewHost().teardown)
    && (!h.state.New? && !h.state.Destroyed? ==> Tended(w, h.teardown) && !h.teardown.backend.state.Closed?)
    && PackageFirst(h.teardown) && (h.state.Destroyed? ==> h.teardown.backend.state.Closed?)
  }

  lemma ServicesKeep(w: World, d: Teardown, a: Answers)
    requires Tended(w, d)
    ensures Tended(w, StopServices(d, a).1) && StopServices(d, a).1.backend == d.backend
  {
    ServicesStarted(d, a);
  }

  /** What begins the stop takes off, the backends' outcome apart. */
  lemma BegunBackend(w: World, b: BL.Backend)
    requires BL.Sound(w.setup, b) && b.state.Running? && b.queue.state.Running? && b.owner == Some(w.owner)
    ensures var r := BL.BeginStop(w.setup, w.ports, b, w.owner, Tasks.Drain);
            && BL.Sound(w.setup, r.b) && r.b.owner == b.owner
            && (r.b.state.Running? ==> r.error.Busy? && r.b.queue.state.Running?)
            && (r.b.state.Running? || (r.b.state.Stopping? && r.b.policy.Drain?))
            && (r.b.stopPrepared ==> !r.error.Busy?)
  {
    BL.BeginStopKeeps(w.setup, w.ports, b, w.owner, Tasks.Drain);
    BL.BeginLeaves(w.setup, w.ports, b, w.owner, Tasks.Drain);
    BL.PreparedReports(w.setup, w.ports, b, w.owner, Tasks.Drain);
    StillRunning(w, b);
  }

  lemma StillRunning(w: World, b: BL.Backend)
    requires BL.Sound(w.setup, b) && b.state.Running? && b.queue.state.Running? && b.owner == Some(w.owner)
    ensures var r := BL.BeginStop(w.setup, w.ports, b, w.owner, Tasks.Drain);
            r.b.state.Running? ==> r.error.Busy? && r.b.queue.state.Running?
  {
    var stopping := Tasks.BeginStop(w.setup, b.queue, w.owner, Tasks.Drain);
    if stopping.0.NoError? {
      var begun := b.(queue := stopping.1, state := Tasks.Stopping, policy := Tasks.Drain);
      BL.DrainLeaves(w.setup, w.ports, BL.Remember(BL.Called(w.ports, begun, BL.StopInput), BL.Answer(w.ports, begun)), w.owner);
    }
  }

  lemma BeginKeeps(w: World, d: Teardown)
    requires Tended(w, d)
    ensures Tended(w, BeginBackends(w, d).1)
    ensures d.backend.state.Closed? <==> BeginBackends(w, d).1.backend.state.Closed?
  {
    if d.backend.state.Running? {
      BegunBackend(w, d.backend);
      BegunStop(d, BL.BeginStop(w.setup, w.ports, d.backend, w.owner, Tasks.Drain));
    }
  }

  lemma BegunStop(d: Teardown, begin: BL.Outcome)
    ensures AfterBegin(d, begin).1.backend == begin.b
    ensures AfterBegin(d, begin).1.stopBegun == (d.stopBegun || !begin.error.Busy?)
    ensures AfterBegin(d, begin).0 == !begin.error.Busy?
  {
  }

  /** A finished stop is seen to be finished. */
  lemma FinishedBackend(w: World, b: BL.Backend)
    requires BL.Sound(w.setup, b) && b.state.Stopping? && b.policy.Drain? && b.owner == Some(w.owner)
    ensures var r := BL.FinishStop(w.setup, w.ports, b, w.owner);
            && BL.Sound(w.setup, r.b) && r.b.owner == b.owner && r.b.policy == b.policy
            && (r.b.state.Stopping? || r.b.state.Closed?) && (r.b.state.Closed? ==> !r.error.Busy?)
  {
    BL.FinishStopKeeps(w.setup, w.ports, b, w.owner);
    BL.FinishLeaves(w.setup, w.ports, b, w.owner);
    if BL.FinishStop(w.setup, w.ports, b, w.owner).b.state.Closed? {
      BL.FinishedReports(w.setup, w.ports, b, w.owner);
    }
  }

  lemma FinishedStop(d: Teardown, finish: BL.Outcome)
    ensures AfterFinish(d, finish).1.backend == finish.b && AfterFinish(d, finish).1.stopBegun == d.stopBegun
    ensures AfterFinish(d, finish).0 == (finish.b.state.Closed? && !finish.error.Busy?)
  {
  }

  lemma FinishBackendsKeeps(w: World, d: Teardown)
    requires Tended(w, d)
    ensures Tended(w, FinishBackends(w, d).1)
    ensures FinishBackends(w, d).1.backend.state.Closed? <==> FinishBackends(w, d).0
  {
    if d.backend.state.Stopping? {
      FinishedBackend(w, d.backend);
      FinishedStop(d, BL.FinishStop(w.setup, w.ports, d.backend, w.owner));
    }
  }

  /** The package source stays as the services leave it. */
  lemma PackageLeft(w: World, d: Teardown, a: Answers)
    ensures BeginBackends(w, d).1.packageOpen == d.packageOpen && FinishBackends(w, d).1.packageOpen == d.packageOpen
    ensures var (goesOn, r) := StopServices(d, a); (goesOn ==> !r.packageOpen) && (!d.packageOpen ==> !r.packageOpen)
  {
    BegunPackage(d, BL.BeginStop(w.setup, w.ports, d.backend, w.owner, Tasks.Drain));
    FinishedPackage(d, BL.FinishStop(w.setup, w.ports, d.backend, w.owner));
  }

  lemma BegunPackage(d: Teardown, begin: BL.Outcome)
    ensures AfterBegin(d, begin).1.packageOpen == d.packageOpen
  {
  }

  lemma FinishedPackage(d: Teardown, finish: BL.Outcome)
    ensures AfterFinish(d, finish).1.packageOpen == d.packageOpen
  {
  }

  lemma TearDownPackage(w: World, d: Teardown, a: Answers)
    requires PackageFirst(d)
    ensures PackageFirst(TearDown(w, d, a).1)
  {
    var services := StopServices(d, a).1;
    ServicesStarted(d, a);
    PackageLeft(w, d, a);
    PackageLeft(w, services, a);
    PackageLeft(w, BeginBackends(w, services).1, a);
  }

  lemma TearDownTends(w: World, d: Teardown, a: Answers)
    requires Tended(w, d) && !d.backend.state.Closed?
    ensures Tended(w, TearDown(w, d, a).1)
    ensures TearDown(w, d, a).1.backend.state.Closed? <==> TearDown(w, d, a).0
  {
    ServicesKeep(w, d, a);
    BeginKeeps(w, StopServices(d, a).1);
    FinishBackendsKeeps(w, BeginBackends(w, StopServices(d, a).1).1);
  }

  lemma ProgressRuns(w: World, h: Host, a: Answers)
    requires RunOk(w, h) && !h.state.New?
    ensures RunOk(w, ProgressTeardown(w, h, a)) && !ProgressTeardown(w, h, a).state.New?
  {
    if !h.state.Destroyed? {
      TearDownTends(w, h.teardown, a);
      TearDownPackage(w, h.teardown, a);
    }
  }

  // ----- Events -----

  lemma OpenedBackend(w: World)
    ensures var r := BL.Open(w.setup, w.ports, BL.UNOPENED, Some(w.owner));
            && BL.Sound(w.setup, r.b) && (!r.error.NoError? ==> r.b.state.Closed?)
            && (r.error.NoError? ==> r.b.state.Running? && r.b.queue.state.Running? && r.b.owner == Some(w.owner))
  {
    BL.HistoryIsSound(w.setup, w.ports, []);
    BL.OpenKeeps(w.setup, w.ports, BL.UNOPENED, Some(w.owner));
  }

  lemma LaunchedRuns(w: World, up: Host, completion: Option<Token>, s: StartAnswers, a: Answers)
    requires Tended(w, up.teardown) && up.teardown.backend.state.Running?
    ensures RunOk(w, Launched(w, up, completion, s, a).1)
  {
    ProgressRuns(w, GivenUp(up, s.package), a);
    ProgressRuns(w, GivenUp(PackageOpened(up), s.core), a);
  }

  lemma StartRuns(w: World, h: Host, completion: Option<Token>, s: StartAnswers, a: Answers)
    requires RunOk(w, h)
    ensures RunOk(w, Start(w, h, completion, s, a).1)
  {
    if h.state.New? && s.profileOk && s.launch.Fine? && s.loop.NoError? {
      OpenedBackend(w);
      var launch := BL.Open(w.setup, w.ports, h.teardown.backend, Some(w.owner));
      if launch.error.NoError? {
        LaunchedRuns(w, h.(teardown := h.teardown.(backend := launch.b)), completion, s, a);
      }
    }
  }

  lemma PumpedQueue(w: World, d: Teardown)
    requires Tended(w, d) && !d.backend.state.Closed?
    ensures var queue := Tasks.Pump(w.setup, d.backend.queue, w.owner, 0).q;
            Tended(w, d.(backend := d.backend.(queue := queue))) && queue.attempts >= d.backend.queue.attempts
  {
    BL.ApplyKeeps(w.setup, w.ports, d.backend, BL.CallPump(w.owner, 0));
    Tasks.PumpAttempts(w.setup, d.backend.queue, w.setup.maxPerPump);
    if d.backend.state.Running? {
      Tasks.PumpRuns(w.setup, d.backend.queue, w.setup.maxPerPump);
    }
  }

  lemma {:induction false} ProcessedBackend(h: Host, i: nat)
    requires i <= |h.controls|
    ensures var r := ProcessControls(h, i);
            && r.teardown.backend == h.teardown.backend && r.teardown.stopBegun == h.teardown.stopBegun
            && r.teardown.packageOpen == h.teardown.packageOpen && r.state == h.state && r.start == h.start
    decreases |h.controls| - i
  {
    if i < |h.controls| {
      ProcessedBackend(ProcessControl(h, i), i + 1);
    }
  }

  /** The host as a pump's teardown finds it. */
  function Processed(w: World, h: Host): Host {
    ProcessControls(ProcessStart(QueuePumped(h, Tasks.Pump(w.setup, h.teardown.backend.queue, w.owner, 0).q)), 0)
  }

  lemma ProcessedRuns(w: World, h: Host)
    requires RunOk(w, h) && !h.state.New? && !h.state.Destroyed?
    ensures RunOk(w, Processed(w, h)) && !Processed(w, h).state.New? && !Processed(w, h).state.Destroyed?
    ensures RunOk(w, QueuePumped(h, Tasks.Pump(w.setup, h.teardown.backend.queue, w.owner, 0).q))
    ensures Processed(w, h).teardown.backend
         == h.teardown.backend.(queue := Tasks.Pump(w.setup, h.teardown.backend.queue, w.owner, 0).q)
  {
    PumpedQueue(w, h.teardown);
    ProcessedBackend(ProcessStart(QueuePumped(h, Tasks.Pump(w.setup, h.teardown.backend.queue, w.owner, 0).q)), 0);
  }

  lemma PumpRunsOn(w: World, h: Host, a: Answers)
    requires RunOk(w, h)
    ensures RunOk(w, PumpOnce(w, h, a).1)
  {
    if !h.state.New? && !h.state.Destroyed? {
      ProcessedRuns(w, h);
      ProgressRuns(w, Processed(w, h), a);
    }
  }

  lemma CallsLeave(h: Host, completion: Option<Token>, request: CallResult, core: CallResult)
    ensures var r := ControlCall(h, completion, request, core).1; r.teardown == h.teardown && r.state == h.state
    ensures var r := DestroyCall(h, completion, request, core).1;
            r.teardown == h.teardown && (r.state == h.state || (r.state.Destroying? && !h.state.New? && !h.state.Destroyed?))
  {
  }

  /** Calls, signals and the core's answers leave the teardown alone. */
  lemma Bystanders(w: World, h: Host, event: Event)
    requires !event.DoStart? && !event.DoPump?
    ensures Apply(w, h, event).teardown == h.teardown
    ensures Apply(w, h, event).state == h.state || Apply(w, h, event).state.Destroying?
    ensures h.state.New? || h.state.Destroyed? ==> Apply(w, h, event).state == h.state
  {
    if event.DoControl? || event.DoDestroy? || event.DoSignal? {
      CallsLeave(h, event.completion, event.request, event.core);
    }
  }

  lemma {:induction false} RunKeeps(w: World, events: seq<Event>)
    ensures RunOk(w, History(w, events))
  {
    if events != [] {
      var h, event := History(w, events[..|events| - 1]), events[|events| - 1];
      RunKeeps(w, events[..|events| - 1]);
      match event
      case DoStart(completion, s, a) => StartRuns(w, h, completion, s, a);
      case DoPump(a) => PumpRunsOn(w, h, a);
      case _ => Bystanders(w, h, event);
    }
  }

  /** In every run: a destroyed host has closed its package source and its backends, whether it came to
      run or not. */
  lemma DestroyedIsReleased(w: World, events: seq<Event>)
    requires History(w, events).state.Destroyed?
    ensures var d := History(w, events).teardown; !d.packageOpen && d.backend.state.Closed?
  {
    RunKeeps(w, events);
  }

  // ----- Stuck -----

  /** The stop of the backends was begun, got busy half way, and is not begun again: it can never be
      finished. */
  predicate Stuck(h: Host) {
    h.teardown.backend.state.Stopping? && !h.teardown.backend.stopPrepared
  }

  lemma StuckBackend(w: World, d: Teardown)
    requires d.backend.state.Stopping? && !d.backend.stopPrepared
    ensures BeginBackends(w, d) == (true, d)
    ensures !FinishBackends(w, d).0 && FinishBackends(w, d).1.backend == d.backend
  {
    assert BL.FinishStop(w.setup, w.ports, d.backend, w.owner).b == d.backend;
  }

  lemma StuckStays(w: World, h: Host, a: Answers)
    requires Stuck(h) && !h.state.Destroyed?
    ensures Stuck(ProgressTeardown(w, h, a)) && !ProgressTeardown(w, h, a).state.Destroyed?
  {
    ServicesStarted(h.teardown, a);
    StuckBackend(w, StopServices(h.teardown, a).1);
  }

  lemma StuckPump(w: World, h: Host, a: Answers)
    requires Stuck(h) && !h.state.Destroyed?
    ensures Stuck(PumpOnce(w, h, a).1) && !PumpOnce(w, h, a).1.state.Destroyed?
  {
    if !h.state.New? {
      ProcessedBackend(ProcessStart(QueuePumped(h, Tasks.Pump(w.setup, h.teardown.backend.queue, w.owner, 0).q)), 0);
      StuckStays(w, Processed(w, h), a);
    }
  }

  /** What holds of a run and is kept by each event holds of every run that goes on from there. */
  lemma {:induction false} Onwards(holds: seq<Event> -> bool, events: seq<Event>, more: seq<Event>)
    requires holds(events) && forall run, event :: holds(run) ==> holds(run + [event])
    ensures holds(events + more)
    decreases |more|
  {
    if more == [] {
      assert events + more == events;
    } else {
      var last := |more| - 1;
      Onwards(holds, events, more[..last]);
      assert events + more[..last] + [more[last]] == events + more;
    }
  }

  lemma StuckNext(w: World, events: seq<Event>, event: Event)
    requires Stuck(History(w, events)) && !History(w, events).state.Destroyed?
    ensures Stuck(History(w, events + [event])) && !History(w, events + [event]).state.Destroyed?
  {
    assert (events + [event])[..|events + [event]| - 1] == events;
    RunKeeps(w, events);
    StuckEvent(w, History(w, events), event);
  }

  /** A run that got stuck stays so, and its host is never destroyed, whatever happens from then
      on. */
  lemma StuckForEver(w: World, events: seq<Event>, more: seq<Event>)
    requires Stuck(History(w, events)) && !History(w, events).state.Destroyed?
    ensures Stuck(History(w, events + more)) && !History(w, events + more).state.Destroyed?
  {
    var holds := (run: seq<Event>) => Stuck(History(w, run)) && !History(w, run).state.Destroyed?;
    forall run, event | holds(run) ensures holds(run + [event]) {
      StuckNext(w, run, event);
    }
    Onwards(holds, events, more);
  }

  lemma StuckEvent(w: World, h: Host, event: Event)
    requires RunOk(w, h) && Stuck(h) && !h.state.Destroyed?
    ensures Stuck(Apply(w, h, event)) && !Apply(w, h, event).state.Destroyed?
  {
    if event.DoPump? {
      StuckPump(w, h, event.a);
    } else if !event.DoStart? {
      Bystanders(w, h, event);
    }
  }

  // ----- A run that gets stuck -----

  const BUSY_INPUT := World(
    0, Tasks.Setup(1, 1, (n, t) => [], n => true), BL.Ports(n => if n == 2 then Tasks.Busy else Tasks.NoError, n => 0))

  const NO_PACKAGE := DoStart(
    None, StartAnswers(true, Fine, Tasks.NoError, Fault(PlatformRejected), Fine),
    Answers(false, Fine, false, Tasks.NoError, false))

  lemma StuckAtOnce()
    ensures var h := Apply(BUSY_INPUT, NewHost(), NO_PACKAGE); Stuck(h) && !h.state.Destroyed?
  {
    var w, h := BUSY_INPUT, NewHost();
    var up := h.(teardown := h.teardown.(backend := BL.Open(w.setup, w.ports, BL.UNOPENED, Some(w.owner)).b));
    assert up.teardown.backend.state.Running? && |up.teardown.backend.log| == 2;
    OpenedBackend(w);
    BL.StopSticksIff(w.setup, w.ports, up.teardown.backend, w.owner);
  }

  /** A start whose package source cannot be opened, with an input that is busy the one time it is
      asked to stop: the host is not destroyed, whatever happens from then on. */
  lemma TeardownCanStick(more: seq<Event>)
    ensures Stuck(History(BUSY_INPUT, [NO_PACKAGE]))
    ensures !History(BUSY_INPUT, [NO_PACKAGE] + more).state.Destroyed?
  {
    StuckAtOnce();
    assert History(BUSY_INPUT, []) == NewHost();
    StuckForEver(BUSY_INPUT, [NO_PACKAGE], more);
  }

  // ----- When it gets stuck -----

  datatype Attempted = Attempted(host: Host, answers: Answers)

  /** The host that a start hands to the teardown, if it gives up after the backends are open. */
  function AtStart(w: World, h: Host, s: StartAnswers, a: Answers): Option<Attempted> {
    var launch := BL.Open(w.setup, w.ports, h.teardown.backend, Some(w.owner));
    var up := h.(teardown := h.teardown.(backend := launch.b));
    if !h.state.New? || !s.profileOk || !s.launch.Fine? || !s.loop.NoError? || !launch.error.NoError? then None
    else if !s.package.Fine? then Some(Attempted(GivenUp(up, s.package), a))
    else if !s.core.Fine? then Some(Attempted(GivenUp(PackageOpened(up), s.core), a))
    else None
  }

  function AtPump(w: World, h: Host, a: Answers): Option<Attempted> {
    var error := Tasks.Pump(w.setup, h.teardown.backend.queue, w.owner, 0).error;
    if h.state.Destroyed? || h.state.New? || (!error.NoError? && !error.InvalidState?) then None
    else Some(Attempted(Processed(w, h), a))
  }

  /** The host, if any, whose teardown an event takes further. */
  function TornDown(w: World, h: Host, event: Event): Option<Attempted> {
    match event
    case DoStart(_, s, a) => AtStart(w, h, s, a)
    case DoPump(a) => AtPump(w, h, a)
    case _ => None
  }

  /** The teardown comes as far as the stop of the backends: the start and all controls are done with,
      the services and the package source stopped, and the stop is not begun. */
  predicate ReachesStop(t: Attempted) {
    && t.host.teardown.started && !t.host.state.Destroyed? && !t.host.start.pending && !AnyActive(t.host.controls)
    && !(t.answers.liveBefore && t.answers.liveAfter)
    && (t.host.teardown.packageOpen ==> !t.answers.packageClose.Busy?)
    && t.host.teardown.backend.state.Running?
  }

  lemma ServicesGoOn(d: Teardown, a: Answers)
    ensures StopServices(d, a).0 <==> !(a.liveBefore && a.liveAfter) && (d.packageOpen ==> !a.packageClose.Busy?)
  {
  }

  lemma StickingBackends(w: World, d: Teardown)
    requires Tended(w, d) && !d.backend.state.Closed? && (d.backend.state.Stopping? ==> d.backend.stopPrepared)
    ensures var r := (if BeginBackends(w, d).0 then FinishBackends(w, BeginBackends(w, d).1)
                      else BeginBackends(w, d)).1.backend;
            r.state.Stopping? && !r.stopPrepared
            <==> d.backend.state.Running? && BL.StopSticks(w.setup, w.ports, d.backend)
  {
    if d.backend.state.Running? {
      var begin := BL.BeginStop(w.setup, w.ports, d.backend, w.owner, Tasks.Drain);
      BegunBackend(w, d.backend);
      BegunStop(d, begin);
      BL.StopSticksIff(w.setup, w.ports, d.backend, w.owner);
      PreparedFinish(w, AfterBegin(d, begin).1);
    } else {
      PreparedFinish(w, d);
    }
  }

  lemma PreparedFinish(w: World, d: Teardown)
    ensures FinishBackends(w, d).1.backend.stopPrepared == d.backend.stopPrepared
    ensures d.backend.state.Stopping? && !d.backend.stopPrepared ==> FinishBackends(w, d).1.backend == d.backend
  {
    BL.FinishPrepared(w.setup, w.ports, d.backend, w.owner);
    FinishedStop(d, BL.FinishStop(w.setup, w.ports, d.backend, w.owner));
  }

  lemma ProgressSticks(w: World, t: Attempted)
    requires RunOk(w, t.host) && !t.host.state.New? && !t.host.state.Destroyed? && !Stuck(t.host)
    ensures Stuck(ProgressTeardown(w, t.host, t.answers))
       <==> ReachesStop(t) && BL.StopSticks(w.setup, w.ports, t.host.teardown.backend)
  {
    ServicesGoOn(t.host.teardown, t.answers);
    ServicesKeep(w, t.host.teardown, t.answers);
    StickingBackends(w, StopServices(t.host.teardown, t.answers).1);
  }

  lemma StartSticks(w: World, h: Host, completion: Option<Token>, s: StartAnswers, a: Answers)
    requires RunOk(w, h) && !Stuck(h)
    ensures var t := AtStart(w, h, s, a);
            Stuck(Start(w, h, completion, s, a).1)
            <==> t.Some? && ReachesStop(t.value) && BL.StopSticks(w.setup, w.ports, t.value.host.teardown.backend)
  {
    if h.state.New? {
      OpenedBackend(w);
      var t := AtStart(w, h, s, a);
      if t.Some? {
        ProgressSticks(w, t.value);
      } else {
        assert !Stuck(Start(w, h, completion, s, a).1);
      }
    }
  }

  lemma PumpSticks(w: World, h: Host, a: Answers)
    requires RunOk(w, h) && !Stuck(h)
    ensures var t := AtPump(w, h, a);
            Stuck(PumpOnce(w, h, a).1)
            <==> t.Some? && ReachesStop(t.value) && BL.StopSticks(w.setup, w.ports, t.value.host.teardown.backend)
  {
    if !h.state.New? && !h.state.Destroyed? {
      ProcessedRuns(w, h);
      ProgressSticks(w, Attempted(Processed(w, h), a));
    }
  }

  /** An event of any run gets the host stuck if and only if it takes the teardown as far as the stop
      of the backends, the queue takes that stop, and then the input, a pop of the drain or the
      discard is busy. */
  lemma SticksIff(w: World, events: seq<Event>, event: Event)
    requires !Stuck(History(w, events))
    ensures var h := History(w, events);
            var t := TornDown(w, h, event);
            Stuck(RuntimeHosts.Apply(w, h, event))
            <==> t.Some? && ReachesStop(t.value) && BL.StopSticks(w.setup, w.ports, t.value.host.teardown.backend)
  {
    var h := History(w, events);
    RunKeeps(w, events);
    match event
    case DoStart(completion, s, a) => StartSticks(w, h, completion, s, a);
    case DoPump(a) => PumpSticks(w, h, a);
    case _ => Bystanders(w, h, event);
  }

  // ----- Otherwise it ends -----

  /** The core has called back for the start and for every control it admitted. */
  predicate NothingOwed(h: Host) {
    !h.start.owed && forall i :: 0 <= i < |h.controls| ==> !h.controls[i].owed
  }

  /** A control is active only from a place on, and then ready. */
  predicate ReadyFrom(controls: seq<Control>, i: nat) {
    forall k :: 0 <= k < |controls| && controls[k].active ==> k >= i && controls[k].ready
  }

  lemma OneProcessed(h: Host, i: nat)
    requires i < |h.controls| && ReadyFrom(h.controls, i)
    ensures ReadyFrom(ProcessControl(h, i).controls, i + 1)
  {
  }

  /** Every control that is ready is done with. */
  lemma {:induction false} AllProcessed(h: Host, i: nat)
    requires i <= |h.controls| && ReadyFrom(h.controls, i)
    ensures !AnyActive(ProcessControls(h, i).controls)
    decreases |h.controls| - i
  {
    if i < |h.controls| {
      OneProcessed(h, i);
      AllProcessed(ProcessControl(h, i), i + 1);
    }
  }

  lemma {:induction false} StartedStays(h: Host, i: nat)
    requires i <= |h.controls| && h.teardown.started
    ensures ProcessControls(h, i).teardown.started
    decreases |h.controls| - i
  {
    if i < |h.controls| {
      StartedStays(ProcessControl(h, i), i + 1);
    }
  }

  /** One that destroys starts the teardown. */
  lemma {:induction false} DestroyProcessed(h: Host, i: nat, k: nat)
    requires i <= k < |h.controls| && h.controls[k].active && h.controls[k].ready && h.controls[k].destroys
    ensures ProcessControls(h, i).teardown.started
    decreases k - i
  {
    var next := ProcessControl(h, i);
    if i < k {
      assert next.controls[k] == h.controls[k];
      DestroyProcessed(next, i + 1, k);
    } else {
      StartedStays(next, i + 1);
    }
  }

  lemma ReadyProcessed(w: World, h: Host)
    requires Sound(h) && NothingOwed(h) && (h.state.Destroying? || h.state.Failed?)
    ensures var r := Processed(w, h); r.teardown.started && !r.start.pending && !AnyActive(r.controls)
  {
    var after := ProcessStart(QueuePumped(h, Tasks.Pump(w.setup, h.teardown.backend.queue, w.owner, 0).q));
    AllProcessed(after, 0);
    ProcessedBackend(after, 0);
    if after.teardown.started {
      StartedStays(after, 0);
    } else {
      var k: nat :| k < |h.controls| && h.controls[k].active && h.controls[k].destroys;
      DestroyProcessed(after, 0, k);
    }
  }

  lemma BackendsEnd(w: World, d: Teardown)
    requires Tended(w, d) && !d.backend.state.Closed? && (d.backend.state.Stopping? ==> d.backend.stopPrepared)
    requires BL.Quiet(w.setup, w.ports, d.backend)
    ensures BeginBackends(w, d).0 && FinishBackends(w, BeginBackends(w, d).1).0
  {
    if d.backend.state.Running? {
      var begin := BL.BeginStop(w.setup, w.ports, d.backend, w.owner, Tasks.Drain);
      BL.BeginStopPrepares(w.setup, w.ports, d.backend, w.owner, Tasks.Drain);
      BegunBackend(w, d.backend);
      BegunStop(d, begin);
      FinishEnds(w, AfterBegin(d, begin).1);
    } else {
      FinishEnds(w, d);
    }
  }

  lemma FinishEnds(w: World, d: Teardown)
    requires BL.Sound(w.setup, d.backend) && d.backend.state.Stopping? && d.backend.policy.Drain?
    requires d.backend.owner == Some(w.owner) && d.backend.stopPrepared && BL.Quiet(w.setup, w.ports, d.backend)
    ensures FinishBackends(w, d).0
  {
    BL.FinishCloses(w.setup, w.ports, d.backend, w.owner);
    FinishedBackend(w, d.backend);
    FinishedStop(d, BL.FinishStop(w.setup, w.ports, d.backend, w.owner));
  }

  lemma ProgressEnds(w: World, h: Host, a: Answers)
    requires RunOk(w, h) && !h.state.New? && !h.state.Destroyed? && !Stuck(h)
    requires h.teardown.started && !h.start.pending && !AnyActive(h.controls)
    requires BL.Quiet(w.setup, w.ports, h.teardown.backend) && !(a.liveBefore && a.liveAfter) && !a.packageClose.Busy?
    ensures ProgressTeardown(w, h, a).state.Destroyed?
  {
    ServicesGoOn(h.teardown, a);
    ServicesKeep(w, h.teardown, a);
    BackendsEnd(w, StopServices(h.teardown, a).1);
  }

  /** In every run: once the core has called back and nothing is busy any more, the next pump of a
      host that is to be destroyed, or failed to start, destroys it if and only if it is not stuck. */
  lemma TeardownEndsIff(w: World, events: seq<Event>, a: Answers)
    requires var h := History(w, events);
             && (h.state.Destroying? || h.state.Failed?) && NothingOwed(h)
             && BL.Quiet(w.setup, w.ports, h.teardown.backend)
    requires !(a.liveBefore && a.liveAfter) && !a.packageClose.Busy?
    ensures var h := History(w, events); PumpOnce(w, h, a).1.state.Destroyed? <==> !Stuck(h)
  {
    var h := History(w, events);
    RunKeeps(w, events);
    HistoryKeeps(w, events, 0);
    if Stuck(h) {
      StuckPump(w, h, a);
    } else {
      Tasks.FreePumpRuns(w.setup, h.teardown.backend.queue, w.setup.maxPerPump);
      PumpedQueue(w, h.teardown);
      ProcessedRuns(w, h);
      ReadyProcessed(w, h);
      PumpsAsOwner(w, h.teardown);
      ProgressEnds(w, Processed(w, h), a);
    }
  }

  /** The owner's pump of open backends is at most busy. */
  lemma PumpsAsOwner(w: World, d: Teardown)
    requires Tended(w, d) && !d.backend.state.Closed?
    ensures Tasks.Pump(w.setup, d.backend.queue, w.owner, 0)
         == Tasks.PumpUpTo(w.setup, d.backend.queue, w.setup.maxPerPump)
  {
  }
}
