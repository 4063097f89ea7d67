/** How a runtime comes to run: by a start that the core calls back as done and presented, taken up by a
    pump, and in no other way. */
module RuntimeStarts {
  import opened Wrappers
  import Tasks = OwnerTasks
  import opened RuntimeHosts
  import opened RuntimeTeardowns
  import BL = BackendLifecycles

  /** The host has left running behind, or will never run. */
  predicate Past(h: Host) {
    h.state.Destroying? || h.state.Failed? || h.state.Destroyed?
  }

  lemma ProgressStaysPast(w: World, h: Host, a: Answers)
    requires Past(h)
    ensures Past(ProgressTeardown(w, h, a))
  {
  }

  lemma PumpStaysPast(w: World, h: Host, a: Answers)
    requires Past(h)
    ensures Past(PumpOnce(w, h, a).1)
  {
    if !h.state.Destroyed? {
      ProcessedState(w, h);
      ProgressStaysPast(w, Processed(w, h), a);
    }
  }

  lemma ProcessedState(w: World, h: Host)
    ensures Processed(w, h).state
         == ProcessStart(QueuePumped(h, Tasks.Pump(w.setup, h.teardown.backend.queue, w.owner, 0).q)).state
  {
    ProcessedBackend(ProcessStart(QueuePumped(h, Tasks.Pump(w.setup, h.teardown.backend.queue, w.owner, 0).q)), 0);
  }

  lemma EventStaysPast(w: World, h: Host, event: Event)
    requires Past(h)
    ensures Past(Apply(w, h, event))
  {
    if event.DoPump? {
      PumpStaysPast(w, h, event.a);
    } else if !event.DoStart? {
      Bystanders(w, h, event);
    }
  }

  lemma NextEvent(w: World, events: seq<Event>, event: Event)
    ensures History(w, events + [event]) == Apply(w, History(w, events), event)
  {
    assert (events + [event])[..|events + [event]| - 1] == events;
  }

  /** What is past stays past, whatever happens. */
  lemma NeverRunsAgain(w: World, events: seq<Event>, more: seq<Event>)
    requires Past(History(w, events))
    ensures Past(History(w, events + more)) && !History(w, events + more).state.Running?
  {
    var holds := (run: seq<Event>) => Past(History(w, run));
    forall run, event | holds(run) ensures holds(run + [event]) {
      NextEvent(w, run, event);
      EventStaysPast(w, History(w, run), event);
    }
    Onwards(holds, events, more);
  }

  // ----- Starting -----

  /** What a start finds wrong before it opens anything, if so; then it leaves everything as it was. */
  function NotBegun(h: Host, s: StartAnswers): Option<CallResult> {
    if !h.state.New? || !s.profileOk then Some(Fault(ProfileIncompatible))
    else if !s.launch.Fine? then Some(s.launch)
    else if !s.loop.NoError? then Some(FromLocal(s.loop))
    else None
  }

  /** A start is taken on exactly when nothing is found wrong, the backends open, and the package source
      and the core agree; then the host is starting, and the core owes its answer. If the backends do not
      open the host is destroyed; if what comes after them fails it is torn down under that fault. A start
      that is not taken on never calls its completion. */
  lemma StartMeans(w: World, h: Host, completion: Option<Token>, s: StartAnswers, a: Answers)
    requires Sound(h)
    ensures var (result, r) := Start(w, h, completion, s, a);
            var open := BL.Open(w.setup, w.ports, h.teardown.backend, Some(w.owner)).error;
            var later := if s.package.Fine? then s.core else s.package;
            && r.answers == h.answers
            && (NotBegun(h, s).Some? ==> result == NotBegun(h, s).value && r == h)
            && (NotBegun(h, s).None? && !open.NoError? ==> result == FromLocal(open) && r.state.Destroyed?)
            && (NotBegun(h, s).None? && open.NoError? && !later.Fine? ==>
                  && result == later && (r.state.Failed? || r.state.Destroyed?) && r.teardown.result == later
                  && (r.state.Failed? ==> r.teardown.started) && r.startCompletion.None? && r.accepted == h.accepted)
            && (NotBegun(h, s).None? && open.NoError? && later.Fine? ==>
                  && result.Fine? && r.state.Starting? && r.start.owed && !r.start.ready && r.teardown.packageOpen
                  && r.startCompletion == completion && !r.teardown.started)
  {
    var up := h.(teardown := h.teardown.(backend := BL.Open(w.setup, w.ports, h.teardown.backend, Some(w.owner)).b));
    if !s.package.Fine? {
      GivenUpEnds(w, up, s.package, a);
    } else if !s.core.Fine? {
      GivenUpEnds(w, PackageOpened(up), s.core, a);
    }
  }

  lemma GivenUpEnds(w: World, h: Host, result: CallResult, a: Answers)
    requires !result.Fine?
    ensures var r := GiveUpStart(w, h, result, a);
            && (r.state.Failed? || r.state.Destroyed?) && r.teardown.result == result
            && (r.state.Failed? ==> r.teardown.started) && r.startCompletion.None? && r.accepted == h.accepted
            && (h.destroyCompletion.None? ==> r.answers == h.answers)
  {
    var failed := GivenUp(h, result);
    FaultKept(w, failed.teardown, a);
    TearDownStarted(w, failed.teardown, a);
  }

  // ----- The core's answer waits -----

  predicate NoPump(events: seq<Event>) {
    forall e <- events :: !e.DoPump?
  }

  /** What a start comes to: done only if the core says so and has presented. */
  function Verdict(result: CallResult, presented: bool): CallResult {
    if !result.Fine? then result else if presented then Fine else Fault(PresentationFailed)
  }

  /** The core's answer waits for a pump, or a destroy came in between. */
  predicate Awaits(h: Host, verdict: CallResult, completion: Option<Token>) {
    || h.state.Destroying?
    || (h.state.Starting? && h.start.ready && h.start.result == verdict && h.startCompletion == completion)
  }

  lemma StillAwaits(w: World, h: Host, event: Event, verdict: CallResult, completion: Option<Token>)
    requires Sound(h) && Awaits(h, verdict, completion) && !event.DoPump?
    ensures Awaits(Apply(w, h, event), verdict, completion)
  {
    if !event.DoStart? {
      Bystanders(w, h, event);
    }
  }

  lemma {:induction false} AnswerAwaits(
    w: World, before: seq<Event>, result: CallResult, presented: bool, between: seq<Event>)
    requires History(w, before).state.Starting? && History(w, before).start.owed && NoPump(between)
    ensures Awaits(History(w, before + [DoCoreStarted(result, presented)] + between), Verdict(result, presented),
                   History(w, before).startCompletion)
    decreases |between|
  {
    var start := before + [DoCoreStarted(result, presented)];
    if between == [] {
      NextEvent(w, before, DoCoreStarted(result, presented));
      assert start + between == start;
    } else {
      var n := |between| - 1;
      AnswerAwaits(w, before, result, presented, between[..n]);
      HistoryKeeps(w, start + between[..n], 0);
      NextEvent(w, start + between[..n], between[n]);
      assert start + between[..n] + [between[n]] == start + between;
      StillAwaits(w, History(w, start + between[..n]), between[n], Verdict(result, presented),
                  History(w, before).startCompletion);
    }
  }

  // ----- A pump takes it up -----

  /** The pump of the owner queue goes through. */
  predicate Pumps(w: World, h: Host) {
    var error := Tasks.Pump(w.setup, h.teardown.backend.queue, w.owner, 0).error;
    error.NoError? || error.InvalidState?
  }

  lemma {:induction false} IdleProcessed(h: Host, i: nat)
    requires i <= |h.controls| && !AnyActive(h.controls)
    ensures ProcessControls(h, i) == h
    decreases |h.controls| - i
  {
    if i < |h.controls| {
      IdleProcessed(h, i + 1);
    }
  }

  /** What a pump makes of a start that came back. */
  lemma PumpTakesStart(w: World, h: Host, a: Answers)
    requires Sound(h) && h.state.Starting? && h.start.ready && Pumps(w, h)
    ensures var r := PumpOnce(w, h, a).1;
            && (h.start.result.Fine? ==>
                  && r.state.Running? && !r.teardown.started && r.startCompletion.None?
                  && r.answers == Told(h.answers, h.startCompletion, Fine))
            && (!h.start.result.Fine? ==>
                  && (r.state.Failed? || r.state.Destroyed?) && r.teardown.result == h.start.result
                  && (r.state.Failed? ==> r.teardown.started && r.answers == h.answers)
                  && (r.state.Destroyed? ==> r.answers == Told(h.answers, h.startCompletion, h.start.result)))
  {
    var queue := Tasks.Pump(w.setup, h.teardown.backend.queue, w.owner, 0).q;
    var taken := ProcessStart(QueuePumped(h, queue));
    IdleProcessed(taken, 0);
    if !h.start.result.Fine? {
      FaultKept(w, taken.teardown, a);
      TearDownStarted(w, taken.teardown, a);
    }
  }

  /** A teardown keeps the fault that it began with. */
  lemma FaultKept(w: World, d: Teardown, a: Answers)
    requires !d.result.Fine?
    ensures TearDown(w, d, a).1.result == d.result
  {
    var services := StopServices(d, a).1;
    AfterBeginKeeps(services, BL.BeginStop(w.setup, w.ports, services.backend, w.owner, Tasks.Drain));
    var begun := BeginBackends(w, services).1;
    AfterFinishKeeps(begun, BL.FinishStop(w.setup, w.ports, begun.backend, w.owner));
  }

  lemma AfterBeginKeeps(d: Teardown, begin: BL.Outcome)
    requires !d.result.Fine?
    ensures AfterBegin(d, begin).1.result == d.result
  {
  }

  lemma AfterFinishKeeps(d: Teardown, finish: BL.Outcome)
    requires !d.result.Fine?
    ensures AfterFinish(d, finish).1.result == d.result
  {
  }

  /** What a pump makes of a host whose start came back with this verdict. */
  ghost predicate StartedOrNot(h: Host, r: Host, verdict: CallResult, completion: Option<Token>) {
    && (verdict.Fine? ==>
          && r.state.Running? && !r.teardown.started && r.startCompletion.None?
          && r.answers == h.answers + (if completion.Some? then [Answer(completion.value, Fine)] else []))
    && (!verdict.Fine? ==>
          && (r.state.Failed? || r.state.Destroyed?) && (r.state.Failed? ==> r.teardown.started)
          && r.teardown.result == verdict)
  }

  lemma StartPumped(w: World, h: Host, verdict: CallResult, completion: Option<Token>, a: Answers)
    requires Sound(h) && Awaits(h, verdict, completion) && h.state.Starting? && Pumps(w, h)
    ensures StartedOrNot(h, PumpOnce(w, h, a).1, verdict, completion)
  {
    PumpTakesStart(w, h, a);
  }

  lemma PumpedHistory(w: World, events: seq<Event>, a: Answers)
    ensures Sound(History(w, events)) && History(w, events + [DoPump(a)]) == PumpOnce(w, History(w, events), a).1
  {
    HistoryKeeps(w, events, 0);
    NextEvent(w, events, DoPump(a));
  }

  /** The core calls a start back, and a pump comes before any destroy. Done and presented: that pump has
      the host running and calls the start's completion with success. Otherwise: that pump begins the
      teardown under the core's fault, or a presentation that failed, and the host never runs. */
  lemma StartEnds(
    w: World, before: seq<Event>, result: CallResult, presented: bool, between: seq<Event>, a: Answers)
    requires History(w, before).state.Starting? && History(w, before).start.owed && NoPump(between)
    requires var h := History(w, before + [DoCoreStarted(result, presented)] + between);
             h.state.Starting? && Pumps(w, h)
    ensures var events := before + [DoCoreStarted(result, presented)] + between;
            && StartedOrNot(History(w, events), History(w, events + [DoPump(a)]),
                            if !result.Fine? then result else if presented then Fine else Fault(PresentationFailed),
                            History(w, before).startCompletion)
            && (!(result.Fine? && presented) ==> forall more :: !History(w, events + [DoPump(a)] + more).state.Running?)
  {
    var events := before + [DoCoreStarted(result, presented)] + between;
    AnswerAwaits(w, before, result, presented, between);
    PumpedHistory(w, events, a);
    StartPumped(w, History(w, events), Verdict(result, presented), History(w, before).startCompletion, a);
    if !(result.Fine? && presented) {
      NeverRuns(w, events + [DoPump(a)]);
    }
  }

  lemma NeverRuns(w: World, events: seq<Event>)
    requires Past(History(w, events))
    ensures forall more :: !History(w, events + more).state.Running?
  {
    forall more ensures !History(w, events + more).state.Running? {
      NeverRunsAgain(w, events, more);
    }
  }

  // ----- No other way -----

  /** The core called a start back as done and presented. */
  ghost predicate CameBack(w: World, events: seq<Event>, i: nat) {
    && i < |events| && History(w, events[..i]).state.Starting? && History(w, events[..i]).start.owed
    && exists e: Event :: events[i] == e && e.DoCoreStarted? && e.result.Fine? && e.presented
  }

  /** After that a pump of the starting host had it running. */
  ghost predicate RunsSince(w: World, events: seq<Event>, i: nat, j: nat) {
    && CameBack(w, events, i) && i < j < |events| && events[j].DoPump?
    && History(w, events[..j]).state.Starting? && History(w, events[..j + 1]).state.Running?
  }

  /** What explains that a host has a start that is done, or runs. */
  ghost predicate Explained(w: World, events: seq<Event>) {
    var h := History(w, events);
    && (h.state.Starting? && h.start.ready && h.start.result.Fine? ==> exists i :: CameBack(w, events, i))
    && (h.state.Running? ==> exists i, j :: RunsSince(w, events, i, j))
  }

  lemma CameBackBefore(w: World, events: seq<Event>, i: nat)
    requires events != [] && CameBack(w, events[..|events| - 1], i)
    ensures CameBack(w, events, i)
  {
    assert events[..|events| - 1][..i] == events[..i];
  }

  lemma RunsBefore(w: World, events: seq<Event>, i: nat, j: nat)
    requires events != [] && RunsSince(w, events[..|events| - 1], i, j)
    ensures RunsSince(w, events, i, j)
  {
    CameBackBefore(w, events, i);
    assert events[..|events| - 1][..j] == events[..j];
    assert events[..|events| - 1][..j + 1] == events[..j + 1];
  }

  lemma StartIsNew(w: World, h: Host, completion: Option<Token>, s: StartAnswers, a: Answers)
    requires Sound(h)
    ensures var r := Start(w, h, completion, s, a).1;
            !h.state.New? ==> r == h
    ensures var r := Start(w, h, completion, s, a).1;
            h.state.New? ==> !r.state.Running? && (r.state.Starting? ==> !r.start.ready)
  {
    if h.state.New? {
      var launch := BL.Open(w.setup, w.ports, h.teardown.backend, Some(w.owner));
      var up := h.(teardown := h.teardown.(backend := launch.b));
      ProgressStaysPast(w, GivenUp(up, s.package), a);
      ProgressStaysPast(w, GivenUp(PackageOpened(up), s.core), a);
    }
  }

  /** A start that is done, or a host that runs, was so before the event, or the core called back or a
      pump took it up. */
  lemma HowItRuns(w: World, h: Host, event: Event)
    requires Sound(h)
    ensures var r := Apply(w, h, event);
            r.state.Starting? && r.start.ready && r.start.result.Fine? ==>
              || (h.state.Starting? && h.start.ready && h.start.result.Fine?)
              || (h.state.Starting? && h.start.owed && event.DoCoreStarted? && event.result.Fine? && event.presented)
    ensures Apply(w, h, event).state.Running? ==>
              h.state.Running? || (h.state.Starting? && h.start.ready && h.start.result.Fine? && event.DoPump?)
  {
    match event
    case DoStart(completion, s, a) => StartIsNew(w, h, completion, s, a);
    case DoPump(a) => PumpRunsOnly(w, h, a);
    case _ => Bystanders(w, h, event);
  }

  lemma PumpRunsOnly(w: World, h: Host, a: Answers)
    requires Sound(h)
    ensures var r := PumpOnce(w, h, a).1;
            && (r.state.Running? ==> h.state.Running? || (h.state.Starting? && h.start.ready && h.start.result.Fine?))
            && (r.state.Starting? ==> h.state.Starting? && (r.start.ready ==> h.start == r.start))
  {
    var pumped := QueuePumped(h, Tasks.Pump(w.setup, h.teardown.backend.queue, w.owner, 0).q);
    ProcessedBackend(ProcessStart(pumped), 0);
    if Past(Processed(w, h)) {
      ProgressStaysPast(w, Processed(w, h), a);
    }
  }

  lemma ExplainedNext(w: World, events: seq<Event>)
    requires events != [] && Explained(w, events[..|events| - 1])
    ensures Explained(w, events)
  {
    var n := |events| - 1;
    var h, r := History(w, events[..n]), History(w, events);
    HistoryKeeps(w, events[..n], 0);
    HowItRuns(w, h, events[n]);
    if h.state.Starting? && h.start.ready && h.start.result.Fine? {
      var i :| CameBack(w, events[..n], i);
      CameBackBefore(w, events, i);
      if r.state.Running? {
        assert events[..n + 1] == events;
        assert RunsSince(w, events, i, n);
      }
    } else if r.state.Starting? && r.start.ready && r.start.result.Fine? {
      assert CameBack(w, events, n);
    }
    if h.state.Running? {
      var i, j :| RunsSince(w, events[..n], i, j);
      RunsBefore(w, events, i, j);
    }
  }

  lemma {:induction false} AlwaysExplained(w: World, events: seq<Event>)
    ensures Explained(w, events)
  {
    if events != [] {
      AlwaysExplained(w, events[..|events| - 1]);
      ExplainedNext(w, events);
    }
  }

  /** In every run: a host that runs was starting when the core called its start back as done and
      presented, and a pump took that up while it was starting still. */
  lemma RunsOnlyByStart(w: World, events: seq<Event>)
    requires History(w, events).state.Running?
    ensures exists i, j :: RunsSince(w, events, i, j)
  {
    AlwaysExplained(w, events);
  }
}
