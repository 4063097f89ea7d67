/** The runtime host: what it owes its callers, what the core owes it, and how it tears down. The
    core calls back at most once for each call it admitted; completions do not call back in. */
module RuntimeHosts {
  import opened Wrappers
  import opened OwnerTasks
  import BL = BackendLifecycles

  /** A caller's completion; a null callback is no token. */
  type Token = nat

  const MAX_PENDING_CONTROLS := 8

  datatype HostState = New | Starting | Running | Destroying | Failed | Destroyed

  datatype CallResult = Fine | Fault(code: ErrorCode)

  datatype ErrorCode =
    | ProfileIncompatible | AbiInvalidArgument | LifecycleBusy | QueueOverflow | FeatureUnsupported
    | PresentationFailed | PlatformRejected | FromCore(number: nat)

  datatype Signal = Resume | Suspend | Shutdown

  /** A control slot. `owed` says that the core admitted its control and has not called back. */
  datatype Control = Control(active: bool, destroys: bool, caller: Option<Token>, owed: bool, ready: bool, result: CallResult)

  const IDLE_CONTROL := Control(false, false, None, false, false, Fault(PlatformRejected))

  /** The start that the core admitted: `owed` that it has not called back, `ready` that its result
      waits, `pending` either. */
  datatype StartUp = StartUp(pending: bool, owed: bool, ready: bool, result: CallResult)

  datatype Teardown = Teardown(started: bool, packageOpen: bool, stopBegun: bool, result: CallResult, backend: BL.Backend)

  datatype Notes = Notes(lastSignal: Option<Signal>, overflows: nat, duplicates: nat)

  /** A completion was called with a result. */
  datatype Answer = Answer(token: Token, result: CallResult)

  /** `accepted` counts, for each completion, the calls that took it on; `answers` are the completions
      called so far, in order. */
  datatype Host = Host(
    state: HostState, startCompletion: Option<Token>, destroyCompletion: Option<Token>, controls: seq<Control>,
    start: StartUp, teardown: Teardown, notes: Notes, accepted: multiset<Token>, answers: seq<Answer>)

  function NewHost(): Host {
    Host(New, None, None, seq(MAX_PENDING_CONTROLS, i => IDLE_CONTROL),
         StartUp(false, false, false, Fault(PlatformRejected)), Teardown(false, false, false, Fine, BL.UNOPENED),
         Notes(None, 0, 0), multiset{}, [])
  }

  /** The owner, its queue and its backends. */
  datatype World = World(owner: Owner, setup: Setup, ports: BL.Ports)

  function FromLocal(error: LocalError): CallResult {
    match error
    case NoError => Fine
    case CapacityExhausted => Fault(QueueOverflow)
    case Busy => Fault(LifecycleBusy)
    case Unsupported => Fault(FeatureUnsupported)
    case InvalidArgument => Fault(AbiInvalidArgument)
    case WrongThread => Fault(AbiInvalidArgument)
    case InvalidState => Fault(AbiInvalidArgument)
    case BackendFailed => Fault(PlatformRejected)
  }

  /** One more of a completion, if there is one. */
  function Plus(counts: multiset<Token>, completion: Option<Token>): multiset<Token> {
    if completion.Some? then counts[completion.value := counts[completion.value] + 1] else counts
  }

  function Times(completion: Option<Token>, t: Token): nat {
    if completion == Some(t) then 1 else 0
  }

  /** How often a completion was called. */
  function Calls(answers: seq<Answer>, t: Token): nat {
    if answers == [] then 0
    else Calls(answers[..|answers| - 1], t) + if answers[|answers| - 1].token == t then 1 else 0
  }

  function Told(answers: seq<Answer>, completion: Option<Token>, result: CallResult): seq<Answer> {
    if completion.None? then answers else answers + [Answer(completion.value, result)]
  }

  lemma ToldCalls(answers: seq<Answer>, completion: Option<Token>, result: CallResult, t: Token)
    ensures Calls(Told(answers, completion, result), t) == Calls(answers, t) + Times(completion, t)
  {
    if completion.Some? {
      assert (answers + [Answer(completion.value, result)])[..|answers|] == answers;
    }
  }

  function CallBack(h: Host, completion: Option<Token>, result: CallResult): Host {
    h.(answers := Told(h.answers, completion, result))
  }

  function Accept(h: Host, completion: Option<Token>): Host {
    h.(accepted := Plus(h.accepted, completion))
  }

  // ----- Teardown -----

  /** The first problem of the teardown is kept. */
  function Remember(d: Teardown, result: CallResult): Teardown {
    if d.result.Fine? then d.(result := result) else d
  }

  /** What the JS services and the package source answer in one go at the teardown; services may be
      live again at its end. */
  datatype Answers = Answers(
    liveBefore: bool, stop: CallResult, liveAfter: bool, packageClose: LocalError, liveAtEnd: bool)

  predicate AnyActive(controls: seq<Control>) {
    exists i :: 0 <= i < |controls| && controls[i].active
  }

  /** Stops the JS services and closes the package source; whether the teardown goes on. */
  function StopServices(d: Teardown, a: Answers): (bool, Teardown) {
    var stopped := if a.liveBefore && !a.stop.Fine? then Remember(d, a.stop) else d;
    if a.liveBefore && a.liveAfter then (false, stopped)
    else if !d.packageOpen then (true, stopped)
    else if a.packageClose.Busy? then (false, stopped)
    else
      var closed := if a.packageClose.NoError? then stopped else Remember(stopped, FromLocal(a.packageClose));
      (true, closed.(packageOpen := false))
  }

  function AfterBegin(d: Teardown, begin: BL.Outcome): (bool, Teardown) {
    var after := d.(backend := begin.b);
    if begin.error.Busy? then (false, after)
    else
      var noted := if begin.error.NoError? then after else Remember(after, FromLocal(begin.error));
      (true, noted.(stopBegun := true))
  }

  /** Begins the stop of the backends once, if they run. */
  function BeginBackends(w: World, d: Teardown): (bool, Teardown) {
    if !d.backend.state.Running? || d.stopBegun then (true, d)
    else AfterBegin(d, BL.BeginStop(w.setup, w.ports, d.backend, w.owner, Drain))
  }

  function AfterFinish(d: Teardown, finish: BL.Outcome): (bool, Teardown) {
    var after := d.(backend := finish.b);
    if finish.error.Busy? then (false, after)
    else (finish.b.state.Closed?, if finish.error.NoError? then after else Remember(after, FromLocal(finish.error)))
  }

  function FinishBackends(w: World, d: Teardown): (bool, Teardown) {
    if !d.backend.state.Stopping? then (d.backend.state.Closed?, d)
    else AfterFinish(d, BL.FinishStop(w.setup, w.ports, d.backend, w.owner))
  }

  /** How far a teardown gets; whether everything has stopped. */
  function TearDown(w: World, d: Teardown, a: Answers): (bool, Teardown) {
    var services := StopServices(d, a);
    if !services.0 then services
    else
      var begun := BeginBackends(w, services.1);
      if !begun.0 then begun else FinishBackends(w, begun.1)
  }

  /** Everything has stopped: the start's completion, if it is still owed, and the destroy's are called
      with what the teardown came to. */
  function Finish(h: Host, live: bool): Host {
    var d := if live then Remember(h.teardown, Fault(PlatformRejected)) else h.teardown;
    var ended := h.(state := Destroyed, teardown := d.(started := false), startCompletion := None,
                    destroyCompletion := None);
    CallBack(CallBack(ended, h.startCompletion, d.result), h.destroyCompletion, d.result)
  }

  function ProgressTeardown(w: World, h: Host, a: Answers): Host {
    if !h.teardown.started || h.state.Destroyed? || h.start.pending || AnyActive(h.controls) then h
    else
      var torn := TearDown(w, h.teardown, a);
      var after := h.(teardown := torn.1);
      if torn.0 then Finish(after, a.liveAtEnd) else after
  }

  /** A start failed after the backends were open. */
  function GivenUp(h: Host, result: CallResult): Host {
    h.(state := Failed, teardown := h.teardown.(started := true, result := result), startCompletion := None)
  }

  function GiveUpStart(w: World, h: Host, result: CallResult, a: Answers): Host {
    ProgressTeardown(w, GivenUp(h, result), a)
  }

  // ----- Calls -----

  /** What start finds: the profile and the composition, the loop, the package source and the core. */
  datatype StartAnswers = StartAnswers(profileOk: bool, launch: CallResult, loop: LocalError, package: CallResult, core: CallResult)

  function Start(w: World, h: Host, completion: Option<Token>, s: StartAnswers, a: Answers): (CallResult, Host) {
    if !h.state.New? || !s.profileOk then (Fault(ProfileIncompatible), h)
    else if !s.launch.Fine? then (s.launch, h)
    else if !s.loop.NoError? then (FromLocal(s.loop), h)
    else
      var launch := BL.Open(w.setup, w.ports, h.teardown.backend, Some(w.owner));
      var up := h.(teardown := h.teardown.(backend := launch.b));
      if !launch.error.NoError? then (FromLocal(launch.error), up.(state := Destroyed))
      else Launched(w, up, completion, s, a)
  }

  function PackageOpened(h: Host): Host {
    h.(teardown := h.teardown.(packageOpen := true))
  }

  /** The core admitted the start. */
  function Admitted(h: Host, completion: Option<Token>): Host {
    Accept(h, completion).(
      startCompletion := completion, state := Starting, start := h.start.(pending := true, owed := true))
  }

  /** The rest of a start, once the backends are open: the package source, then the core. */
  function Launched(w: World, up: Host, completion: Option<Token>, s: StartAnswers, a: Answers): (CallResult, Host) {
    if !s.package.Fine? then (s.package, GiveUpStart(w, up, s.package, a))
    else if !s.core.Fine? then (s.core, GiveUpStart(w, PackageOpened(up), s.core, a))
    else (Fine, Admitted(PackageOpened(up), completion))
  }

  function FreeControl(controls: seq<Control>, i: nat): (r: Option<nat>)
    requires i <= |controls|
    ensures r.Some? ==> i <= r.value < |controls| && !controls[r.value].active
    decreases |controls| - i
  {
    if i == |controls| then None else if !controls[i].active then Some(i) else FreeControl(controls, i + 1)
  }

  function Overflowed(h: Host): Host {
    h.(notes := h.notes.(overflows := h.notes.overflows + 1))
  }

  /** Asks the core: for a request id, then to admit the control. */
  function BeginControl(
    h: Host, destroys: bool, completion: Option<Token>, request: CallResult, core: CallResult): (CallResult, Host)
  {
    var free := FreeControl(h.controls, 0);
    if free.None? then (Fault(QueueOverflow), Overflowed(h))
    else if !request.Fine? then (request, h)
    else if !core.Fine? then (core, h)
    else
      (Fine, Accept(h, completion).(
        controls := h.controls[free.value := Control(true, destroys, completion, true, false, Fault(PlatformRejected))]))
  }

  function ControlCall(h: Host, completion: Option<Token>, request: CallResult, core: CallResult): (CallResult, Host) {
    if !h.state.Running? then (Fault(LifecycleBusy), h) else BeginControl(h, false, completion, request, core)
  }

  function DestroyCall(h: Host, completion: Option<Token>, request: CallResult, core: CallResult): (CallResult, Host) {
    if !h.state.Running? && !h.state.Starting? then (Fault(LifecycleBusy), h)
    else
      var begun := BeginControl(h, true, completion, request, core);
      if begun.0.Fine? then (Fine, begun.1.(state := Destroying, destroyCompletion := completion))
      else (begun.0, begun.1.(destroyCompletion := None))
  }

  /** A completion taken on and called at once. */
  function Answered(h: Host, completion: Option<Token>, result: CallResult): Host {
    CallBack(Accept(h, completion), completion, result)
  }

  function Passed(
    h: Host, signal: Signal, completion: Option<Token>, request: CallResult, core: CallResult): (CallResult, Host)
  {
    if signal.Shutdown? then DestroyCall(h, completion, request, core) else ControlCall(h, completion, request, core)
  }

  /** A host signal, as its owner task handles it: its completion is called at once if the signal
      repeats the last one or is turned down. */
  function HandleSignal(
    h: Host, signal: Signal, completion: Option<Token>, request: CallResult, core: CallResult): Host
  {
    if h.notes.lastSignal == Some(signal) then
      Answered(h.(notes := h.notes.(duplicates := h.notes.duplicates + 1)), completion, Fine)
    else
      var done := Passed(h, signal, completion, request, core);
      if done.0.Fine? then done.1.(notes := done.1.notes.(lastSignal := Some(signal)))
      else Answered(done.1, completion, done.0)
  }

  // ----- The core calls back -----

  function CoreStarted(h: Host, result: CallResult, presented: bool): Host {
    if !h.start.owed then h
    else
      h.(start := h.start.(
           owed := false, ready := true,
           result := if result.Fine? && !presented then Fault(PresentationFailed) else result))
  }

  function CoreControlled(h: Host, i: nat, result: CallResult, matches: bool): Host {
    if i >= |h.controls| || !h.controls[i].owed then h
    else
      h.(controls := h.controls[i := h.controls[i].(
           owed := false, ready := true, result := if matches then result else Fault(AbiInvalidArgument))])
  }

  // ----- The pump -----

  function ProcessStart(h: Host): Host {
    if !h.start.ready then h
    else
      var seen := h.(start := h.start.(ready := false, pending := false));
      if h.start.result.Fine? && h.state.Starting? then
        CallBack(seen, h.startCompletion, Fine).(state := HostState.Running, startCompletion := None)
      else if !h.state.Destroying? then
        seen.(state := Failed, teardown := h.teardown.(started := true, result := h.start.result))
      else seen
  }

  /** One control slot: its caller is called, unless the control destroys the runtime, which starts
      the teardown. */
  function ProcessControl(h: Host, i: nat): (r: Host)
    requires i < |h.controls|
    ensures |r.controls| == |h.controls|
  {
    var slot := h.controls[i];
    if !slot.active || !slot.ready then h
    else
      var released := h.(controls := h.controls[i := IDLE_CONTROL]);
      if slot.destroys then
        released.(destroyCompletion := slot.caller, teardown := h.teardown.(started := true, result := slot.result))
      else CallBack(released, slot.caller, slot.result)
  }

  function ProcessControls(h: Host, i: nat): (r: Host)
    requires i <= |h.controls|
    decreases |h.controls| - i
  {
    if i == |h.controls| then h else ProcessControls(ProcessControl(h, i), i + 1)
  }

  function QueuePumped(h: Host, queue: Queue): Host {
    h.(teardown := h.teardown.(backend := h.teardown.backend.(queue := queue)))
  }

  function PumpOnce(w: World, h: Host, a: Answers): (LocalError, Host) {
    if h.state.Destroyed? || h.state.New? then (InvalidState, h)
    else
      var pumped := Pump(w.setup, h.teardown.backend.queue, w.owner, 0);
      var after := QueuePumped(h, pumped.q);
      if !pumped.error.NoError? && !pumped.error.InvalidState? then (pumped.error, after)
      else (NoError, ProgressTeardown(w, ProcessControls(ProcessStart(after), 0), a))
  }

  // ----- Whole runs -----

  datatype Event =
    | DoStart(completion: Option<Token>, s: StartAnswers, a: Answers)
    | DoControl(completion: Option<Token>, request: CallResult, core: CallResult)
    | DoDestroy(completion: Option<Token>, request: CallResult, core: CallResult)
    | DoSignal(signal: Signal, completion: Option<Token>, request: CallResult, core: CallResult)
    | DoCoreStarted(result: CallResult, presented: bool)
    | DoCoreControlled(slot: nat, result: CallResult, matches: bool)
    | DoPump(a: Answers)

  function Apply(w: World, h: Host, event: Event): Host {
    match event
    case DoStart(completion, s, a) => Start(w, h, completion, s, a).1
    case DoControl(completion, request, core) => ControlCall(h, completion, request, core).1
    case DoDestroy(completion, request, core) => DestroyCall(h, completion, request, core).1
    case DoSignal(signal, completion, request, core) => HandleSignal(h, signal, completion, request, core)
    case DoCoreStarted(result, presented) => CoreStarted(h, result, presented)
    case DoCoreControlled(slot, result, matches) => CoreControlled(h, slot, result, matches)
    case DoPump(a) => PumpOnce(w, h, a).1
  }

  function History(w: World, events: seq<Event>): Host {
    if events == [] then NewHost() else Apply(w, History(w, events[..|events| - 1]), events[|events| - 1])
  }

  // ----- What every run keeps -----

  function CallerTimes(control: Control, t: Token): nat {
    if control.active then Times(control.caller, t) else 0
  }

  /** How often a completion is that of an active control. */
  function Waiting(controls: seq<Control>, t: Token): nat {
    if controls == [] then 0 else Waiting(controls[..|controls| - 1], t) + CallerTimes(controls[|controls| - 1], t)
  }

  ghost predicate DestroyActive(controls: seq<Control>) {
    exists i :: 0 <= i < |controls| && controls[i].active && controls[i].destroys
  }

  /** How often a completion is still to be called. A destroy's is counted with its control until
      that is done. */
  ghost function Owed(h: Host, t: Token): nat {
    Times(h.startCompletion, t) + Waiting(h.controls, t)
    + (if DestroyActive(h.controls) then 0 else Times(h.destroyCompletion, t))
  }

  /** A completion was taken on as often as it was called and is still to be. */
  ghost predicate Balanced(h: Host, t: Token) {
    h.accepted[t] == Calls(h.answers, t) + Owed(h, t)
  }

  ghost predicate ControlOk(control: Control) {
    && (!control.active ==> control == IDLE_CONTROL)
    && (control.active ==> (control.owed <==> !control.ready))
  }

  ghost predicate ControlsOk(controls: seq<Control>) {
    && |controls| == MAX_PENDING_CONTROLS
    && (forall i :: 0 <= i < |controls| ==> ControlOk(controls[i]))
    && (forall i, j :: 0 <= i < j < |controls| && controls[i].active && controls[i].destroys && controls[j].active ==>
          !controls[j].destroys)
  }

  ghost predicate PhaseOk(h: Host) {
    && (h.start.pending <==> (h.start.owed || h.start.ready)) && !(h.start.owed && h.start.ready)
    && (h.state.New? ==> Idle(h))
    && (h.state.Starting? ==> h.start.pending && !AnyActive(h.controls))
    && (h.state.New? || h.state.Starting? || h.state.Running? ==> !h.teardown.started && h.destroyCompletion.None?)
    && (h.state.Running? ==> !h.start.pending && h.startCompletion.None?)
    && (h.state.Failed? ==> h.teardown.started && h.destroyCompletion.None?)
    && (DestroyActive(h.controls) ==> h.state.Destroying? && !h.teardown.started)
    && (h.state.Destroying? ==> DestroyActive(h.controls) || h.teardown.started)
    && (h.state.Destroyed? ==> Idle(h))
  }

  /** Nothing is owed and nothing is awaited. */
  ghost predicate Idle(h: Host) {
    h.startCompletion.None? && h.destroyCompletion.None? && !AnyActive(h.controls) && !h.start.pending
  }

  ghost predicate Sound(h: Host) {
    ControlsOk(h.controls) && PhaseOk(h)
  }

  // ----- Counting what is owed -----

  lemma {:induction false} WaitingUpdate(controls: seq<Control>, i: nat, control: Control, t: Token)
    requires i < |controls|
    ensures Waiting(controls[i := control], t)
         == Waiting(controls, t) - CallerTimes(controls[i], t) + CallerTimes(control, t)
  {
    var n := |controls| - 1;
    if i == n {
      assert controls[i := control][..n] == controls[..n];
    } else {
      assert controls[i := control][..n] == controls[..n][i := control];
      WaitingUpdate(controls[..n], i, control, t);
    }
  }

  lemma {:induction false} NoneWaiting(controls: seq<Control>, t: Token)
    requires !AnyActive(controls)
    ensures Waiting(controls, t) == 0
  {
    if controls != [] {
      NoneWaiting(controls[..|controls| - 1], t);
    }
  }

  lemma NewSound(t: Token)
    ensures Sound(NewHost()) && Balanced(NewHost(), t)
  {
    NoneWaiting(NewHost().controls, t);
  }

  /** A control slot is taken: its caller waits. */
  lemma TakeControl(controls: seq<Control>, i: nat, control: Control, t: Token)
    requires ControlsOk(controls) && i < |controls| && !controls[i].active
    requires control.active && control.owed && !control.ready && (control.destroys ==> !DestroyActive(controls))
    ensures ControlsOk(controls[i := control])
    ensures Waiting(controls[i := control], t) == Waiting(controls, t) + Times(control.caller, t)
    ensures DestroyActive(controls[i := control]) <==> control.destroys || DestroyActive(controls)
  {
    WaitingUpdate(controls, i, control, t);
    var after := controls[i := control];
    if control.destroys {
      assert after[i].active && after[i].destroys;
    }
    if DestroyActive(controls) {
      var k :| 0 <= k < |controls| && controls[k].active && controls[k].destroys;
      assert after[k].active && after[k].destroys;
    }
  }

  /** What an accepted or a refused call leaves: refused, nothing but perhaps an overflow counted. */
  ghost predicate CallKept(h: Host, r: (CallResult, Host), t: Token) {
    && Sound(r.1) && Balanced(r.1, t)
    && (!r.0.Fine? ==> r.1 == h || r.1 == Overflowed(h))
  }

  function Taking(destroys: bool, completion: Option<Token>): Control {
    Control(true, destroys, completion, true, false, Fault(PlatformRejected))
  }

  lemma TakenControl(h: Host, i: nat, completion: Option<Token>, t: Token)
    requires Sound(h) && Balanced(h, t) && i < |h.controls| && !h.controls[i].active && h.state.Running?
    ensures var r := Accept(h, completion).(controls := h.controls[i := Taking(false, completion)]);
            Sound(r) && Balanced(r, t)
  {
    TakeControl(h.controls, i, Taking(false, completion), t);
  }

  lemma TakenDestroy(h: Host, i: nat, completion: Option<Token>, t: Token)
    requires Sound(h) && Balanced(h, t) && i < |h.controls| && !h.controls[i].active
    requires h.state.Running? || h.state.Starting?
    ensures var r := Accept(h, completion).(
                       controls := h.controls[i := Taking(true, completion)], state := Destroying,
                       destroyCompletion := completion);
            Sound(r) && Balanced(r, t)
  {
    TakeControl(h.controls, i, Taking(true, completion), t);
  }

  /** What a control call comes to: refused, or a slot taken. */
  lemma ControlIs(h: Host, destroys: bool, completion: Option<Token>, request: CallResult, core: CallResult)
    ensures var r := BeginControl(h, destroys, completion, request, core);
            var free := FreeControl(h.controls, 0);
            && (r.0.Fine? ==>
                  free.Some? && r.1 == Accept(h, completion).(controls := h.controls[free.value := Taking(destroys, completion)]))
            && (!r.0.Fine? ==> r.1 == h || r.1 == Overflowed(h))
  {
  }

  /** The core is asked the same whatever the host's state. */
  lemma AskedInAnyState(
    h: Host, state: HostState, destroyer: Option<Token>, destroys: bool, completion: Option<Token>, request: CallResult,
    core: CallResult)
    ensures var r := BeginControl(h, destroys, completion, request, core);
            BeginControl(h.(state := state, destroyCompletion := destroyer), destroys, completion, request, core)
            == (r.0, r.1.(state := state, destroyCompletion := destroyer))
  {
  }

  lemma CountedOverflow(h: Host, t: Token)
    requires Sound(h) && Balanced(h, t)
    ensures Sound(Overflowed(h)) && Balanced(Overflowed(h), t)
  {
  }

  lemma ControlKeeps(h: Host, completion: Option<Token>, request: CallResult, core: CallResult, t: Token)
    requires Sound(h) && Balanced(h, t)
    ensures CallKept(h, ControlCall(h, completion, request, core), t)
  {
    ControlIs(h, false, completion, request, core);
    CountedOverflow(h, t);
    if ControlCall(h, completion, request, core).0.Fine? {
      TakenControl(h, FreeControl(h.controls, 0).value, completion, t);
    }
  }

  lemma DestroyKeeps(h: Host, completion: Option<Token>, request: CallResult, core: CallResult, t: Token)
    requires Sound(h) && Balanced(h, t)
    ensures CallKept(h, DestroyCall(h, completion, request, core), t)
  {
    ControlIs(h, true, completion, request, core);
    CountedOverflow(h, t);
    if DestroyCall(h, completion, request, core).0.Fine? {
      TakenDestroy(h, FreeControl(h.controls, 0).value, completion, t);
    }
  }

  lemma AnsweredKeeps(h: Host, completion: Option<Token>, duplicates: nat, t: Token)
    requires Sound(h) && Balanced(h, t)
    ensures var r := Answered(h.(notes := h.notes.(duplicates := duplicates)), completion, Fine); Sound(r) && Balanced(r, t)
  {
    ToldCalls(h.answers, completion, Fine, t);
  }

  /** A signal that is passed on, or turned down with its completion called. */
  lemma PassedKeeps(h: Host, r: (CallResult, Host), signal: Signal, completion: Option<Token>, t: Token)
    requires CallKept(h, r, t)
    ensures var n := if r.0.Fine? then r.1.(notes := r.1.notes.(lastSignal := Some(signal))) else Answered(r.1, completion, r.0);
            Sound(n) && Balanced(n, t)
  {
    ToldCalls(r.1.answers, completion, r.0, t);
  }

  lemma SignalKeeps(h: Host, signal: Signal, completion: Option<Token>, request: CallResult, core: CallResult, t: Token)
    requires Sound(h) && Balanced(h, t)
    ensures Sound(HandleSignal(h, signal, completion, request, core))
    ensures Balanced(HandleSignal(h, signal, completion, request, core), t)
  {
    if h.notes.lastSignal == Some(signal) {
      AnsweredKeeps(h, completion, h.notes.duplicates + 1, t);
    } else if signal.Shutdown? {
      DestroyKeeps(h, completion, request, core, t);
      PassedKeeps(h, DestroyCall(h, completion, request, core), signal, completion, t);
    } else {
      ControlKeeps(h, completion, request, core, t);
      PassedKeeps(h, ControlCall(h, completion, request, core), signal, completion, t);
    }
  }

  /** The core's answer to a control arrives: nothing owed changes. */
  lemma ControlledKeeps(h: Host, i: nat, result: CallResult, matches: bool, t: Token)
    requires Sound(h) && Balanced(h, t)
    ensures Sound(CoreControlled(h, i, result, matches)) && Balanced(CoreControlled(h, i, result, matches), t)
  {
    if i < |h.controls| && h.controls[i].owed {
      var next := CoreControlled(h, i, result, matches);
      WaitingUpdate(h.controls, i, next.controls[i], t);
      SameActivity(h.controls, next.controls);
    }
  }

  lemma SameActivity(a: seq<Control>, b: seq<Control>)
    requires |a| == |b| && forall i :: 0 <= i < |a| ==> a[i].active == b[i].active && a[i].destroys == b[i].destroys
    ensures (AnyActive(a) <==> AnyActive(b)) && (DestroyActive(a) <==> DestroyActive(b))
  {
    if AnyActive(a) {
      var i :| 0 <= i < |a| && a[i].active;
      assert b[i].active;
    }
    if DestroyActive(a) {
      var i :| 0 <= i < |a| && a[i].active && a[i].destroys;
      assert b[i].active && b[i].destroys;
    }
  }

  // ----- The pump -----

  lemma ProcessStartKeeps(h: Host, t: Token)
    requires Sound(h) && Balanced(h, t)
    ensures Sound(ProcessStart(h)) && Balanced(ProcessStart(h), t)
  {
    ToldCalls(h.answers, h.startCompletion, Fine, t);
  }

  /** A control slot is freed. */
  lemma FreeSlotKeeps(controls: seq<Control>, i: nat, t: Token)
    requires ControlsOk(controls) && i < |controls| && controls[i].active
    ensures ControlsOk(controls[i := IDLE_CONTROL])
    ensures Waiting(controls[i := IDLE_CONTROL], t) + Times(controls[i].caller, t) == Waiting(controls, t)
    ensures controls[i].destroys ==> DestroyActive(controls) && !DestroyActive(controls[i := IDLE_CONTROL])
    ensures !controls[i].destroys ==> (DestroyActive(controls[i := IDLE_CONTROL]) <==> DestroyActive(controls))
  {
    WaitingUpdate(controls, i, IDLE_CONTROL, t);
    var after := controls[i := IDLE_CONTROL];
    if !controls[i].destroys && DestroyActive(controls) {
      var k :| 0 <= k < |controls| && controls[k].active && controls[k].destroys;
      assert after[k].active && after[k].destroys;
    }
  }

  lemma ProcessControlKeeps(h: Host, i: nat, t: Token)
    requires Sound(h) && Balanced(h, t) && i < |h.controls|
    ensures Sound(ProcessControl(h, i)) && Balanced(ProcessControl(h, i), t)
  {
    if h.controls[i].active && h.controls[i].ready {
      FreeSlotKeeps(h.controls, i, t);
      ToldCalls(h.answers, h.controls[i].caller, h.controls[i].result, t);
    }
  }

  lemma {:induction false} ProcessControlsKeeps(h: Host, i: nat, t: Token)
    requires Sound(h) && Balanced(h, t) && i <= |h.controls|
    ensures Sound(ProcessControls(h, i)) && Balanced(ProcessControls(h, i), t)
    decreases |h.controls| - i
  {
    if i < |h.controls| {
      ProcessControlKeeps(h, i, t);
      ProcessControlsKeeps(ProcessControl(h, i), i + 1, t);
    }
  }

  // ----- Teardown -----

  /** A teardown that is not at its end concerns only its own record. */
  lemma TornKeeps(h: Host, d: Teardown, t: Token)
    requires Sound(h) && Balanced(h, t) && d.started == h.teardown.started
    ensures Sound(h.(teardown := d)) && Balanced(h.(teardown := d), t)
  {
  }

  /** The end of a teardown calls what is still owed, and then nothing is. */
  lemma FinishKeeps(h: Host, live: bool, t: Token)
    requires Sound(h) && Balanced(h, t) && h.teardown.started && !h.start.pending && !AnyActive(h.controls)
    ensures var r := Finish(h, live); Sound(r) && Balanced(r, t) && Calls(r.answers, t) == r.accepted[t]
  {
    var result := Finish(h, live).teardown.result;
    NoneWaiting(h.controls, t);
    ToldCalls(h.answers, h.startCompletion, result, t);
    ToldCalls(Told(h.answers, h.startCompletion, result), h.destroyCompletion, result, t);
  }

  lemma ServicesStarted(d: Teardown, a: Answers)
    ensures StopServices(d, a).1.started == d.started && StopServices(d, a).1.backend == d.backend
    ensures StopServices(d, a).1.stopBegun == d.stopBegun
  {
  }

  lemma BeginStarted(w: World, d: Teardown)
    ensures BeginBackends(w, d).1.started == d.started
  {
    AfterBeginStarted(d, BL.BeginStop(w.setup, w.ports, d.backend, w.owner, Drain));
  }

  lemma AfterBeginStarted(d: Teardown, begin: BL.Outcome)
    ensures AfterBegin(d, begin).1.started == d.started && AfterBegin(d, begin).1.backend == begin.b
  {
  }

  lemma FinishStarted(w: World, d: Teardown)
    ensures FinishBackends(w, d).1.started == d.started
  {
    AfterFinishStarted(d, BL.FinishStop(w.setup, w.ports, d.backend, w.owner));
  }

  lemma AfterFinishStarted(d: Teardown, finish: BL.Outcome)
    ensures AfterFinish(d, finish).1.started == d.started
  {
  }

  lemma TearDownStarted(w: World, d: Teardown, a: Answers)
    ensures TearDown(w, d, a).1.started == d.started
  {
    var services := StopServices(d, a);
    ServicesStarted(d, a);
    BeginStarted(w, services.1);
    FinishStarted(w, BeginBackends(w, services.1).1);
  }

  lemma TeardownKeeps(w: World, h: Host, a: Answers, t: Token)
    requires Sound(h) && Balanced(h, t)
    ensures Sound(ProgressTeardown(w, h, a)) && Balanced(ProgressTeardown(w, h, a), t)
  {
    if h.teardown.started && !h.state.Destroyed? && !h.start.pending && !AnyActive(h.controls) {
      TearDownStarted(w, h.teardown, a);
      TornEnds(h, TearDown(w, h.teardown, a), a.liveAtEnd, t);
    }
  }

  lemma TornEnds(h: Host, torn: (bool, Teardown), live: bool, t: Token)
    requires Sound(h) && Balanced(h, t) && h.teardown.started && !h.start.pending && !AnyActive(h.controls)
    requires torn.1.started
    ensures var after := h.(teardown := torn.1);
            var r := if torn.0 then Finish(after, live) else after;
            Sound(r) && Balanced(r, t)
  {
    TornKeeps(h, torn.1, t);
    FinishKeeps(h.(teardown := torn.1), live, t);
  }

  // ----- Start and pump -----

  lemma GaveUp(h: Host, result: CallResult, t: Token)
    requires Sound(h) && Balanced(h, t) && h.state.New?
    ensures Sound(GivenUp(h, result)) && Balanced(GivenUp(h, result), t)
  {
  }

  lemma GiveUpKeeps(w: World, h: Host, result: CallResult, a: Answers, t: Token)
    requires Sound(h) && Balanced(h, t) && h.state.New?
    ensures Sound(GiveUpStart(w, h, result, a)) && Balanced(GiveUpStart(w, h, result, a), t)
  {
    GaveUp(h, result, t);
    TeardownKeeps(w, GivenUp(h, result), a, t);
  }

  lemma AdmittedKeeps(h: Host, completion: Option<Token>, t: Token)
    requires Sound(h) && Balanced(h, t) && h.state.New?
    ensures Sound(Admitted(h, completion)) && Balanced(Admitted(h, completion), t)
  {
  }

  lemma LaunchedKeeps(w: World, h: Host, completion: Option<Token>, s: StartAnswers, a: Answers, t: Token)
    requires Sound(h) && Balanced(h, t) && h.state.New?
    ensures Sound(Launched(w, h, completion, s, a).1) && Balanced(Launched(w, h, completion, s, a).1, t)
  {
    TornKeeps(h, h.teardown.(packageOpen := true), t);
    if !s.package.Fine? {
      GiveUpKeeps(w, h, s.package, a, t);
    } else if !s.core.Fine? {
      GiveUpKeeps(w, PackageOpened(h), s.core, a, t);
    } else {
      AdmittedKeeps(PackageOpened(h), completion, t);
    }
  }

  lemma NeverStarted(h: Host, t: Token)
    requires Sound(h) && Balanced(h, t) && h.state.New?
    ensures Sound(h.(state := Destroyed)) && Balanced(h.(state := Destroyed), t)
  {
  }

  lemma StartKeeps(w: World, h: Host, completion: Option<Token>, s: StartAnswers, a: Answers, t: Token)
    requires Sound(h) && Balanced(h, t)
    ensures Sound(Start(w, h, completion, s, a).1) && Balanced(Start(w, h, completion, s, a).1, t)
  {
    if h.state.New? && s.profileOk && s.launch.Fine? && s.loop.NoError? {
      var d := h.teardown.(backend := BL.Open(w.setup, w.ports, h.teardown.backend, Some(w.owner)).b);
      TornKeeps(h, d, t);
      NeverStarted(h.(teardown := d), t);
      LaunchedKeeps(w, h.(teardown := d), completion, s, a, t);
    }
  }

  lemma PumpKeeps(w: World, h: Host, a: Answers, t: Token)
    requires Sound(h) && Balanced(h, t)
    ensures Sound(PumpOnce(w, h, a).1) && Balanced(PumpOnce(w, h, a).1, t)
  {
    var queue := Pump(w.setup, h.teardown.backend.queue, w.owner, 0).q;
    TornKeeps(h, h.teardown.(backend := h.teardown.backend.(queue := queue)), t);
    TurnKeeps(w, QueuePumped(h, queue), a, t);
  }

  lemma TurnKeeps(w: World, h: Host, a: Answers, t: Token)
    requires Sound(h) && Balanced(h, t)
    ensures var r := ProgressTeardown(w, ProcessControls(ProcessStart(h), 0), a); Sound(r) && Balanced(r, t)
  {
    ProcessStartKeeps(h, t);
    ProcessControlsKeeps(ProcessStart(h), 0, t);
    TeardownKeeps(w, ProcessControls(ProcessStart(h), 0), a, t);
  }

  lemma StartedKeeps(h: Host, result: CallResult, presented: bool, t: Token)
    requires Sound(h) && Balanced(h, t)
    ensures Sound(CoreStarted(h, result, presented)) && Balanced(CoreStarted(h, result, presented), t)
  {
  }

  lemma ApplyKeeps(w: World, h: Host, event: Event, t: Token)
    requires Sound(h) && Balanced(h, t)
    ensures Sound(Apply(w, h, event)) && Balanced(Apply(w, h, event), t)
  {
    match event
    case DoStart(completion, s, a) => StartKeeps(w, h, completion, s, a, t);
    case DoControl(completion, request, core) => ControlKeeps(h, completion, request, core, t);
    case DoDestroy(completion, request, core) => DestroyKeeps(h, completion, request, core, t);
    case DoSignal(signal, completion, request, core) => SignalKeeps(h, signal, completion, request, core, t);
    case DoCoreStarted(result, presented) => StartedKeeps(h, result, presented, t);
    case DoCoreControlled(slot, result, matches) => ControlledKeeps(h, slot, result, matches, t);
    case DoPump(a) => PumpKeeps(w, h, a, t);
  }

  lemma {:induction false} HistoryKeeps(w: World, events: seq<Event>, t: Token)
    ensures Sound(History(w, events)) && Balanced(History(w, events), t)
  {
    if events == [] {
      NewSound(t);
    } else {
      HistoryKeeps(w, events[..|events| - 1], t);
      ApplyKeeps(w, History(w, events[..|events| - 1]), events[|events| - 1], t);
    }
  }

  // ----- What runs come to -----

  /** Over every run no completion is called more often than it was taken on; and once the host is
      destroyed, each was called exactly as often, and no control slot is active. */
  lemma CompletionsCalledOnce(w: World, events: seq<Event>, t: Token)
    ensures var h := History(w, events);
            && Calls(h.answers, t) <= h.accepted[t]
            && (h.state.Destroyed? ==> Calls(h.answers, t) == h.accepted[t] && !AnyActive(h.controls))
  {
    HistoryKeeps(w, events, t);
    var h := History(w, events);
    if h.state.Destroyed? {
      NoneWaiting(h.controls, t);
    }
  }
}
