/** The runtime host over its fields and control slots, method by method against the calls of
    RuntimeHosts. */
module RuntimeHostObjects {
  import opened Wrappers
  import opened OwnerTasks
  import opened RuntimeHosts
  import BL = BackendLifecycles

  /** The runtime host as the object it is: completions, flags and eight control slots, changed call
      by call and pump by pump. The coordinator and the owner queue that it calls are here what their
      methods compute. */
  class RuntimeHost {
    const world: World
    const controls: array<Control>
    var state: HostState
    var startCompletion: Option<Token>
    var destroyCompletion: Option<Token>
    var start: StartUp
    var teardown: Teardown
    var notes: Notes
    ghost var accepted: multiset<Token>
    ghost var answers: seq<Answer>

    ghost function Abs(): Host
      reads this, controls
    {
      Host(state, startCompletion, destroyCompletion, controls[..], start, teardown, notes, accepted, answers)
    }

    constructor (world: World)
      ensures fresh(controls) && this.world == world && Abs() == NewHost()
    {
      this.world := world;
      controls := new Control[MAX_PENDING_CONTROLS](i => IDLE_CONTROL);
      state, startCompletion, destroyCompletion := HostState.New, None, None;
      start := StartUp(false, false, false, Fault(PlatformRejected));
      teardown, notes := Teardown(false, false, false, Fine, BL.UNOPENED), Notes(None, 0, 0);
      accepted, answers := multiset{}, [];
    }

    // ----- Completions -----

    method Complete(completion: Option<Token>, result: CallResult)
      modifies this`answers
      ensures Abs() == CallBack(old(Abs()), completion, result)
    {
      answers := Told(answers, completion, result);
    }

    method TakeOn(completion: Option<Token>)
      modifies this`accepted
      ensures Abs() == Accept(old(Abs()), completion)
    {
      accepted := Plus(accepted, completion);
    }

    method AnswerNow(completion: Option<Token>, result: CallResult)
      modifies this`accepted, this`answers
      ensures Abs() == Answered(old(Abs()), completion, result)
    {
      TakeOn(completion);
      Complete(completion, result);
    }

    // ----- Teardown -----

    method RememberResult(result: CallResult)
      modifies this`teardown
      ensures teardown == Remember(old(teardown), result)
    {
      if teardown.result.Fine? {
        teardown := teardown.(result := result);
      }
    }

    method StopServices(a: Answers) returns (go: bool)
      modifies this`teardown
      ensures (go, teardown) == RuntimeHosts.StopServices(old(teardown), a)
    {
      if a.liveBefore {
        if !a.stop.Fine? {
          RememberResult(a.stop);
        }
        if a.liveAfter { return false; }
      }
      if !teardown.packageOpen { return true; }
      if a.packageClose == Busy { return false; }
      if a.packageClose != NoError {
        RememberResult(FromLocal(a.packageClose));
      }
      teardown := teardown.(packageOpen := false);
      return true;
    }

    method BeginStop() returns (go: bool)
      modifies this`teardown
      ensures (go, teardown) == BeginBackends(world, old(teardown))
    {
      if !teardown.backend.state.Running? || teardown.stopBegun { return true; }
      var begin := BL.BeginStop(world.setup, world.ports, teardown.backend, world.owner, Drain);
      teardown := teardown.(backend := begin.b);
      if begin.error == Busy { return false; }
      if begin.error != NoError {
        RememberResult(FromLocal(begin.error));
      }
      teardown := teardown.(stopBegun := true);
      return true;
    }

    method FinishStop() returns (go: bool)
      modifies this`teardown
      ensures (go, teardown) == FinishBackends(world, old(teardown))
    {
      if !teardown.backend.state.Stopping? { return teardown.backend.state.Closed?; }
      var finish := BL.FinishStop(world.setup, world.ports, teardown.backend, world.owner);
      teardown := teardown.(backend := finish.b);
      if finish.error == Busy { return false; }
      if finish.error != NoError {
        RememberResult(FromLocal(finish.error));
      }
      return teardown.backend.state.Closed?;
    }

    method TearItDown(a: Answers) returns (ended: bool)
      modifies this`teardown
      ensures (ended, teardown) == TearDown(world, old(teardown), a)
    {
      ended := StopServices(a);
      if !ended { return; }
      ended := BeginStop();
      if !ended { return; }
      ended := FinishStop();
    }

    method AnyControl() returns (r: bool)
      ensures r == AnyActive(controls[..])
    {
      for i := 0 to controls.Length
        invariant forall k :: 0 <= k < i ==> !controls[k].active
      {
        if controls[i].active { return true; }
      }
      return false;
    }

    method FinishTeardown(live: bool)
      modifies this
      ensures Abs() == Finish(old(Abs()), live)
    {
      if live {
        RememberResult(Fault(PlatformRejected));
      }
      var startCaller, destroyCaller := startCompletion, destroyCompletion;
      state, teardown := Destroyed, teardown.(started := false);
      startCompletion, destroyCompletion := None, None;
      Complete(startCaller, teardown.result);
      Complete(destroyCaller, teardown.result);
    }

    method Progress(a: Answers)
      modifies this
      ensures Abs() == ProgressTeardown(world, old(Abs()), a)
    {
      var busy := AnyControl();
      if !teardown.started || state == Destroyed || start.pending || busy { return; }
      var ended := TearItDown(a);
      if ended {
        FinishTeardown(a.liveAtEnd);
      }
    }

    method GiveUp(result: CallResult, a: Answers)
      modifies this
      ensures Abs() == GiveUpStart(world, old(Abs()), result, a)
    {
      state, startCompletion := Failed, None;
      teardown := teardown.(started := true, result := result);
      Progress(a);
    }

    // ----- Calls -----

    method Start(completion: Option<Token>, s: StartAnswers, a: Answers) returns (result: CallResult)
      modifies this
      ensures (result, Abs()) == RuntimeHosts.Start(world, old(Abs()), completion, s, a)
    {
      if state != HostState.New || !s.profileOk { return Fault(ProfileIncompatible); }
      if !s.launch.Fine? { return s.launch; }
      if s.loop != NoError { return FromLocal(s.loop); }
      var up := BL.Open(world.setup, world.ports, teardown.backend, Some(world.owner));
      teardown := teardown.(backend := up.b);
      if up.error != NoError {
        state := Destroyed;
        return FromLocal(up.error);
      }
      result := Launch(completion, s, a);
    }

    /** The rest of a start, once the backends are open. */
    method Launch(completion: Option<Token>, s: StartAnswers, a: Answers) returns (result: CallResult)
      modifies this
      ensures (result, Abs()) == Launched(world, old(Abs()), completion, s, a)
    {
      if !s.package.Fine? {
        GiveUp(s.package, a);
        return s.package;
      }
      teardown := teardown.(packageOpen := true);
      if !s.core.Fine? {
        GiveUp(s.core, a);
        return s.core;
      }
      TakeOn(completion);
      startCompletion, state, start := completion, Starting, start.(pending := true, owed := true);
      return Fine;
    }

    method FindFreeControl() returns (r: Option<nat>)
      ensures r == FreeControl(controls[..], 0)
    {
      for i := 0 to controls.Length
        invariant FreeControl(controls[..], 0) == FreeControl(controls[..], i)
      {
        if !controls[i].active { return Some(i); }
      }
      return None;
    }

    method AskCore(destroys: bool, completion: Option<Token>, request: CallResult, core: CallResult)
      returns (result: CallResult)
      modifies this`notes, this`accepted, controls
      ensures (result, Abs()) == BeginControl(old(Abs()), destroys, completion, request, core)
    {
      var free := FindFreeControl();
      if free.None? {
        notes := notes.(overflows := notes.overflows + 1);
        return Fault(QueueOverflow);
      }
      if !request.Fine? { return request; }
      if !core.Fine? { return core; }
      controls[free.value] := Control(true, destroys, completion, true, false, Fault(PlatformRejected));
      TakeOn(completion);
      return Fine;
    }

    method ControlRuntime(completion: Option<Token>, request: CallResult, core: CallResult) returns (result: CallResult)
      modifies this, controls
      ensures (result, Abs()) == ControlCall(old(Abs()), completion, request, core)
    {
      if state != HostState.Running { return Fault(LifecycleBusy); }
      result := AskCore(false, completion, request, core);
    }

    method Destroy(completion: Option<Token>, request: CallResult, core: CallResult) returns (result: CallResult)
      modifies this, controls
      ensures (result, Abs()) == DestroyCall(old(Abs()), completion, request, core)
    {
      if state != HostState.Running && state != Starting { return Fault(LifecycleBusy); }
      var previous := state;
      AskedInAnyState(Abs(), Destroying, completion, true, completion, request, core);
      state, destroyCompletion := Destroying, completion;
      result := AskCore(true, completion, request, core);
      if !result.Fine? {
        state, destroyCompletion := previous, None;
      }
    }

    method PassOn(signal: Signal, completion: Option<Token>, request: CallResult, core: CallResult)
      returns (result: CallResult)
      modifies this, controls
      ensures (result, Abs()) == Passed(old(Abs()), signal, completion, request, core)
    {
      if signal == Shutdown {
        result := Destroy(completion, request, core);
      } else {
        result := ControlRuntime(completion, request, core);
      }
    }

    method HandleRawSignal(signal: Signal, completion: Option<Token>, request: CallResult, core: CallResult)
      modifies this, controls
      ensures Abs() == HandleSignal(old(Abs()), signal, completion, request, core)
    {
      if notes.lastSignal == Some(signal) {
        notes := notes.(duplicates := notes.duplicates + 1);
        AnswerNow(completion, Fine);
        return;
      }
      var result := PassOn(signal, completion, request, core);
      if result.Fine? {
        notes := notes.(lastSignal := Some(signal));
      } else {
        AnswerNow(completion, result);
      }
    }

    // ----- The core calls back -----

    method OnCoreStart(result: CallResult, presented: bool)
      modifies this`start
      ensures Abs() == CoreStarted(old(Abs()), result, presented)
    {
      if start.owed {
        start := start.(owed := false, ready := true,
                        result := if result.Fine? && !presented then Fault(PresentationFailed) else result);
      }
    }

    method OnCoreLifecycle(i: nat, result: CallResult, matches: bool)
      modifies controls
      ensures Abs() == CoreControlled(old(Abs()), i, result, matches)
    {
      if i < controls.Length && controls[i].owed {
        controls[i] := controls[i].(owed := false, ready := true,
                                    result := if matches then result else Fault(AbiInvalidArgument));
      }
    }

    // ----- The pump -----

    method TakeStartResult()
      modifies this
      ensures Abs() == ProcessStart(old(Abs()))
    {
      if !start.ready { return; }
      start := start.(ready := false, pending := false);
      if start.result.Fine? && state == Starting {
        Complete(startCompletion, Fine);
        state, startCompletion := HostState.Running, None;
      } else if state != Destroying {
        state, teardown := Failed, teardown.(started := true, result := start.result);
      }
    }

    method TakeControlResult(i: nat)
      requires i < controls.Length
      modifies this, controls
      ensures Abs() == ProcessControl(old(Abs()), i)
    {
      var slot := controls[i];
      if !slot.active || !slot.ready { return; }
      controls[i] := IDLE_CONTROL;
      if slot.destroys {
        destroyCompletion, teardown := slot.caller, teardown.(started := true, result := slot.result);
      } else {
        Complete(slot.caller, slot.result);
      }
    }

    method TakeControlResults()
      modifies this, controls
      ensures Abs() == ProcessControls(old(Abs()), 0)
    {
      ghost var first := Abs();
      for i := 0 to controls.Length
        invariant ProcessControls(first, 0) == ProcessControls(Abs(), i)
      {
        TakeControlResult(i);
      }
    }

    method PumpOnce(a: Answers) returns (error: LocalError)
      modifies this, controls
      ensures (error, Abs()) == RuntimeHosts.PumpOnce(world, old(Abs()), a)
    {
      if state == Destroyed || state == HostState.New { return InvalidState; }
      var pumped := Pump(world.setup, teardown.backend.queue, world.owner, 0);
      teardown := teardown.(backend := teardown.backend.(queue := pumped.q));
      if pumped.error != NoError && pumped.error != InvalidState { return pumped.error; }
      TakeStartResult();
      TakeControlResults();
      Progress(a);
      return NoError;
    }
  }
}
