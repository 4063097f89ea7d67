/** The backend coordinator over its own flags and an owner task queue object, method by method against
    the calls of BackendLifecycles. */
module BackendCoordinators {
  import opened Wrappers
  import opened OwnerTasks
  import opened OwnerTaskQueues
  import opened BackendLifecycles

  /** The coordinator as the object it is: flags updated stage by stage, so that a call cut short by
      a busy backend can be repeated. */
  class BackendLifecycleCoordinator {
    const ports: Ports
    const tasks: OwnerTaskQueue
    var owner: Option<Owner>
    var state: Lifecycle
    var policy: StopPolicy
    var displayOpen: bool
    var inputOpen: bool
    var inputDiscarded: bool
    var stopPrepared: bool
    var stopError: LocalError
    var discarded: nat
    var calls: nat
    ghost var log: seq<PortCall>

    ghost predicate Valid()
      reads this, tasks
    {
      tasks.Valid() && calls == |log|
    }

    ghost function Abs(): Backend
      reads this, tasks, tasks.storage
      requires Valid()
    {
      Backend(owner, state, policy, displayOpen, inputOpen, inputDiscarded, stopPrepared, stopError, discarded, log,
              tasks.Abs())
    }

    constructor (ports: Ports, tasks: OwnerTaskQueue)
      requires tasks.Valid() && tasks.Abs() == EMPTY
      ensures Valid() && this.ports == ports && this.tasks == tasks && Abs() == UNOPENED
    {
      this.ports, this.tasks := ports, tasks;
      owner, state, policy := None, Constructed, Cancel;
      displayOpen, inputOpen, inputDiscarded, stopPrepared := false, false, false, false;
      stopError, discarded, calls, log := NoError, 0, 0, [];
    }

    method Ask(port: Port) returns (error: LocalError)
      requires Valid()
      modifies this`calls, this`log
      ensures Valid() && error == Answer(ports, old(Abs())) && Abs() == Called(ports, old(Abs()), port)
    {
      error := ports.answer(calls);
      calls := calls + 1;
      log := log + [PortCall(port, error)];
    }

    method RememberError(error: LocalError)
      requires Valid()
      modifies this`stopError
      ensures Valid() && Abs() == Remember(old(Abs()), error)
    {
      if stopError.NoError? {
        stopError := error;
      }
    }

    method GiveUp(caller: Owner)
      requires Valid()
      modifies this, tasks, tasks.storage
      ensures Valid() && Abs() == CloseAfterOpenFailure(tasks.setup, ports, old(Abs()), caller)
    {
      if displayOpen {
        var ignored := Ask(CloseDisplay);
        displayOpen := false;
      }
      var stopped := tasks.BeginStop(caller, Cancel);
      var finished := tasks.FinishStop(caller);
      var closed := Ask(CloseWakeup);
      state := Closed;
    }

    method Open(newOwner: Option<Owner>) returns (error: LocalError)
      requires Valid()
      modifies this, tasks, tasks.storage
      ensures Valid() && Outcome(error, Abs()) == BackendLifecycles.Open(tasks.setup, ports, old(Abs()), newOwner)
    {
      if !state.Constructed? || newOwner.None? { return if newOwner.Some? then InvalidState else InvalidArgument; }
      owner := newOwner;
      error := tasks.Bind(newOwner);
      if error != NoError {
        state := Closed;
        return;
      }
      error := Ask(OpenDisplay);
      if error != NoError {
        GiveUp(newOwner.value);
        return;
      }
      displayOpen := true;
      error := ListenTo(newOwner.value);
    }

    /** The input opens last. */
    method ListenTo(newOwner: Owner) returns (error: LocalError)
      requires Valid()
      modifies this, tasks, tasks.storage
      ensures Valid() && Outcome(error, Abs()) == OpenInputs(tasks.setup, ports, old(Abs()), newOwner)
    {
      error := Ask(OpenInput);
      if error != NoError {
        GiveUp(newOwner);
        return;
      }
      inputOpen := true;
      state := Running;
    }

    method BeginStop(caller: Owner, newPolicy: StopPolicy) returns (error: LocalError)
      requires Valid()
      modifies this, tasks, tasks.storage
      ensures Valid()
      ensures Outcome(error, Abs()) == BackendLifecycles.BeginStop(tasks.setup, ports, old(Abs()), caller, newPolicy)
    {
      if owner != Some(caller) { return WrongThread; }
      if state.Closed? { return NoError; }
      if state.Constructed? { return InvalidState; }
      if state.Stopping? && policy != newPolicy { return InvalidState; }
      error := tasks.BeginStop(caller, newPolicy);
      if error != NoError { return; }
      state, policy := Stopping, newPolicy;
      error := StopInput(caller);
    }

    method StopInput(caller: Owner) returns (error: LocalError)
      requires Valid()
      modifies this, tasks, tasks.storage
      ensures Valid() && Outcome(error, Abs()) == StopInputs(tasks.setup, ports, old(Abs()), caller)
    {
      if inputOpen {
        error := Ask(BackendLifecycles.StopInput);
        if error == Busy { return; }
        RememberError(error);
      }
      error := Drain(caller);
    }

    method DrainPass(caller: Owner) returns (drained: Drained)
      requires Valid()
      modifies tasks, tasks.storage
      ensures Valid() && (drained, tasks.Abs()) == DrainPasses(tasks.setup, old(tasks.Abs()), caller, tasks.setup.capacity)
    {
      ghost var start := tasks.Abs();
      for pass := 0 to tasks.setup.capacity
        invariant Valid()
        invariant DrainPasses(tasks.setup, start, caller, tasks.setup.capacity)
               == DrainPasses(tasks.setup, tasks.Abs(), caller, tasks.setup.capacity - pass)
      {
        if tasks.size == 0 { return Done; }
        var error, ran := tasks.Pump(caller, 0);
        if error == Busy { return Contended; }
        if error != NoError || ran == 0 { return Stuck(if error == NoError then Busy else error); }
      }
      return Done;
    }

    method Drain(caller: Owner) returns (error: LocalError)
      requires Valid()
      modifies this, tasks, tasks.storage
      ensures Valid() && Outcome(error, Abs()) == DrainQueue(tasks.setup, ports, old(Abs()), caller)
    {
      if policy.Drain? {
        var drained := DrainPass(caller);
        match drained
        case Contended => return Busy;
        case Stuck(failure) =>
          RememberError(failure);
          return stopError;
        case Done =>
          if tasks.size != 0 { return Busy; }
      }
      error := Discard();
    }

    method Discard() returns (error: LocalError)
      requires Valid()
      modifies this
      ensures Valid() && Outcome(error, Abs()) == DiscardInputs(ports, old(Abs()))
    {
      if inputOpen && !inputDiscarded {
        error := Ask(DiscardInput);
        if error == Busy { return; }
        if error == NoError {
          discarded := discarded + ports.samples(calls - 1);
          inputDiscarded := true;
        } else {
          RememberError(error);
        }
      }
      stopPrepared := true;
      return stopError;
    }

    method FinishStop(caller: Owner) returns (error: LocalError)
      requires Valid()
      modifies this, tasks, tasks.storage
      ensures Valid()
      ensures Outcome(error, Abs()) == BackendLifecycles.FinishStop(tasks.setup, ports, old(Abs()), caller)
    {
      if owner != Some(caller) { return WrongThread; }
      if state.Closed? { return NoError; }
      if !state.Stopping? || !stopPrepared { return InvalidState; }
      if inputOpen {
        error := Ask(CloseInput);
        if error == Busy { return; }
        RememberError(error);
        inputOpen := false;
      }
      error := FinishDisplay(caller);
    }

    method FinishDisplay(caller: Owner) returns (error: LocalError)
      requires Valid()
      modifies this, tasks, tasks.storage
      ensures Valid() && Outcome(error, Abs()) == CloseDisplays(tasks.setup, ports, old(Abs()), caller)
    {
      if displayOpen {
        error := Ask(CloseDisplay);
        if error == Busy { return; }
        RememberError(error);
        displayOpen := false;
      }
      error := FinishWakeup(caller);
    }

    method FinishWakeup(caller: Owner) returns (error: LocalError)
      requires Valid()
      modifies this, tasks, tasks.storage
      ensures Valid() && Outcome(error, Abs()) == CloseWakeups(tasks.setup, ports, old(Abs()), caller)
    {
      error := Ask(CloseWakeup);
      if error == Busy { return; }
      RememberError(error);
      error := tasks.FinishStop(caller);
      if error == Busy { return; }
      if error != NoError {
        RememberError(error);
        return;
      }
      state := Closed;
      return stopError;
    }
  }
}
