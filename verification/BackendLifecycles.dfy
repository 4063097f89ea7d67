/** The coordinator that opens and stops the backends around the owner queue. What the backends
    answer is an oracle, call by call. */
module BackendLifecycles {
  import opened Wrappers
  import opened OwnerTasks
  import opened OwnerTaskQueues

  datatype Port = OpenDisplay | OpenInput | StopInput | DiscardInput | CloseInput | CloseDisplay | CloseWakeup

  datatype PortCall = PortCall(port: Port, error: LocalError)

  /** What the n-th call of a port answers, and how many samples a discard drops. */
  datatype Ports = Ports(answer: nat -> LocalError, samples: nat -> nat)

  datatype Backend = Backend(
    owner: Option<Owner>, state: Lifecycle, policy: StopPolicy, displayOpen: bool, inputOpen: bool,
    inputDiscarded: bool, stopPrepared: bool, stopError: LocalError, discarded: nat, log: seq<PortCall>, queue: Queue)

  datatype Outcome = Outcome(error: LocalError, b: Backend)

  const UNOPENED := Backend(None, Constructed, Cancel, false, false, false, false, NoError, 0, [], EMPTY)

  function Answer(p: Ports, b: Backend): LocalError {
    p.answer(|b.log|)
  }

  /** The backend after one call of a port. */
  function Called(p: Ports, b: Backend, port: Port): Backend {
    b.(log := b.log + [PortCall(port, Answer(p, b))])
  }

  /** Keeps the first error. */
  function Remember(b: Backend, error: LocalError): Backend {
    if b.stopError.NoError? then b.(stopError := error) else b
  }

  /** Gives up opening: closes what is open, whatever that answers. */
  function CloseAfterOpenFailure(c: Setup, p: Ports, b: Backend, caller: Owner): Backend {
    var shut := if b.displayOpen then Called(p, b, CloseDisplay).(displayOpen := false) else b;
    var stopped := OwnerTasks.BeginStop(c, shut.queue, caller, Cancel).1;
    Called(p, shut.(queue := OwnerTasks.FinishStop(c, stopped, caller).1), CloseWakeup).(state := Closed)
  }

  function Open(c: Setup, p: Ports, b: Backend, owner: Option<Owner>): Outcome {
    if !b.state.Constructed? || owner.None? then
      Outcome(if owner.Some? then InvalidState else InvalidArgument, b)
    else
      var bound := BindOwner(c, b.queue, owner);
      var owned := b.(owner := owner, queue := bound.1);
      if !bound.0.NoError? then Outcome(bound.0, owned.(state := Closed))
      else
        var shown := Called(p, owned, OpenDisplay);
        if !Answer(p, owned).NoError? then Outcome(Answer(p, owned), CloseAfterOpenFailure(c, p, shown, owner.value))
        else OpenInputs(c, p, shown.(displayOpen := true), owner.value)
  }

  function OpenInputs(c: Setup, p: Ports, b: Backend, owner: Owner): Outcome {
    var listening := Called(p, b, OpenInput);
    if !Answer(p, b).NoError? then Outcome(Answer(p, b), CloseAfterOpenFailure(c, p, listening, owner))
    else Outcome(NoError, listening.(inputOpen := true, state := Running))
  }

  function BeginStop(c: Setup, p: Ports, b: Backend, caller: Owner, policy: StopPolicy): Outcome {
    if b.owner != Some(caller) then Outcome(WrongThread, b)
    else if b.state.Closed? then Outcome(NoError, b)
    else if b.state.Constructed? || (b.state.Stopping? && b.policy != policy) then Outcome(InvalidState, b)
    else
      var stopping := OwnerTasks.BeginStop(c, b.queue, caller, policy);
      if !stopping.0.NoError? then Outcome(stopping.0, b.(queue := stopping.1))
      else StopInputs(c, p, b.(queue := stopping.1, state := Stopping, policy := policy), caller)
  }

  function StopInputs(c: Setup, p: Ports, b: Backend, caller: Owner): Outcome {
    if !b.inputOpen then DrainQueue(c, p, b, caller)
    else if Answer(p, b).Busy? then Outcome(Busy, Called(p, b, StopInput))
    else DrainQueue(c, p, Remember(Called(p, b, StopInput), Answer(p, b)), caller)
  }

  function DrainQueue(c: Setup, p: Ports, b: Backend, caller: Owner): Outcome {
    if b.policy.Cancel? then DiscardInputs(p, b)
    else
      var drained := DrainPasses(c, b.queue, caller, c.capacity);
      var after := b.(queue := drained.1);
      match drained.0
      case Contended => Outcome(Busy, after)
      case Stuck(error) => Outcome(Remember(after, error).stopError, Remember(after, error))
      case Done => if drained.1.pending != [] then Outcome(Busy, after) else DiscardInputs(p, after)
  }

  function DiscardInputs(p: Ports, b: Backend): Outcome {
    if !b.inputOpen || b.inputDiscarded then Prepared(b)
    else
      var after := Called(p, b, DiscardInput);
      match Answer(p, b)
      case Busy => Outcome(Busy, after)
      case NoError => Prepared(after.(inputDiscarded := true, discarded := b.discarded + p.samples(|b.log|)))
      case error => Prepared(Remember(after, error))
  }

  function Prepared(b: Backend): Outcome {
    Outcome(b.stopError, b.(stopPrepared := true))
  }

  function FinishStop(c: Setup, p: Ports, b: Backend, caller: Owner): Outcome {
    if b.owner != Some(caller) then Outcome(WrongThread, b)
    else if b.state.Closed? then Outcome(NoError, b)
    else if !b.state.Stopping? || !b.stopPrepared then Outcome(InvalidState, b)
    else if !b.inputOpen then CloseDisplays(c, p, b, caller)
    else if Answer(p, b).Busy? then Outcome(Busy, Called(p, b, CloseInput))
    else CloseDisplays(c, p, Remember(Called(p, b, CloseInput), Answer(p, b)).(inputOpen := false), caller)
  }

  function CloseDisplays(c: Setup, p: Ports, b: Backend, caller: Owner): Outcome {
    if !b.displayOpen then CloseWakeups(c, p, b, caller)
    else if Answer(p, b).Busy? then Outcome(Busy, Called(p, b, CloseDisplay))
    else CloseWakeups(c, p, Remember(Called(p, b, CloseDisplay), Answer(p, b)).(displayOpen := false), caller)
  }

  function CloseWakeups(c: Setup, p: Ports, b: Backend, caller: Owner): Outcome {
    if Answer(p, b).Busy? then Outcome(Busy, Called(p, b, CloseWakeup))
    else CloseQueue(c, Remember(Called(p, b, CloseWakeup), Answer(p, b)), caller)
  }

  function CloseQueue(c: Setup, b: Backend, caller: Owner): Outcome {
    var finished := OwnerTasks.FinishStop(c, b.queue, caller);
    var after := b.(queue := finished.1);
    if finished.0.Busy? then Outcome(Busy, after)
    else if !finished.0.NoError? then Outcome(finished.0, Remember(after, finished.0))
    else Outcome(after.stopError, after.(state := Closed))
  }

  // ----- Whole runs -----

  datatype Call =
    | CallOpen(newOwner: Option<Owner>)
    | CallBeginStop(caller: Owner, policy: StopPolicy)
    | CallFinishStop(caller: Owner)
    | CallPost(task: Option<Task>)
    | CallPump(caller: Owner, requested: nat)

  /** The queue's users post and pump between the coordinator's calls. */
  function Apply(c: Setup, p: Ports, b: Backend, call: Call): Backend {
    match call
    case CallOpen(owner) => Open(c, p, b, owner).b
    case CallBeginStop(caller, policy) => BeginStop(c, p, b, caller, policy).b
    case CallFinishStop(caller) => FinishStop(c, p, b, caller).b
    case CallPost(task) => b.(queue := Post(c, b.queue, task).1)
    case CallPump(caller, requested) => b.(queue := Pump(c, b.queue, caller, requested).q)
  }

  function History(c: Setup, p: Ports, calls: seq<Call>): Backend {
    if calls == [] then UNOPENED else Apply(c, p, History(c, p, calls[..|calls| - 1]), calls[|calls| - 1])
  }

  function Settles(call: PortCall, port: Port): nat {
    if call.port == port && !call.error.Busy? then 1 else 0
  }

  /** How often a port was called without answering that it is busy. */
  function Settled(log: seq<PortCall>, port: Port): nat {
    if log == [] then 0 else Settled(log[..|log| - 1], port) + Settles(log[|log| - 1], port)
  }

  /** The first answer that was neither good nor busy. */
  function FirstError(log: seq<PortCall>): LocalError {
    if log == [] then NoError
    else
      var first := FirstError(log[..|log| - 1]);
      if !first.NoError? || log[|log| - 1].error.Busy? then first else log[|log| - 1].error
  }

  /** A stop that was begun: the queue stops with it, each open backend is still to be closed and
      each other was closed once, and the first error of a port is remembered. */
  ghost predicate Sound(c: Setup, b: Backend) {
    && Orderly(c, b.queue)
    && (b.state.Constructed? ==> b == UNOPENED.(queue := b.queue) && b.queue.state.Constructed?)
    && (!b.state.Constructed? ==> b.owner.Some?)
    && (b.state.Running? || b.state.Stopping? || b.stopPrepared ==> Staged(b))
    && (b.stopPrepared ==> b.state.Stopping? || b.state.Closed?)
  }

  ghost predicate Staged(b: Backend) {
    && b.queue.owner == b.owner && !b.queue.state.Constructed?
    && b.stopError == FirstError(b.log)
    && Settled(b.log, CloseInput) == (if b.inputOpen then 0 else 1)
    && Settled(b.log, CloseDisplay) == (if b.displayOpen then 0 else 1)
    && (b.state.Running? ==> !b.queue.state.Closed? && b.inputOpen && b.displayOpen && !b.inputDiscarded)
    && (b.state.Stopping? ==> b.queue.state.Stopping? && b.queue.policy == b.policy)
    && (b.stopPrepared ==> b.queue.pending == [])
    && (b.state.Closed? ==>
          && b.queue.state.Closed? && b.queue.policy == b.policy
          && !b.inputOpen && !b.displayOpen && Settled(b.log, CloseWakeup) >= 1)
  }

  lemma LogOneMore(log: seq<PortCall>, call: PortCall)
    ensures FirstError(log + [call])
         == if !FirstError(log).NoError? || call.error.Busy? then FirstError(log) else call.error
    ensures forall port :: Settled(log + [call], port) == Settled(log, port) + Settles(call, port)
  {
    assert (log + [call])[..|log + [call]| - 1] == log;
  }

  /** One call of a port other than the closing ones, and what it answered remembered. */
  lemma CallKeeps(p: Ports, b: Backend, port: Port)
    requires Staged(b)
    ensures FirstError(Called(p, b, port).log)
         == if Answer(p, b).Busy? then b.stopError else Remember(Called(p, b, port), Answer(p, b)).stopError
    ensures forall q :: Settled(Called(p, b, port).log, q)
                     == Settled(b.log, q) + Settles(PortCall(port, Answer(p, b)), q)
  {
    LogOneMore(b.log, PortCall(port, Answer(p, b)));
  }

  lemma DiscardKeeps(c: Setup, p: Ports, b: Backend)
    requires Sound(c, b) && b.state.Stopping? && b.queue.pending == []
    ensures Sound(c, DiscardInputs(p, b).b)
  {
    CallKeeps(p, b, DiscardInput);
  }

  lemma DrainKeeps(c: Setup, p: Ports, b: Backend, caller: Owner)
    requires Sound(c, b) && b.state.Stopping? && b.owner == Some(caller)
    requires b.policy.Cancel? ==> b.queue.pending == []
    ensures Sound(c, DrainQueue(c, p, b, caller).b)
  {
    if b.policy.Cancel? {
      DiscardKeeps(c, p, b);
    } else {
      DrainIsBusyOrDone(c, b.queue, caller, c.capacity);
      var after := b.(queue := DrainPasses(c, b.queue, caller, c.capacity).1);
      if after.queue.pending == [] {
        DiscardKeeps(c, p, after);
      }
    }
  }

  lemma StopInputsKeeps(c: Setup, p: Ports, b: Backend, caller: Owner)
    requires Sound(c, b) && b.state.Stopping? && b.owner == Some(caller)
    requires b.policy.Cancel? ==> b.queue.pending == []
    ensures Sound(c, StopInputs(c, p, b, caller).b)
  {
    CallKeeps(p, b, StopInput);
    var next := if b.inputOpen then Remember(Called(p, b, StopInput), Answer(p, b)) else b;
    if !b.inputOpen || !Answer(p, b).Busy? {
      DrainKeeps(c, p, next, caller);
    }
  }

  lemma BeginStopKeeps(c: Setup, p: Ports, b: Backend, caller: Owner, policy: StopPolicy)
    requires Sound(c, b)
    ensures Sound(c, BeginStop(c, p, b, caller, policy).b)
  {
    OwnerTasks.BeginStopKeeps(c, b.queue, caller, policy);
    if b.state.Running? || b.state.Stopping? {
      QueueStops(c, b.queue, caller, policy);
    }
    var stopping := OwnerTasks.BeginStop(c, b.queue, caller, policy);
    if b.owner == Some(caller) && (b.state.Running? || (b.state.Stopping? && b.policy == policy))
       && stopping.0.NoError? {
      StopInputsKeeps(c, p, b.(queue := stopping.1, state := Stopping, policy := policy), caller);
    }
  }

  /** What a queue's stop leaves alone. */
  lemma QueueStops(c: Setup, q: Queue, caller: Owner, policy: StopPolicy)
    requires Orderly(c, q) && (q.state.Running? || q.state.Stopping?)
    ensures var r := OwnerTasks.BeginStop(c, q, caller, policy);
            && r.1.owner == q.owner && (r.1.state == q.state || r.1.state.Stopping?)
            && (r.0.NoError? ==> r.1.state.Stopping? && r.1.policy == policy)
            && (q.pending == [] ==> r.1.pending == [])
  {
    if policy.Cancel? && (q.state.Running? || q.policy == policy) {
      CancelKeeps(c, Attempt(q).(state := Stopping, policy := policy), c.capacity);
    }
  }

  lemma CloseQueueKeeps(c: Setup, b: Backend, caller: Owner)
    requires Sound(c, b) && b.state.Stopping? && b.stopPrepared && b.owner == Some(caller)
    requires !b.inputOpen && !b.displayOpen && Settled(b.log, CloseWakeup) >= 1
    ensures Sound(c, CloseQueue(c, b, caller).b)
    ensures CloseQueue(c, b, caller).b.state.Closed? || CloseQueue(c, b, caller).error.Busy?
  {
    OwnerTasks.ApplyKeeps(c, b.queue, OwnerTasks.CallFinishStop(caller));
  }

  lemma CloseWakeupsKeeps(c: Setup, p: Ports, b: Backend, caller: Owner)
    requires Sound(c, b) && b.state.Stopping? && b.stopPrepared && b.owner == Some(caller)
    requires !b.inputOpen && !b.displayOpen
    ensures Sound(c, CloseWakeups(c, p, b, caller).b)
  {
    CallKeeps(p, b, CloseWakeup);
    if !Answer(p, b).Busy? {
      CloseQueueKeeps(c, Remember(Called(p, b, CloseWakeup), Answer(p, b)), caller);
    }
  }

  lemma CloseDisplaysKeeps(c: Setup, p: Ports, b: Backend, caller: Owner)
    requires Sound(c, b) && b.state.Stopping? && b.stopPrepared && b.owner == Some(caller) && !b.inputOpen
    ensures Sound(c, CloseDisplays(c, p, b, caller).b)
  {
    CallKeeps(p, b, CloseDisplay);
    var next := if b.displayOpen then Remember(Called(p, b, CloseDisplay), Answer(p, b)).(displayOpen := false) else b;
    if !b.displayOpen || !Answer(p, b).Busy? {
      CloseWakeupsKeeps(c, p, next, caller);
    }
  }

  /** The same coordinator a few closings on. */
  predicate FurtherOn(b: Backend, r: Backend) {
    r.owner == b.owner && r.policy == b.policy && (r.state == b.state || r.state.Closed?)
  }

  lemma DrainLeaves(c: Setup, p: Ports, b: Backend, caller: Owner)
    ensures FurtherOn(b, DrainQueue(c, p, b, caller).b) && DrainQueue(c, p, b, caller).b.state == b.state
  {
  }

  /** Beginning a stop of running backends leaves their owner; they keep running or stop as asked. */
  lemma BeginLeaves(c: Setup, p: Ports, b: Backend, caller: Owner, policy: StopPolicy)
    requires b.state.Running?
    ensures var r := BeginStop(c, p, b, caller, policy).b;
            r.owner == b.owner && (r.state.Running? || (r.state.Stopping? && r.policy == policy))
  {
    var begun := b.(queue := OwnerTasks.BeginStop(c, b.queue, caller, policy).1, state := Stopping, policy := policy);
    DrainLeaves(c, p, if b.inputOpen then Remember(Called(p, begun, StopInput), Answer(p, begun)) else begun, caller);
  }

  lemma WakeupsLeave(c: Setup, p: Ports, b: Backend, caller: Owner)
    ensures FurtherOn(b, CloseWakeups(c, p, b, caller).b)
  {
  }

  /** Finishing a stop leaves its owner and policy. */
  lemma FinishLeaves(c: Setup, p: Ports, b: Backend, caller: Owner)
    ensures FurtherOn(b, FinishStop(c, p, b, caller).b)
  {
    var shut := if b.inputOpen then Remember(Called(p, b, CloseInput), Answer(p, b)).(inputOpen := false) else b;
    var dark := if shut.displayOpen then Remember(Called(p, shut, CloseDisplay), Answer(p, shut)).(displayOpen := false)
                else shut;
    WakeupsLeave(c, p, dark, caller);
  }

  lemma WakeupsPrepared(c: Setup, p: Ports, b: Backend, caller: Owner)
    ensures CloseWakeups(c, p, b, caller).b.stopPrepared == b.stopPrepared
  {
  }

  /** Finishing a stop neither prepares it nor undoes that. */
  lemma FinishPrepared(c: Setup, p: Ports, b: Backend, caller: Owner)
    ensures FinishStop(c, p, b, caller).b.stopPrepared == b.stopPrepared
  {
    var shut := if b.inputOpen then Remember(Called(p, b, CloseInput), Answer(p, b)).(inputOpen := false) else b;
    var dark := if shut.displayOpen then Remember(Called(p, shut, CloseDisplay), Answer(p, shut)).(displayOpen := false)
                else shut;
    WakeupsPrepared(c, p, dark, caller);
  }

  lemma FinishStopKeeps(c: Setup, p: Ports, b: Backend, caller: Owner)
    requires Sound(c, b)
    ensures Sound(c, FinishStop(c, p, b, caller).b)
  {
    if b.owner == Some(caller) && b.state.Stopping? && b.stopPrepared {
      CallKeeps(p, b, CloseInput);
      var next := if b.inputOpen then Remember(Called(p, b, CloseInput), Answer(p, b)).(inputOpen := false) else b;
      if !b.inputOpen || !Answer(p, b).Busy? {
        CloseDisplaysKeeps(c, p, next, caller);
      }
    }
  }

  /** An opening that fails closes what it opened and stops the queue, if that can be had. */
  lemma OpenKeeps(c: Setup, p: Ports, b: Backend, owner: Option<Owner>)
    requires Sound(c, b)
    ensures Sound(c, Open(c, p, b, owner).b)
  {
    if b.state.Constructed? && owner.Some? {
      OwnerTasks.ApplyKeeps(c, b.queue, OwnerTasks.CallBind(owner));
      var bound := BindOwner(c, b.queue, owner);
      if bound.0.NoError? {
        var owned := b.(owner := owner, queue := bound.1);
        var shown := Called(p, owned, OpenDisplay);
        GiveUpKeeps(c, p, shown, owner.value);
        var ready := shown.(displayOpen := true);
        GiveUpKeeps(c, p, Called(p, ready, OpenInput), owner.value);
        OpenedLog(p, owned);
      }
    }
  }

  lemma OpenedLog(p: Ports, b: Backend)
    requires b.log == []
    ensures var log := [PortCall(OpenDisplay, NoError)] + [PortCall(OpenInput, NoError)];
            FirstError(log) == NoError && Settled(log, CloseInput) == 0 && Settled(log, CloseDisplay) == 0
  {
    LogOneMore([], PortCall(OpenDisplay, NoError));
    assert [] + [PortCall(OpenDisplay, NoError)] == [PortCall(OpenDisplay, NoError)];
    LogOneMore([PortCall(OpenDisplay, NoError)], PortCall(OpenInput, NoError));
  }

  lemma GiveUpKeeps(c: Setup, p: Ports, b: Backend, caller: Owner)
    requires Orderly(c, b.queue) && b.owner.Some? && !b.stopPrepared
    ensures Sound(c, CloseAfterOpenFailure(c, p, b, caller))
  {
    var stopped := OwnerTasks.BeginStop(c, b.queue, caller, Cancel).1;
    OwnerTasks.ApplyKeeps(c, b.queue, OwnerTasks.CallBeginStop(caller, Cancel));
    FinishedQueue(c, stopped, caller);
  }

  lemma FinishedQueue(c: Setup, q: Queue, caller: Owner)
    requires Orderly(c, q)
    ensures Orderly(c, OwnerTasks.FinishStop(c, q, caller).1)
  {
    OwnerTasks.ApplyKeeps(c, q, OwnerTasks.CallFinishStop(caller));
  }

  /** Posting and pumping between the coordinator's calls. */
  lemma QueueUseKeeps(c: Setup, b: Backend, queue: Queue)
    requires Sound(c, b) && Orderly(c, queue) && Extends(b.queue, queue)
    requires queue.owner == b.queue.owner && queue.state == b.queue.state && queue.policy == b.queue.policy
    ensures Sound(c, b.(queue := queue))
  {
    if b.stopPrepared {
      StoppedQueueStays(c, b.queue, queue);
    }
  }

  /** An empty queue that stops or has closed takes no more tasks. */
  lemma StoppedQueueStays(c: Setup, q: Queue, r: Queue)
    requires Orderly(c, q) && Orderly(c, r) && Extends(q, r) && (q.state.Stopping? || q.state.Closed?)
    requires q.pending == []
    ensures r.pending == []
  {
    assert |r.accepted| == |r.executed| + |r.cancelled| + |r.pending|;
  }

  lemma ApplyKeeps(c: Setup, p: Ports, b: Backend, call: Call)
    requires Sound(c, b)
    ensures Sound(c, Apply(c, p, b, call))
  {
    match call
    case CallOpen(owner) => OpenKeeps(c, p, b, owner);
    case CallBeginStop(caller, policy) => BeginStopKeeps(c, p, b, caller, policy);
    case CallFinishStop(caller) => FinishStopKeeps(c, p, b, caller);
    case CallPost(task) =>
      PostKeeps(c, b.queue, task);
      QueueUseKeeps(c, b, Post(c, b.queue, task).1);
    case CallPump(caller, requested) =>
      if b.queue.state.Running? || (b.queue.state.Stopping? && b.queue.policy.Drain?) {
        PumpRuns(c, b.queue, Budget(c, requested));
      }
      QueueUseKeeps(c, b, Pump(c, b.queue, caller, requested).q);
  }

  lemma {:induction false} HistoryIsSound(c: Setup, p: Ports, calls: seq<Call>)
    ensures Sound(c, History(c, p, calls))
  {
    if calls == [] {
      assert EMPTY.executed + EMPTY.cancelled + EMPTY.pending == [];
    } else {
      HistoryIsSound(c, p, calls[..|calls| - 1]);
      ApplyKeeps(c, p, History(c, p, calls[..|calls| - 1]), calls[|calls| - 1]);
    }
  }

  /** Over every run and whatever the backends answer: a stop that finished left the queue closed
      and empty, closed input and display exactly once, remembered the first error of any port, and,
      if it was to drain, ran every task that was ever accepted. */
  lemma StoppedIsClean(c: Setup, p: Ports, calls: seq<Call>)
    requires History(c, p, calls).state.Closed? && History(c, p, calls).stopPrepared
    ensures var b := History(c, p, calls);
            && b.queue.state.Closed? && b.queue.pending == []
            && Settled(b.log, CloseInput) == 1 && Settled(b.log, CloseDisplay) == 1
            && Settled(b.log, CloseWakeup) >= 1
            && b.stopError == FirstError(b.log)
            && b.queue.accepted == b.queue.executed + b.queue.cancelled
            && (b.policy.Drain? ==> b.queue.accepted == b.queue.executed)
  {
    HistoryIsSound(c, p, calls);
  }

  /** From a call on no port answers that it is busy. */
  ghost predicate QuietFrom(p: Ports, calls: nat) {
    forall n :: n >= calls ==> !p.answer(n).Busy?
  }

  /** From now on nothing is busy. */
  ghost predicate Quiet(c: Setup, p: Ports, b: Backend) {
    FreeFrom(c, b.queue.attempts) && QuietFrom(p, |b.log|)
  }

  /** Once nothing is busy, stopping and finishing closes everything at the first try. */
  lemma StopConverges(c: Setup, p: Ports, b: Backend, caller: Owner, policy: StopPolicy)
    requires Sound(c, b) && b.state.Running? && b.queue.state.Running? && b.owner == Some(caller)
    requires Quiet(c, p, b)
    ensures FinishStop(c, p, BeginStop(c, p, b, caller, policy).b, caller).b.state.Closed?
  {
    BeginStopPrepares(c, p, b, caller, policy);
    BeginStopKeeps(c, p, b, caller, policy);
    FinishCloses(c, p, BeginStop(c, p, b, caller, policy).b, caller);
  }

  lemma BeginStopPrepares(c: Setup, p: Ports, b: Backend, caller: Owner, policy: StopPolicy)
    requires Sound(c, b) && b.state.Running? && b.queue.state.Running? && b.owner == Some(caller)
    requires Quiet(c, p, b)
    ensures var after := BeginStop(c, p, b, caller, policy).b;
            after.state.Stopping? && after.stopPrepared && after.owner == b.owner && Quiet(c, p, after)
  {
    OwnerTasks.BeginStopKeeps(c, b.queue, caller, policy);
    QueueStops(c, b.queue, caller, policy);
    var q := Attempt(b.queue).(state := Stopping, policy := policy);
    if policy.Cancel? {
      CancelEmpties(c, q, c.capacity);
    } else {
      FreeDrain(c, q.pending, q.attempts, c.capacity);
      DrainDoneIff(c, q, caller, c.capacity);
    }
  }

  lemma {:induction false} CancelEmpties(c: Setup, q: Queue, tries: nat)
    requires FreeFrom(c, q.attempts) && |q.pending| <= tries
    ensures CancelUpTo(c, q, tries).0.NoError? && CancelUpTo(c, q, tries).1.pending == []
    ensures CancelUpTo(c, q, tries).1.attempts >= q.attempts
    decreases tries
  {
    if tries > 0 && q.pending != [] {
      CancelEmpties(c, Attempt(q).(pending := q.pending[1..], cancelled := q.cancelled + [q.pending[0]]), tries - 1);
    }
  }

  lemma FinishCloses(c: Setup, p: Ports, b: Backend, caller: Owner)
    requires Sound(c, b) && b.state.Stopping? && b.stopPrepared && b.owner == Some(caller)
    requires Quiet(c, p, b)
    ensures FinishStop(c, p, b, caller).b.state.Closed?
  {
    var shut := if b.inputOpen then Remember(Called(p, b, CloseInput), Answer(p, b)).(inputOpen := false) else b;
    var dark := if shut.displayOpen then Remember(Called(p, shut, CloseDisplay), Answer(p, shut)).(displayOpen := false)
                else shut;
    WakeupsClose(c, p, dark, caller);
  }

  lemma WakeupsClose(c: Setup, p: Ports, b: Backend, caller: Owner)
    requires b.queue.state.Stopping? && b.queue.pending == [] && b.queue.owner == Some(caller)
    requires FreeFrom(c, b.queue.attempts) && !Answer(p, b).Busy?
    ensures CloseWakeups(c, p, b, caller).b.state.Closed?
  {
  }

  // ----- Opening -----

  /** Opening new backends binds the queue, then opens the display and then the input. What fails is
      reported, and what was opened before it is closed again, whatever that answers: the display if it
      was, and always the wakeup. */
  lemma OpenMeans(c: Setup, p: Ports, owner: Owner)
    ensures var r := Open(c, p, UNOPENED, Some(owner));
            var bound := BindOwner(c, EMPTY, Some(owner)).0;
            if !bound.NoError? then r.error == bound && r.b.state.Closed? && r.b.log == []
            else if !p.answer(0).NoError? then
              && r.error == p.answer(0) && r.b.state.Closed? && !r.b.displayOpen && !r.b.inputOpen
              && r.b.log == [PortCall(OpenDisplay, p.answer(0)), PortCall(CloseWakeup, p.answer(1))]
            else if !p.answer(1).NoError? then
              && r.error == p.answer(1) && r.b.state.Closed? && !r.b.displayOpen && !r.b.inputOpen
              && r.b.log == [PortCall(OpenDisplay, NoError), PortCall(OpenInput, p.answer(1)),
                             PortCall(CloseDisplay, p.answer(2)), PortCall(CloseWakeup, p.answer(3))]
            else
              && r.error.NoError? && r.b.state.Running? && r.b.displayOpen && r.b.inputOpen
              && r.b.log == [PortCall(OpenDisplay, NoError), PortCall(OpenInput, NoError)]
  {
  }

  // ----- Samples are discarded once -----

  predicate Discarding(call: PortCall) {
    call.port.DiscardInput? && call.error.NoError?
  }

  /** How often samples were discarded, and how many in all. */
  function Discards(log: seq<PortCall>): nat {
    if log == [] then 0 else Discards(log[..|log| - 1]) + if Discarding(log[|log| - 1]) then 1 else 0
  }

  function Dropped(p: Ports, log: seq<PortCall>): nat {
    if log == [] then 0
    else Dropped(p, log[..|log| - 1]) + if Discarding(log[|log| - 1]) then p.samples(|log| - 1) else 0
  }

  ghost predicate Once(p: Ports, log: seq<PortCall>, done: bool, count: nat) {
    Discards(log) == (if done then 1 else 0) && count == Dropped(p, log)
  }

  ghost predicate DiscardedOnce(p: Ports, b: Backend) {
    Once(p, b.log, b.inputDiscarded, b.discarded)
  }

  lemma LoggedOnce(p: Ports, log: seq<PortCall>, call: PortCall, done: bool, count: nat)
    requires Once(p, log, done, count)
    ensures !Discarding(call) ==> Once(p, log + [call], done, count)
    ensures Discarding(call) && !done ==> Once(p, log + [call], true, count + p.samples(|log|))
  {
    assert (log + [call])[..|log|] == log;
  }

  /** A call of another port. */
  lemma CalledOnce(p: Ports, b: Backend, port: Port)
    requires DiscardedOnce(p, b) && !port.DiscardInput?
    ensures DiscardedOnce(p, Called(p, b, port))
  {
    LoggedOnce(p, b.log, PortCall(port, Answer(p, b)), b.inputDiscarded, b.discarded);
  }

  lemma DiscardDiscards(p: Ports, b: Backend)
    requires DiscardedOnce(p, b)
    ensures DiscardedOnce(p, DiscardInputs(p, b).b)
  {
    if b.inputOpen && !b.inputDiscarded {
      DiscardIs(p, b);
      LoggedOnce(p, b.log, PortCall(DiscardInput, Answer(p, b)), false, b.discarded);
    }
  }

  /** What a discard comes to. */
  lemma DiscardIs(p: Ports, b: Backend)
    requires b.inputOpen && !b.inputDiscarded
    ensures var r, good := DiscardInputs(p, b).b, Answer(p, b).NoError?;
            && r.log == b.log + [PortCall(DiscardInput, Answer(p, b))] && r.inputDiscarded == good
            && r.discarded == (if good then b.discarded + p.samples(|b.log|) else b.discarded)
  {
  }

  lemma DrainDiscards(c: Setup, p: Ports, b: Backend, caller: Owner)
    requires DiscardedOnce(p, b)
    ensures DiscardedOnce(p, DrainQueue(c, p, b, caller).b)
  {
    DiscardDiscards(p, b);
    DiscardDiscards(p, b.(queue := DrainPasses(c, b.queue, caller, c.capacity).1));
  }

  lemma StopDiscards(c: Setup, p: Ports, b: Backend, caller: Owner)
    requires DiscardedOnce(p, b)
    ensures DiscardedOnce(p, StopInputs(c, p, b, caller).b)
  {
    CalledOnce(p, b, StopInput);
    DrainDiscards(c, p, b, caller);
    DrainDiscards(c, p, Remember(Called(p, b, StopInput), Answer(p, b)), caller);
  }

  lemma BeginDiscards(c: Setup, p: Ports, b: Backend, caller: Owner, policy: StopPolicy)
    requires DiscardedOnce(p, b)
    ensures DiscardedOnce(p, BeginStop(c, p, b, caller, policy).b)
  {
    var stopping := OwnerTasks.BeginStop(c, b.queue, caller, policy);
    StopDiscards(c, p, b.(queue := stopping.1, state := Stopping, policy := policy), caller);
  }

  lemma WakeupDiscards(c: Setup, p: Ports, b: Backend, caller: Owner)
    requires DiscardedOnce(p, b)
    ensures DiscardedOnce(p, CloseWakeups(c, p, b, caller).b)
  {
    CalledOnce(p, b, CloseWakeup);
    QueueDiscards(c, p, Remember(Called(p, b, CloseWakeup), Answer(p, b)), caller);
  }

  lemma QueueDiscards(c: Setup, p: Ports, b: Backend, caller: Owner)
    requires DiscardedOnce(p, b)
    ensures DiscardedOnce(p, CloseQueue(c, b, caller).b)
  {
  }

  lemma DisplayDiscards(c: Setup, p: Ports, b: Backend, caller: Owner)
    requires DiscardedOnce(p, b)
    ensures DiscardedOnce(p, CloseDisplays(c, p, b, caller).b)
  {
    CalledOnce(p, b, CloseDisplay);
    WakeupDiscards(c, p, b, caller);
    WakeupDiscards(c, p, Remember(Called(p, b, CloseDisplay), Answer(p, b)).(displayOpen := false), caller);
  }

  lemma FinishDiscards(c: Setup, p: Ports, b: Backend, caller: Owner)
    requires DiscardedOnce(p, b)
    ensures DiscardedOnce(p, FinishStop(c, p, b, caller).b)
  {
    CalledOnce(p, b, CloseInput);
    DisplayDiscards(c, p, b, caller);
    DisplayDiscards(c, p, Remember(Called(p, b, CloseInput), Answer(p, b)).(inputOpen := false), caller);
  }

  lemma GiveUpDiscards(c: Setup, p: Ports, b: Backend, caller: Owner)
    requires DiscardedOnce(p, b)
    ensures DiscardedOnce(p, CloseAfterOpenFailure(c, p, b, caller))
  {
    CalledOnce(p, b, CloseDisplay);
    var shut := if b.displayOpen then Called(p, b, CloseDisplay).(displayOpen := false) else b;
    var stopped := OwnerTasks.BeginStop(c, shut.queue, caller, Cancel).1;
    CalledOnce(p, shut.(queue := OwnerTasks.FinishStop(c, stopped, caller).1), CloseWakeup);
  }

  lemma InputsDiscard(c: Setup, p: Ports, b: Backend, owner: Owner)
    requires DiscardedOnce(p, b)
    ensures DiscardedOnce(p, OpenInputs(c, p, b, owner).b)
  {
    CalledOnce(p, b, OpenInput);
    GiveUpDiscards(c, p, Called(p, b, OpenInput), owner);
  }

  lemma OpenDiscards(c: Setup, p: Ports, b: Backend, owner: Option<Owner>)
    requires DiscardedOnce(p, b)
    ensures DiscardedOnce(p, Open(c, p, b, owner).b)
  {
    if b.state.Constructed? && owner.Some? {
      var owned := b.(owner := owner, queue := BindOwner(c, b.queue, owner).1);
      var shown := Called(p, owned, OpenDisplay);
      CalledOnce(p, owned, OpenDisplay);
      GiveUpDiscards(c, p, shown, owner.value);
      InputsDiscard(c, p, shown.(displayOpen := true), owner.value);
    }
  }

  /** Over every run: samples are discarded at most once, and those counted are the ones dropped then. */
  lemma {:induction false} HistoryDiscardsOnce(c: Setup, p: Ports, calls: seq<Call>)
    ensures DiscardedOnce(p, History(c, p, calls)) && Discards(History(c, p, calls).log) <= 1
  {
    if calls != [] {
      var b, call := History(c, p, calls[..|calls| - 1]), calls[|calls| - 1];
      HistoryDiscardsOnce(c, p, calls[..|calls| - 1]);
      match call
      case CallOpen(owner) => OpenDiscards(c, p, b, owner);
      case CallBeginStop(caller, policy) => BeginDiscards(c, p, b, caller, policy);
      case CallFinishStop(caller) => FinishDiscards(c, p, b, caller);
      case _ =>
    }
  }

  // ----- When a stop that drains gets stuck -----

  /** The queue takes the stop and then something is busy: the input, a pop of the drain or the
      discard. */
  predicate StopSticks(c: Setup, p: Ports, b: Backend) {
    && c.lock(b.queue.attempts)
    && (|| p.answer(|b.log|).Busy?
        || !DrainFree(c, b.queue.pending, b.queue.attempts + 1, c.capacity)
        || p.answer(|b.log| + 1).Busy?)
  }

  /** What the drain and the discard come to, once the input is stopped. */
  lemma DrainPrepares(c: Setup, p: Ports, b: Backend, caller: Owner)
    requires Orderly(c, b.queue) && b.queue.state.Stopping? && b.queue.policy.Drain? && b.queue.owner == Some(caller)
    requires b.state.Stopping? && b.policy.Drain? && b.inputOpen && !b.inputDiscarded && !b.stopPrepared
    ensures var r := DrainQueue(c, p, b, caller).b;
            && r.state.Stopping?
            && (r.stopPrepared <==> DrainFree(c, b.queue.pending, b.queue.attempts, c.capacity) && !Answer(p, b).Busy?)
  {
    DrainDoneIff(c, b.queue, caller, c.capacity);
  }

  /** A stop of running backends that drains gets stuck half begun exactly when the queue takes it
      and then something is busy. */
  lemma StopSticksIff(c: Setup, p: Ports, b: Backend, caller: Owner)
    requires Sound(c, b) && b.state.Running? && b.queue.state.Running? && b.owner == Some(caller)
    ensures var r := BeginStop(c, p, b, caller, Drain).b;
            && (r.state.Stopping? && !r.stopPrepared <==> StopSticks(c, p, b))
            && (!c.lock(b.queue.attempts) ==> r == b.(queue := Attempt(b.queue)))
  {
    if c.lock(b.queue.attempts) {
      var stopping := OwnerTasks.BeginStop(c, b.queue, caller, Drain).1;
      OwnerTasks.BeginStopKeeps(c, b.queue, caller, Drain);
      var begun := b.(queue := stopping, state := Stopping, policy := StopPolicy.Drain);
      DrainPrepares(c, p, Remember(Called(p, begun, StopInput), Answer(p, begun)), caller);
    }
  }

  lemma {:induction false} FirstErrorNotBusy(log: seq<PortCall>)
    ensures !FirstError(log).Busy?
  {
    if log != [] {
      FirstErrorNotBusy(log[..|log| - 1]);
    }
  }

  lemma DrainReports(c: Setup, p: Ports, b: Backend, caller: Owner)
    requires !b.stopPrepared
    ensures var r := DrainQueue(c, p, b, caller); r.b.stopPrepared ==> r.error == r.b.stopError
  {
  }

  lemma StopInputsReports(c: Setup, p: Ports, b: Backend, caller: Owner)
    requires !b.stopPrepared
    ensures var r := StopInputs(c, p, b, caller); r.b.stopPrepared ==> r.error == r.b.stopError
  {
    DrainReports(c, p, if b.inputOpen then Remember(Called(p, b, StopInput), Answer(p, b)) else b, caller);
  }

  /** A stop that is prepared reports what it remembers, and that is never that something was busy. */
  lemma PreparedReports(c: Setup, p: Ports, b: Backend, caller: Owner, policy: StopPolicy)
    requires Sound(c, b) && !b.stopPrepared
    ensures var r := BeginStop(c, p, b, caller, policy);
            r.b.stopPrepared ==> r.error == r.b.stopError && !r.error.Busy?
  {
    BeginStopKeeps(c, p, b, caller, policy);
    FirstErrorNotBusy(BeginStop(c, p, b, caller, policy).b.log);
    var stopping := OwnerTasks.BeginStop(c, b.queue, caller, policy);
    StopInputsReports(c, p, b.(queue := stopping.1, state := Stopping, policy := policy), caller);
  }

  /** Once closed, it was prepared, and what is remembered is reported. */
  predicate Reported(r: Outcome) {
    r.b.state.Closed? ==> r.error == r.b.stopError && r.b.stopPrepared
  }

  lemma QueueReports(c: Setup, b: Backend, caller: Owner)
    requires !b.state.Closed?
    ensures var r := CloseQueue(c, b, caller); r.b.state.Closed? ==> r.error == r.b.stopError
  {
  }

  lemma WakeupsReport(c: Setup, p: Ports, b: Backend, caller: Owner)
    requires !b.state.Closed?
    ensures var r := CloseWakeups(c, p, b, caller); r.b.state.Closed? ==> r.error == r.b.stopError
  {
    QueueReports(c, Remember(Called(p, b, CloseWakeup), Answer(p, b)), caller);
  }

  lemma FinishReports(c: Setup, p: Ports, b: Backend, caller: Owner)
    requires b.state.Stopping?
    ensures Reported(FinishStop(c, p, b, caller))
  {
    var shut := if b.inputOpen then Remember(Called(p, b, CloseInput), Answer(p, b)).(inputOpen := false) else b;
    var dark := if shut.displayOpen then Remember(Called(p, shut, CloseDisplay), Answer(p, shut)).(displayOpen := false)
                else shut;
    WakeupsReport(c, p, dark, caller);
  }

  lemma FinishedReports(c: Setup, p: Ports, b: Backend, caller: Owner)
    requires Sound(c, b) && b.state.Stopping? && FinishStop(c, p, b, caller).b.state.Closed?
    ensures !FinishStop(c, p, b, caller).error.Busy?
  {
    FinishReports(c, p, b, caller);
    FinishStopKeeps(c, p, b, caller);
    ClosedReports(c, FinishStop(c, p, b, caller));
  }

  lemma ClosedReports(c: Setup, r: Outcome)
    requires Sound(c, r.b) && r.b.state.Closed? && Reported(r)
    ensures !r.error.Busy?
  {
    FirstErrorNotBusy(r.b.log);
  }
}
