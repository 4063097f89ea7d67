/** The owner task queue over the ring buffer it is kept in, method by method against the queue of
    OwnerTasks. */
module OwnerTaskQueues {
  import opened Wrappers
  import opened OwnerTasks

  /** The place `k` after `head` on a ring. */
  function Place(length: nat, head: nat, k: nat): (r: nat)
    requires head < length && k <= length
    ensures r < length
  {
    if head + k < length then head + k else head + k - length
  }

  /** What a ring holds: `size` tasks from `head` on. */
  function Ring(data: seq<Task>, head: nat, size: nat): (r: seq<Task>)
    requires size <= |data| && (|data| > 0 ==> head < |data|)
    ensures |r| == size
    ensures forall k :: 0 <= k < size ==> r[k] == data[Place(|data|, head, k)]
  {
    seq(size, k requires 0 <= k < size => data[Place(|data|, head, k)])
  }

  /** A pump that ran so many tasks before. */
  function More(p: Pumped, ran: nat): Pumped {
    p.(executed := p.executed + ran)
  }

  /** The queue as the object it is: a ring of fixed size, a head and a count. */
  class OwnerTaskQueue {
    const setup: Setup
    const storage: array<Task>
    var owner: Option<Owner>
    var state: Lifecycle
    var policy: StopPolicy
    var head: nat
    var size: nat
    var peak: nat
    var attempts: nat
    ghost var accepted: seq<Task>
    ghost var executed: seq<Task>
    ghost var cancelled: seq<Task>

    ghost predicate Valid()
      reads this
    {
      storage.Length == setup.capacity && size <= storage.Length && (storage.Length > 0 ==> head < storage.Length)
      && (storage.Length == 0 ==> state.Constructed?)
    }

    ghost function Pending(): (r: seq<Task>)
      reads this, storage
      requires Valid()
    {
      Ring(storage[..], head, size)
    }

    ghost function Abs(): Queue
      reads this, storage
      requires Valid()
    {
      Queue(owner, state, policy, Pending(), peak, attempts, accepted, executed, cancelled)
    }

    constructor (setup: Setup)
      ensures Valid() && fresh(storage) && this.setup == setup && Abs() == EMPTY
    {
      this.setup := setup;
      storage := new Task[setup.capacity](i => 0);
      owner, state, policy := None, Constructed, Cancel;
      head, size, peak, attempts := 0, 0, 0, 0;
      accepted, executed, cancelled := [], [], [];
    }

    method TryEnter() returns (entered: bool)
      requires Valid()
      modifies this`attempts
      ensures Valid() && entered == setup.lock(old(attempts)) && Abs() == Attempt(old(Abs()))
    {
      entered := setup.lock(attempts);
      attempts := attempts + 1;
    }

    method Bind(newOwner: Option<Owner>) returns (error: LocalError)
      requires Valid()
      modifies this
      ensures Valid() && (error, Abs()) == BindOwner(setup, old(Abs()), newOwner)
    {
      var entered := TryEnter();
      if !entered { return Busy; }
      if newOwner.None? || storage.Length == 0 || setup.maxPerPump == 0 { return InvalidArgument; }
      if !state.Constructed? { return InvalidState; }
      owner, state := newOwner, Running;
      return NoError;
    }

    /** Puts a task in the place after the last. */
    method Append(task: Task)
      requires Valid() && size < storage.Length
      modifies this, storage
      ensures Valid()
      ensures Abs() == old(Abs()).(
                pending := old(Pending()) + [task], accepted := old(accepted) + [task],
                peak := if old(peak) > old(size) then old(peak) else old(size) + 1)
    {
      storage[Place(storage.Length, head, size)] := task;
      size := size + 1;
      if peak < size {
        peak := size;
      }
      accepted := accepted + [task];
    }

    method Post(task: Option<Task>) returns (status: PostStatus)
      requires Valid()
      modifies this, storage
      ensures Valid() && (status, Abs()) == OwnerTasks.Post(setup, old(Abs()), task)
    {
      var entered := TryEnter();
      if !entered { return PostBusy; }
      if task.None? { return Invalid; }
      if state.Stopping? || state.Closed? { return IsStopping; }
      if !state.Running? { return Invalid; }
      if size == storage.Length { return Full; }
      Append(task.value);
      return Accepted;
    }

    /** Takes the first task off the ring, if the lock can be had and there is one. */
    method TryPop() returns (error: LocalError, task: Option<Task>)
      requires Valid()
      modifies this`head, this`size, this`attempts
      ensures Valid()
      ensures var q := old(Abs());
              if !setup.lock(q.attempts) then error == Busy && task == None && Abs() == Attempt(q)
              else if q.pending == [] then error == NoError && task == None && Abs() == Attempt(q)
              else error == NoError && task == Some(q.pending[0]) && Abs() == Attempt(q).(pending := q.pending[1..])
    {
      var entered := TryEnter();
      if !entered { return Busy, None; }
      if size == 0 { return NoError, None; }
      task := Some(storage[head]);
      ghost var was := Pending();
      head := Place(storage.Length, head, 1);
      size := size - 1;
      assert Pending() == was[1..];
      return NoError, task;
    }

    /** Runs a task that was just taken off, while it and other threads post. */
    method RunTask(task: Task)
      requires Valid()
      modifies this, storage
      ensures Valid()
      ensures Abs() == PostAll(setup, old(Abs()).(executed := old(executed) + [task]), setup.spawns(old(attempts), task))
    {
      executed := executed + [task];
      var tasks := setup.spawns(attempts, task);
      ghost var start := Abs();
      for i := 0 to |tasks|
        invariant Valid() && PostAll(setup, start, tasks) == PostAll(setup, Abs(), tasks[i..])
      {
        var status := Post(Some(tasks[i]));
        assert tasks[i..][1..] == tasks[i + 1..];
      }
    }

    method Pump(caller: Owner, requested: nat) returns (error: LocalError, ran: nat)
      requires Valid()
      modifies this, storage
      ensures Valid() && Pumped(error, ran, Abs()) == OwnerTasks.Pump(setup, old(Abs()), caller, requested)
    {
      if owner != Some(caller) { return WrongThread, 0; }
      if !state.Running? && !(state.Stopping? && policy.Drain?) { return InvalidState, 0; }
      error, ran := PumpLoop(Budget(setup, requested));
    }

    method PumpLoop(budget: nat) returns (error: LocalError, ran: nat)
      requires Valid()
      modifies this, storage
      ensures Valid() && Pumped(error, ran, Abs()) == PumpUpTo(setup, old(Abs()), budget)
    {
      ghost var start, now := Abs(), Abs();
      error, ran := NoError, 0;
      var more := true;
      while more && ran < budget
        invariant Valid() && now == Abs() && ran <= budget
        invariant PumpUpTo(setup, start, budget) == if more then More(PumpUpTo(setup, now, budget - ran), ran)
                                                     else Pumped(error, ran, now)
        invariant more ==> error == NoError
        decreases if more then budget - ran + 1 else 0
      {
        error, more, now := PumpNext(budget - ran, now);
        if more {
          ran := ran + 1;
        }
      }
    }

    /** One task more, if the lock can be had and there is one. */
    method PumpNext(budget: nat, ghost before: Queue) returns (error: LocalError, more: bool, ghost after: Queue)
      requires Valid() && budget > 0 && before == Abs()
      modifies this, storage
      ensures Valid() && after == Abs() && (more ==> error == NoError)
      ensures PumpUpTo(setup, before, budget) == if more then More(PumpUpTo(setup, after, budget - 1), 1)
                                                  else Pumped(error, 0, after)
    {
      var task;
      error, task := TryPop();
      more := error == NoError && task.Some?;
      if more {
        RunTask(task.value);
      }
      after := Abs();
    }

    /** Drops every pending task. */
    method CancelPending() returns (error: LocalError)
      requires Valid()
      modifies this
      ensures Valid() && (error, Abs()) == CancelUpTo(setup, old(Abs()), storage.Length)
    {
      ghost var start := Abs();
      for attempt := 0 to storage.Length
        invariant Valid() && CancelUpTo(setup, start, storage.Length) == CancelUpTo(setup, Abs(), storage.Length - attempt)
      {
        var failed, task := TryPop();
        if failed != NoError || task.None? { return failed; }
        cancelled := cancelled + [task.value];
      }
      return if size == 0 then NoError else Busy;
    }

    method BeginStop(caller: Owner, newPolicy: StopPolicy) returns (error: LocalError)
      requires Valid()
      modifies this
      ensures Valid() && (error, Abs()) == OwnerTasks.BeginStop(setup, old(Abs()), caller, newPolicy)
    {
      if owner != Some(caller) { return WrongThread; }
      var entered := TryEnter();
      if !entered { return Busy; }
      if state.Closed? { return NoError; }
      if state.Stopping? && policy != newPolicy { return InvalidState; }
      if state.Constructed? { return InvalidState; }
      if state.Running? {
        state, policy := Stopping, newPolicy;
      }
      if newPolicy.Cancel? {
        error := CancelPending();
      } else {
        error := NoError;
      }
    }

    method FinishStop(caller: Owner) returns (error: LocalError)
      requires Valid()
      modifies this
      ensures Valid() && (error, Abs()) == OwnerTasks.FinishStop(setup, old(Abs()), caller)
    {
      if owner != Some(caller) { return WrongThread; }
      var entered := TryEnter();
      if !entered { return Busy; }
      if state.Closed? { return NoError; }
      if !state.Stopping? || size != 0 { return InvalidState; }
      state := Closed;
      return NoError;
    }
  }
}
