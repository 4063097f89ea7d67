/** The owner task queue: a ring buffer behind a try-lock that behaves as a first-in first-out queue
    with a staged stop. */
module OwnerTasks {
  import opened Wrappers

  type Task = nat
  type Owner = nat

  datatype LocalError =
    | NoError | InvalidArgument | WrongThread | InvalidState | CapacityExhausted | Busy | Unsupported | BackendFailed

  datatype Lifecycle = Constructed | Running | Stopping | Closed

  datatype StopPolicy = Drain | Cancel

  datatype PostStatus = Accepted | Full | IsStopping | PostBusy | Invalid

  /** What is fixed: the ring's size, the most tasks one pump runs, what is posted while a task runs
      that is taken off after so many attempts at the lock, by the task or by other threads, and
      whether the n-th attempt at the lock succeeds. */
  datatype Setup = Setup(capacity: nat, maxPerPump: nat, spawns: (nat, Task) -> seq<Task>, lock: nat -> bool)

  /** The queue without the ring, and what became of every task it took. `attempts` counts the
      attempts at the lock. */
  datatype Queue = Queue(
    owner: Option<Owner>, state: Lifecycle, policy: StopPolicy, pending: seq<Task>, peak: nat, attempts: nat,
    accepted: seq<Task>, executed: seq<Task>, cancelled: seq<Task>)

  const EMPTY := Queue(None, Constructed, Cancel, [], 0, 0, [], [], [])

  function Attempt(q: Queue): Queue {
    q.(attempts := q.attempts + 1)
  }

  function BindOwner(c: Setup, q: Queue, owner: Option<Owner>): (LocalError, Queue) {
    if !c.lock(q.attempts) then (Busy, Attempt(q))
    else if owner.None? || c.capacity == 0 || c.maxPerPump == 0 then (InvalidArgument, Attempt(q))
    else if !q.state.Constructed? then (InvalidState, Attempt(q))
    else (NoError, Attempt(q).(owner := owner, state := Running))
  }

  /** `task` is absent for a task without a body. */
  function Post(c: Setup, q: Queue, task: Option<Task>): (PostStatus, Queue) {
    if !c.lock(q.attempts) then (PostBusy, Attempt(q))
    else if task.None? then (Invalid, Attempt(q))
    else if q.state.Stopping? || q.state.Closed? then (IsStopping, Attempt(q))
    else if !q.state.Running? then (Invalid, Attempt(q))
    else if |q.pending| >= c.capacity then (Full, Attempt(q))
    else
      (Accepted, Attempt(q).(
        pending := q.pending + [task.value],
        accepted := q.accepted + [task.value],
        peak := if q.peak > |q.pending| then q.peak else |q.pending| + 1))
  }

  /** A task runs: what is posted meanwhile is posted in order, whatever becomes of each. */
  function PostAll(c: Setup, q: Queue, tasks: seq<Task>): Queue
    decreases |tasks|
  {
    if tasks == [] then q else PostAll(c, Post(c, q, Some(tasks[0])).1, tasks[1..])
  }

  /** The first task is taken off to be run. */
  function Popped(q: Queue): Queue
    requires q.pending != []
  {
    Attempt(q).(pending := q.pending[1..], executed := q.executed + [q.pending[0]])
  }

  function Run(c: Setup, q: Queue): Queue
    requires q.pending != []
  {
    PostAll(c, Popped(q), c.spawns(Popped(q).attempts, q.pending[0]))
  }

  datatype Pumped = Pumped(error: LocalError, executed: nat, q: Queue)

  function PumpUpTo(c: Setup, q: Queue, budget: nat): Pumped
    decreases budget
  {
    if budget == 0 then Pumped(NoError, 0, q)
    else if !c.lock(q.attempts) then Pumped(Busy, 0, Attempt(q))
    else if q.pending == [] then Pumped(NoError, 0, Attempt(q))
    else
      var rest := PumpUpTo(c, Run(c, q), budget - 1);
      rest.(executed := rest.executed + 1)
  }

  function Budget(c: Setup, requested: nat): nat {
    if requested == 0 || requested > c.maxPerPump then c.maxPerPump else requested
  }

  function Pump(c: Setup, q: Queue, caller: Owner, requested: nat): Pumped {
    if q.owner != Some(caller) then Pumped(WrongThread, 0, q)
    else if !q.state.Running? && !(q.state.Stopping? && q.policy.Drain?) then Pumped(InvalidState, 0, q)
    else PumpUpTo(c, q, Budget(c, requested))
  }

  function CancelUpTo(c: Setup, q: Queue, tries: nat): (LocalError, Queue)
    decreases tries
  {
    if tries == 0 then (if q.pending == [] then NoError else Busy, q)
    else if !c.lock(q.attempts) then (Busy, Attempt(q))
    else if q.pending == [] then (NoError, Attempt(q))
    else
      CancelUpTo(
        c, Attempt(q).(pending := q.pending[1..], cancelled := q.cancelled + [q.pending[0]]), tries - 1)
  }

  function BeginStop(c: Setup, q: Queue, caller: Owner, policy: StopPolicy): (LocalError, Queue) {
    if q.owner != Some(caller) then (WrongThread, q)
    else if !c.lock(q.attempts) then (Busy, Attempt(q))
    else if q.state.Closed? then (NoError, Attempt(q))
    else if q.state.Constructed? || (q.state.Stopping? && q.policy != policy) then (InvalidState, Attempt(q))
    else
      var stopping := Attempt(q).(state := Stopping, policy := policy);
      if policy.Cancel? then CancelUpTo(c, stopping, c.capacity) else (NoError, stopping)
  }

  function FinishStop(c: Setup, q: Queue, caller: Owner): (LocalError, Queue) {
    if q.owner != Some(caller) then (WrongThread, q)
    else if !c.lock(q.attempts) then (Busy, Attempt(q))
    else if q.state.Closed? then (NoError, Attempt(q))
    else if !q.state.Stopping? || q.pending != [] then (InvalidState, Attempt(q))
    else (NoError, Attempt(q).(state := Closed))
  }

  // ----- What a call comes to -----

  /** A post is taken exactly with the lock, a body, a running queue and a place; then it is the last, and
      the peak is the most that ever waited. Refused, it leaves the queue as it was. */
  lemma PostMeans(c: Setup, q: Queue, task: Option<Task>)
    ensures var (status, r) := Post(c, q, task);
            var locked := c.lock(q.attempts);
            && (status.Accepted? <==> locked && task.Some? && q.state.Running? && |q.pending| < c.capacity)
            && (status.Full? <==> locked && task.Some? && q.state.Running? && |q.pending| >= c.capacity)
            && (status.IsStopping? <==> locked && task.Some? && (q.state.Stopping? || q.state.Closed?))
            && (status.PostBusy? <==> !locked)
            && (status.Accepted? ==>
                  && r.pending == q.pending + [task.value] && r.accepted == q.accepted + [task.value]
                  && r.peak >= q.peak && r.peak >= |r.pending| && (r.peak == q.peak || r.peak == |r.pending|))
            && (!status.Accepted? ==> r == q.(attempts := r.attempts))
  {
  }

  /** A queue gets its owner exactly once, with the lock and limits that are not zero; then it runs. */
  lemma BindMeans(c: Setup, q: Queue, owner: Option<Owner>)
    ensures var (error, r) := BindOwner(c, q, owner);
            && (error.NoError?
                <==> c.lock(q.attempts) && owner.Some? && c.capacity > 0 && c.maxPerPump > 0 && q.state.Constructed?)
            && r == (if error.NoError? then q.(owner := owner, state := Running, attempts := r.attempts)
                     else q.(attempts := r.attempts))
  {
  }

  /** A stop that drains is taken by the owner with the lock, unless the queue was never bound or stops
      otherwise; then the queue stops, with all its tasks still pending. */
  lemma DrainMeans(c: Setup, q: Queue, caller: Owner)
    ensures var (error, r) := BeginStop(c, q, caller, Drain);
            && (error.NoError?
                <==> && q.owner == Some(caller) && c.lock(q.attempts) && !q.state.Constructed?
                     && (q.state.Stopping? ==> q.policy.Drain?))
            && r == (if error.NoError? && !q.state.Closed? then
                       q.(state := Stopping, policy := StopPolicy.Drain, attempts := r.attempts)
                     else q.(attempts := r.attempts))
  {
  }

  /** A stop is finished by the owner with the lock, once the queue stops and is empty, or was closed
      before. */
  lemma FinishMeans(c: Setup, q: Queue, caller: Owner)
    ensures var (error, r) := FinishStop(c, q, caller);
            && (error.NoError?
                <==> && q.owner == Some(caller) && c.lock(q.attempts)
                     && (q.state.Closed? || (q.state.Stopping? && q.pending == [])))
            && r == (if error.NoError? then q.(state := Closed, attempts := r.attempts) else q.(attempts := r.attempts))
  {
  }

  /** A pump runs tasks for the owner only, while the queue runs or stops with a drain, and takes off at
      most what is asked for and one pump may take. */
  lemma PumpMeans(c: Setup, q: Queue, caller: Owner, requested: nat)
    ensures var pumped := Pump(c, q, caller, requested);
            && (pumped.error.WrongThread? <==> q.owner != Some(caller))
            && (pumped.error.InvalidState?
                <==> q.owner == Some(caller)
                     && (q.state.Constructed? || q.state.Closed? || (q.state.Stopping? && q.policy.Cancel?)))
            && (pumped.error.WrongThread? || pumped.error.InvalidState? ==> pumped.q == q && pumped.executed == 0)
            && pumped.executed <= c.maxPerPump && (requested > 0 ==> pumped.executed <= requested)
  {
    PumpBounded(c, q, Budget(c, requested));
  }

  lemma {:induction false} PumpBounded(c: Setup, q: Queue, budget: nat)
    ensures var pumped := PumpUpTo(c, q, budget);
            pumped.executed <= budget && (pumped.error.NoError? || pumped.error.Busy?)
    decreases budget
  {
    if budget > 0 && c.lock(q.attempts) && q.pending != [] {
      PumpBounded(c, Run(c, q), budget - 1);
    }
  }

  // ----- Whole runs -----

  datatype Call =
    | CallBind(newOwner: Option<Owner>)
    | CallPost(task: Option<Task>)
    | CallPump(caller: Owner, requested: nat)
    | CallBeginStop(caller: Owner, policy: StopPolicy)
    | CallFinishStop(caller: Owner)

  function Apply(c: Setup, q: Queue, call: Call): Queue {
    match call
    case CallBind(owner) => BindOwner(c, q, owner).1
    case CallPost(task) => Post(c, q, task).1
    case CallPump(caller, requested) => Pump(c, q, caller, requested).q
    case CallBeginStop(caller, policy) => BeginStop(c, q, caller, policy).1
    case CallFinishStop(caller) => FinishStop(c, q, caller).1
  }

  function History(c: Setup, calls: seq<Call>): Queue {
    if calls == [] then EMPTY else Apply(c, History(c, calls[..|calls| - 1]), calls[|calls| - 1])
  }

  /** What every run keeps: each accepted task was executed, cancelled or is pending, in the order
      of acceptance; nothing is cancelled unless the stop asked for it; a closed queue is empty. */
  ghost predicate Orderly(c: Setup, q: Queue) {
    && q.accepted == q.executed + q.cancelled + q.pending
    && |q.pending| <= c.capacity && |q.pending| <= q.peak <= c.capacity
    && (q.cancelled != [] ==> (q.state.Stopping? || q.state.Closed?) && q.policy.Cancel?)
    && (q.state.Closed? ==> q.pending == [])
    && (q.state.Constructed? ==> q.accepted == [] && q.owner.None?)
    && (!q.state.Constructed? ==> q.owner.Some? && c.maxPerPump > 0)
  }

  /** What a later state of the same queue shares with an earlier one. */
  ghost predicate Extends(q: Queue, r: Queue) {
    && q.accepted <= r.accepted && q.executed <= r.executed && q.cancelled <= r.cancelled
    && (q.state.Closed? ==> r.state.Closed? && r.accepted == q.accepted && r.policy == q.policy)
    && (q.state.Stopping? ==>
          (r.state.Stopping? || r.state.Closed?) && r.accepted == q.accepted && r.policy == q.policy)
  }

  lemma PostKeeps(c: Setup, q: Queue, task: Option<Task>)
    requires Orderly(c, q)
    ensures var r := Post(c, q, task).1;
            && Orderly(c, r) && Extends(q, r) && r.executed == q.executed && r.cancelled == q.cancelled
            && r.state == q.state && r.policy == q.policy && r.owner == q.owner && q.pending <= r.pending
  {
    if Post(c, q, task).0.Accepted? {
      assert q.executed + q.cancelled + (q.pending + [task.value]) == q.executed + q.cancelled + q.pending + [task.value];
    }
  }

  lemma {:induction false} PostAllKeeps(c: Setup, q: Queue, tasks: seq<Task>)
    requires Orderly(c, q)
    ensures var r := PostAll(c, q, tasks);
            && Orderly(c, r) && Extends(q, r) && r.executed == q.executed && r.cancelled == q.cancelled
            && r.state == q.state && r.policy == q.policy && r.owner == q.owner && q.pending <= r.pending
    decreases |tasks|
  {
    if tasks != [] {
      PostKeeps(c, q, Some(tasks[0]));
      PostAllKeeps(c, Post(c, q, Some(tasks[0])).1, tasks[1..]);
    }
  }

  /** Running the first pending task: nothing was cancelled before it. */
  lemma RunKeeps(c: Setup, q: Queue)
    requires Orderly(c, q) && q.pending != [] && q.cancelled == []
    ensures var r := Run(c, q);
            && Orderly(c, r) && Extends(q, r) && r.executed == q.executed + [q.pending[0]] && r.cancelled == []
            && r.state == q.state && r.policy == q.policy && r.owner == q.owner && q.pending[1..] <= r.pending
  {
    assert q.executed + q.cancelled + q.pending == q.executed + [q.pending[0]] + [] + q.pending[1..];
    PostAllKeeps(c, Popped(q), c.spawns(Popped(q).attempts, q.pending[0]));
  }

  /** A pump runs at most its budget, in order, whatever its tasks post; it stops short only when
      the queue is empty or the lock is taken. */
  lemma {:induction false} PumpRuns(c: Setup, q: Queue, budget: nat)
    requires Orderly(c, q) && q.cancelled == []
    ensures var p := PumpUpTo(c, q, budget);
            && Orderly(c, p.q) && Extends(q, p.q) && p.q.cancelled == []
            && p.q.state == q.state && p.q.policy == q.policy && p.q.owner == q.owner
            && p.executed <= budget && |p.q.executed| == |q.executed| + p.executed
            && p.q.executed <= p.q.accepted
            && (p.error.NoError? || p.error.Busy?)
            && (p.error.NoError? && p.executed < budget ==> p.q.pending == [])
    decreases budget
  {
    if budget > 0 && c.lock(q.attempts) && q.pending != [] {
      RunKeeps(c, q);
      PumpRuns(c, Run(c, q), budget - 1);
    }
  }

  lemma {:induction false} CancelKeeps(c: Setup, q: Queue, tries: nat)
    requires Orderly(c, q) && q.state.Stopping? && q.policy.Cancel?
    ensures var r := CancelUpTo(c, q, tries);
            && Orderly(c, r.1) && Extends(q, r.1) && r.1.state == q.state && r.1.owner == q.owner
            && r.1.executed == q.executed && r.1.policy == q.policy
            && (r.0.NoError? <==> r.1.pending == [] && !r.0.Busy?) && (r.0.NoError? || r.0.Busy?)
    decreases tries
  {
    if tries > 0 && c.lock(q.attempts) && q.pending != [] {
      var next := Attempt(q).(pending := q.pending[1..], cancelled := q.cancelled + [q.pending[0]]);
      assert q.executed + q.cancelled + q.pending == q.executed + (q.cancelled + [q.pending[0]]) + q.pending[1..];
      CancelKeeps(c, next, tries - 1);
    }
  }

  lemma PumpKeeps(c: Setup, q: Queue, caller: Owner, requested: nat)
    requires Orderly(c, q)
    ensures Orderly(c, Pump(c, q, caller, requested).q) && Extends(q, Pump(c, q, caller, requested).q)
  {
    if q.state.Running? || (q.state.Stopping? && q.policy.Drain?) {
      PumpRuns(c, q, Budget(c, requested));
    }
  }

  /** A stop is accepted once and then only repeated; a stop that cancels leaves nothing pending
      exactly when it reports no error. */
  lemma BeginStopKeeps(c: Setup, q: Queue, caller: Owner, policy: StopPolicy)
    requires Orderly(c, q)
    ensures var r := BeginStop(c, q, caller, policy);
            && Orderly(c, r.1) && Extends(q, r.1) && r.1.executed == q.executed
            && (policy.Cancel? && r.0.NoError? ==> r.1.pending == [])
  {
    if policy.Cancel? && (q.state.Running? || (q.state.Stopping? && q.policy == policy)) {
      CancelKeeps(c, Attempt(q).(state := Stopping, policy := policy), c.capacity);
    }
  }

  /** Every call keeps the queue orderly and only adds to what it did before. */
  lemma ApplyKeeps(c: Setup, q: Queue, call: Call)
    requires Orderly(c, q)
    ensures Orderly(c, Apply(c, q, call)) && Extends(q, Apply(c, q, call))
  {
    match call
    case CallBind(owner) =>
    case CallPost(task) => PostKeeps(c, q, task);
    case CallPump(caller, requested) => PumpKeeps(c, q, caller, requested);
    case CallBeginStop(caller, policy) => BeginStopKeeps(c, q, caller, policy);
    case CallFinishStop(caller) =>
  }

  /** Over every run: accepted tasks are the executed, then the cancelled, then the pending ones, in
      the order they were accepted, and a closed queue is empty. */
  lemma {:induction false} HistoryIsOrderly(c: Setup, calls: seq<Call>)
    ensures Orderly(c, History(c, calls))
  {
    if calls == [] {
      assert EMPTY.executed + EMPTY.cancelled + EMPTY.pending == [];
    } else {
      HistoryIsOrderly(c, calls[..|calls| - 1]);
      ApplyKeeps(c, History(c, calls[..|calls| - 1]), calls[|calls| - 1]);
    }
  }

  /** Once closed, a queue stays closed and empty and takes nothing more, whatever is called. */
  lemma {:induction false} ClosedForEver(c: Setup, calls: seq<Call>, more: seq<Call>)
    requires History(c, calls).state.Closed?
    ensures var q, r := History(c, calls), History(c, calls + more);
            r.state.Closed? && r.pending == [] && r.accepted == q.accepted && r.executed == q.executed
            && r.cancelled == q.cancelled
    decreases |more|
  {
    HistoryIsOrderly(c, calls);
    if more == [] {
      assert calls + more == calls;
    } else {
      var last := |more| - 1;
      ClosedForEver(c, calls, more[..last]);
      assert (calls + more)[..|calls + more| - 1] == calls + more[..last];
      HistoryIsOrderly(c, calls + more[..last]);
      ClosedStays(c, History(c, calls + more[..last]), more[last]);
    }
  }

  lemma ClosedStays(c: Setup, q: Queue, call: Call)
    requires Orderly(c, q) && q.state.Closed?
    ensures var r := Apply(c, q, call);
            r.state.Closed? && r.pending == [] && r.accepted == q.accepted && r.executed == q.executed
            && r.cancelled == q.cancelled
  {
    var r := Apply(c, q, call);
    ApplyKeeps(c, q, call);
    SameParts(q.executed, q.cancelled, r.executed, r.cancelled);
  }

  lemma SameParts(a: seq<Task>, b: seq<Task>, x: seq<Task>, y: seq<Task>)
    requires a <= x && b <= y && a + b == x + y
    ensures a == x && b == y
  {
    assert |a| + |b| == |x| + |y|;
  }

  // ----- Draining -----

  datatype Drained = Done | Contended | Stuck(error: LocalError)

  /** One pump after another, as the stop of the backends does, for up to `passes` passes. */
  function DrainPasses(c: Setup, q: Queue, caller: Owner, passes: nat): (Drained, Queue)
    decreases passes
  {
    if passes == 0 || q.pending == [] then (Done, q)
    else
      var p := Pump(c, q, caller, 0);
      if p.error.Busy? then (Contended, p.q)
      else if !p.error.NoError? || p.executed == 0 then (Stuck(if p.error.NoError? then Busy else p.error), p.q)
      else DrainPasses(c, p.q, caller, passes - 1)
  }

  lemma {:induction false} StoppingPostsNothing(c: Setup, q: Queue, tasks: seq<Task>)
    requires q.state.Stopping?
    ensures PostAll(c, q, tasks) == q.(attempts := q.attempts + |tasks|)
    decreases |tasks|
  {
    if tasks != [] {
      StoppingPostsNothing(c, Post(c, q, Some(tasks[0])).1, tasks[1..]);
    }
  }

  /** The attempts at the lock after the first of the pending tasks ran. */
  function AfterTask(c: Setup, task: Task, attempts: nat): nat {
    attempts + 1 + |c.spawns(attempts + 1, task)|
  }

  /** Whether a pump of these tasks of a stopping queue finds the lock free each time it pops. */
  predicate PumpFree(c: Setup, pending: seq<Task>, attempts: nat, budget: nat)
    decreases budget
  {
    budget == 0
    || (c.lock(attempts)
        && (pending == [] || PumpFree(c, pending[1..], AfterTask(c, pending[0], attempts), budget - 1)))
  }

  /** The attempts at the lock after such a pump. */
  function PumpEnd(c: Setup, pending: seq<Task>, attempts: nat, budget: nat): (r: nat)
    ensures r >= attempts
    decreases budget
  {
    if budget == 0 then attempts
    else if pending == [] then attempts + 1
    else PumpEnd(c, pending[1..], AfterTask(c, pending[0], attempts), budget - 1)
  }

  function Least(a: nat, b: nat): nat {
    if a < b then a else b
  }

  /** Whether each pop of a drain finds the lock free. */
  predicate DrainFree(c: Setup, pending: seq<Task>, attempts: nat, passes: nat)
    decreases passes
  {
    || passes == 0 || pending == []
    || (&& PumpFree(c, pending, attempts, c.maxPerPump)
        && DrainFree(c, pending[Least(c.maxPerPump, |pending|)..], PumpEnd(c, pending, attempts, c.maxPerPump), passes - 1))
  }

  /** A pump of a stopping queue takes off as many tasks as its budget allows exactly when every pop
      of it finds the lock free. */
  lemma {:induction false} StoppingPump(c: Setup, q: Queue, budget: nat)
    requires q.state.Stopping?
    ensures var p := PumpUpTo(c, q, budget);
            && (p.error.NoError? <==> PumpFree(c, q.pending, q.attempts, budget))
            && (p.error.NoError? ==>
                  && p.executed == Least(budget, |q.pending|) && p.q.pending == q.pending[p.executed..]
                  && p.q.attempts == PumpEnd(c, q.pending, q.attempts, budget))
    decreases budget
  {
    if budget > 0 && q.pending != [] {
      StoppingPostsNothing(c, Popped(q), c.spawns(Popped(q).attempts, q.pending[0]));
      StoppingPump(c, Run(c, q), budget - 1);
    }
  }

  /** A drain by the owner ends, with an empty queue if it has as many passes as there are tasks,
      exactly when every pop of it finds the lock free. */
  lemma {:induction false} DrainDoneIff(c: Setup, q: Queue, caller: Owner, passes: nat)
    requires Orderly(c, q) && q.state.Stopping? && q.policy.Drain? && q.owner == Some(caller)
    ensures var d := DrainPasses(c, q, caller, passes);
            && (d.0.Done? <==> DrainFree(c, q.pending, q.attempts, passes))
            && (d.0.Done? && |q.pending| <= passes ==> d.1.pending == [])
            && d.1.attempts >= q.attempts
    decreases passes
  {
    if passes > 0 && q.pending != [] {
      StoppingPump(c, q, c.maxPerPump);
      PumpRuns(c, q, c.maxPerPump);
      PumpAttempts(c, q, c.maxPerPump);
      var p := Pump(c, q, caller, 0);
      if p.error.NoError? {
        DrainDoneIff(c, p.q, caller, passes - 1);
      }
    }
  }

  lemma {:induction false} PostAllAttempts(c: Setup, q: Queue, tasks: seq<Task>)
    ensures PostAll(c, q, tasks).attempts == q.attempts + |tasks|
    decreases |tasks|
  {
    if tasks != [] {
      PostAllAttempts(c, Post(c, q, Some(tasks[0])).1, tasks[1..]);
    }
  }

  lemma {:induction false} PumpAttempts(c: Setup, q: Queue, budget: nat)
    ensures PumpUpTo(c, q, budget).q.attempts >= q.attempts
    decreases budget
  {
    if budget > 0 && c.lock(q.attempts) && q.pending != [] {
      PostAllAttempts(c, Popped(q), c.spawns(Popped(q).attempts, q.pending[0]));
      PumpAttempts(c, Run(c, q), budget - 1);
    }
  }

  /** From an attempt on the lock is free. */
  ghost predicate FreeFrom(c: Setup, attempts: nat) {
    forall n :: n >= attempts ==> c.lock(n)
  }

  lemma {:induction false} FreePump(c: Setup, pending: seq<Task>, attempts: nat, budget: nat)
    requires FreeFrom(c, attempts)
    ensures PumpFree(c, pending, attempts, budget)
    decreases budget
  {
    if budget > 0 && pending != [] {
      FreePump(c, pending[1..], AfterTask(c, pending[0], attempts), budget - 1);
    }
  }

  lemma {:induction false} FreeDrain(c: Setup, pending: seq<Task>, attempts: nat, passes: nat)
    requires FreeFrom(c, attempts)
    ensures DrainFree(c, pending, attempts, passes)
    decreases passes
  {
    if passes > 0 && pending != [] {
      FreePump(c, pending, attempts, c.maxPerPump);
      FreeDrain(c, pending[Least(c.maxPerPump, |pending|)..], PumpEnd(c, pending, attempts, c.maxPerPump), passes - 1);
    }
  }

  /** With the lock free a pump is never busy. */
  lemma {:induction false} FreePumpRuns(c: Setup, q: Queue, budget: nat)
    requires FreeFrom(c, q.attempts)
    ensures PumpUpTo(c, q, budget).error.NoError?
    decreases budget
  {
    if budget > 0 && q.pending != [] {
      PostAllAttempts(c, Popped(q), c.spawns(Popped(q).attempts, q.pending[0]));
      FreePumpRuns(c, Run(c, q), budget - 1);
    }
  }

  /** Contended or not, a drain by the owner never gets stuck: either every pass found the lock, and
      as many passes as there were tasks empty the queue, or one did not. */
  lemma {:induction false} DrainIsBusyOrDone(c: Setup, q: Queue, caller: Owner, passes: nat)
    requires Orderly(c, q) && q.state.Stopping? && q.policy.Drain? && q.owner == Some(caller)
    ensures var d := DrainPasses(c, q, caller, passes);
            && Orderly(c, d.1) && Extends(q, d.1) && d.1.owner == q.owner && d.1.state.Stopping?
            && !d.0.Stuck?
            && (d.0.Done? && |q.pending| <= passes ==> d.1.pending == [])
    decreases passes
  {
    if passes > 0 && q.pending != [] {
      PumpRuns(c, q, c.maxPerPump);
      var p := Pump(c, q, caller, 0);
      if p.error.NoError? {
        DrainIsBusyOrDone(c, p.q, caller, passes - 1);
      }
    }
  }
}
