/** Whether the surface host's close can finish: it can as long as the owner queue has dropped no task of
    an accepted command, and never after. */
module SurfaceCloses {
  import opened Wrappers
  import opened SurfaceCommands
  import opened SurfaceProtocol
  import OwnerTasks

  lemma {:induction false} RunKeeps(p: Protocol, events: seq<Event>)
    requires Sound(p)
    ensures Sound(Run(p, events)) && p.lost <= Run(p, events).lost
  {
    if events != [] {
      var last := |events| - 1;
      RunKeeps(p, events[..last]);
      ApplyKeeps(Run(p, events[..last]), events[last]);
      LostStays(Run(p, events[..last]), events[last]);
    }
  }

  /** A dropped task is never made up for. */
  lemma LostStays(p: Protocol, event: Event)
    ensures p.lost <= Apply(p, event).lost
  {
    match event
    case DoService(budget, ports, guards) => ServiceOnly(p, budget, ports, guards);
    case DoFinishClose(ports, guards, releasable) => ServiceOnly(p, COMPLETED_REQUESTS, ports, guards);
    case _ =>
  }

  lemma LostBlocks(p: Protocol)
    requires Sound(p) && p.lost != {}
    ensures !p.closed
  {
    var i :| i in p.lost;
    assert p.slots[i].state.Queued?;
  }

  /** Every pending task can still run. */
  lemma {:induction false} RunAllTasks(p: Protocol) returns (more: seq<Event>)
    requires Sound(p) && p.lost == {}
    ensures var r := Run(p, more); Sound(r) && r.tasks == [] && r.lost == {} && r.accepting == p.accepting
    decreases |p.tasks|
  {
    if p.tasks == [] {
      more := [];
    } else {
      var event := DoRunTask(SOME_ANSWERS, ResultTaken);
      ApplyKeeps(p, event);
      OneTaskLess(p);
      var rest := RunAllTasks(Apply(p, event));
      more := [event] + rest;
      RunFirst(p, event, rest);
    }
  }

  const SOME_ANSWERS := Answers(request => NewRoot.Refused, (request, root) => true, (request, surface) => true)

  lemma OneTaskLess(p: Protocol)
    requires Sound(p) && p.tasks != []
    ensures var r := RunTask(SOME_ANSWERS, p, ResultTaken);
            |r.tasks| < |p.tasks| && r.lost == p.lost && r.accepting == p.accepting
  {
  }

  lemma {:induction false} RunFirst(p: Protocol, event: Event, rest: seq<Event>)
    ensures Run(p, [event] + rest) == Run(Apply(p, event), rest)
  {
    var events := [event] + rest;
    if rest == [] {
      assert events[..0] == [];
    } else {
      RunFirst(p, event, rest[..|rest| - 1]);
      assert events[..|events| - 1] == [event] + rest[..|rest| - 1];
    }
  }

  /** No command is queued, and a pending result is there. */
  predicate NoneQueued(slots: seq<OpSlot>) {
    forall i :: 0 <= i < |slots| ==>
      !slots[i].state.Queued? && (slots[i].state.ResultPending? ==> slots[i].result.Some?)
  }

  /** With no command queued, every result taken and the lock free, a pass with budget enough frees
      all slots. */
  lemma {:induction false} ServedFrees(p: Protocol, n: nat, budget: nat)
    requires NoneQueued(p.slots) && n <= |p.slots| && budget > 2 * |p.slots|
    ensures var served := Served(p, n, budget, k => ResultTaken, k => true);
            && served.1 <= 2 * n
            && (forall i :: 0 <= i < n ==> served.0.slots[i].state.Free?)
            && (forall i :: n <= i < |p.slots| ==> served.0.slots[i] == p.slots[i])
  {
    if n > 0 {
      ServedFrees(p, n - 1, budget);
      var before := Served(p, n - 1, budget, k => ResultTaken, k => true);
      assert before.1 < budget;
      SlotFreed(before.0, n - 1);
    }
  }

  lemma SlotFreed(p: Protocol, i: nat)
    requires i < |p.slots| && !p.slots[i].state.Queued?
    requires p.slots[i].state.ResultPending? ==> p.slots[i].result.Some?
    ensures var r := ServiceSlot(p, i, ResultTaken, true);
            && r.slots[i].state.Free? && Spent(p, i, ResultTaken, true) <= 2
            && forall k :: 0 <= k < |p.slots| && k != i ==> r.slots[k] == p.slots[k]
  {
  }

  lemma CloseFinishes(p: Protocol)
    requires Sound(p) && p.tasks == [] && p.lost == {} && !p.accepting && !p.closed
    ensures var served := Service(p, 2 * |p.slots| + 1, k => ResultTaken, k => true);
            FinishClose(served, k => ResultTaken, k => true, k => true).1.closed
  {
    var budget := 2 * |p.slots| + 1;
    forall i | 0 <= i < |p.slots|
      ensures !p.slots[i].state.Queued? && (p.slots[i].state.ResultPending? ==> p.slots[i].result.Some?)
    {
      assert SlotSound(p.slots[i], p.accepted, p.fates);
    }
    ServedFrees(p, |p.slots|, budget);
    var served := Service(p, budget, k => ResultTaken, k => true);
    ServiceKeeps(p, budget, k => ResultTaken, k => true);
    ServiceOnly(p, budget, k => ResultTaken, k => true);
    FreeServes(served, |served.slots|);
  }

  lemma {:induction false} FreeServes(p: Protocol, n: nat)
    requires AllFree(p.slots) && n <= |p.slots|
    ensures Served(p, n, COMPLETED_REQUESTS, k => ResultTaken, k => true) == (p, 0)
  {
    if n > 0 {
      FreeServes(p, n - 1);
    }
  }

  lemma {:induction false} RunJoins(p: Protocol, first: seq<Event>, second: seq<Event>)
    ensures Run(p, first + second) == Run(Run(p, first), second)
  {
    if second == [] {
      assert first + second == first;
    } else {
      RunJoins(p, first, second[..|second| - 1]);
      assert (first + second)[..|first + second| - 1] == first + second[..|second| - 1];
    }
  }

  lemma RunTwo(p: Protocol, a: Event, b: Event)
    ensures Run(p, [a, b]) == Apply(Apply(p, a), b)
  {
    assert [a][..|[a]| - 1] == [];
    assert Run(p, [a]) == Apply(p, a);
    assert [a, b][..|[a, b]| - 1] == [a];
  }

  lemma IdleCloses(p: Protocol) returns (more: seq<Event>)
    requires Sound(p) && p.tasks == [] && p.lost == {} && !p.accepting
    ensures Run(p, more).closed
  {
    if p.closed {
      more := [];
    } else {
      var serve := DoService(2 * |p.slots| + 1, k => ResultTaken, k => true);
      var finish := DoFinishClose(k => ResultTaken, k => true, surface => true);
      CloseFinishes(p);
      RunTwo(p, serve, finish);
      more := [serve, finish];
    }
  }

  /** From a host with no task dropped a run leads to its close. */
  lemma ClosesInTheEnd(p: Protocol) returns (more: seq<Event>)
    requires Sound(p) && p.lost == {}
    ensures Run(p, more).closed
  {
    var stopped := Apply(p, DoClose);
    ApplyKeeps(p, DoClose);
    var tasks := RunAllTasks(stopped);
    var idle := Run(stopped, tasks);
    var rest := IdleCloses(idle);
    RunFirst(p, DoClose, tasks);
    RunJoins(p, [DoClose] + tasks, rest);
    more := [DoClose] + tasks + rest;
  }

  /** In every run: the close can still finish if and only if the owner queue has dropped no task of an
      accepted command. */
  lemma CloseCanFinishIff(maxOperations: nat, maxRoots: nat, events: seq<Event>)
    ensures var p := History(maxOperations, maxRoots, events);
            (exists more :: Run(p, more).closed) <==> p.lost == {}
  {
    var p := History(maxOperations, maxRoots, events);
    HistoryIsSound(maxOperations, maxRoots, events);
    if p.lost == {} {
      var more := ClosesInTheEnd(p);
    } else {
      forall more ensures !Run(p, more).closed {
        RunKeeps(p, more);
        LostBlocks(Run(p, more));
      }
    }
  }

  /** A run that drops one: a command is posted and its task cancelled. */
  const DROPPED_RUN := [DoPost(Destroy(1, 1), true, OwnerTasks.Accepted), DoCancelTask]

  lemma CloseCanBlock(more: seq<Event>)
    ensures !Run(History(1, 1, DROPPED_RUN), more).closed
  {
    var p, c := Opened(1, 1), Destroy(1, 1);
    assert DROPPED_RUN[..1][..0] == [] && DROPPED_RUN[..2] == DROPPED_RUN;
    assert FreeSlot(p.slots, 0) == Some(0);
    assert History(1, 1, DROPPED_RUN[..1]) == Admit(p, c, 0);
    var dropped := History(1, 1, DROPPED_RUN);
    assert dropped == CancelTask(Admit(p, c, 0));
    assert 0 in dropped.lost;
    CloseCanFinishIff(1, 1, DROPPED_RUN);
  }
}
