/** What completions are called with: a control's with the core's answer to it, a signal's at once when it
    is repeated or turned down, and a destroy's with the first fault of its teardown. */
module RuntimeAnswers {
  import opened Wrappers
  import Tasks = OwnerTasks
  import opened RuntimeHosts
  import opened RuntimeTeardowns
  import opened RuntimeStarts
  import BL = BackendLifecycles

  /** The completion, if there is one, was called with this, after `n` others. */
  ghost predicate ToldSince(answers: seq<Answer>, n: nat, completion: Option<Token>, result: CallResult) {
    completion.Some? ==> exists k :: n <= k < |answers| && answers[k] == Answer(completion.value, result)
  }

  /** Completions called stay called, in order. */
  predicate More(h: Host, r: Host) {
    |h.answers| <= |r.answers| && r.answers[..|h.answers|] == h.answers
  }

  lemma MoreTwice(h: Host, m: Host, r: Host)
    requires More(h, m) && More(m, r)
    ensures More(h, r)
  {
    assert r.answers[..|h.answers|] == r.answers[..|m.answers|][..|h.answers|];
  }

  lemma ToldStays(h: Host, r: Host, n: nat, completion: Option<Token>, result: CallResult)
    requires ToldSince(h.answers, n, completion, result) && More(h, r)
    ensures ToldSince(r.answers, n, completion, result)
  {
    if completion.Some? {
      var k :| n <= k < |h.answers| && h.answers[k] == Answer(completion.value, result);
      assert r.answers[..|h.answers|][k] == r.answers[k];
    }
  }

  lemma ToldNow(h: Host, completion: Option<Token>, result: CallResult)
    ensures More(h, CallBack(h, completion, result))
    ensures ToldSince(CallBack(h, completion, result).answers, |h.answers|, completion, result)
  {
    var r := CallBack(h, completion, result);
    if completion.Some? {
      assert r.answers[|h.answers|] == Answer(completion.value, result);
    }
  }

  // ----- Controls -----

  /** What a control comes to: what the core says of it, if it speaks of this one. */
  function ControlVerdict(result: CallResult, matches: bool): CallResult {
    if matches then result else Fault(AbiInvalidArgument)
  }

  /** The core's answer to the control waits for a pump. */
  predicate ControlWaits(h: Host, i: nat, slot: Control, verdict: CallResult) {
    && i < |h.controls| && h.controls[i] == slot.(owed := false, ready := true, result := verdict)
  }

  lemma StillWaits(w: World, h: Host, event: Event, i: nat, slot: Control, verdict: CallResult)
    requires Sound(h) && slot.active && ControlWaits(h, i, slot, verdict) && !event.DoPump?
    ensures ControlWaits(Apply(w, h, event), i, slot, verdict)
  {
    match event
    case DoStart(_, _, _) =>
      assert h.state.New? ==> !AnyActive(h.controls);
      assert h.controls[i].active;
    case _ =>
  }

  lemma {:induction false} ControlAwaits(
    w: World, before: seq<Event>, i: nat, result: CallResult, matches: bool, between: seq<Event>)
    requires i < |History(w, before).controls| && NoPump(between)
    requires History(w, before).controls[i].active && History(w, before).controls[i].owed
    ensures ControlWaits(History(w, before + [DoCoreControlled(i, result, matches)] + between), i,
                         History(w, before).controls[i], ControlVerdict(result, matches))
    decreases |between|
  {
    var start := before + [DoCoreControlled(i, result, matches)];
    if between == [] {
      NextEvent(w, before, DoCoreControlled(i, result, matches));
      assert start + between == start;
    } else {
      var n := |between| - 1;
      ControlAwaits(w, before, i, result, matches, between[..n]);
      HistoryKeeps(w, start + between[..n], 0);
      NextEvent(w, start + between[..n], between[n]);
      assert start + between[..n] + [between[n]] == start + between;
      StillWaits(w, History(w, start + between[..n]), between[n], i, History(w, before).controls[i],
                 ControlVerdict(result, matches));
    }
  }

  lemma OneMore(h: Host, i: nat)
    requires i < |h.controls|
    ensures More(h, ProcessControl(h, i))
  {
    ToldNow(h, h.controls[i].caller, h.controls[i].result);
  }

  lemma {:induction false} AllMore(h: Host, i: nat)
    requires i <= |h.controls|
    ensures More(h, ProcessControls(h, i))
    decreases |h.controls| - i
  {
    if i < |h.controls| {
      OneMore(h, i);
      AllMore(ProcessControl(h, i), i + 1);
      MoreTwice(h, ProcessControl(h, i), ProcessControls(h, i));
    }
  }

  /** Slots before a place stay as they are. */
  lemma {:induction false} EarlierStay(h: Host, i: nat, k: nat)
    requires k < i <= |h.controls|
    ensures k < |ProcessControls(h, i).controls| && ProcessControls(h, i).controls[k] == h.controls[k]
    decreases |h.controls| - i
  {
    if i < |h.controls| {
      EarlierStay(ProcessControl(h, i), i + 1, k);
    }
  }

  /** A control that does not destroy is done with: its slot is free, and its caller told. */
  lemma {:induction false} CallerTold(h: Host, n: nat, i: nat)
    requires n <= i < |h.controls| && h.controls[i].active && h.controls[i].ready && !h.controls[i].destroys
    ensures var r := ProcessControls(h, n);
            && i < |r.controls| && !r.controls[i].active
            && ToldSince(r.answers, |h.answers|, h.controls[i].caller, h.controls[i].result)
    decreases i - n
  {
    var slot, next := h.controls[i], ProcessControl(h, n);
    OneMore(h, n);
    if n < i {
      assert next.controls[i] == slot;
      CallerTold(next, n + 1, i);
      Later(ProcessControls(h, n).answers, |h.answers|, |next.answers|, slot.caller, slot.result);
    } else {
      ToldNow(h.(controls := h.controls[i := IDLE_CONTROL]), slot.caller, slot.result);
      AllMore(next, n + 1);
      ToldStays(next, ProcessControls(h, n), |h.answers|, slot.caller, slot.result);
      EarlierStay(next, n + 1, n);
    }
  }

  lemma Later(answers: seq<Answer>, m: nat, n: nat, completion: Option<Token>, result: CallResult)
    requires ToldSince(answers, n, completion, result) && m <= n
    ensures ToldSince(answers, m, completion, result)
  {
  }

  lemma ProgressMore(w: World, h: Host, a: Answers)
    ensures More(h, ProgressTeardown(w, h, a)) && ProgressTeardown(w, h, a).controls == h.controls
  {
    var after := h.(teardown := TearDown(w, h.teardown, a).1);
    ToldNow(after, h.startCompletion, Finish(after, a.liveAtEnd).teardown.result);
  }

  lemma StartMore(h: Host)
    ensures More(h, ProcessStart(h)) && ProcessStart(h).controls == h.controls
  {
    ToldNow(h, h.startCompletion, Fine);
  }

  /** The slot is free, and its caller told. */
  ghost predicate FreedAndTold(h: Host, r: Host, i: nat, caller: Option<Token>, verdict: CallResult) {
    i < |r.controls| && !r.controls[i].active && ToldSince(r.answers, |h.answers|, caller, verdict)
  }

  lemma ActiveInUse(h: Host, i: nat)
    requires Sound(h) && i < |h.controls| && h.controls[i].active
    ensures !h.state.New? && !h.state.Destroyed?
  {
    assert AnyActive(h.controls);
  }

  lemma PumpTells(w: World, h: Host, i: nat, a: Answers)
    requires Pumps(w, h) && !h.state.New? && !h.state.Destroyed?
    requires i < |h.controls| && h.controls[i].active && h.controls[i].ready && !h.controls[i].destroys
    ensures FreedAndTold(h, PumpOnce(w, h, a).1, i, h.controls[i].caller, h.controls[i].result)
  {
    var pumped := QueuePumped(h, Tasks.Pump(w.setup, h.teardown.backend.queue, w.owner, 0).q);
    var started, done := ProcessStart(pumped), Processed(w, h);
    StartMore(pumped);
    CallerTold(started, 0, i);
    Later(done.answers, |h.answers|, |started.answers|, h.controls[i].caller, h.controls[i].result);
    ProgressMore(w, done, a);
    ToldStays(done, ProgressTeardown(w, done, a), |h.answers|, h.controls[i].caller, h.controls[i].result);
  }

  lemma ControlPumped(w: World, h: Host, i: nat, slot: Control, verdict: CallResult, a: Answers)
    requires Sound(h) && Pumps(w, h) && slot.active && !slot.destroys && ControlWaits(h, i, slot, verdict)
    ensures FreedAndTold(h, PumpOnce(w, h, a).1, i, slot.caller, verdict)
  {
    ActiveInUse(h, i);
    PumpTells(w, h, i, a);
  }

  /** The core answers a control, and a pump comes: that pump frees the slot and calls the control's
      completion with what the core said, or with a fault if it spoke of another request. */
  lemma ControlEnds(
    w: World, before: seq<Event>, i: nat, result: CallResult, matches: bool, between: seq<Event>, a: Answers)
    requires var h := History(w, before);
             i < |h.controls| && h.controls[i].active && h.controls[i].owed && !h.controls[i].destroys
    requires NoPump(between) && Pumps(w, History(w, before + [DoCoreControlled(i, result, matches)] + between))
    ensures var events := before + [DoCoreControlled(i, result, matches)] + between;
            FreedAndTold(History(w, events), History(w, events + [DoPump(a)]), i, History(w, before).controls[i].caller,
                         if matches then result else Fault(AbiInvalidArgument))
  {
    var events := before + [DoCoreControlled(i, result, matches)] + between;
    ControlAwaits(w, before, i, result, matches, between);
    PumpedHistory(w, events, a);
    ControlPumped(w, History(w, events), i, History(w, before).controls[i], ControlVerdict(result, matches), a);
  }

  // ----- The destroy's control -----

  /** No other control destroys. */
  predicate OnlyDestroyer(controls: seq<Control>, i: nat) {
    forall k :: 0 <= k < |controls| && k != i && controls[k].active ==> !controls[k].destroys
  }

  lemma {:induction false} OthersLeaveTeardown(h: Host, n: nat)
    requires n <= |h.controls| && forall k :: n <= k < |h.controls| && h.controls[k].active ==> !h.controls[k].destroys
    ensures ProcessControls(h, n).teardown == h.teardown
    ensures ProcessControls(h, n).destroyCompletion == h.destroyCompletion
    decreases |h.controls| - n
  {
    if n < |h.controls| {
      OthersLeaveTeardown(ProcessControl(h, n), n + 1);
    }
  }

  lemma {:induction false} DestroyerTakenUp(h: Host, n: nat, i: nat)
    requires n <= i < |h.controls| && h.controls[i].active && h.controls[i].ready && h.controls[i].destroys
    requires OnlyDestroyer(h.controls, i)
    ensures ProcessControls(h, n).teardown == h.teardown.(started := true, result := h.controls[i].result)
    ensures ProcessControls(h, n).destroyCompletion == h.controls[i].caller
    decreases i - n
  {
    var next := ProcessControl(h, n);
    if n < i {
      assert next.controls[i] == h.controls[i];
      DestroyerTakenUp(next, n + 1, i);
    } else {
      OthersLeaveTeardown(next, n + 1);
    }
  }

  /** The teardown is begun, or done and its caller told; a fault that it began with is its result. */
  ghost predicate TeardownBegun(h: Host, r: Host, caller: Option<Token>, verdict: CallResult) {
    && (r.state.Destroyed? || (r.state.Destroying? && r.teardown.started && r.destroyCompletion == caller))
    && (r.state.Destroyed? ==> ToldSince(r.answers, |h.answers|, caller, r.teardown.result))
    && (!verdict.Fine? ==> r.teardown.result == verdict)
  }

  lemma ProgressBegun(w: World, h: Host, a: Answers)
    requires h.teardown.started && h.state.Destroying?
    ensures TeardownBegun(h, ProgressTeardown(w, h, a), h.destroyCompletion, h.teardown.result)
  {
    if !h.teardown.result.Fine? {
      FaultKept(w, h.teardown, a);
    }
    TearDownStarted(w, h.teardown, a);
    var result := ProgressTeardown(w, h, a).teardown.result;
    var told := CallBack(h, h.startCompletion, result);
    ToldNow(h, h.startCompletion, result);
    ToldNow(told, h.destroyCompletion, result);
    var both := CallBack(told, h.destroyCompletion, result);
    Later(both.answers, |h.answers|, |told.answers|, h.destroyCompletion, result);
  }

  lemma PumpBegins(w: World, h: Host, i: nat, a: Answers)
    requires Pumps(w, h) && h.state.Destroying? && OnlyDestroyer(h.controls, i)
    requires i < |h.controls| && h.controls[i].active && h.controls[i].ready && h.controls[i].destroys
    ensures TeardownBegun(h, PumpOnce(w, h, a).1, h.controls[i].caller, h.controls[i].result)
  {
    var pumped := QueuePumped(h, Tasks.Pump(w.setup, h.teardown.backend.queue, w.owner, 0).q);
    var started, done := ProcessStart(pumped), Processed(w, h);
    StartMore(pumped);
    DestroyerTakenUp(started, 0, i);
    AllMore(started, 0);
    ProcessedState(w, h);
    ProgressBegun(w, done, a);
    var r := PumpOnce(w, h, a).1;
    if r.state.Destroyed? {
      Later(r.answers, |h.answers|, |done.answers|, h.controls[i].caller, r.teardown.result);
    }
  }

  lemma DestroyerOnly(h: Host, i: nat)
    requires Sound(h) && i < |h.controls| && h.controls[i].active && h.controls[i].destroys
    ensures OnlyDestroyer(h.controls, i) && h.state.Destroying?
  {
    assert DestroyActive(h.controls);
  }

  lemma DestroyPumped(w: World, h: Host, i: nat, slot: Control, verdict: CallResult, a: Answers)
    requires Sound(h) && Pumps(w, h) && slot.active && slot.destroys && ControlWaits(h, i, slot, verdict)
    ensures TeardownBegun(h, PumpOnce(w, h, a).1, slot.caller, verdict)
  {
    DestroyerOnly(h, i);
    PumpBegins(w, h, i, a);
  }

  /** The core answers the destroy, and a pump comes: that pump begins the teardown, under the core's
      fault if it reports one; and if the teardown is done at once, the destroy's completion is called
      with its result. */
  lemma DestroyEnds(
    w: World, before: seq<Event>, i: nat, result: CallResult, matches: bool, between: seq<Event>, a: Answers)
    requires var h := History(w, before);
             i < |h.controls| && h.controls[i].active && h.controls[i].owed && h.controls[i].destroys
    requires NoPump(between) && Pumps(w, History(w, before + [DoCoreControlled(i, result, matches)] + between))
    ensures var events := before + [DoCoreControlled(i, result, matches)] + between;
            TeardownBegun(History(w, events), History(w, events + [DoPump(a)]), History(w, before).controls[i].caller,
                          if matches then result else Fault(AbiInvalidArgument))
  {
    var events := before + [DoCoreControlled(i, result, matches)] + between;
    ControlAwaits(w, before, i, result, matches, between);
    PumpedHistory(w, events, a);
    DestroyPumped(w, History(w, events), i, History(w, before).controls[i], ControlVerdict(result, matches), a);
  }

  // ----- Calls and signals -----

  /** Why a call or a signal is turned down, the first reason that applies. */
  function TurnedDown(h: Host, destroys: bool, request: CallResult, core: CallResult): CallResult {
    if !(h.state.Running? || (destroys && h.state.Starting?)) then Fault(LifecycleBusy)
    else if forall i :: 0 <= i < |h.controls| ==> h.controls[i].active then Fault(QueueOverflow)
    else if !request.Fine? then request
    else core
  }

  /** One slot that was free has the control, and the core owes its answer. */
  predicate TakesSlot(h: Host, r: Host, i: nat, destroys: bool, completion: Option<Token>) {
    && i < |h.controls| == |r.controls| && !h.controls[i].active && r.controls == h.controls[i := r.controls[i]]
    && r.controls[i].active && r.controls[i].owed && !r.controls[i].ready
    && r.controls[i].destroys == destroys && r.controls[i].caller == completion
  }

  /** A control or a destroy is taken on exactly when nothing turns it down; a destroy that is taken on
      has the host destroying. Turned down, it leaves everything as it was, but that an overflow is counted
      when every slot is taken. */
  lemma CallMeans(h: Host, destroys: bool, completion: Option<Token>, request: CallResult, core: CallResult)
    requires |h.controls| == MAX_PENDING_CONTROLS
    requires h.state.Running? || h.state.Starting? ==> h.destroyCompletion.None?
    ensures var (result, r) := if destroys then DestroyCall(h, completion, request, core)
                               else ControlCall(h, completion, request, core);
            && result == TurnedDown(h, destroys, request, core) && r.answers == h.answers
            && (result.Fine? ==>
                  && (exists i :: TakesSlot(h, r, i, destroys, completion))
                  && r.state == (if destroys then Destroying else h.state)
                  && (destroys ==> r.destroyCompletion == completion))
            && (!result.Fine? ==>
                  var full := (h.state.Running? || (destroys && h.state.Starting?))
                              && forall i :: 0 <= i < |h.controls| ==> h.controls[i].active;
                  r == if full then h.(notes := h.notes.(overflows := h.notes.overflows + 1)) else h)
  {
    var free := FreeControl(h.controls, 0);
    NoFreeControl(h.controls, 0);
    var (result, r) := if destroys then DestroyCall(h, completion, request, core)
                       else ControlCall(h, completion, request, core);
    if result.Fine? {
      assert TakesSlot(h, r, free.value, destroys, completion);
    }
  }

  lemma {:induction false} NoFreeControl(controls: seq<Control>, i: nat)
    requires i <= |controls|
    ensures FreeControl(controls, i).None? <==> forall k :: i <= k < |controls| ==> controls[k].active
    decreases |controls| - i
  {
    if i < |controls| {
      NoFreeControl(controls, i + 1);
    }
  }

  /** A signal that repeats the last one taken is answered at once with success and asks nothing of the
      core; one that is turned down is answered at once with the reason; any other is taken on like a
      call, remembered, and not answered yet. */
  lemma SignalMeans(h: Host, signal: Signal, completion: Option<Token>, request: CallResult, core: CallResult)
    requires |h.controls| == MAX_PENDING_CONTROLS
    requires h.state.Running? || h.state.Starting? ==> h.destroyCompletion.None?
    ensures var r := HandleSignal(h, signal, completion, request, core);
            var repeated, reason := h.notes.lastSignal == Some(signal), TurnedDown(h, signal.Shutdown?, request, core);
            var atOnce := repeated || !reason.Fine?;
            && (atOnce ==>
                  && r.controls == h.controls && r.state == h.state && r.notes.lastSignal == h.notes.lastSignal
                  && r.answers == h.answers + (if completion.Some? then
                                                 [Answer(completion.value, if repeated then Fine else reason)]
                                               else []))
            && (!atOnce ==>
                  && r.notes.lastSignal == Some(signal) && r.answers == h.answers
                  && (exists i :: TakesSlot(h, r, i, signal.Shutdown?, completion))
                  && r.state == (if signal.Shutdown? then Destroying else h.state))
  {
    CallMeans(h, signal.Shutdown?, completion, request, core);
    if h.notes.lastSignal != Some(signal) && TurnedDown(h, signal.Shutdown?, request, core).Fine? {
      var passed := Passed(h, signal, completion, request, core).1;
      var i :| TakesSlot(h, passed, i, signal.Shutdown?, completion);
      assert TakesSlot(h, HandleSignal(h, signal, completion, request, core), i, signal.Shutdown?, completion);
    }
  }

  // ----- Teardowns -----

  /** The first of the results that is a fault, or success. */
  function FirstFault(results: seq<CallResult>): CallResult {
    if results == [] then Fine else if !results[0].Fine? then results[0] else FirstFault(results[1..])
  }

  /** What the stages of a teardown report, as far as it gets: the services, the package source, the
      backends' stop and its end. Something busy is no report. */
  function Reports(w: World, d: Teardown, a: Answers): seq<CallResult> {
    var stop := [if a.liveBefore then a.stop else Fine];
    if a.liveBefore && a.liveAfter then stop
    else if d.packageOpen && a.packageClose.Busy? then stop
    else
      stop + [if d.packageOpen then FromLocal(a.packageClose) else Fine]
      + BackendReports(w, d)
  }

  function NotBusy(error: Tasks.LocalError): CallResult {
    if error.Busy? then Fine else FromLocal(error)
  }

  function BackendReports(w: World, d: Teardown): seq<CallResult> {
    var begin := BL.BeginStop(w.setup, w.ports, d.backend, w.owner, Tasks.Drain);
    var begins := d.backend.state.Running? && !d.stopBegun;
    if begins && begin.error.Busy? then []
    else
      var b := if begins then begin.b else d.backend;
      [if begins then FromLocal(begin.error) else Fine,
       if b.state.Stopping? then NotBusy(BL.FinishStop(w.setup, w.ports, b, w.owner).error) else Fine]
  }

  lemma {:induction false} FirstOfTwo(left: seq<CallResult>, right: seq<CallResult>)
    ensures FirstFault(left + right) == FirstFault([FirstFault(left), FirstFault(right)])
  {
    if left == [] {
      assert left + right == right;
      assert FirstFault([Fine, FirstFault(right)]) == FirstFault([FirstFault(right)]);
    } else {
      assert (left + right)[1..] == left[1..] + right;
      FirstOfTwo(left[1..], right);
    }
  }

  lemma FirstOf(x: CallResult, y: CallResult)
    ensures FirstFault([x]) == x && FirstFault([x, y]) == if x.Fine? then y else x
  {
    assert [x, y][1..] == [y] && [y][1..] == [] && [x][1..] == [];
    assert FirstFault([y]) == y;
  }

  lemma RememberIsFirst(d: Teardown, result: CallResult)
    ensures Remember(d, result).result == FirstFault([d.result, result])
  {
    FirstOf(d.result, result);
  }

  lemma BackendsResult(w: World, d: Teardown)
    ensures (if BeginBackends(w, d).0 then FinishBackends(w, BeginBackends(w, d).1) else BeginBackends(w, d)).1.result
         == FirstFault([d.result, FirstFault(BackendReports(w, d))])
  {
    var begins := d.backend.state.Running? && !d.stopBegun;
    var begin := BL.BeginStop(w.setup, w.ports, d.backend, w.owner, Tasks.Drain);
    if begins && begin.error.Busy? {
      FirstOf(d.result, Fine);
      BegunResult(d, begin);
    } else {
      var after := BeginBackends(w, d).1;
      BegunResult(d, begin);
      FinishedResult(after, BL.FinishStop(w.setup, w.ports, after.backend, w.owner));
      var x := if begins then FromLocal(begin.error) else Fine;
      var b := if begins then begin.b else d.backend;
      var y := if b.state.Stopping? then NotBusy(BL.FinishStop(w.setup, w.ports, b, w.owner).error) else Fine;
      FirstOf(x, y);
      FirstOf(d.result, FirstFault([x, y]));
    }
  }

  lemma BegunResult(d: Teardown, begin: BL.Outcome)
    ensures AfterBegin(d, begin).0 == !begin.error.Busy? && AfterBegin(d, begin).1.backend == begin.b
    ensures AfterBegin(d, begin).1.result
         == if d.result.Fine? && !begin.error.Busy? then FromLocal(begin.error) else d.result
  {
  }

  lemma FinishedResult(d: Teardown, finish: BL.Outcome)
    ensures AfterFinish(d, finish).1.result == if d.result.Fine? then NotBusy(finish.error) else d.result
  {
  }

  lemma ServicesResult(d: Teardown, a: Answers)
    ensures var (goesOn, r) := StopServices(d, a);
            && r.result == FirstFault([d.result, FirstFault(
                 [if a.liveBefore then a.stop else Fine,
                  if goesOn && d.packageOpen then FromLocal(a.packageClose) else Fine])])
  {
    var x := if a.liveBefore then a.stop else Fine;
    var y := if StopServices(d, a).0 && d.packageOpen then FromLocal(a.packageClose) else Fine;
    FirstOf(x, y);
    FirstOf(d.result, FirstFault([x, y]));
  }

  /** One go of a teardown keeps the first fault of all that its stages report. */
  lemma FirstFaultKept(w: World, d: Teardown, a: Answers)
    ensures TearDown(w, d, a).1.result == FirstFault([d.result] + Reports(w, d, a))
  {
    var (goesOn, services) := StopServices(d, a);
    var x := if a.liveBefore then a.stop else Fine;
    var y := if goesOn && d.packageOpen then FromLocal(a.packageClose) else Fine;
    ServicesGoOn(d, a);
    ServicesResult(d, a);
    ServicesStarted(d, a);
    FirstOfTwo([d.result], Reports(w, d, a));
    FirstOf(d.result, Fine);
    if goesOn {
      BackendsResult(w, services);
      FirstOfTwo([x, y], BackendReports(w, d));
      assert Reports(w, d, a) == [x, y] + BackendReports(w, d);
      ThreeFirst(d.result, FirstFault([x, y]), FirstFault(BackendReports(w, d)));
    } else {
      FirstOf(x, Fine);
    }
  }

  lemma ThreeFirst(x: CallResult, y: CallResult, z: CallResult)
    ensures FirstFault([FirstFault([x, y]), z]) == FirstFault([x, FirstFault([y, z])])
  {
    FirstOf(x, y);
    FirstOf(y, z);
    FirstOf(FirstFault([x, y]), z);
    FirstOf(x, FirstFault([y, z]));
  }

  /** The completion, if there is one, with this. */
  function OneAnswer(completion: Option<Token>, result: CallResult): seq<Answer> {
    if completion.Some? then [Answer(completion.value, result)] else []
  }

  /** A pump that ends a teardown calls the start's completion, if it is still owed, and then the
      destroy's, both with the first fault of the teardown so far and of this last go, or with the
      services' being live again, and with success if there is none. */
  lemma EndedWith(w: World, h: Host, a: Answers)
    requires h.teardown.started && !h.state.Destroyed? && ProgressTeardown(w, h, a).state.Destroyed?
    ensures var r := ProgressTeardown(w, h, a);
            var result := FirstFault([h.teardown.result] + Reports(w, h.teardown, a)
                                     + [if a.liveAtEnd then Fault(PlatformRejected) else Fine]);
            && r.teardown.result == result
            && r.answers == h.answers + OneAnswer(h.startCompletion, result) + OneAnswer(h.destroyCompletion, result)
  {
    var last := if a.liveAtEnd then Fault(PlatformRejected) else Fine;
    var torn := TearDown(w, h.teardown, a).1;
    FirstFaultKept(w, h.teardown, a);
    FirstOfTwo([h.teardown.result] + Reports(w, h.teardown, a), [last]);
    FirstOf(last, Fine);
    FirstOf(torn.result, last);
    RememberIsFirst(torn, last);
  }
}
