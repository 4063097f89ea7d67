/** What each status of a surface command means: exactly when a command succeeds, what its surfaces are
    afterwards, on screen and in the records, and that nothing else changed. */
module SurfaceEffects {
  import opened Wrappers
  import opened SurfaceCommands

  // ----- Surfaces before and after -----

  ghost predicate Exists(h: Host, surface: SurfaceId) {
    exists i :: 0 <= i < |h.records| && h.records[i].Some? && h.records[i].value.surface == surface
  }

  predicate IsAt(h: Host, i: nat, surface: SurfaceId, phase: Phase) {
    i < |h.records| && h.records[i].Some? && h.records[i].value.surface == surface && h.records[i].value.phase == phase
  }

  ghost predicate InPhase(h: Host, surface: SurfaceId, phase: Phase) {
    exists i :: IsAt(h, i, surface, phase)
  }

  /** The backend still takes the surface's root. */
  ghost predicate RootTaken(e: Answers, h: Host, request: RequestId, surface: SurfaceId) {
    forall i :: 0 <= i < |h.records| && h.records[i].Some? && h.records[i].value.surface == surface ==>
      e.valid(request, h.records[i].value.root)
  }

  predicate TurnsAt(h: Host, after: Host, i: nat, surface: SurfaceId, phase: Phase, shown: bool) {
    && i < |h.records| == |after.records| && h.records[i].Some? && h.records[i].value.surface == surface
    && after.records[i] == Some(h.records[i].value.(phase := phase))
    && h.records[i].value.root in after.roots && after.roots[h.records[i].value.root] == shown
  }

  /** The surface keeps its sizes and its root, is in this phase now, and its root is shown or not. */
  ghost predicate Turns(h: Host, after: Host, surface: SurfaceId, phase: Phase, shown: bool) {
    exists i :: TurnsAt(h, after, i, surface, phase, shown)
  }

  predicate GoneAt(h: Host, after: Host, i: nat, surface: SurfaceId) {
    && i < |h.records| == |after.records| && h.records[i].Some? && h.records[i].value.surface == surface
    && after.records[i].None? && h.records[i].value.root !in after.roots
  }

  /** The surface's record is free, and its root is no longer live. */
  ghost predicate Gone(h: Host, after: Host, surface: SurfaceId) {
    exists i :: GoneAt(h, after, i, surface)
  }

  predicate AppearsAt(h: Host, after: Host, i: nat, record: Record) {
    && i < |h.records| == |after.records| && h.records[i].None? && after.records[i] == Some(record)
    && record.root in after.roots && !after.roots[record.root]
  }

  /** A surface appears in a free record, its root live and hidden. */
  ghost predicate Appears(h: Host, after: Host, record: Record) {
    exists i :: AppearsAt(h, after, i, record)
  }

  /** Records of other surfaces, and the roots that are none of these, are as they were. */
  ghost predicate OthersStay(h: Host, after: Host, surfaces: set<SurfaceId>) {
    && |after.records| == |h.records|
    && (forall i :: 0 <= i < |h.records| && h.records[i].Some? && h.records[i].value.surface !in surfaces ==>
          after.records[i] == h.records[i])
    && (forall i :: 0 <= i < |h.records| && after.records[i].Some? && after.records[i].value.surface !in surfaces ==>
          after.records[i] == h.records[i])
    && (forall i :: 0 <= i < |h.records| && h.records[i].Some? && h.records[i].value.surface !in surfaces
                    && h.records[i].value.root in h.roots ==>
          && h.records[i].value.root in after.roots
          && after.roots[h.records[i].value.root] == h.roots[h.records[i].value.root])
  }

  /** Contents are let go as they were before. */
  predicate SameContents(h: Host, after: Host) {
    after.released == h.released && after.reset == h.reset
  }

  lemma FoundIn(h: Host, i: nat, surface: SurfaceId)
    requires Consistent(h) && i < |h.records| && h.records[i].Some? && h.records[i].value.surface == surface
    ensures Find(h, surface) == Some(i)
  {
  }

  /** What a surface's record says of its phase and its root. */
  lemma PhaseFound(e: Answers, h: Host, request: RequestId, surface: SurfaceId, phase: Phase)
    requires Consistent(h)
    ensures Exists(h, surface) <==> Find(h, surface).Some?
    ensures InPhase(h, surface, phase)
       <==> Find(h, surface).Some? && h.records[Find(h, surface).value].value.phase == phase
    ensures Find(h, surface).Some? ==>
              (RootTaken(e, h, request, surface) <==> Live(e, h, request, Find(h, surface).value))
  {
    var found := Find(h, surface);
    if found.Some? {
      assert IsAt(h, found.value, surface, h.records[found.value].value.phase);
      forall i: nat | i < |h.records| && h.records[i].Some? && h.records[i].value.surface == surface
        ensures i == found.value
      {
        FoundIn(h, i, surface);
      }
    }
  }

  lemma NothingChanges(h: Host)
    ensures Changed(h, NOTHING) == h
  {
    assert Changed(h, NOTHING).records == h.records;
    assert Changed(h, NOTHING).roots == h.roots;
  }

  predicate Ours(h: Host, i: nat, surfaces: set<SurfaceId>) {
    i < |h.records| && h.records[i].Some? && h.records[i].value.surface in surfaces
  }

  /** The root of a record that changes. */
  ghost predicate RootOfChanged(h: Host, change: Change, root: Root) {
    exists i: nat :: i in change.records && i < |h.records| && h.records[i].Some? && h.records[i].value.root == root
  }

  /** A change of the records and roots of some surfaces leaves the others alone. */
  lemma OthersUntouched(h: Host, change: Change, surfaces: set<SurfaceId>)
    requires Consistent(h)
    requires forall i :: i in change.records ==> Ours(h, i, surfaces)
    requires forall i :: i in change.records && change.records[i].Some? ==> change.records[i].value.surface in surfaces
    requires forall root :: root in change.shown || root in change.gone ==> RootOfChanged(h, change, root)
    ensures OthersStay(h, Changed(h, change), surfaces)
  {
    forall i, k: nat | 0 <= i < |h.records| && h.records[i].Some? && h.records[i].value.surface !in surfaces
                       && k in change.records
      ensures h.records[k].Some? && h.records[k].value.root != h.records[i].value.root
    {
      assert Ours(h, k, surfaces);
      UnchangedRoot(h, i, k);
    }
  }

  /** One record changes its phase, and its root is shown or hidden. */
  lemma OneTurns(h: Host, i: nat, phase: Phase, change: Change)
    requires Consistent(h) && i < |h.records| && h.records[i].Some?
    requires change == NOTHING.(
               records := map[i := Phased(h, i, phase)], shown := map[h.records[i].value.root := phase.Visible?])
    ensures var surface, after := h.records[i].value.surface, Changed(h, change);
            && Turns(h, after, surface, phase, phase.Visible?) && OthersStay(h, after, {surface})
            && SameContents(h, after)
  {
    var surface, after := h.records[i].value.surface, Changed(h, change);
    assert TurnsAt(h, after, i, surface, phase, phase.Visible?);
    assert i in change.records;
    OthersUntouched(h, change, {surface});
  }

  // ----- The six commands -----

  /** Created: a viewport of a size, a surface that is not there yet, a free record and a root; then the
      surface is there with these, hidden and empty. Otherwise nothing changes, and the error is the
      first of these that is missing. */
  lemma CreateMeans(e: Answers, h: Host, c: Command)
    requires Consistent(h) && FreshRoot(e, h, c) && c.Create?
    ensures var (after, result) := Execute(e, h, c);
            var sized, room := c.width > 0.0 && c.height > 0.0,
                               exists i :: 0 <= i < |h.records| && h.records[i].None?;
            && (result.status.Created?
                <==> sized && !Exists(h, c.surface) && room && e.create(c.request).NewRoot?)
            && (result.status.Created? ==>
                  && Appears(h, after, Record(c.surface, c.width, c.height, e.create(c.request).root, HiddenEmpty))
                  && OthersStay(h, after, {c.surface}) && SameContents(h, after))
            && (!result.status.Created? ==>
                  && after == h
                  && result.status == Failed(if !sized then AbiInvalidArgument
                                             else if Exists(h, c.surface) then SurfaceHostAlreadyExists
                                             else if !room || e.create(c.request).NoCapacity? then OutOfMemory
                                             else PlatformRejected))
  {
    PhaseFound(e, h, c.request, c.surface, HiddenEmpty);
    NothingChanges(h);
    var free := FreeRecord(h.records, 0);
    var (after, result) := Execute(e, h, c);
    if result.status.Created? {
      assert AppearsAt(h, after, free.value,
                       Record(c.surface, c.width, c.height, e.create(c.request).root, HiddenEmpty));
    }
  }

  /** Presented first: a mounted surface whose root is still taken; then it is visible. */
  lemma PresentRootMeans(e: Answers, h: Host, c: Command)
    requires Consistent(h) && c.PresentRoot?
    ensures var (after, result) := Execute(e, h, c);
            && (result.status.Presented?
                <==> InPhase(h, c.surface, HiddenMounted) && RootTaken(e, h, c.request, c.surface))
            && (result.status.Presented? ==>
                  && Turns(h, after, c.surface, Visible, true) && OthersStay(h, after, {c.surface})
                  && SameContents(h, after))
            && (!result.status.Presented? ==> after == h && result.status == Failed(SurfacePresentationFailed))
  {
    PhaseFound(e, h, c.request, c.surface, HiddenMounted);
    NothingChanges(h);
    if Execute(e, h, c).1.status.Presented? {
      OneTurns(h, Find(h, c.surface).value, Visible, Plan(e, h, c).change);
    }
  }

  lemma TwoTurn(h: Host, t: nat, s: nat, change: Change)
    requires Consistent(h) && t < |h.records| && s < |h.records| && t != s && h.records[t].Some? && h.records[s].Some?
    requires change == NOTHING.(
               records := map[t := Phased(h, t, Visible), s := Phased(h, s, Hidden)],
               shown := map[h.records[t].value.root := true, h.records[s].value.root := false])
    ensures var target, source, after := h.records[t].value.surface, h.records[s].value.surface, Changed(h, change);
            && Turns(h, after, target, Visible, true) && Turns(h, after, source, Hidden, false)
            && OthersStay(h, after, {target, source}) && SameContents(h, after)
  {
    var target, source, after := h.records[t].value.surface, h.records[s].value.surface, Changed(h, change);
    UnchangedRoot(h, t, s);
    assert TurnsAt(h, after, t, target, Visible, true);
    assert TurnsAt(h, after, s, source, Hidden, false);
    assert t in change.records && s in change.records;
    OthersUntouched(h, change, {target, source});
  }

  /** Presented over another: a mounted surface over a visible one, both roots still taken; then it is
      visible and the other hidden. */
  lemma PresentPushMeans(e: Answers, h: Host, c: Command)
    requires Consistent(h) && c.PresentPush?
    ensures var (after, result) := Execute(e, h, c);
            && (result.status.Presented?
                <==> && InPhase(h, c.surface, HiddenMounted) && InPhase(h, c.source, Visible)
                     && RootTaken(e, h, c.request, c.surface) && RootTaken(e, h, c.request, c.source))
            && (result.status.Presented? ==>
                  && Turns(h, after, c.surface, Visible, true) && Turns(h, after, c.source, Hidden, false)
                  && OthersStay(h, after, {c.surface, c.source}) && SameContents(h, after))
            && (!result.status.Presented? ==> after == h && result.status == Failed(SurfacePresentationFailed))
  {
    PhaseFound(e, h, c.request, c.surface, HiddenMounted);
    PhaseFound(e, h, c.request, c.source, Visible);
    NothingChanges(h);
    if Execute(e, h, c).1.status.Presented? {
      TwoTurn(h, Find(h, c.surface).value, Find(h, c.source).value, Plan(e, h, c).change);
    }
  }

  /** Completed: a surface that is visible or hidden; then it is as asked, and if it was that already
      nothing changes. */
  lemma VisibilityMeans(e: Answers, h: Host, c: Command)
    requires Consistent(h) && c.SetVisibility?
    ensures var (after, result) := Execute(e, h, c);
            var wanted := if c.visible then Visible else Hidden;
            && (result.status.Completed? <==> InPhase(h, c.surface, Visible) || InPhase(h, c.surface, Hidden))
            && (result.status.Completed? ==>
                  && Turns(h, after, c.surface, wanted, c.visible) && OthersStay(h, after, {c.surface})
                  && SameContents(h, after) && (InPhase(h, c.surface, wanted) ==> after == h))
            && (!result.status.Completed? ==>
                  && after == h
                  && result.status == Failed(if Exists(h, c.surface) then PlatformRejected else SurfaceHostNotFound))
  {
    PhaseFound(e, h, c.request, c.surface, Visible);
    PhaseFound(e, h, c.request, c.surface, Hidden);
    NothingChanges(h);
    if Execute(e, h, c).1.status.Completed? {
      var i := Find(h, c.surface).value;
      if h.records[i].value.phase.Visible? == c.visible {
        assert TurnsAt(h, h, i, c.surface, if c.visible then Visible else Hidden, c.visible);
      } else {
        OneTurns(h, i, if c.visible then Visible else Hidden, Plan(e, h, c).change);
      }
    }
  }

  lemma OneGoesOneTurns(h: Host, i: nat, j: nat, change: Change)
    requires Consistent(h) && i < |h.records| && j < |h.records| && i != j && h.records[i].Some? && h.records[j].Some?
    requires change == NOTHING.(
               records := map[i := None, j := Phased(h, j, Visible)], shown := map[h.records[j].value.root := true],
               gone := {h.records[i].value.root}, released := multiset{h.records[i].value.surface})
    ensures var closed, below := h.records[i].value, h.records[j].value;
            var after := Changed(h, change);
            && Gone(h, after, closed.surface) && Turns(h, after, below.surface, Visible, true)
            && OthersStay(h, after, {closed.surface, below.surface})
            && after.released == h.released + multiset{closed.surface} && after.reset == h.reset
  {
    var closed, below, after := h.records[i].value, h.records[j].value, Changed(h, change);
    UnchangedRoot(h, i, j);
    assert GoneAt(h, after, i, closed.surface);
    assert TurnsAt(h, after, j, below.surface, Visible, true);
    assert i in change.records && j in change.records;
    OthersUntouched(h, change, {closed.surface, below.surface});
    assert after.reset == h.reset;
  }

  /** Closed: a visible surface over a hidden one, both roots still taken, whose content can be
      released; then it is gone with its root, its content released, and the other is visible. */
  lemma CloseMeans(e: Answers, h: Host, c: Command)
    requires Consistent(h) && c.Close?
    ensures var (after, result) := Execute(e, h, c);
            && (result.status.Completed?
                <==> && InPhase(h, c.surface, Visible) && InPhase(h, c.below, Hidden)
                     && RootTaken(e, h, c.request, c.surface) && RootTaken(e, h, c.request, c.below)
                     && e.canRelease(c.request, c.surface))
            && (result.status.Completed? ==>
                  && Gone(h, after, c.surface) && Turns(h, after, c.below, Visible, true)
                  && OthersStay(h, after, {c.surface, c.below})
                  && after.released == h.released + multiset{c.surface} && after.reset == h.reset)
            && (!result.status.Completed? ==> after == h && result.status == Failed(PlatformRejected))
  {
    PhaseFound(e, h, c.request, c.surface, Visible);
    PhaseFound(e, h, c.request, c.below, Hidden);
    NothingChanges(h);
    if Execute(e, h, c).1.status.Completed? {
      OneGoesOneTurns(h, Find(h, c.surface).value, Find(h, c.below).value, Plan(e, h, c).change);
    }
  }

  lemma OneGoes(h: Host, i: nat, change: Change)
    requires Consistent(h) && i < |h.records| && h.records[i].Some? && change.shown == map[]
    requires change.records == map[i := None] && change.gone == {h.records[i].value.root}
    ensures Gone(h, Changed(h, change), h.records[i].value.surface)
    ensures OthersStay(h, Changed(h, change), {h.records[i].value.surface})
  {
    assert GoneAt(h, Changed(h, change), i, h.records[i].value.surface);
    assert i in change.records;
    OthersUntouched(h, change, {h.records[i].value.surface});
  }

  /** A destroy of a surface that is there always removes it with its root: Destroyed with its content
      released if that can be, and otherwise failed with its content reset. */
  lemma DestroyMeans(e: Answers, h: Host, c: Command)
    requires Consistent(h) && c.Destroy?
    ensures var (after, result) := Execute(e, h, c);
            && (result.status.Destroyed? <==> Exists(h, c.surface) && e.canRelease(c.request, c.surface))
            && (Exists(h, c.surface) ==> Gone(h, after, c.surface) && OthersStay(h, after, {c.surface}))
            && (result.status.Destroyed? ==>
                  after.released == h.released + multiset{c.surface} && after.reset == h.reset)
            && (Exists(h, c.surface) && !result.status.Destroyed? ==>
                  && result.status == Failed(PlatformRejected)
                  && after.released == h.released && after.reset == h.reset + multiset{c.surface})
            && (!Exists(h, c.surface) ==> after == h && result.status == Failed(SurfaceHostNotFound))
  {
    PhaseFound(e, h, c.request, c.surface, Visible);
    NothingChanges(h);
    if Find(h, c.surface).Some? {
      OneGoes(h, Find(h, c.surface).value, Plan(e, h, c).change);
    }
  }
}
