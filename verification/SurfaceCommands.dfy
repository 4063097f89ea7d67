/** What the six surface commands do to a host's records and page roots. What the root backend and
    the content port answer is an oracle, command by command. */
module SurfaceCommands {
  import opened Wrappers

  type SurfaceId = nat
  type RequestId = nat
  type Root = nat

  datatype Phase = HiddenEmpty | HiddenMounted | Visible | Hidden | Destroying

  datatype Record = Record(surface: SurfaceId, width: real, height: real, root: Root, phase: Phase)

  datatype Command =
    | Create(request: RequestId, surface: SurfaceId, width: real, height: real)
    | PresentRoot(request: RequestId, surface: SurfaceId)
    | PresentPush(request: RequestId, surface: SurfaceId, source: SurfaceId)
    | SetVisibility(request: RequestId, surface: SurfaceId, visible: bool)
    | Close(request: RequestId, surface: SurfaceId, below: SurfaceId)
    | Destroy(request: RequestId, surface: SurfaceId)

  datatype ErrorCode =
    | AbiInvalidArgument | SurfaceHostAlreadyExists | SurfaceHostNotFound | OutOfMemory
    | SurfacePresentationFailed | PlatformRejected

  datatype Status = Created | Presented | Completed | Destroyed | Failed(error: ErrorCode)

  /** A result names its command's request and surfaces. */
  datatype SurfaceResult = SurfaceResult(command: Command, status: Status)

  datatype NewRoot = NewRoot(root: Root) | NoCapacity | Refused

  /** What a command is answered: a new root, whether a recorded root is still valid, and whether a
      surface's content can be released. */
  datatype Answers = Answers(
    create: RequestId -> NewRoot, valid: (RequestId, Root) -> bool, canRelease: (RequestId, SurfaceId) -> bool)

  /** `roots` says of each live backend root whether it is shown; contents are released or reset. */
  datatype Host = Host(
    records: seq<Option<Record>>, roots: map<Root, bool>, released: multiset<SurfaceId>, reset: multiset<SurfaceId>)

  /** The record of a surface, from `i` on. */
  function RecordFrom(records: seq<Option<Record>>, surface: SurfaceId, i: nat): (r: Option<nat>)
    requires i <= |records|
    ensures r.Some? ==> i <= r.value < |records| && records[r.value].Some? && records[r.value].value.surface == surface
    ensures r.None? ==> forall k :: i <= k < |records| && records[k].Some? ==> records[k].value.surface != surface
    decreases |records| - i
  {
    if i == |records| then None
    else if records[i].Some? && records[i].value.surface == surface then Some(i)
    else RecordFrom(records, surface, i + 1)
  }

  function Find(h: Host, surface: SurfaceId): (r: Option<nat>)
    ensures r.Some? ==> r.value < |h.records| && h.records[r.value].Some? && h.records[r.value].value.surface == surface
    ensures r.None? ==> forall k :: 0 <= k < |h.records| && h.records[k].Some? ==> h.records[k].value.surface != surface
  {
    RecordFrom(h.records, surface, 0)
  }

  function FreeRecord(records: seq<Option<Record>>, i: nat): (r: Option<nat>)
    requires i <= |records|
    ensures r.Some? ==> i <= r.value < |records| && records[r.value].None?
    ensures r.None? ==> forall k :: i <= k < |records| ==> records[k].Some?
    decreases |records| - i
  {
    if i == |records| then None else if records[i].None? then Some(i) else FreeRecord(records, i + 1)
  }

  function Touched(c: Command): set<SurfaceId> {
    {c.surface} + (if c.PresentPush? then {c.source} else if c.Close? then {c.below} else {})
  }

  /** The admission check: two commands with a surface in common. */
  predicate Conflicts(a: Command, b: Command) {
    exists s :: s in Touched(a) && s in Touched(b)
  }

  // ----- Commands as changes -----

  /** What a command changes: some records, which live roots are shown, and what is let go. */
  datatype Change = Change(
    records: map<nat, Option<Record>>, shown: map<Root, bool>, gone: set<Root>,
    released: multiset<SurfaceId>, reset: multiset<SurfaceId>)

  const NOTHING := Change(map[], map[], {}, multiset{}, multiset{})

  function Changed(h: Host, c: Change): (r: Host)
    ensures |r.records| == |h.records|
  {
    Host(seq(|h.records|, i requires 0 <= i < |h.records| => if i in c.records then c.records[i] else h.records[i]),
         (h.roots + c.shown) - c.gone, h.released + c.released, h.reset + c.reset)
  }

  predicate Live(e: Answers, h: Host, request: RequestId, i: nat)
    requires i < |h.records| && h.records[i].Some?
  {
    h.records[i].value.root in h.roots && e.valid(request, h.records[i].value.root)
  }

  function Phased(h: Host, i: nat, phase: Phase): Option<Record>
    requires i < |h.records| && h.records[i].Some?
  {
    Some(h.records[i].value.(phase := phase))
  }

  datatype Outcome = Outcome(status: Status, change: Change)

  function CreateSurface(e: Answers, h: Host, c: Command): Outcome
    requires c.Create?
  {
    var free := FreeRecord(h.records, 0);
    if c.width <= 0.0 || c.height <= 0.0 then Outcome(Failed(AbiInvalidArgument), NOTHING)
    else if Find(h, c.surface).Some? then Outcome(Failed(SurfaceHostAlreadyExists), NOTHING)
    else if free.None? then Outcome(Failed(OutOfMemory), NOTHING)
    else
      match e.create(c.request)
      case NoCapacity => Outcome(Failed(OutOfMemory), NOTHING)
      case Refused => Outcome(Failed(PlatformRejected), NOTHING)
      case NewRoot(root) =>
        Outcome(Created, NOTHING.(
          records := map[free.value := Some(Record(c.surface, c.width, c.height, root, HiddenEmpty))],
          shown := map[root := false]))
  }

  function PresentRootSurface(e: Answers, h: Host, c: Command): Outcome {
    var i := Find(h, c.surface);
    if i.None? || !h.records[i.value].value.phase.HiddenMounted? || !Live(e, h, c.request, i.value) then
      Outcome(Failed(SurfacePresentationFailed), NOTHING)
    else
      Outcome(Presented, NOTHING.(
        records := map[i.value := Phased(h, i.value, Visible)],
        shown := map[h.records[i.value].value.root := true]))
  }

  function PresentPushSurface(e: Answers, h: Host, c: Command): Outcome
    requires c.PresentPush?
  {
    var t, s := Find(h, c.surface), Find(h, c.source);
    if t.None? || s.None? || t == s || !h.records[t.value].value.phase.HiddenMounted?
       || !h.records[s.value].value.phase.Visible?
       || !Live(e, h, c.request, t.value) || !Live(e, h, c.request, s.value) then
      Outcome(Failed(SurfacePresentationFailed), NOTHING)
    else
      Outcome(Presented, NOTHING.(
        records := map[t.value := Phased(h, t.value, Visible), s.value := Phased(h, s.value, Hidden)],
        shown := map[h.records[t.value].value.root := true, h.records[s.value].value.root := false]))
  }

  function SetSurfaceVisibility(h: Host, c: Command): Outcome
    requires c.SetVisibility?
  {
    var i := Find(h, c.surface);
    if i.None? then Outcome(Failed(SurfaceHostNotFound), NOTHING)
    else
      var phase := h.records[i.value].value.phase;
      if !phase.Visible? && !phase.Hidden? then Outcome(Failed(PlatformRejected), NOTHING)
      else if phase.Visible? == c.visible then Outcome(Completed, NOTHING)
      else
        Outcome(Completed, NOTHING.(
          records := map[i.value := Phased(h, i.value, if c.visible then Visible else Hidden)],
          shown := if h.records[i.value].value.root in h.roots then map[h.records[i.value].value.root := c.visible]
                   else map[]))
  }

  /** What a close asks: one surface visible, the other hidden, both live, and content to let go. */
  predicate MayClose(e: Answers, h: Host, c: Command)
    requires c.Close?
  {
    var i, j := Find(h, c.surface), Find(h, c.below);
    && i.Some? && j.Some? && i != j && h.records[i.value].value.phase.Visible?
    && h.records[j.value].value.phase.Hidden?
    && Live(e, h, c.request, i.value) && Live(e, h, c.request, j.value) && e.canRelease(c.request, c.surface)
  }

  function CloseSurface(e: Answers, h: Host, c: Command): Outcome
    requires c.Close?
  {
    if !MayClose(e, h, c) then Outcome(Failed(PlatformRejected), NOTHING)
    else
      var i, j := Find(h, c.surface).value, Find(h, c.below).value;
      Outcome(Completed, NOTHING.(
        records := map[i := None, j := Phased(h, j, Visible)],
        shown := map[h.records[j].value.root := true],
        gone := {h.records[i].value.root}, released := multiset{c.surface}))
  }

  /** A destroy always removes its surface; content that cannot be released is reset. */
  function DestroySurface(e: Answers, h: Host, c: Command): Outcome {
    var i := Find(h, c.surface);
    if i.None? then Outcome(Failed(SurfaceHostNotFound), NOTHING)
    else
      var removal := NOTHING.(records := map[i.value := None], gone := {h.records[i.value].value.root});
      if e.canRelease(c.request, c.surface) then
        Outcome(Destroyed, removal.(released := multiset{c.surface}))
      else Outcome(Failed(PlatformRejected), removal.(reset := multiset{c.surface}))
  }

  function Plan(e: Answers, h: Host, c: Command): Outcome {
    match c
    case Create(_, _, _, _) => CreateSurface(e, h, c)
    case PresentRoot(_, _) => PresentRootSurface(e, h, c)
    case PresentPush(_, _, _) => PresentPushSurface(e, h, c)
    case SetVisibility(_, _, _) => SetSurfaceVisibility(h, c)
    case Close(_, _, _) => CloseSurface(e, h, c)
    case Destroy(_, _) => DestroySurface(e, h, c)
  }

  function Execute(e: Answers, h: Host, c: Command): (Host, SurfaceResult) {
    var outcome := Plan(e, h, c);
    (Changed(h, outcome.change), SurfaceResult(c, outcome.status))
  }

  // ----- Records and roots agree -----

  ghost predicate Held(h: Host, root: Root) {
    exists i :: 0 <= i < |h.records| && h.records[i].Some? && h.records[i].value.root == root
  }

  /** The live roots are the recorded ones, each of one surface, shown exactly when its record is
      visible; nothing stays half destroyed. */
  ghost predicate Consistent(h: Host) {
    && (forall i :: 0 <= i < |h.records| && h.records[i].Some? ==>
          && h.records[i].value.root in h.roots
          && !h.records[i].value.phase.Destroying?
          && (h.roots[h.records[i].value.root] <==> h.records[i].value.phase.Visible?))
    && (forall i, j :: 0 <= i < j < |h.records| && h.records[i].Some? && h.records[j].Some? ==>
          && h.records[i].value.surface != h.records[j].value.surface
          && h.records[i].value.root != h.records[j].value.root)
    && (forall root :: root in h.roots ==> Held(h, root))
  }

  /** A record that stays keeps its surface and root; a new one has a surface and a root of its
      own. */
  ghost predicate RecordFits(h: Host, i: nat, after: Option<Record>) {
    && i < |h.records|
    && (after.Some? && h.records[i].Some? ==>
          after.value.surface == h.records[i].value.surface && after.value.root == h.records[i].value.root)
    && (after.Some? && h.records[i].None? ==>
          && after.value.root !in h.roots
          && forall k :: 0 <= k < |h.records| && h.records[k].Some? ==> h.records[k].value.surface != after.value.surface)
    && (after.Some? ==> !after.value.phase.Destroying?)
    && (after.None? ==> h.records[i].Some?)
  }

  /** A change that keeps records and roots in step: what happens to a root is what happens to its
      record. */
  ghost predicate Fits(h: Host, c: Change) {
    && (forall i :: i in c.records ==> RecordFits(h, i, c.records[i]))
    && (forall i :: i in c.records && c.records[i].Some? ==>
          c.records[i].value.root in c.shown
          && (c.shown[c.records[i].value.root] <==> c.records[i].value.phase.Visible?))
    && (forall i :: i in c.records && c.records[i].None? ==> h.records[i].value.root in c.gone)
    && (forall root :: root in c.shown ==> exists i :: Keeps(c, i, root))
    && (forall root :: root in c.gone ==> exists i :: GivesUp(h, c, i, root))
    && (forall i, j :: i in c.records && j in c.records && i != j ==> h.records[i].Some? || h.records[j].Some?)
  }

  ghost predicate Keeps(c: Change, i: nat, root: Root) {
    i in c.records && c.records[i].Some? && c.records[i].value.root == root
  }

  ghost predicate GivesUp(h: Host, c: Change, i: nat, root: Root) {
    i in c.records && c.records[i].None? && i < |h.records| && h.records[i].Some? && h.records[i].value.root == root
  }

  /** A record's root after a change is no other record's root before. */
  lemma OtherRoot(h: Host, i: nat, after: Option<Record>, j: nat)
    requires Consistent(h) && RecordFits(h, i, after) && after.Some?
    requires j < |h.records| && h.records[j].Some? && j != i
    ensures after.value.root != h.records[j].value.root
  {
  }

  lemma UnchangedRoot(h: Host, i: nat, j: nat)
    requires Consistent(h) && i < |h.records| && j < |h.records| && i != j
    requires h.records[i].Some? && h.records[j].Some?
    ensures h.records[i].value.root != h.records[j].value.root
  {
  }

  /** The root a record keeps or gets is the change's only through that record. */
  lemma RootsApart(h: Host, c: Change, i: nat)
    requires Consistent(h) && Fits(h, c) && i < |h.records| && Changed(h, c).records[i].Some?
    ensures Changed(h, c).records[i].value.root !in c.gone
    ensures i !in c.records ==> h.records[i].value.root !in c.shown
  {
    forall j: nat, root | GivesUp(h, c, j, root) ensures root != Changed(h, c).records[i].value.root {
      if i in c.records {
        OtherRoot(h, i, c.records[i], j);
      } else {
        UnchangedRoot(h, i, j);
      }
    }
    if i !in c.records {
      forall j: nat, root | Keeps(c, j, root) ensures root != h.records[i].value.root {
        OtherRoot(h, j, c.records[j], i);
      }
    }
  }

  lemma ChangedRecord(h: Host, c: Change, i: nat)
    requires Consistent(h) && Fits(h, c) && i < |h.records| && Changed(h, c).records[i].Some?
    ensures var r, after := Changed(h, c).records[i].value, Changed(h, c);
            && r.root in after.roots && !r.phase.Destroying? && (after.roots[r.root] <==> r.phase.Visible?)
  {
    RootsApart(h, c, i);
  }

  lemma ChangedRecords(h: Host, c: Change, i: nat, j: nat)
    requires Consistent(h) && Fits(h, c) && i < j < |h.records|
    requires Changed(h, c).records[i].Some? && Changed(h, c).records[j].Some?
    ensures Changed(h, c).records[i].value.surface != Changed(h, c).records[j].value.surface
    ensures Changed(h, c).records[i].value.root != Changed(h, c).records[j].value.root
  {
    if i in c.records {
      assert RecordFits(h, i, c.records[i]);
    }
    if j in c.records {
      assert RecordFits(h, j, c.records[j]);
    }
  }

  lemma ChangedRoot(h: Host, c: Change, root: Root)
    requires Consistent(h) && Fits(h, c) && root in Changed(h, c).roots
    ensures Held(Changed(h, c), root)
  {
    var after := Changed(h, c);
    if root in c.shown {
      var i: nat :| Keeps(c, i, root);
      assert after.records[i].Some? && after.records[i].value.root == root;
    } else {
      var i :| 0 <= i < |h.records| && h.records[i].Some? && h.records[i].value.root == root;
      assert after.records[i].Some? && after.records[i].value.root == root;
    }
  }

  lemma ChangedIsConsistent(h: Host, c: Change)
    requires Consistent(h) && Fits(h, c)
    ensures Consistent(Changed(h, c))
  {
    var after := Changed(h, c);
    forall i | 0 <= i < |h.records| && after.records[i].Some?
      ensures var r := after.records[i].value;
              r.root in after.roots && !r.phase.Destroying? && (after.roots[r.root] <==> r.phase.Visible?)
    {
      ChangedRecord(h, c, i);
    }
    forall i, j | 0 <= i < j < |h.records| && after.records[i].Some? && after.records[j].Some?
      ensures after.records[i].value.surface != after.records[j].value.surface
      ensures after.records[i].value.root != after.records[j].value.root
    {
      ChangedRecords(h, c, i, j);
    }
    forall root | root in after.roots ensures Held(after, root) {
      ChangedRoot(h, c, root);
    }
  }

  /** The backend hands out roots that are not in use. */
  ghost predicate FreshRoot(e: Answers, h: Host, c: Command) {
    c.Create? && e.create(c.request).NewRoot? ==> e.create(c.request).root !in h.roots
  }

  lemma CreateFits(e: Answers, h: Host, c: Command)
    requires Consistent(h) && FreshRoot(e, h, c) && c.Create?
    ensures Fits(h, CreateSurface(e, h, c).change)
  {
    var change := CreateSurface(e, h, c).change;
    if change != NOTHING {
      assert Keeps(change, FreeRecord(h.records, 0).value, e.create(c.request).root);
    }
  }

  /** Showing or hiding the root of one record. */
  lemma OneShownFits(h: Host, i: nat, phase: Phase)
    requires Consistent(h) && i < |h.records| && h.records[i].Some? && !phase.Destroying?
    ensures Fits(h, NOTHING.(records := map[i := Phased(h, i, phase)],
                             shown := map[h.records[i].value.root := phase.Visible?]))
  {
    var change := NOTHING.(records := map[i := Phased(h, i, phase)],
                           shown := map[h.records[i].value.root := phase.Visible?]);
    assert Keeps(change, i, h.records[i].value.root);
  }

  lemma PushFits(e: Answers, h: Host, c: Command)
    requires Consistent(h) && c.PresentPush?
    ensures Fits(h, PresentPushSurface(e, h, c).change)
  {
    var change := PresentPushSurface(e, h, c).change;
    if change != NOTHING {
      var t, s := Find(h, c.surface).value, Find(h, c.source).value;
      assert Keeps(change, t, h.records[t].value.root);
      assert Keeps(change, s, h.records[s].value.root);
    }
  }

  lemma CloseFits(e: Answers, h: Host, c: Command)
    requires Consistent(h) && c.Close?
    ensures Fits(h, CloseSurface(e, h, c).change)
  {
    var change := CloseSurface(e, h, c).change;
    if change != NOTHING {
      var i, j := Find(h, c.surface).value, Find(h, c.below).value;
      assert Keeps(change, j, h.records[j].value.root);
      assert GivesUp(h, change, i, h.records[i].value.root);
    }
  }

  lemma DestroyFits(e: Answers, h: Host, c: Command)
    requires Consistent(h)
    ensures Fits(h, DestroySurface(e, h, c).change)
  {
    var change := DestroySurface(e, h, c).change;
    if change != NOTHING {
      var i := Find(h, c.surface).value;
      assert GivesUp(h, change, i, h.records[i].value.root);
    }
  }

  lemma PlanFits(e: Answers, h: Host, c: Command)
    requires Consistent(h) && FreshRoot(e, h, c)
    ensures Fits(h, Plan(e, h, c).change)
  {
    match c
    case Create(_, _, _, _) => CreateFits(e, h, c);
    case PresentRoot(_, _) =>
      if Find(h, c.surface).Some? {
        OneShownFits(h, Find(h, c.surface).value, Visible);
      }
    case PresentPush(_, _, _) => PushFits(e, h, c);
    case SetVisibility(_, _, visible) =>
      if Find(h, c.surface).Some? {
        OneShownFits(h, Find(h, c.surface).value, if visible then Visible else Hidden);
      }
    case Close(_, _, _) => CloseFits(e, h, c);
    case Destroy(_, _) => DestroyFits(e, h, c);
  }

  /** Every command, whatever it is answered and whether it fails, keeps records and roots in step. */
  lemma ExecuteKeepsConsistent(e: Answers, h: Host, c: Command)
    requires Consistent(h) && FreshRoot(e, h, c)
    ensures Consistent(Execute(e, h, c).0)
  {
    PlanFits(e, h, c);
    ChangedIsConsistent(h, Plan(e, h, c).change);
  }

  /** A failed command changes nothing, unless it is a destroy that found its surface. */
  lemma FailureChangesNothing(e: Answers, h: Host, c: Command)
    requires Execute(e, h, c).1.status.Failed?
    ensures Execute(e, h, c).0 == h <==> !(c.Destroy? && Find(h, c.surface).Some?)
  {
    var after := Execute(e, h, c).0;
    if !(c.Destroy? && Find(h, c.surface).Some?) {
      assert after.records == h.records;
      assert after.roots == h.roots;
    }
  }
}
