/** Commands that touch different surfaces can be executed in either order, creations apart. */
module SurfaceOrder {
  import opened Wrappers
  import opened SurfaceCommands

  // ----- What a command depends on and what it changes -----

  /** Two hosts agree on a surface: on its record and on whether its root is live. */
  ghost predicate SameAt(h: Host, g: Host, surface: SurfaceId) {
    && Find(h, surface) == Find(g, surface)
    && (Find(h, surface).Some? ==>
          var i := Find(h, surface).value;
          && h.records[i] == g.records[i]
          && (h.records[i].value.root in h.roots <==> g.records[i].value.root in g.roots))
  }

  /** What a command other than a create does is decided by the surfaces it touches. */
  lemma PlanLocal(e: Answers, h: Host, g: Host, c: Command)
    requires !c.Create? && forall s :: s in Touched(c) ==> SameAt(h, g, s)
    ensures Plan(e, h, c) == Plan(e, g, c)
  {
    assert c.surface in Touched(c);
    if c.PresentPush? {
      assert c.source in Touched(c);
    }
    if c.Close? {
      assert c.below in Touched(c);
    }
  }

  /** A change only to records, with their roots, of some surfaces. */
  ghost predicate Within(h: Host, c: Change, surfaces: set<SurfaceId>) {
    forall i :: i in c.records ==> i < |h.records| && h.records[i].Some? && h.records[i].value.surface in surfaces
  }

  lemma PlanWithin(e: Answers, h: Host, c: Command)
    requires !c.Create?
    ensures Within(h, Plan(e, h, c).change, Touched(c))
  {
  }

  ghost predicate RootOf(h: Host, surfaces: set<SurfaceId>, root: Root) {
    exists i :: 0 <= i < |h.records| && h.records[i].Some? && h.records[i].value.root == root
                && h.records[i].value.surface in surfaces
  }

  lemma RootOfOne(h: Host, s: set<SurfaceId>, t: set<SurfaceId>, root: Root)
    requires Consistent(h) && s !! t && RootOf(h, s, root)
    ensures !RootOf(h, t, root)
  {
  }

  /** The roots a change concerns are roots of the records it changes. */
  lemma RootsWithin(h: Host, c: Change, surfaces: set<SurfaceId>, root: Root)
    requires Fits(h, c) && Within(h, c, surfaces) && (root in c.shown || root in c.gone)
    ensures RootOf(h, surfaces, root)
  {
    if root in c.shown {
      var i: nat :| Keeps(c, i, root);
      assert RecordFits(h, i, c.records[i]);
    } else {
      var i: nat :| GivesUp(h, c, i, root);
    }
  }

  /** The record of a surface is where its surface is. */
  lemma FoundAt(h: Host, surface: SurfaceId, i: nat)
    requires Consistent(h) && i < |h.records| && h.records[i].Some? && h.records[i].value.surface == surface
    ensures Find(h, surface) == Some(i)
  {
  }

  /** A change elsewhere leaves a surface as it was. */
  lemma SameElsewhere(h: Host, c: Change, surfaces: set<SurfaceId>, surface: SurfaceId)
    requires Consistent(h) && Fits(h, c) && Within(h, c, surfaces) && surface !in surfaces
    ensures SameAt(h, Changed(h, c), surface)
  {
    var g := Changed(h, c);
    ChangedIsConsistent(h, c);
    if Find(h, surface).Some? {
      var i := Find(h, surface).value;
      assert i !in c.records && g.records[i] == h.records[i];
      FoundAt(g, surface, i);
      RootsApart(h, c, i);
    } else {
      forall k | 0 <= k < |g.records| && g.records[k].Some? ensures g.records[k].value.surface != surface {
        if k in c.records {
          assert RecordFits(h, k, c.records[k]);
        }
      }
    }
  }

  // ----- Changes that do not meet -----

  ghost predicate Apart(c: Change, d: Change) {
    && c.records.Keys !! d.records.Keys
    && (c.shown.Keys + c.gone) !! (d.shown.Keys + d.gone)
  }

  lemma RecordsCommute(h: Host, c: Change, d: Change)
    requires Apart(c, d)
    ensures Changed(Changed(h, c), d).records == Changed(Changed(h, d), c).records
  {
  }

  lemma ChangesCommute(h: Host, c: Change, d: Change)
    requires Apart(c, d)
    ensures Changed(Changed(h, c), d) == Changed(Changed(h, d), c)
  {
    RecordsCommute(h, c, d);
    assert Changed(Changed(h, c), d).roots == Changed(Changed(h, d), c).roots;
  }

  lemma WithinApart(h: Host, c: Change, d: Change, s: set<SurfaceId>, t: set<SurfaceId>)
    requires Consistent(h) && Fits(h, c) && Fits(h, d) && Within(h, c, s) && Within(h, d, t) && s !! t
    ensures Apart(c, d)
  {
    forall root | root in c.shown.Keys + c.gone ensures root !in d.shown.Keys + d.gone {
      RootsWithin(h, c, s, root);
      RootOfOne(h, s, t, root);
      if root in d.shown.Keys + d.gone {
        RootsWithin(h, d, t, root);
      }
    }
  }

  // ----- The main result -----

  lemma AfterOther(e: Answers, h: Host, a: Command, b: Command)
    requires Consistent(h) && !Conflicts(a, b) && !a.Create? && !b.Create?
    ensures Plan(e, Execute(e, h, a).0, b) == Plan(e, h, b)
  {
    var change := Plan(e, h, a).change;
    OtherFits(e, h, a);
    PlanWithin(e, h, a);
    forall s | s in Touched(b) ensures SameAt(h, Changed(h, change), s) {
      SameElsewhere(h, change, Touched(a), s);
    }
    PlanLocal(e, h, Changed(h, change), b);
  }

  /** Only a create depends on the roots handed out. */
  lemma OtherFits(e: Answers, h: Host, c: Command)
    requires Consistent(h) && !c.Create?
    ensures Fits(h, Plan(e, h, c).change)
  {
    PlanFits(e.(create := r => Refused), h, c);
  }

  /** Two commands that do not conflict, neither of them a create, leave the same host and have the
      same results whichever is executed first. */
  lemma CommandsCommute(e: Answers, h: Host, a: Command, b: Command)
    requires Consistent(h) && !Conflicts(a, b) && !a.Create? && !b.Create?
    ensures var ab, ba := Execute(e, Execute(e, h, a).0, b), Execute(e, Execute(e, h, b).0, a);
            && ab.0 == ba.0
            && ab.1 == Execute(e, h, b).1
            && ba.1 == Execute(e, h, a).1
  {
    assert !Conflicts(b, a);
    AfterOther(e, h, a, b);
    AfterOther(e, h, b, a);
    OtherFits(e, h, a);
    OtherFits(e, h, b);
    PlanWithin(e, h, a);
    PlanWithin(e, h, b);
    WithinApart(h, Plan(e, h, a).change, Plan(e, h, b).change, Touched(a), Touched(b));
    ChangesCommute(h, Plan(e, h, a).change, Plan(e, h, b).change);
  }

  /** Creations do not commute, even of different surfaces: the first gets the last free record. */
  lemma CreatesDoNotCommute(e: Answers)
    requires e.create(1) == NewRoot(7) && e.create(2) == NewRoot(8)
    ensures var h := Host([None], map[], multiset{}, multiset{});
            var a, b := Create(1, 10, 1.0, 1.0), Create(2, 20, 1.0, 1.0);
            && Consistent(h) && !Conflicts(a, b)
            && Execute(e, h, a).1.status == Created && Execute(e, Execute(e, h, b).0, a).1.status == Failed(OutOfMemory)
  {
    var h := Host([None], map[], multiset{}, multiset{});
    var a, b := Create(1, 10, 1.0, 1.0), Create(2, 20, 1.0, 1.0);
    assert FreeRecord(h.records, 0) == Some(0);
    var g := Execute(e, h, b).0;
    assert g.records[0] == Some(Record(20, 1.0, 1.0, 8, HiddenEmpty));
    assert FreeRecord(g.records, 0) == None;
  }

  // ----- When a create commutes -----

  /** A create gets past its own guards. */
  predicate Asks(h: Host, c: Command)
    requires c.Create?
  {
    c.width > 0.0 && c.height > 0.0 && Find(h, c.surface).None?
  }

  /** It would take a record, if there is one. */
  predicate Takes(e: Answers, h: Host, c: Command)
    requires c.Create?
  {
    Asks(h, c) && e.create(c.request).NewRoot?
  }

  /** It would be refused by the backend, if it came to ask it. */
  predicate Refuses(e: Answers, h: Host, c: Command)
    requires c.Create?
  {
    Asks(h, c) && e.create(c.request).Refused?
  }

  /** The record that a command other than a create frees. */
  function Frees(e: Answers, h: Host, c: Command): (r: Option<nat>)
    ensures r.Some? ==> r.value < |h.records| && h.records[r.value].Some?
  {
    if c.Destroy? || (c.Close? && MayClose(e, h, c)) then Find(h, c.surface) else None
  }

  function SecondFree(h: Host): Option<nat> {
    var first := FreeRecord(h.records, 0);
    if first.None? then None else FreeRecord(h.records, first.value + 1)
  }

  /** Two creates have the same results in either order: there is no record for either, or one for
      each, or one of them does not get as far as needing it. */
  predicate RoomForBoth(e: Answers, h: Host, a: Command, b: Command)
    requires a.Create? && b.Create?
  {
    || FreeRecord(h.records, 0).None? || SecondFree(h).Some?
    || !((Takes(e, h, a) && (Takes(e, h, b) || Refuses(e, h, b))) || (Takes(e, h, b) && Refuses(e, h, a)))
  }

  /** A create has the same result before and after a command that frees a record. */
  predicate RoomBefore(e: Answers, h: Host, a: Command, b: Command)
    requires a.Create? && !b.Create?
  {
    Frees(e, h, b).None? || !Asks(h, a) || e.create(a.request).NoCapacity? || FreeRecord(h.records, 0).Some?
  }

  predicate Room(e: Answers, h: Host, a: Command, b: Command)
    requires a.Create?
  {
    if b.Create? then RoomForBoth(e, h, a, b) else RoomBefore(e, h, a, b)
  }

  /** The create also gets the same record: not both take one, and none is freed in front of it. */
  predicate SamePlace(e: Answers, h: Host, a: Command, b: Command)
    requires a.Create?
  {
    var first := FreeRecord(h.records, 0);
    if b.Create? then first.None? || !Takes(e, h, a) || !Takes(e, h, b)
    else
      var freed := Frees(e, h, b);
      first.None? || freed.None? || !Takes(e, h, a) || first.value < freed.value
  }

  /** The backend hands out roots that are not in use, and not the same one twice. */
  ghost predicate FreshRoots(e: Answers, h: Host, a: Command, b: Command) {
    && FreshRoot(e, h, a) && FreshRoot(e, h, b)
    && (a.Create? && b.Create? && e.create(a.request).NewRoot? && e.create(b.request).NewRoot? ==>
          e.create(a.request) != e.create(b.request))
  }

  predicate SameUpToOrder(h: Host, g: Host) {
    multiset(h.records) == multiset(g.records) && h.roots == g.roots && h.released == g.released && h.reset == g.reset
  }

  lemma FindElsewhere(e: Answers, h: Host, b: Command, surface: SurfaceId)
    requires Consistent(h) && FreshRoot(e, h, b) && surface !in Touched(b)
    ensures Find(Execute(e, h, b).0, surface).Some? <==> Find(h, surface).Some?
  {
    var g := Execute(e, h, b).0;
    if b.Create? {
      assert forall k :: 0 <= k < |h.records| && h.records[k].Some? ==> g.records[k] == h.records[k];
    } else {
      OtherFits(e, h, b);
      PlanWithin(e, h, b);
      SameElsewhere(h, Plan(e, h, b).change, Touched(b), surface);
    }
  }

  // ----- What creates do to the records -----

  function NewRecord(e: Answers, c: Command): Record
    requires c.Create? && e.create(c.request).NewRoot?
  {
    Record(c.surface, c.width, c.height, e.create(c.request).root, HiddenEmpty)
  }

  /** The host with one record more. */
  function Added(h: Host, i: nat, record: Record): Host
    requires i < |h.records|
  {
    h.(records := h.records[i := Some(record)], roots := h.roots[record.root := false])
  }

  /** A create adds a record in the first free place or changes nothing. */
  lemma CreateAdds(e: Answers, h: Host, c: Command)
    requires c.Create?
    ensures var first := FreeRecord(h.records, 0);
            Execute(e, h, c).0 == if Takes(e, h, c) && first.Some? then Added(h, first.value, NewRecord(e, c)) else h
  {
    var after := Execute(e, h, c).0;
    var first := FreeRecord(h.records, 0);
    if Takes(e, h, c) && first.Some? {
      assert after.records == Added(h, first.value, NewRecord(e, c)).records;
      assert after.roots == Added(h, first.value, NewRecord(e, c)).roots;
    } else {
      assert after.records == h.records;
      assert after.roots == h.roots;
    }
  }

  lemma {:induction false} FirstFreeFrom(records: seq<Option<Record>>, i: nat, k: nat)
    requires i <= k < |records| && records[k].None? && forall j :: i <= j < k ==> records[j].Some?
    ensures FreeRecord(records, i) == Some(k)
    decreases k - i
  {
    if i < k {
      FirstFreeFrom(records, i + 1, k);
    }
  }

  lemma {:induction false} BeforeFirstFree(records: seq<Option<Record>>, i: nat)
    requires i <= |records|
    ensures var first := FreeRecord(records, i);
            first.Some? ==> forall j :: i <= j < first.value ==> records[j].Some?
    decreases |records| - i
  {
    if i < |records| && records[i].Some? {
      BeforeFirstFree(records, i + 1);
    }
  }

  /** With the first free place taken the second is the first. */
  lemma FreeAfterAdding(h: Host, record: Record)
    requires FreeRecord(h.records, 0).Some?
    ensures FreeRecord(Added(h, FreeRecord(h.records, 0).value, record).records, 0) == SecondFree(h)
  {
    var first := FreeRecord(h.records, 0).value;
    var after := Added(h, first, record).records;
    BeforeFirstFree(h.records, 0);
    BeforeFirstFree(h.records, first + 1);
    if SecondFree(h).Some? {
      FirstFreeFrom(after, 0, SecondFree(h).value);
    } else {
      assert forall k :: 0 <= k < |after| ==> after[k].Some?;
    }
  }

  /** Of another surface nothing changes. */
  lemma FindAfterAdding(h: Host, i: nat, record: Record, surface: SurfaceId)
    requires Consistent(h) && i < |h.records| && h.records[i].None? && Consistent(Added(h, i, record))
    requires record.surface != surface && record.root !in h.roots
    ensures SameAt(h, Added(h, i, record), surface)
  {
    var g := Added(h, i, record);
    if Find(h, surface).Some? {
      FoundAt(g, surface, Find(h, surface).value);
    }
  }

  /** The result of a create, by its guards, the place it finds and the backend's answer. */
  function CreateStatus(e: Answers, h: Host, c: Command, first: Option<nat>): Status
    requires c.Create?
  {
    if c.width <= 0.0 || c.height <= 0.0 then Failed(AbiInvalidArgument)
    else if Find(h, c.surface).Some? then Failed(SurfaceHostAlreadyExists)
    else if first.None? || e.create(c.request).NoCapacity? then Failed(OutOfMemory)
    else if e.create(c.request).Refused? then Failed(PlatformRejected)
    else Created
  }

  lemma CreateEnds(e: Answers, h: Host, c: Command)
    requires c.Create?
    ensures Execute(e, h, c).1 == SurfaceResult(c, CreateStatus(e, h, c, FreeRecord(h.records, 0)))
  {
  }

  // ----- Two creates -----

  /** What a create leaves another create. */
  lemma CreateThenCreate(e: Answers, h: Host, a: Command, b: Command)
    requires Consistent(h) && a.Create? && b.Create? && a.surface != b.surface && FreshRoot(e, h, a)
    ensures var g := Execute(e, h, a).0;
            && (Find(g, b.surface).Some? <==> Find(h, b.surface).Some?)
            && FreeRecord(g.records, 0)
               == (if Takes(e, h, a) && FreeRecord(h.records, 0).Some? then SecondFree(h) else FreeRecord(h.records, 0))
  {
    CreateAdds(e, h, a);
    ExecuteKeepsConsistent(e, h, a);
    var first := FreeRecord(h.records, 0);
    if Takes(e, h, a) && first.Some? {
      FreeAfterAdding(h, NewRecord(e, a));
      FindAfterAdding(h, first.value, NewRecord(e, a), b.surface);
    }
  }

  lemma CreatesResults(e: Answers, h: Host, a: Command, b: Command)
    requires Consistent(h) && a.Create? && b.Create? && a.surface != b.surface && FreshRoots(e, h, a, b)
    ensures SameResults(e, h, a, b) <==> RoomForBoth(e, h, a, b)
  {
    CreateThenCreate(e, h, a, b);
    CreateThenCreate(e, h, b, a);
    CreateEnds(e, h, a);
    CreateEnds(e, h, b);
    CreateEnds(e, Execute(e, h, a).0, b);
    CreateEnds(e, Execute(e, h, b).0, a);
  }

  /** Both results are the same in either order. */
  predicate SameResults(e: Answers, h: Host, a: Command, b: Command) {
    Execute(e, Execute(e, h, a).0, b).1 == Execute(e, h, b).1 && Execute(e, Execute(e, h, b).0, a).1 == Execute(e, h, a).1
  }

  function InOrder(e: Answers, h: Host, a: Command, b: Command): Host {
    Execute(e, Execute(e, h, a).0, b).0
  }

  lemma TwoAdded(e: Answers, h: Host, a: Command, b: Command)
    requires Consistent(h) && a.Create? && b.Create? && a.surface != b.surface && FreshRoots(e, h, a, b)
    requires Takes(e, h, a) && Takes(e, h, b) && FreeRecord(h.records, 0).Some? && SecondFree(h).Some?
    ensures var i, j := FreeRecord(h.records, 0).value, SecondFree(h).value;
            i < j < |h.records| && InOrder(e, h, a, b) == Added(Added(h, i, NewRecord(e, a)), j, NewRecord(e, b))
  {
    CreateThenCreate(e, h, a, b);
    CreateAdds(e, h, a);
    CreateAdds(e, Execute(e, h, a).0, b);
  }

  lemma TwoUpdates(s: seq<Option<Record>>, i: nat, j: nat, r: Option<Record>, q: Option<Record>)
    requires i < j < |s|
    ensures multiset(s[i := r][j := q])
         == multiset(s) - multiset{s[i]} + multiset{r} - multiset{s[j]} + multiset{q}
  {
    assert s[i := r][j] == s[j];
  }

  lemma SwappedUpdates(s: seq<Option<Record>>, i: nat, j: nat, r: Option<Record>, q: Option<Record>)
    requires i < j < |s| && s[i].None? && s[j].None? && r.Some? && q.Some?
    ensures multiset(s[i := r][j := q]) == multiset(s[i := q][j := r])
  {
    TwoUpdates(s, i, j, r, q);
    TwoUpdates(s, i, j, q, r);
    assert s[i] == s[j];
  }

  /** Two records added in either order are the same but for their places. */
  lemma AddedTwice(h: Host, i: nat, j: nat, r: Record, q: Record)
    requires i < j < |h.records| && r.root != q.root && h.records[i].None? && h.records[j].None?
    ensures var x, y := Added(Added(h, i, r), j, q), Added(Added(h, i, q), j, r);
            x != y && SameUpToOrder(x, y)
  {
    var x, y := Added(Added(h, i, r), j, q), Added(Added(h, i, q), j, r);
    assert x.records[i] != y.records[i];
    assert x.roots == y.roots;
    SwappedUpdates(h.records, i, j, Some(r), Some(q));
  }

  /** Two creates of which not both take a record, or for which there is none. */
  lemma OneAdded(e: Answers, h: Host, a: Command, b: Command)
    requires Consistent(h) && a.Create? && b.Create? && a.surface != b.surface && FreshRoots(e, h, a, b)
    requires FreeRecord(h.records, 0).None? || !Takes(e, h, b)
    ensures InOrder(e, h, a, b) == InOrder(e, h, b, a) == Execute(e, h, a).0
  {
    CreateThenCreate(e, h, a, b);
    CreateAdds(e, h, b);
    CreateAdds(e, h, a);
    CreateAdds(e, Execute(e, h, a).0, b);
  }

  lemma CreatesHosts(e: Answers, h: Host, a: Command, b: Command)
    requires Consistent(h) && a.Create? && b.Create? && a.surface != b.surface && FreshRoots(e, h, a, b)
    requires RoomForBoth(e, h, a, b)
    ensures InOrder(e, h, a, b) == InOrder(e, h, b, a) <==> SamePlace(e, h, a, b)
    ensures SameUpToOrder(InOrder(e, h, a, b), InOrder(e, h, b, a))
  {
    if FreeRecord(h.records, 0).None? || !Takes(e, h, b) {
      OneAdded(e, h, a, b);
    } else if !Takes(e, h, a) {
      OneAdded(e, h, b, a);
    } else {
      TwoAdded(e, h, a, b);
      TwoAdded(e, h, b, a);
      AddedTwice(h, FreeRecord(h.records, 0).value, SecondFree(h).value, NewRecord(e, a), NewRecord(e, b));
    }
  }

  // ----- A create and another command -----

  /** Another command frees at most one record and takes none. */
  lemma FreesOnly(e: Answers, h: Host, b: Command)
    requires !b.Create?
    ensures var records := Plan(e, h, b).change.records;
            && (forall i :: i in records ==> i < |h.records| && h.records[i].Some?
                                             && (records[i].None? <==> Frees(e, h, b) == Some(i)))
            && (Frees(e, h, b).Some? ==> Frees(e, h, b).value in records)
  {
  }

  lemma FreeAfterFreeing(e: Answers, h: Host, b: Command)
    requires !b.Create?
    ensures var first, freed := FreeRecord(h.records, 0), Frees(e, h, b);
            FreeRecord(Execute(e, h, b).0.records, 0)
            == if freed.Some? && (first.None? || freed.value < first.value) then freed else first
  {
    var first, freed := FreeRecord(h.records, 0), Frees(e, h, b);
    var after := Execute(e, h, b).0.records;
    FreesOnly(e, h, b);
    BeforeFirstFree(h.records, 0);
    if freed.Some? && (first.None? || freed.value < first.value) {
      FirstFreeFrom(after, 0, freed.value);
    } else if first.Some? {
      FirstFreeFrom(after, 0, first.value);
    } else {
      assert forall k :: 0 <= k < |after| ==> after[k].Some?;
    }
  }

  /** A create before it leaves another command what it touches. */
  lemma PlanAfterCreate(e: Answers, h: Host, a: Command, b: Command)
    requires Consistent(h) && !Conflicts(a, b) && a.Create? && !b.Create? && FreshRoot(e, h, a)
    ensures Plan(e, Execute(e, h, a).0, b) == Plan(e, h, b)
  {
    CreateAdds(e, h, a);
    ExecuteKeepsConsistent(e, h, a);
    assert a.surface in Touched(a);
    forall s | s in Touched(b) ensures SameAt(h, Execute(e, h, a).0, s) {
      if Takes(e, h, a) && FreeRecord(h.records, 0).Some? {
        FindAfterAdding(h, FreeRecord(h.records, 0).value, NewRecord(e, a), s);
      }
    }
    PlanLocal(e, h, Execute(e, h, a).0, b);
  }

  lemma OtherResults(e: Answers, h: Host, a: Command, b: Command)
    requires Consistent(h) && !Conflicts(a, b) && a.Create? && !b.Create? && FreshRoot(e, h, a)
    ensures SameResults(e, h, a, b) <==> RoomBefore(e, h, a, b)
  {
    assert a.surface in Touched(a);
    PlanAfterCreate(e, h, a, b);
    FreeAfterFreeing(e, h, b);
    FindElsewhere(e, h, b, a.surface);
    CreateEnds(e, h, a);
    CreateEnds(e, Execute(e, h, b).0, a);
  }

  lemma AddedApart(h: Host, c: Change, i: nat, record: Record)
    requires i < |h.records| && i !in c.records && record.root !in c.shown && record.root !in c.gone
    ensures Changed(Added(h, i, record), c) == Added(Changed(h, c), i, record)
  {
    var x, y := Changed(Added(h, i, record), c), Added(Changed(h, c), i, record);
    assert x.records == y.records;
    assert x.roots == y.roots;
  }

  /** What the other command changes does not meet a record added in a free place. */
  lemma PlanLeaves(e: Answers, h: Host, b: Command, i: nat, root: Root)
    requires Consistent(h) && !b.Create? && i < |h.records| && h.records[i].None? && root !in h.roots
    ensures var change := Plan(e, h, b).change;
            i !in change.records && root !in change.shown && root !in change.gone
  {
    var change := Plan(e, h, b).change;
    FreesOnly(e, h, b);
    OtherFits(e, h, b);
    PlanWithin(e, h, b);
    if root in change.shown || root in change.gone {
      RootsWithin(h, change, Touched(b), root);
    }
  }

  lemma MovedRecord(h: Host, i: nat, j: nat, record: Record)
    requires i < |h.records| && j < |h.records| && h.records[i].None? && h.records[j].None?
    ensures var x, y := Added(h, i, record), Added(h, j, record);
            SameUpToOrder(x, y) && (x == y <==> i == j)
  {
    if i != j {
      assert Added(h, i, record).records[i].Some? && Added(h, j, record).records[i].None?;
    }
  }

  /** The hosts after a create that takes a record and another command. */
  lemma TakesAndOther(e: Answers, h: Host, a: Command, b: Command, after: Host, first: nat)
    requires Consistent(h) && !Conflicts(a, b) && a.Create? && !b.Create? && FreshRoot(e, h, a)
    requires Takes(e, h, a) && FreeRecord(h.records, 0) == Some(first) && after == Execute(e, h, b).0
    ensures |after.records| == |h.records| && after.records[first].None?
    ensures InOrder(e, h, a, b) == Added(after, first, NewRecord(e, a))
    ensures FreeRecord(after.records, 0).Some?
    ensures InOrder(e, h, b, a) == Added(after, FreeRecord(after.records, 0).value, NewRecord(e, a))
  {
    assert a.surface in Touched(a);
    PlanAfterCreate(e, h, a, b);
    CreateAdds(e, h, a);
    CreateAdds(e, after, a);
    PlanLeaves(e, h, b, first, NewRecord(e, a).root);
    AddedApart(h, Plan(e, h, b).change, first, NewRecord(e, a));
    FindElsewhere(e, h, b, a.surface);
    FreeAfterFreeing(e, h, b);
  }

  lemma OtherHosts(e: Answers, h: Host, a: Command, b: Command)
    requires Consistent(h) && !Conflicts(a, b) && a.Create? && !b.Create? && FreshRoot(e, h, a)
    requires RoomBefore(e, h, a, b)
    ensures InOrder(e, h, a, b) == InOrder(e, h, b, a) <==> SamePlace(e, h, a, b)
    ensures SameUpToOrder(InOrder(e, h, a, b), InOrder(e, h, b, a))
  {
    var after := Execute(e, h, b).0;
    FreeAfterFreeing(e, h, b);
    var first := FreeRecord(h.records, 0);
    if Takes(e, h, a) && first.Some? {
      TakesAndOther(e, h, a, b, after, first.value);
      MovedRecord(after, first.value, FreeRecord(after.records, 0).value, NewRecord(e, a));
    } else {
      NothingAndOther(e, h, a, b);
    }
  }

  /** A create that takes no record on its own takes none after the other command either. */
  lemma NothingAndOther(e: Answers, h: Host, a: Command, b: Command)
    requires Consistent(h) && !Conflicts(a, b) && a.Create? && !b.Create? && FreshRoot(e, h, a)
    requires RoomBefore(e, h, a, b) && (!Takes(e, h, a) || FreeRecord(h.records, 0).None?)
    ensures InOrder(e, h, a, b) == InOrder(e, h, b, a)
  {
    var after := Execute(e, h, b).0;
    assert a.surface in Touched(a);
    FreeAfterFreeing(e, h, b);
    FindElsewhere(e, h, b, a.surface);
    CreateAdds(e, h, a);
    CreateAdds(e, after, a);
  }

  // ----- The main result on creates -----

  /** A create and any command that does not conflict with it have the same results in either order
      exactly where there is room for both, and then leave the same host but for the order of its
      records. */
  lemma CreateCommutesUpToOrder(e: Answers, h: Host, a: Command, b: Command)
    requires Consistent(h) && !Conflicts(a, b) && a.Create? && FreshRoots(e, h, a, b)
    ensures SameResults(e, h, a, b) <==> Room(e, h, a, b)
    ensures Room(e, h, a, b) ==> SameUpToOrder(InOrder(e, h, a, b), InOrder(e, h, b, a))
  {
    assert a.surface in Touched(a) && b.surface in Touched(b);
    if b.Create? {
      CreatesResults(e, h, a, b);
      if RoomForBoth(e, h, a, b) {
        CreatesHosts(e, h, a, b);
      }
    } else {
      OtherResults(e, h, a, b);
      if RoomBefore(e, h, a, b) {
        OtherHosts(e, h, a, b);
      }
    }
  }

  /** They leave the same host and have the same results in either order if and only if there is room
      for both and the create gets the same record. */
  lemma CreateCommutesIff(e: Answers, h: Host, a: Command, b: Command)
    requires Consistent(h) && !Conflicts(a, b) && a.Create? && FreshRoots(e, h, a, b)
    ensures InOrder(e, h, a, b) == InOrder(e, h, b, a) && SameResults(e, h, a, b)
       <==> Room(e, h, a, b) && SamePlace(e, h, a, b)
  {
    assert a.surface in Touched(a) && b.surface in Touched(b);
    CreateCommutesUpToOrder(e, h, a, b);
    if Room(e, h, a, b) {
      if b.Create? {
        CreatesHosts(e, h, a, b);
      } else {
        OtherHosts(e, h, a, b);
      }
    }
  }

  // ----- Visible surfaces -----

  function VisibleCount(records: seq<Option<Record>>): nat {
    if records == [] then 0
    else
      var last := records[|records| - 1];
      VisibleCount(records[..|records| - 1]) + if Shows(last) then 1 else 0
  }

  predicate Shows(record: Option<Record>) {
    record.Some? && record.value.phase.Visible?
  }

  function Shown(record: Option<Record>): int {
    if Shows(record) then 1 else 0
  }

  lemma {:induction false} CountUpdate(records: seq<Option<Record>>, i: nat, record: Option<Record>)
    requires i < |records|
    ensures VisibleCount(records[i := record]) == VisibleCount(records) - Shown(records[i]) + Shown(record)
  {
    var n := |records| - 1;
    if i == n {
      assert records[i := record][..n] == records[..n];
    } else {
      assert records[i := record][..n] == records[..n][i := record];
      CountUpdate(records[..n], i, record);
    }
  }

  /** Presenting by push and closing exchange one visible surface for another. */
  lemma ExchangeKeepsVisible(e: Answers, h: Host, c: Command)
    requires c.PresentPush? || c.Close?
    ensures VisibleCount(Execute(e, h, c).0.records) == VisibleCount(h.records)
  {
    var change := Plan(e, h, c).change;
    var after := Changed(h, change).records;
    if change == NOTHING {
      assert after == h.records;
    } else {
      var i := Find(h, c.surface).value;
      var j := Find(h, if c.PresentPush? then c.source else c.below).value;
      var mid := h.records[i := change.records[i]];
      assert after == mid[j := change.records[j]];
      CountUpdate(h.records, i, change.records[i]);
      CountUpdate(mid, j, change.records[j]);
    }
  }
}
