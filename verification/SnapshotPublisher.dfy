/** The two-slot font snapshot publisher as interleaved atomic steps, taken as sequentially
    consistent, of one owner and any number of readers. */
module SnapshotPublisher {
  import opened Wrappers

  /** A snapshot in its slot: whole, being written, or cleared at the close. */
  datatype Snap = Snap(generation: nat, data: nat) | Torn | Cleared

  type SlotIndex = s: nat | s < 2

  type Snaps = s: seq<Snap> | |s| == 2 witness [Torn, Torn]

  type ReaderCounts = s: seq<nat> | |s| == 2 witness [0, 0]

  const MAX_GENERATION: nat := 0xFFFF_FFFF_FFFF_FFFF

  /** Where a reader is in acquire: each constructor but `Idle` and `Holding` is between two atomic
      operations. `seen` is the snapshot in the slot when its re-check found the slot active. */
  datatype Reader =
    | Idle
    | SawInitialized
    | Attempt(tries: nat)
    | Loaded(tries: nat, slot: SlotIndex)
    | Counted(tries: nat, slot: SlotIndex)
    | Rechecked(tries: nat, slot: SlotIndex, seen: Snap)
    | Backing(tries: nat, slot: SlotIndex)
    | Holding(slot: SlotIndex, seen: Snap)

  /** Where the owner is in publish or in closing. */
  datatype Owner =
    | Resting
    | Chosen(slot: SlotIndex, snap: Snap)
    | Writing(slot: SlotIndex, snap: Snap)
    | Written(slot: SlotIndex, snap: Snap)
    | Flipped(generation: nat)
    | Numbered
    | Notifying
    | Closing
    | SawNone
    | SawNoneAgain
    | ClearingFirst
    | ClearingSecond
    | Unready

  datatype PortAnswer = Taken | Overflow | Refused

  /** `published` lists the snapshots made active, `settled` the generations whose notification was
      taken or refused for good, `taken` those taken. */
  datatype Publisher = Publisher(
    snapshots: Snaps, active: SlotIndex, counts: ReaderCounts, generation: nat,
    initialized: bool, accepting: bool, closed: bool, pending: bool,
    readers: map<nat, Reader>, owner: Owner,
    initial: nat, published: seq<Snap>, settled: seq<nat>, taken: seq<nat>)

  datatype Event =
    | ReaderStep(reader: nat)
    | PublishStart(data: nat, familiesMatch: bool)
    | OwnerStep(answer: PortAnswer)
    | CloseAdmission
    | CloseStart

  /** After initialize, which happens before the publisher is shared. */
  function Initialized(generation: nat, data: nat): Publisher {
    Publisher([Snap(generation, data), Snap(0, 0)], 0, [0, 0], generation, true, true, false, false,
              map[], Resting, generation, [Snap(generation, data)], [], [])
  }

  function ReaderAt(s: Publisher, r: nat): Reader {
    if r in s.readers then s.readers[r] else Idle
  }

  function At(s: Publisher, r: nat, reader: Reader): Publisher {
    s.(readers := s.readers[r := reader])
  }

  function Add(counts: ReaderCounts, slot: SlotIndex): ReaderCounts {
    counts[slot := counts[slot] + 1]
  }

  function Sub(counts: ReaderCounts, slot: SlotIndex): ReaderCounts {
    counts[slot := if counts[slot] == 0 then 0 else counts[slot] - 1]
  }

  /** The next atomic operation of a reader: of acquire, or the release of its guard. */
  function StepReader(s: Publisher, r: nat): Publisher {
    match ReaderAt(s, r)
    case Idle => if s.initialized then At(s, r, SawInitialized) else s
    case SawInitialized => At(s, r, if s.closed then Idle else Attempt(0))
    case Attempt(tries) => At(s, r, if tries < 2 then Loaded(tries, s.active) else Idle)
    case Loaded(tries, slot) => At(s, r, Counted(tries, slot)).(counts := Add(s.counts, slot))
    case Counted(tries, slot) =>
      At(s, r, if slot == s.active then Rechecked(tries, slot, s.snapshots[slot]) else Backing(tries, slot))
    case Rechecked(tries, slot, seen) => At(s, r, if s.closed then Backing(tries, slot) else Holding(slot, seen))
    case Backing(tries, slot) => At(s, r, Attempt(tries + 1)).(counts := Sub(s.counts, slot))
    case Holding(slot, _) => At(s, r, Idle).(counts := Sub(s.counts, slot))
  }

  /** The checks of publish up to its look at the readers of the other slot. */
  function StartPublish(s: Publisher, data: nat, familiesMatch: bool): Publisher {
    if !s.owner.Resting? || !s.accepting || !s.initialized || s.closed || !familiesMatch || s.pending
       || s.counts[1 - s.active] != 0 || s.generation >= MAX_GENERATION then s
    else s.(owner := Chosen(1 - s.active, Snap(s.generation + 1, data)))
  }

  /** Offers the pending notification; on overflow it stays pending. */
  function Notify(s: Publisher, answer: PortAnswer): Publisher {
    if !s.pending || answer.Overflow? then s
    else
      s.(pending := false, settled := s.settled + [s.generation],
         taken := if answer.Taken? then s.taken + [s.generation] else s.taken)
  }

  function StepOwner(s: Publisher, answer: PortAnswer): Publisher {
    match s.owner
    case Resting => Notify(s, answer)
    case Chosen(slot, snap) => s.(snapshots := s.snapshots[slot := Torn], owner := Writing(slot, snap))
    case Writing(slot, snap) => s.(snapshots := s.snapshots[slot := snap], owner := Written(slot, snap))
    case Written(slot, snap) =>
      s.(active := slot, published := s.published + [snap], owner := Flipped(s.generation + 1))
    case Flipped(generation) => s.(generation := generation, owner := Numbered)
    case Numbered => s.(pending := true, owner := Notifying)
    case Notifying => Notify(s, answer).(owner := Resting)
    case Closing =>
      var notified := Notify(s, answer);
      if notified.pending || s.counts[0] != 0 then notified.(owner := Resting) else notified.(owner := SawNone)
    case SawNone => s.(owner := if s.counts[1] != 0 then Resting else SawNoneAgain)
    case SawNoneAgain => s.(closed := true, owner := ClearingFirst)
    case ClearingFirst => s.(snapshots := s.snapshots[0 := Cleared], owner := ClearingSecond)
    case ClearingSecond => s.(snapshots := s.snapshots[1 := Cleared], owner := Unready)
    case Unready => s.(initialized := false, owner := Resting)
  }

  function Step(s: Publisher, event: Event): Publisher {
    match event
    case ReaderStep(r) => StepReader(s, r)
    case PublishStart(data, familiesMatch) => StartPublish(s, data, familiesMatch)
    case OwnerStep(answer) => StepOwner(s, answer)
    case CloseAdmission => s.(accepting := false)
    case CloseStart => if s.owner.Resting? then s.(accepting := false, owner := Closing) else s
  }

  function Run(generation: nat, data: nat, events: seq<Event>): Publisher {
    if events == [] then Initialized(generation, data)
    else Step(Run(generation, data, events[..|events| - 1]), events[|events| - 1])
  }

  // ----- Reader counts -----

  predicate Counts(reader: Reader, slot: nat) {
    match reader
    case Counted(_, s) => s == slot
    case Rechecked(_, s, _) => s == slot
    case Backing(_, s) => s == slot
    case Holding(s, _) => s == slot
    case _ => false
  }

  function Counters(readers: map<nat, Reader>, slot: nat): set<nat> {
    set r | r in readers && Counts(readers[r], slot)
  }

  ghost predicate CountsMatch(s: Publisher) {
    s.counts[0] == |Counters(s.readers, 0)| && s.counts[1] == |Counters(s.readers, 1)|
  }

  /** How one reader's move changes who counts in a slot. */
  lemma CountersMove(readers: map<nat, Reader>, r: nat, reader: Reader, slot: nat)
    ensures var was := r in readers && Counts(readers[r], slot);
            && (Counts(reader, slot) && !was ==>
                  |Counters(readers[r := reader], slot)| == |Counters(readers, slot)| + 1)
            && (!Counts(reader, slot) && was ==>
                  |Counters(readers[r := reader], slot)| == |Counters(readers, slot)| - 1)
            && (Counts(reader, slot) == was ==>
                  Counters(readers[r := reader], slot) == Counters(readers, slot))
  {
    var before, after := Counters(readers, slot), Counters(readers[r := reader], slot);
    if Counts(reader, slot) {
      assert after == before + {r};
    } else {
      assert after == before - {r};
    }
  }

  lemma NobodyCounts(s: Publisher, slot: SlotIndex)
    requires CountsMatch(s) && s.counts[slot] == 0
    ensures forall r :: r in s.readers ==> !Counts(s.readers[r], slot)
  {
    forall r | r in s.readers ensures !Counts(s.readers[r], slot) {
      assert Counts(s.readers[r], slot) ==> r in Counters(s.readers, slot);
    }
  }

  // ----- What every run keeps -----

  /** A reader past its re-check that holds, or will unless the close comes first, what it saw. */
  predicate Keeps(s: Publisher, reader: Reader) {
    reader.Holding? || (reader.Rechecked? && !s.closed)
  }

  /** The owner is about to write, writes, or has written the slot that is not active. */
  predicate Fills(owner: Owner) {
    owner.Chosen? || owner.Writing? || owner.Written?
  }

  /** The owner has closed the publisher, and clears or has cleared it. */
  predicate Shuts(owner: Owner) {
    owner.ClearingFirst? || owner.ClearingSecond? || owner.Unready?
  }

  /** The snapshot in the active slot is the newest published one. */
  ghost predicate ActiveIsNewest(s: Publisher) {
    && s.published != [] && (forall i :: 0 <= i < |s.published| ==> s.published[i].Snap?)
    && (!s.closed ==> s.snapshots[s.active] == s.published[|s.published| - 1])
  }

  /** What a reader has seen is a published snapshot, and stays in its slot as it was at the re-check
      until the close clears that slot. */
  ghost predicate SeenStays(s: Publisher, reader: Reader) {
    && (reader.Holding? || reader.Rechecked?) && reader.seen in s.published
    && (s.snapshots[reader.slot] == reader.seen || (s.closed && s.snapshots[reader.slot] == Cleared))
  }

  ghost predicate Guarded(s: Publisher) {
    forall r :: r in s.readers && Keeps(s, s.readers[r]) ==> SeenStays(s, s.readers[r])
  }

  ghost predicate OwnerFits(s: Publisher) {
    && (Fills(s.owner) ==> !s.closed && FillsOther(s, s.owner.slot, s.owner.snap))
    && (s.owner.Written? ==> s.snapshots[s.owner.slot] == s.owner.snap)
    && (s.owner.Flipped? ==> !s.closed && s.owner.generation == s.generation + 1)
    && (s.owner.Numbered? || s.owner.Notifying? ==> !s.closed)
    && (Shuts(s.owner) ==> s.closed)
  }

  /** The slot being filled is not active, and nobody will hold or holds what is in it. */
  ghost predicate FillsOther(s: Publisher, slot: SlotIndex, snap: Snap) {
    && slot == 1 - s.active && snap.Snap? && snap.generation == s.generation + 1
    && forall r :: r in s.readers && Keeps(s, s.readers[r]) ==> s.readers[r].slot != slot
  }

  ghost predicate Sound(s: Publisher) {
    CountsMatch(s) && ActiveIsNewest(s) && Guarded(s) && OwnerFits(s)
  }

  lemma InitializedSound(generation: nat, data: nat)
    ensures Sound(Initialized(generation, data))
  {
    assert Counters(map[], 0) == {} && Counters(map[], 1) == {};
  }

  function Weight(reader: Reader, slot: nat): int {
    if Counts(reader, slot) then 1 else 0
  }

  lemma CountsStep(s: Publisher, r: nat, reader: Reader, counts: ReaderCounts)
    requires CountsMatch(s)
    requires counts[0] == s.counts[0] + Weight(reader, 0) - Weight(ReaderAt(s, r), 0)
    requires counts[1] == s.counts[1] + Weight(reader, 1) - Weight(ReaderAt(s, r), 1)
    ensures CountsMatch(At(s, r, reader).(counts := counts))
  {
    CountersMove(s.readers, r, reader, 0);
    CountersMove(s.readers, r, reader, 1);
  }

  /** A reader that counts in a slot is counted there. */
  lemma CountedOnce(s: Publisher, r: nat, slot: SlotIndex)
    requires CountsMatch(s) && Counts(ReaderAt(s, r), slot)
    ensures s.counts[slot] > 0
  {
    assert r in Counters(s.readers, slot);
  }

  /** What a reader may become: past its re-check it has seen what is in its slot, which is not the
      one being filled. */
  ghost predicate MayBecome(s: Publisher, reader: Reader) {
    Keeps(s, reader) ==> SeenStays(s, reader) && (Fills(s.owner) ==> reader.slot != s.owner.slot)
  }

  /** A reader moves: its count goes with it. */
  lemma MoveKeeps(s: Publisher, r: nat, reader: Reader, counts: ReaderCounts)
    requires Sound(s) && MayBecome(s, reader)
    requires counts[0] == s.counts[0] + Weight(reader, 0) - Weight(ReaderAt(s, r), 0)
    requires counts[1] == s.counts[1] + Weight(reader, 1) - Weight(ReaderAt(s, r), 1)
    ensures Sound(At(s, r, reader).(counts := counts))
  {
    CountsStep(s, r, reader, counts);
  }

  lemma EnterKeeps(s: Publisher, r: nat)
    requires Sound(s) && !Counts(ReaderAt(s, r), 0) && !Counts(ReaderAt(s, r), 1)
    ensures Sound(StepReader(s, r))
  {
    match ReaderAt(s, r)
    case Idle => if s.initialized { MoveKeeps(s, r, SawInitialized, s.counts); }
    case SawInitialized => MoveKeeps(s, r, if s.closed then Idle else Attempt(0), s.counts);
    case Attempt(tries) => MoveKeeps(s, r, if tries < 2 then Loaded(tries, s.active) else Idle, s.counts);
    case Loaded(tries, slot) => MoveKeeps(s, r, Counted(tries, slot), Add(s.counts, slot));
  }

  lemma CheckKeeps(s: Publisher, r: nat)
    requires Sound(s) && (ReaderAt(s, r).Counted? || ReaderAt(s, r).Rechecked?)
    ensures Sound(StepReader(s, r))
  {
    match ReaderAt(s, r)
    case Counted(tries, slot) =>
      MoveKeeps(s, r, if slot == s.active then Rechecked(tries, slot, s.snapshots[slot]) else Backing(tries, slot),
                s.counts);
    case Rechecked(tries, slot, seen) =>
      MoveKeeps(s, r, if s.closed then Backing(tries, slot) else Holding(slot, seen), s.counts);
  }

  lemma LeaveKeeps(s: Publisher, r: nat)
    requires Sound(s) && (ReaderAt(s, r).Backing? || ReaderAt(s, r).Holding?)
    ensures Sound(StepReader(s, r))
  {
    CountedOnce(s, r, ReaderAt(s, r).slot);
    match ReaderAt(s, r)
    case Backing(tries, slot) => MoveKeeps(s, r, Attempt(tries + 1), Sub(s.counts, slot));
    case Holding(slot, _) => MoveKeeps(s, r, Idle, Sub(s.counts, slot));
  }

  lemma ReaderKeeps(s: Publisher, r: nat)
    requires Sound(s)
    ensures Sound(StepReader(s, r))
  {
    if ReaderAt(s, r).Counted? || ReaderAt(s, r).Rechecked? {
      CheckKeeps(s, r);
    } else if ReaderAt(s, r).Backing? || ReaderAt(s, r).Holding? {
      LeaveKeeps(s, r);
    } else {
      EnterKeeps(s, r);
    }
  }

  lemma StartKeeps(s: Publisher, data: nat, familiesMatch: bool)
    requires Sound(s)
    ensures Sound(StartPublish(s, data, familiesMatch))
  {
    var next := StartPublish(s, data, familiesMatch);
    if next != s {
      NobodyCounts(s, 1 - s.active);
    }
  }

  /** Writing the slot that is not active disturbs nobody. */
  lemma FillKeeps(s: Publisher, snap: Snap, owner: Owner)
    requires Sound(s) && Fills(s.owner) && Fills(owner) && owner.slot == s.owner.slot && owner.snap == s.owner.snap
    requires owner.Written? ==> snap == owner.snap
    ensures Sound(s.(snapshots := s.snapshots[owner.slot := snap], owner := owner))
  {
  }

  lemma FlipKeeps(s: Publisher)
    requires Sound(s) && s.owner.Written?
    ensures Sound(s.(active := s.owner.slot, published := s.published + [s.owner.snap],
                     owner := Flipped(s.generation + 1)))
  {
  }

  lemma NotifyKeeps(s: Publisher, answer: PortAnswer)
    requires Sound(s)
    ensures Sound(Notify(s, answer)) && Notify(s, answer).owner == s.owner
  {
  }

  lemma OwnerMoves(s: Publisher, owner: Owner)
    requires Sound(s) && !Fills(owner) && !owner.Flipped?
    requires (owner.Numbered? || owner.Notifying? ==> !s.closed) && (Shuts(owner) ==> s.closed)
    ensures Sound(s.(owner := owner))
  {
  }

  lemma ShutKeeps(s: Publisher, slot: SlotIndex, owner: Owner)
    requires Sound(s) && s.closed && Shuts(owner)
    ensures Sound(s.(snapshots := s.snapshots[slot := Cleared], owner := owner))
  {
  }

  lemma NumberKeeps(s: Publisher)
    requires Sound(s) && s.owner.Flipped?
    ensures Sound(s.(generation := s.owner.generation, owner := Numbered))
  {
  }

  lemma PendKeeps(s: Publisher)
    requires Sound(s) && s.owner.Numbered?
    ensures Sound(s.(pending := true, owner := Notifying))
  {
  }

  lemma CloseKeeps(s: Publisher)
    requires Sound(s) && s.owner.SawNoneAgain?
    ensures Sound(s.(closed := true, owner := ClearingFirst))
  {
  }

  lemma PublishKeeps(s: Publisher, answer: PortAnswer)
    requires Sound(s) && (Fills(s.owner) || s.owner.Flipped? || s.owner.Numbered?)
    ensures Sound(StepOwner(s, answer))
  {
    match s.owner
    case Chosen(slot, snap) => FillKeeps(s, Torn, Writing(slot, snap));
    case Writing(slot, snap) => FillKeeps(s, snap, Written(slot, snap));
    case Written(slot, snap) => FlipKeeps(s);
    case Flipped(generation) => NumberKeeps(s);
    case Numbered => PendKeeps(s);
  }

  lemma NotifyStepKeeps(s: Publisher, answer: PortAnswer)
    requires Sound(s) && (s.owner.Resting? || s.owner.Notifying? || s.owner.Closing?)
    ensures Sound(StepOwner(s, answer))
  {
    NotifyKeeps(s, answer);
    OwnerMoves(Notify(s, answer), StepOwner(s, answer).owner);
  }

  lemma ShutStepKeeps(s: Publisher, answer: PortAnswer)
    requires Sound(s) && Shuts(s.owner)
    ensures Sound(StepOwner(s, answer))
  {
    match s.owner
    case ClearingFirst => ShutKeeps(s, 0, ClearingSecond);
    case ClearingSecond => ShutKeeps(s, 1, Unready);
    case Unready => OwnerMoves(s.(initialized := false), Resting);
  }

  lemma OwnerKeeps(s: Publisher, answer: PortAnswer)
    requires Sound(s)
    ensures Sound(StepOwner(s, answer))
  {
    if Fills(s.owner) || s.owner.Flipped? || s.owner.Numbered? {
      PublishKeeps(s, answer);
    } else if Shuts(s.owner) {
      ShutStepKeeps(s, answer);
    } else if s.owner.SawNoneAgain? {
      CloseKeeps(s);
    } else if s.owner.SawNone? {
      OwnerMoves(s, StepOwner(s, answer).owner);
    } else {
      NotifyStepKeeps(s, answer);
    }
  }

  lemma StepKeeps(s: Publisher, event: Event)
    requires Sound(s)
    ensures Sound(Step(s, event))
  {
    match event
    case ReaderStep(r) => ReaderKeeps(s, r);
    case PublishStart(data, familiesMatch) => StartKeeps(s, data, familiesMatch);
    case OwnerStep(answer) => OwnerKeeps(s, answer);
    case CloseAdmission =>
    case CloseStart =>
  }

  // ----- Guards -----

  /** Whatever the interleaving: counts are those of the counting readers, the slot being filled is
      nobody's, and what a guard holds stays until the close clears its slot. */
  lemma {:induction false} RunIsSound(generation: nat, data: nat, events: seq<Event>)
    ensures Sound(Run(generation, data, events))
  {
    if events == [] {
      InitializedSound(generation, data);
    } else {
      RunIsSound(generation, data, events[..|events| - 1]);
      StepKeeps(Run(generation, data, events[..|events| - 1]), events[|events| - 1]);
    }
  }

  /** What a guard holds while it is held: at each moment the published snapshot it was given, until
      the close clears that very slot. */
  lemma HeldIsIntact(generation: nat, data: nat, events: seq<Event>, r: nat)
    requires ReaderAt(Run(generation, data, events), r).Holding?
    ensures var s := Run(generation, data, events);
            var reader := ReaderAt(s, r);
            && reader.seen in s.published && reader.seen.Snap?
            && (s.snapshots[reader.slot] == reader.seen || (s.closed && s.snapshots[reader.slot] == Cleared))
  {
    RunIsSound(generation, data, events);
    assert SeenStays(Run(generation, data, events), ReaderAt(Run(generation, data, events), r));
  }

  /** At the re-check, before the close, a reader sees the newest published snapshot. */
  lemma RecheckSeesNewest(generation: nat, data: nat, events: seq<Event>, r: nat)
    requires var s := Run(generation, data, events);
             ReaderAt(s, r).Counted? && ReaderAt(s, r).slot == s.active && !s.closed
    ensures var s := Run(generation, data, events);
            && ReaderAt(StepReader(s, r), r).Rechecked? && s.published != []
            && ReaderAt(StepReader(s, r), r).seen == s.published[|s.published| - 1]
  {
    RunIsSound(generation, data, events);
  }

  // ----- The close -----

  lemma NotifyLeaves(s: Publisher, answer: PortAnswer)
    ensures var t := Notify(s, answer); t.readers == s.readers && t.closed == s.closed && t.snapshots == s.snapshots
  {
  }

  lemma PublishLeaves(s: Publisher, answer: PortAnswer)
    requires Publishes(s.owner)
    ensures StepOwner(s, answer).readers == s.readers && (s.closed ==> StepOwner(s, answer).closed)
  {
  }

  lemma CloseLeaves(s: Publisher, answer: PortAnswer)
    requires s.owner.SawNone? || s.owner.SawNoneAgain? || Shuts(s.owner)
    ensures StepOwner(s, answer).readers == s.readers && (s.closed ==> StepOwner(s, answer).closed)
  {
  }

  lemma OwnerLeavesReaders(s: Publisher, answer: PortAnswer)
    ensures StepOwner(s, answer).readers == s.readers && (s.closed ==> StepOwner(s, answer).closed)
  {
    if s.owner.Resting? || s.owner.Notifying? || s.owner.Closing? {
      NotifyLeaves(s, answer);
    } else if Publishes(s.owner) {
      PublishLeaves(s, answer);
    } else {
      CloseLeaves(s, answer);
    }
  }

  /** Only the clearing steps touch the slots outside publish. */
  lemma OwnerLeavesSlots(s: Publisher, answer: PortAnswer)
    requires !Fills(s.owner) && !s.owner.ClearingFirst? && !s.owner.ClearingSecond?
    ensures StepOwner(s, answer).snapshots == s.snapshots
  {
    if s.owner.Resting? || s.owner.Notifying? || s.owner.Closing? {
      NotifyLeaves(s, answer);
    }
  }

  lemma ReaderLeavesSlots(s: Publisher, r: nat)
    ensures StepReader(s, r).snapshots == s.snapshots
  {
  }

  lemma ReaderHoldsNothingNew(s: Publisher, k: nat, r: nat)
    requires s.closed && ReaderAt(StepReader(s, k), r).Holding?
    ensures ReaderAt(StepReader(s, k), r) == ReaderAt(s, r) && StepReader(s, k).closed
  {
  }

  /** After the store that closes nobody comes to hold a guard. */
  lemma NobodyHoldsAnew(s: Publisher, event: Event, r: nat)
    requires s.closed && ReaderAt(Step(s, event), r).Holding?
    ensures ReaderAt(Step(s, event), r) == ReaderAt(s, r) && Step(s, event).closed
  {
    if event.OwnerStep? {
      OwnerLeavesReaders(s, event.answer);
    } else if event.ReaderStep? {
      ReaderHoldsNothingNew(s, event.reader, r);
    }
  }

  ghost predicate SlotHeld(s: Publisher, slot: SlotIndex) {
    exists r :: r in s.readers && s.readers[r].Holding? && s.readers[r].slot == slot
  }

  /** The step that clears a slot finds nobody holding it. */
  ghost predicate ClearsUnheld(s: Publisher, event: Event) {
    event.OwnerStep? ==> (s.owner.ClearingFirst? ==> !SlotHeld(s, 0)) && (s.owner.ClearingSecond? ==> !SlotHeld(s, 1))
  }

  ghost predicate RunClearsUnheld(generation: nat, data: nat, events: seq<Event>) {
    forall k :: 0 <= k < |events| ==> ClearsUnheld(Run(generation, data, events[..k]), events[k])
  }

  /** Every guard held now has its snapshot. */
  ghost predicate AllIntact(s: Publisher) {
    forall r :: r in s.readers && s.readers[r].Holding? ==> s.snapshots[s.readers[r].slot] == s.readers[r].seen
  }

  ghost predicate RunStaysIntact(generation: nat, data: nat, events: seq<Event>) {
    forall n :: 0 <= n <= |events| ==> AllIntact(Run(generation, data, events[..n]))
  }

  /** A step keeps every held snapshot in place if and only if it does not clear a slot that is held. */
  lemma IntactNextIff(s: Publisher, event: Event)
    requires Sound(s) && AllIntact(s)
    ensures AllIntact(Step(s, event)) <==> ClearsUnheld(s, event)
  {
    var t := Step(s, event);
    StepKeeps(s, event);
    if ClearsUnheld(s, event) {
      forall r | r in t.readers && t.readers[r].Holding? ensures t.snapshots[t.readers[r].slot] == t.readers[r].seen {
        StillIntact(s, event, r);
      }
    } else {
      var slot: SlotIndex := if s.owner.ClearingFirst? then 0 else 1;
      var r :| r in s.readers && s.readers[r].Holding? && s.readers[r].slot == slot;
      assert SeenStays(s, s.readers[r]);
      assert t.readers == s.readers && t.snapshots[slot] == Cleared;
    }
  }

  lemma StillIntact(s: Publisher, event: Event, r: nat)
    requires Sound(s) && AllIntact(s) && ClearsUnheld(s, event) && Sound(Step(s, event))
    requires r in Step(s, event).readers && Step(s, event).readers[r].Holding?
    ensures var t := Step(s, event); t.snapshots[t.readers[r].slot] == t.readers[r].seen
  {
    var t := Step(s, event);
    assert SeenStays(t, t.readers[r]);
    if t.snapshots[t.readers[r].slot] == Cleared {
      if s.closed {
        NobodyHoldsAnew(s, event, r);
        assert SeenStays(s, s.readers[r]);
        ClearedAnew(s, event, t.readers[r].slot);
      } else {
        JustClosed(s, event);
      }
    }
  }

  lemma JustClosed(s: Publisher, event: Event)
    requires !s.closed && Step(s, event).closed
    ensures Step(s, event).readers == s.readers && Step(s, event).snapshots == s.snapshots
  {
  }

  /** Only its clearing step clears a slot. */
  lemma ClearedAnew(s: Publisher, event: Event, slot: SlotIndex)
    requires Sound(s) && s.closed && s.snapshots[slot] != Cleared && Step(s, event).snapshots[slot] == Cleared
    ensures event.OwnerStep? && (if slot == 0 then s.owner.ClearingFirst? else s.owner.ClearingSecond?)
  {
    if event.ReaderStep? {
      ReaderLeavesSlots(s, event.reader);
    } else if event.OwnerStep? && !s.owner.ClearingFirst? && !s.owner.ClearingSecond? {
      OwnerLeavesSlots(s, event.answer);
    }
  }

  /** The exact condition, over all runs: every held snapshot stays in place throughout if and only if
      each clearing finds its slot held by nobody. */
  lemma {:induction false} CloseIsSafeIff(generation: nat, data: nat, events: seq<Event>)
    ensures RunStaysIntact(generation, data, events) <==> RunClearsUnheld(generation, data, events)
  {
    if events == [] {
      assert events[..0] == [] && AllIntact(Run(generation, data, []));
    } else {
      var n := |events| - 1;
      CloseIsSafeIff(generation, data, events[..n]);
      OneStateMore(generation, data, events);
      OneEventMore(generation, data, events);
      RunIsSound(generation, data, events[..n]);
      if RunStaysIntact(generation, data, events[..n]) {
        assert events[..n][..n] == events[..n];
        IntactNextIff(Run(generation, data, events[..n]), events[n]);
      }
    }
  }

  lemma IntactOnceMore(holds: seq<Event> -> bool, events: seq<Event>)
    requires events != []
    ensures var before := events[..|events| - 1];
            (forall n :: 0 <= n <= |events| ==> holds(events[..n]))
            <==> (forall n :: 0 <= n <= |before| ==> holds(before[..n])) && holds(events)
  {
    var before := events[..|events| - 1];
    assert events[..|events|] == events;
    forall n | 0 <= n <= |before| ensures before[..n] == events[..n] {
    }
    if (forall n :: 0 <= n <= |before| ==> holds(before[..n])) && holds(events) {
      forall n | 0 <= n <= |events| ensures holds(events[..n]) {
        if n < |events| {
          assert before[..n] == events[..n];
        }
      }
    }
  }

  lemma ClearsOnceMore(clears: (seq<Event>, Event) -> bool, events: seq<Event>)
    requires events != []
    ensures var n := |events| - 1;
            var before := events[..n];
            (forall k :: 0 <= k < |events| ==> clears(events[..k], events[k]))
            <==> (forall k :: 0 <= k < |before| ==> clears(before[..k], before[k])) && clears(before, events[n])
  {
    var n := |events| - 1;
    var before := events[..n];
    forall k | 0 <= k < n ensures before[..k] == events[..k] && before[k] == events[k] {
    }
    if (forall k :: 0 <= k < |before| ==> clears(before[..k], before[k])) && clears(before, events[n]) {
      forall k | 0 <= k < |events| ensures clears(events[..k], events[k]) {
        if k < n {
          assert before[..k] == events[..k];
        }
      }
    }
  }

  lemma OneStateMore(generation: nat, data: nat, events: seq<Event>)
    requires events != []
    ensures RunStaysIntact(generation, data, events)
       <==> RunStaysIntact(generation, data, events[..|events| - 1]) && AllIntact(Run(generation, data, events))
  {
    ghost var holds := (run: seq<Event>) => AllIntact(Run(generation, data, run));
    IntactOnceMore(holds, events);
    var before := events[..|events| - 1];
    assert RunStaysIntact(generation, data, events) <==> forall n :: 0 <= n <= |events| ==> holds(events[..n]);
    assert RunStaysIntact(generation, data, before) <==> forall n :: 0 <= n <= |before| ==> holds(before[..n]);
  }

  lemma OneEventMore(generation: nat, data: nat, events: seq<Event>)
    requires events != []
    ensures var n := |events| - 1;
            RunClearsUnheld(generation, data, events)
            <==> RunClearsUnheld(generation, data, events[..n])
                 && ClearsUnheld(Run(generation, data, events[..n]), events[n])
  {
    ghost var clears := (run: seq<Event>, event: Event) => ClearsUnheld(Run(generation, data, run), event);
    ClearsOnceMore(clears, events);
    var before := events[..|events| - 1];
    assert RunClearsUnheld(generation, data, events)
      <==> forall k :: 0 <= k < |events| ==> clears(events[..k], events[k]);
    assert RunClearsUnheld(generation, data, before)
      <==> forall k :: 0 <= k < |before| ==> clears(before[..k], before[k]);
  }

  /** A run in which a reader counts itself between the owner's look at the readers and the store
      that closes: its states, step by step. */
  ghost function SplitClose(k: nat): Publisher {
    var s := Initialized(1, 0);
    if k == 0 then s
    else if k == 1 then s.(readers := map[0 := SawInitialized])
    else if k == 2 then s.(readers := map[0 := Attempt(0)])
    else if k == 3 then s.(readers := map[0 := Loaded(0, 0)])
    else if k == 4 then s.(readers := map[0 := Loaded(0, 0)], accepting := false, owner := Closing)
    else if k == 5 then s.(readers := map[0 := Loaded(0, 0)], accepting := false, owner := SawNone)
    else if k == 6 then s.(readers := map[0 := Loaded(0, 0)], accepting := false, owner := SawNoneAgain)
    else if k == 7 then s.(readers := map[0 := Counted(0, 0)], counts := [1, 0], accepting := false, owner := SawNoneAgain)
    else if k == 8 then
      s.(readers := map[0 := Rechecked(0, 0, Snap(1, 0))], counts := [1, 0], accepting := false, owner := SawNoneAgain)
    else
      var held := s.(readers := map[0 := Holding(0, Snap(1, 0))], counts := [1, 0], accepting := false,
                     owner := SawNoneAgain);
      if k == 9 then held
      else if k == 10 then held.(closed := true, owner := ClearingFirst)
      else held.(closed := true, owner := ClearingSecond, snapshots := [Cleared, Snap(0, 0)])
  }

  function SplitEvent(k: nat): Event {
    if k < 3 then ReaderStep(0) else if k == 3 then CloseStart else if k < 6 then OwnerStep(Taken)
    else if k < 9 then ReaderStep(0) else OwnerStep(Taken)
  }

  lemma SplitNext(k: nat)
    requires k < 11
    ensures Step(SplitClose(k), SplitEvent(k)) == SplitClose(k + 1)
  {
    if k < 3 {
    } else if k < 6 {
    } else if k < 9 {
      SplitReads(k);
    } else {
    }
  }

  lemma SplitReads(k: nat)
    requires 6 <= k < 9
    ensures Step(SplitClose(k), ReaderStep(0)) == SplitClose(k + 1)
  {
    if k == 6 {
      assert Add([0, 0], 0) == [1, 0];
    } else if k == 7 {
    } else {
    }
  }

  lemma {:induction false} SplitRun(n: nat)
    requires n <= 11
    ensures Run(1, 0, seq(n, k requires k >= 0 => SplitEvent(k))) == SplitClose(n)
  {
    if n > 0 {
      SplitRun(n - 1);
      SplitNext(n - 1);
      var events := seq(n, k requires k >= 0 => SplitEvent(k));
      assert events[..n - 1] == seq(n - 1, k requires k >= 0 => SplitEvent(k));
    }
  }

  /** The code's separate steps do not meet the condition: in that run a reader that holds a guard
      ends up with a cleared snapshot. */
  lemma SplitCloseBreaks()
    ensures exists events :: var s := Run(1, 0, events);
              ReaderAt(s, 0) == Holding(0, Snap(1, 0)) && s.snapshots[0] == Cleared && s.closed
  {
    SplitRun(11);
    assert SplitClose(11).snapshots[0] == Cleared;
  }

  // ----- Notifications -----

  /** The generation was stored, but not yet that its notification is pending. */
  predicate Unannounced(s: Publisher) {
    s.pending || s.owner.Numbered?
  }

  /** Publishing holds back while a notification is pending. */
  predicate Publishes(owner: Owner) {
    Fills(owner) || owner.Flipped? || owner.Numbered?
  }

  /** Notifications settled so far are those of the generations after the first, in order, each once,
      up to the current one or the one before if that is still to be settled. */
  ghost predicate Announced(s: Publisher) {
    && s.initial <= s.generation
    && |s.settled| == s.generation - s.initial - (if Unannounced(s) then 1 else 0)
    && (forall i :: 0 <= i < |s.settled| ==> s.settled[i] == s.initial + 1 + i)
    && (Publishes(s.owner) ==> !s.pending)
    && (s.owner.Flipped? ==> s.owner.generation == s.generation + 1)
  }

  lemma NotifyAnnounces(s: Publisher, answer: PortAnswer)
    requires Announced(s) && !Publishes(s.owner)
    ensures Announced(Notify(s, answer)) && Notify(s, answer).owner == s.owner
  {
  }

  /** The owner moves on outside publish. */
  lemma AnnouncedElsewhere(s: Publisher, t: Publisher)
    requires Announced(s) && !Publishes(s.owner) && !Publishes(t.owner)
    requires t.initial == s.initial && t.generation == s.generation && t.settled == s.settled && t.pending == s.pending
    ensures Announced(t)
  {
  }

  lemma AnnouncedNotify(s: Publisher, answer: PortAnswer)
    requires Announced(s) && (s.owner.Resting? || s.owner.Notifying? || s.owner.Closing?)
    ensures Announced(StepOwner(s, answer))
  {
    NotifyAnnounces(s, answer);
    AnnouncedElsewhere(Notify(s, answer), StepOwner(s, answer));
  }

  lemma AnnouncedOwner(s: Publisher, answer: PortAnswer)
    requires Announced(s)
    ensures Announced(StepOwner(s, answer))
  {
    if Publishes(s.owner) {
      AnnouncedPublish(s, answer);
    } else if s.owner.Resting? || s.owner.Notifying? || s.owner.Closing? {
      AnnouncedNotify(s, answer);
    } else {
      AnnouncedElsewhere(s, StepOwner(s, answer));
    }
  }

  lemma AnnouncedPublish(s: Publisher, answer: PortAnswer)
    requires Announced(s) && Publishes(s.owner)
    ensures Announced(StepOwner(s, answer))
  {
  }

  /** Whatever else an owner's or a reader's step does. */
  ghost predicate SameLedger(s: Publisher, t: Publisher) {
    && t.initial == s.initial && t.generation == s.generation && t.settled == s.settled && t.taken == s.taken
    && t.pending == s.pending
  }

  lemma ReaderLedger(s: Publisher, r: nat)
    ensures SameLedger(s, StepReader(s, r)) && StepReader(s, r).owner == s.owner
  {
  }

  /** At most one more notification is settled. */
  ghost predicate SettlesOne(s: Publisher, t: Publisher, answer: PortAnswer) {
    && t.initial == s.initial
    && (|| (t.settled == s.settled && t.taken == s.taken)
        || (&& t.settled == s.settled + [s.generation] && !answer.Overflow?
            && t.taken == if answer.Taken? then s.taken + [s.generation] else s.taken))
  }

  lemma NotifyLedger(s: Publisher, answer: PortAnswer)
    ensures SettlesOne(s, Notify(s, answer), answer)
  {
  }

  lemma OwnerLedger(s: Publisher, answer: PortAnswer)
    ensures SettlesOne(s, StepOwner(s, answer), answer)
  {
    if s.owner.Resting? || s.owner.Notifying? || s.owner.Closing? {
      NotifyLedger(s, answer);
    }
  }

  lemma AnnouncedStep(s: Publisher, event: Event)
    requires Announced(s)
    ensures Announced(Step(s, event))
  {
    if event.OwnerStep? {
      AnnouncedOwner(s, event.answer);
    } else if event.ReaderStep? {
      ReaderLedger(s, event.reader);
    }
  }

  /** What each step of a run keeps, the run keeps. */
  lemma {:induction false} RunKeeps(keeps: Publisher -> bool, generation: nat, data: nat, events: seq<Event>, n: nat)
    requires n <= |events| && keeps(Initialized(generation, data))
    requires forall s: Publisher, k :: 0 <= k < |events| && keeps(s) ==> keeps(Step(s, events[k]))
    ensures keeps(Run(generation, data, events[..n]))
  {
    if n > 0 {
      RunKeeps(keeps, generation, data, events, n - 1);
      assert events[..n][..n - 1] == events[..n - 1];
    }
  }

  lemma RunIsAnnounced(generation: nat, data: nat, events: seq<Event>)
    ensures Announced(Run(generation, data, events)) && Run(generation, data, events).initial == generation
  {
    ghost var keeps := (s: Publisher) => Announced(s) && s.initial == generation;
    forall s: Publisher, k | 0 <= k < |events| && keeps(s) ensures keeps(Step(s, events[k])) {
      AnnouncedStep(s, events[k]);
      InitialStays(s, events[k]);
    }
    RunKeeps(keeps, generation, data, events, |events|);
    assert events[..|events|] == events;
  }

  lemma InitialStays(s: Publisher, event: Event)
    ensures Step(s, event).initial == s.initial
  {
    if event.OwnerStep? {
      OwnerLedger(s, event.answer);
    } else if event.ReaderStep? {
      ReaderLedger(s, event.reader);
    }
  }

  ghost predicate NeverRefused(events: seq<Event>) {
    forall k :: 0 <= k < |events| && events[k].OwnerStep? ==> !events[k].answer.Refused?
  }

  lemma TakenStep(s: Publisher, event: Event)
    requires s.taken == s.settled && (event.OwnerStep? ==> !event.answer.Refused?)
    ensures Step(s, event).taken == Step(s, event).settled
  {
    if event.OwnerStep? {
      OwnerLedger(s, event.answer);
    } else if event.ReaderStep? {
      ReaderLedger(s, event.reader);
    }
  }

  lemma NoneLost(generation: nat, data: nat, events: seq<Event>)
    requires NeverRefused(events)
    ensures Run(generation, data, events).taken == Run(generation, data, events).settled
  {
    ghost var keeps := (s: Publisher) => s.taken == s.settled;
    forall s: Publisher, k | 0 <= k < |events| && keeps(s) ensures keeps(Step(s, events[k])) {
      TakenStep(s, events[k]);
    }
    RunKeeps(keeps, generation, data, events, |events|);
    assert events[..|events|] == events;
  }

  /** The generations after `first` up to `last`. */
  function After(first: nat, last: nat): seq<nat>
    requires first <= last
  {
    seq(last - first, i requires i >= 0 => first + 1 + i)
  }

  lemma AnnouncedInOrder(s: Publisher)
    requires Announced(s)
    ensures s.settled + (if Unannounced(s) then [s.generation] else []) == After(s.initial, s.generation)
  {
  }

  /** If the port refuses nothing but for overflow, the notifications it took and the one still to
      come are those of the generations after the initial one up to the current one: no gap, no
      repeat, no other order. */
  lemma NotificationsInOrder(generation: nat, data: nat, events: seq<Event>)
    requires NeverRefused(events)
    ensures var s := Run(generation, data, events);
            && s.generation >= generation
            && s.taken + (if Unannounced(s) then [s.generation] else []) == After(generation, s.generation)
  {
    RunIsAnnounced(generation, data, events);
    NoneLost(generation, data, events);
    AnnouncedInOrder(Run(generation, data, events));
  }

  // ----- One caller alone -----

  /** Nobody counts in a slot. */
  ghost predicate Unread(s: Publisher, slot: SlotIndex) {
    forall r :: r in s.readers ==> !Counts(s.readers[r], slot)
  }

  lemma UnreadIff(s: Publisher, slot: SlotIndex)
    requires CountsMatch(s)
    ensures Unread(s, slot) <==> s.counts[slot] == 0
  {
    if Unread(s, slot) {
      assert Counters(s.readers, slot) == {};
    } else {
      var r :| r in s.readers && Counts(s.readers[r], slot);
      CountedOnce(s, r, slot);
    }
  }

  /** So many steps of the owner, while no reader moves. */
  function OwnerSteps(s: Publisher, answer: PortAnswer, n: nat): Publisher {
    if n == 0 then s else StepOwner(OwnerSteps(s, answer, n - 1), answer)
  }

  lemma SixSteps(s: Publisher, answer: PortAnswer)
    ensures var third := StepOwner(StepOwner(StepOwner(s, answer), answer), answer);
            OwnerSteps(s, answer, 6) == StepOwner(StepOwner(StepOwner(third, answer), answer), answer)
  {
    assert OwnerSteps(s, answer, 1) == StepOwner(s, answer);
    assert OwnerSteps(s, answer, 2) == StepOwner(StepOwner(s, answer), answer);
    assert OwnerSteps(s, answer, 3) == StepOwner(OwnerSteps(s, answer, 2), answer);
    assert OwnerSteps(s, answer, 4) == StepOwner(StepOwner(OwnerSteps(s, answer, 2), answer), answer);
  }

  /** What publish asks before it takes the other slot. */
  ghost predicate MayPublish(s: Publisher, familiesMatch: bool) {
    && s.accepting && s.initialized && !s.closed && familiesMatch
    && !s.pending && Unread(s, 1 - s.active) && s.generation < MAX_GENERATION
  }

  /** A publish that no reader moves during makes the snapshot active under the next generation, in the
      slot that was not, and offers it; or, if it may not, changes nothing. */
  lemma PublishMeans(s: Publisher, data: nat, familiesMatch: bool, answer: PortAnswer)
    requires Sound(s) && s.owner.Resting?
    ensures MayPublish(s, familiesMatch) ==>
              var t := OwnerSteps(StartPublish(s, data, familiesMatch), answer, 6);
              && t.owner.Resting? && t.active == 1 - s.active && t.generation == s.generation + 1
              && t.snapshots[t.active] == Snap(t.generation, data) && t.snapshots[s.active] == s.snapshots[s.active]
              && t.pending == answer.Overflow? && t.readers == s.readers
              && t.taken == s.taken + (if answer.Taken? then [t.generation] else [])
    ensures !MayPublish(s, familiesMatch) ==> StartPublish(s, data, familiesMatch) == s
  {
    UnreadIff(s, 1 - s.active);
    SixSteps(StartPublish(s, data, familiesMatch), answer);
  }

  /** The notification stays pending, or somebody counts in a slot. */
  ghost predicate MustWait(s: Publisher, answer: PortAnswer) {
    (s.pending && answer.Overflow?) || !Unread(s, 0) || !Unread(s, 1)
  }

  /** A resting owner with nothing it could offer stays as it is. */
  lemma {:induction false} RestsOn(s: Publisher, answer: PortAnswer, n: nat)
    requires s.owner.Resting? && (!s.pending || answer.Overflow?)
    ensures OwnerSteps(s, answer, n) == s
  {
    if n > 0 {
      RestsOn(s, answer, n - 1);
    }
  }

  /** So far the close is at its next look, or rests again. */
  predicate Looked(s: Publisher, t: Publisher, answer: PortAnswer, owner: Owner) {
    && t.owner == owner && !t.accepting && t.readers == s.readers && t.counts == s.counts && t.closed == s.closed
    && t.initialized == s.initialized && t.snapshots == s.snapshots && t.pending == (s.pending && answer.Overflow?)
  }

  lemma FirstLook(s: Publisher, answer: PortAnswer)
    requires s.owner.Resting?
    ensures Looked(s, OwnerSteps(Step(s, CloseStart), answer, 1), answer,
                   if (s.pending && answer.Overflow?) || s.counts[0] != 0 then Resting else SawNone)
  {
  }

  lemma SecondLook(s: Publisher, t: Publisher, answer: PortAnswer)
    requires Looked(s, t, answer, SawNone)
    ensures Looked(s, StepOwner(t, answer), answer, if s.counts[1] != 0 then Resting else SawNoneAgain)
  {
  }

  lemma Clears(s: Publisher, answer: PortAnswer)
    requires s.owner.SawNoneAgain?
    ensures OwnerSteps(s, answer, 4)
              == s.(closed := true, snapshots := [Cleared, Cleared], initialized := false, owner := Resting)
  {
    assert OwnerSteps(s, answer, 1) == s.(closed := true, owner := ClearingFirst);
    assert OwnerSteps(s, answer, 2).snapshots == s.snapshots[0 := Cleared];
    assert OwnerSteps(s, answer, 3).snapshots == [Cleared, Cleared];
  }

  lemma {:induction false} StepsOn(s: Publisher, answer: PortAnswer, m: nat, n: nat)
    ensures OwnerSteps(s, answer, m + n) == OwnerSteps(OwnerSteps(s, answer, m), answer, n)
  {
    if n > 0 {
      StepsOn(s, answer, m, n - 1);
    }
  }

  /** A close that no reader moves during goes through exactly where the notification is settled and
      nobody counts in either slot; otherwise the publisher stays as it is but takes no publish. */
  lemma CloseMeans(s: Publisher, answer: PortAnswer)
    requires Sound(s) && s.owner.Resting? && s.initialized && !s.closed
    ensures var t := OwnerSteps(Step(s, CloseStart), answer, 6);
            && t.owner.Resting? && !t.accepting && t.readers == s.readers
            && t.pending == (s.pending && answer.Overflow?)
            && (if MustWait(s, answer) then !t.closed && t.initialized && t.snapshots == s.snapshots
                else t.closed && !t.initialized && t.snapshots == [Cleared, Cleared])
  {
    UnreadIff(s, 0);
    UnreadIff(s, 1);
    var first := OwnerSteps(Step(s, CloseStart), answer, 1);
    FirstLook(s, answer);
    if first.owner.Resting? {
      StepsOn(Step(s, CloseStart), answer, 1, 5);
      RestsOn(first, answer, 5);
    } else {
      SecondLook(s, first, answer);
      StepsOn(Step(s, CloseStart), answer, 2, 4);
      var second := OwnerSteps(Step(s, CloseStart), answer, 2);
      if second.owner.Resting? {
        RestsOn(second, answer, 4);
      } else {
        Clears(second, answer);
      }
    }
  }

  function ReaderSteps(s: Publisher, r: nat, n: nat): Publisher {
    if n == 0 then s else StepReader(ReaderSteps(s, r, n - 1), r)
  }

  lemma AttemptBegins(s: Publisher, r: nat)
    requires s.initialized && !s.closed && ReaderAt(s, r).Idle?
    ensures ReaderSteps(s, r, 2) == At(s, r, Attempt(0))
  {
    assert ReaderSteps(s, r, 1) == At(s, r, SawInitialized);
  }

  /** The first attempt counts in the active slot. */
  lemma FirstAttempt(s: Publisher, r: nat)
    requires s.initialized && !s.closed && ReaderAt(s, r).Idle?
    ensures ReaderSteps(s, r, 4) == At(s, r, Counted(0, s.active)).(counts := Add(s.counts, s.active))
  {
    AttemptBegins(s, r);
    assert ReaderSteps(s, r, 3) == At(s, r, Loaded(0, s.active));
  }

  /** An acquire that nobody moves during gets the newest snapshot at its first attempt, counted in its
      slot; before initialize and after the close it gets nothing and leaves everything. */
  lemma AcquireMeans(s: Publisher, r: nat)
    requires Sound(s) && ReaderAt(s, r).Idle?
    ensures s.initialized && !s.closed ==>
              var t := ReaderSteps(s, r, 6);
              && ReaderAt(t, r) == Holding(s.active, s.published[|s.published| - 1])
              && t.counts == Add(s.counts, s.active) && t.snapshots == s.snapshots
    ensures !s.initialized ==> ReaderSteps(s, r, 1) == s
    ensures s.initialized && s.closed ==>
              var t := ReaderSteps(s, r, 2); ReaderAt(t, r).Idle? && t.counts == s.counts
  {
    if s.initialized && !s.closed {
      FirstAttempt(s, r);
      assert ReaderSteps(s, r, 5) == StepReader(ReaderSteps(s, r, 4), r);
    } else {
      assert ReaderSteps(s, r, 1) == StepReader(s, r);
    }
  }

  /** How often a reader has tried, and that it is at its last attempt at the second. */
  predicate TriesOf(reader: Reader) {
    match reader
    case Attempt(tries) => tries <= 2
    case Loaded(tries, _) => tries < 2
    case Counted(tries, _) => tries < 2
    case Rechecked(tries, _, _) => tries < 2
    case Backing(tries, _) => tries < 2
    case _ => true
  }

  ghost predicate TriesTwice(s: Publisher) {
    forall r: nat :: TriesOf(ReaderAt(s, r))
  }

  lemma TriesStep(s: Publisher, r: nat)
    requires TriesTwice(s)
    ensures TriesTwice(StepReader(s, r))
  {
    assert TriesOf(ReaderAt(s, r));
    var t := StepReader(s, r);
    forall k: nat ensures TriesOf(ReaderAt(t, k)) {
      assert TriesOf(ReaderAt(s, k));
    }
  }

  /** No reader ever makes a third attempt. */
  lemma {:induction false} NoThirdAttempt(generation: nat, data: nat, events: seq<Event>)
    ensures TriesTwice(Run(generation, data, events))
  {
    if events != [] {
      var n := |events| - 1;
      NoThirdAttempt(generation, data, events[..n]);
      var s := Run(generation, data, events[..n]);
      if events[n].ReaderStep? {
        TriesStep(s, events[n].reader);
      } else {
        if events[n].OwnerStep? {
          OwnerLeavesReaders(s, events[n].answer);
        }
        forall r: nat ensures TriesOf(ReaderAt(Step(s, events[n]), r)) {
          assert TriesOf(ReaderAt(s, r));
        }
      }
    }
  }
}
