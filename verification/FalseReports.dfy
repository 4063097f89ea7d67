/** When the bridge can come to report a mount that did not take place: exactly when a slot whose batch
    is at the mount host is serviced and its next batch is not refused for good. */
module FalseReports {
  import opened Wrappers
  import opened MountModel
  import opened MountConversion
  import opened MountBridges
  import opened BridgeResults
  import opened BridgeOrder

  // ----- Going on from a state -----

  function Run(b: Bridge, events: seq<Event>): Bridge {
    if events == [] then b else Apply(Run(b, events[..|events| - 1]), events[|events| - 1])
  }

  /** What is posted has a name of its own. */
  ghost predicate Named(b: Bridge, event: Event) {
    event.DoPost? ==> NewName(b, event.surface, event.source, event.attempt)
  }

  ghost predicate NamedRun(b: Bridge, events: seq<Event>) {
    forall k :: 0 <= k < |events| ==> Named(Run(b, events[..k]), events[k])
  }

  /** A run in which every service is careful, too. */
  ghost predicate CarefulFrom(b: Bridge, events: seq<Event>) {
    forall k :: 0 <= k < |events| ==> Careful(Run(b, events[..k]), events[k])
  }

  /** A transaction is reported mounted that is not: not all its batches were mounted in order, or it
      was to be presented and was not. */
  predicate Lies(b: Bridge, ticket: nat) {
    ticket < |b.records| && true in b.records[ticket].reports && !Done(b.autoPresent, b.records[ticket])
  }

  ghost predicate LeadsToLie(b: Bridge, ticket: nat, more: seq<Event>) {
    NamedRun(b, more) && Lies(Run(b, more), ticket)
  }

  /** The careless turn that can lead to a false report: there is a batch left to post, the mount host
      does not refuse it for good, and a transaction like this one can be reported mounted at all. */
  predicate CanLie(b: Bridge, i: nat, mount: PortAnswer)
    requires Has(b, i)
  {
    var p := b.slots[i].value;
    && p.next < |p.batches| && !mount.Never?
    && (p.full && b.autoPresent ==> p.source.request.Some?)
  }

  // ----- Runs put together -----

  /** A state comes to another by a careful run. */
  ghost predicate Reachable(b: Bridge, c: Bridge) {
    exists more :: CarefulFrom(b, more) && Run(b, more) == c
  }

  lemma StaysReachable(b: Bridge)
    ensures Reachable(b, b)
  {
    assert CarefulFrom(b, []) && Run(b, []) == b;
  }

  lemma OneEventMore(b: Bridge, events: seq<Event>, event: Event)
    ensures Run(b, events + [event]) == Apply(Run(b, events), event)
    ensures CarefulFrom(b, events) && Careful(Run(b, events), event) ==> CarefulFrom(b, events + [event])
  {
    var more := events + [event];
    assert more[..|more| - 1] == events;
    if CarefulFrom(b, events) && Careful(Run(b, events), event) {
      forall k | 0 <= k < |more| ensures Careful(Run(b, more[..k]), more[k]) {
        if k < |events| {
          assert more[..k] == events[..k];
        }
      }
    }
  }

  lemma ReachesNext(b: Bridge, c: Bridge, event: Event)
    requires Reachable(b, c) && Careful(c, event)
    ensures Reachable(b, Apply(c, event))
  {
    var more :| CarefulFrom(b, more) && Run(b, more) == c;
    OneEventMore(b, more, event);
    assert CarefulFrom(b, more + [event]);
  }

  lemma CarefulIsNamed(b: Bridge, events: seq<Event>)
    requires CarefulFrom(b, events)
    ensures NamedRun(b, events)
  {
  }

  // ----- A lie can follow -----

  const EAGER := Answers(Taken, true, Taken, true)

  /** The slot holds this transaction, and its name finds it. */
  ghost predicate Tracked(b: Bridge, i: nat, p: Pending) {
    && Sound(b) && NamesApart(b.slots) && !b.closed && Has(b, i) && b.slots[i].value == p
    && WellFormed(p.batches) && p.ticket < |b.records| && b.records[p.ticket].batches == |p.batches|
  }

  lemma SetNames(b: Bridge, j: nat, q: Pending)
    requires NamesApart(b.slots) && Has(b, j) && SameName(b.slots[j].value, q)
    ensures NamesApart(Set(b, j, q).slots)
  {
  }

  /** A batch fails that is not the one the slot waits for: the slot stays as it is. */
  lemma DrainOne(b: Bridge, i: nat, p: Pending)
    requires Tracked(b, i, p) && b.flights != []
    requires SameKey(p, b.flights[0]) ==> b.flights[0].batch.batchIndex != p.active
    ensures var c := MountDone(b, false, EAGER);
            Tracked(c, i, p) && c.flights == b.flights[1..] && c.records == b.records && c.autoPresent == b.autoPresent
            && |c.slots| == |b.slots|
  {
    var f := b.flights[0];
    var landed := b.(flights := b.flights[1..]);
    MountDoneSound(b, false, EAGER);
    var found := Find(landed, f, 0);
    if found.Some? {
      FoundHasKey(landed, f, 0);
      SetNames(landed, found.value, landed.slots[found.value].value.(mounted := false, phase := RollbackPending));
    }
  }

  lemma {:induction false} FoundHasKey(b: Bridge, f: Flight, j: nat)
    requires j <= |b.slots| && Find(b, f, j).Some?
    ensures Find(b, f, j).value < |b.slots| && SameKey(b.slots[Find(b, f, j).value].value, f)
    decreases |b.slots| - j
  {
    if !(b.slots[j].Some? && SameKey(b.slots[j].value, f)) {
      FoundHasKey(b, f, j + 1);
    }
  }

  lemma DrainStep(start: Bridge, b: Bridge, i: nat, p: Pending) returns (c: Bridge)
    requires Reachable(start, b) && Tracked(b, i, p) && b.flights != []
    requires SameKey(p, b.flights[0]) ==> b.flights[0].batch.batchIndex != p.active
    ensures Reachable(start, c) && Tracked(c, i, p) && c.flights == b.flights[1..] && c.records == b.records
    ensures c.autoPresent == b.autoPresent
  {
    c := MountDone(b, false, EAGER);
    DrainOne(b, i, p);
    ReachesNext(start, b, DoMountDone(false, EAGER));
  }

  /** All batches fail that were at the mount host before. */
  lemma {:induction false} Drain(start: Bridge, b: Bridge, i: nat, p: Pending, n: nat) returns (c: Bridge)
    requires Reachable(start, b) && Tracked(b, i, p) && n <= |b.flights|
    requires forall k :: 0 <= k < n && SameKey(p, b.flights[k]) ==> b.flights[k].batch.batchIndex != p.active
    ensures Reachable(start, c) && Tracked(c, i, p) && c.flights == b.flights[n..] && c.records == b.records
    ensures c.autoPresent == b.autoPresent
    decreases n
  {
    if n == 0 {
      c := b;
    } else {
      var next := DrainStep(start, b, i, p);
      forall k | 0 <= k < n - 1 && SameKey(p, next.flights[k]) ensures next.flights[k].batch.batchIndex != p.active {
        assert next.flights[k] == b.flights[k + 1];
      }
      c := Drain(start, next, i, p, n - 1);
    }
  }

  // ----- A retry is posted -----

  /** Answers that leave every slot where it is. */
  const IDLE := Answers(Later, true, Later, false)

  lemma IdleTurn(b: Bridge, k: nat, i: nat, p: Pending)
    requires Tracked(b, i, p) && k < |b.slots| && k != i
    ensures var c := ServiceSlot(b, k, IDLE, false);
            Tracked(c, i, p) && c.flights == b.flights && c.records == b.records && c.autoPresent == b.autoPresent
  {
    ServiceSlotSound(b, k, IDLE, false);
    if Serviceable(b.slots[k]) && b.slots[k].value.phase.MountPending? {
      SetNames(b, k, ServiceSlot(b, k, IDLE, false).slots[k].value);
    }
  }

  /** The slot with its next batch posted, and that batch at the mount host. */
  function Onward(p: Pending): Pending
    requires p.next < |p.batches|
  {
    p.(active := p.batches[p.next].batchIndex, activeFinal := p.batches[p.next].isFinal, next := p.next + 1,
       phase := MountPending)
  }

  function FlightFor(p: Pending): Flight
    requires p.next < |p.batches|
  {
    Flight(p.surface, p.source, p.attempt, p.batches[p.next], p.ticket)
  }

  lemma PostOnward(b: Bridge, i: nat, p: Pending)
    requires Tracked(b, i, p) && p.next < |p.batches|
    ensures var c := PostBatch(b, i, Taken);
            Tracked(c, i, Onward(p)) && c.flights == b.flights + [FlightFor(p)] && c.records == b.records
            && c.autoPresent == b.autoPresent
  {
    PostBatchSound(b, i, Taken);
    SetNames(b, i, Onward(p));
  }

  function OnlyFor(i: nat): nat -> Answers {
    k => if k == i then EAGER else IDLE
  }

  /** A pass in which only this slot gets anywhere. */
  lemma {:induction false} PassAfter(b: Bridge, k: nat, budget: nat, i: nat, p: Pending)
    requires Tracked(b, i, p) && i < k <= |b.slots|
    ensures var c := ServiceFrom(b, k, budget, OnlyFor(i), n => false);
            Tracked(c, i, p) && c.flights == b.flights && c.records == b.records && c.autoPresent == b.autoPresent
    decreases |b.slots| - k
  {
    if k < |b.slots| && budget > 0 {
      IdleTurn(b, k, i, p);
      PassAfter(ServiceSlot(b, k, IDLE, false), k + 1, if Serviceable(b.slots[k]) then budget - 1 else budget, i, p);
    }
  }

  lemma {:induction false} PassUpTo(b: Bridge, k: nat, budget: nat, i: nat, p: Pending)
    requires Tracked(b, i, p) && k <= i < k + budget && p.phase.MountPending? && p.next < |p.batches|
    ensures var c := ServiceFrom(b, k, budget, OnlyFor(i), n => false);
            Tracked(c, i, Onward(p)) && c.flights == b.flights + [FlightFor(p)] && c.records == b.records
            && c.autoPresent == b.autoPresent
    decreases i - k
  {
    if k < i {
      IdleTurn(b, k, i, p);
      PassUpTo(ServiceSlot(b, k, IDLE, false), k + 1, if Serviceable(b.slots[k]) then budget - 1 else budget, i, p);
    } else {
      PostOnward(b, i, p);
      PassAfter(PostBatch(b, i, Taken), i + 1, budget - 1, i, Onward(p));
    }
  }

  /** With nothing at the mount host, a service posts the slot's next batch. */
  lemma Retry(start: Bridge, b: Bridge, i: nat, p: Pending) returns (c: Bridge)
    requires Reachable(start, b) && Tracked(b, i, p) && p.phase.MountPending? && p.next < |p.batches| && b.flights == []
    ensures Reachable(start, c) && Tracked(c, i, Onward(p)) && c.flights == [FlightFor(p)] && c.records == b.records
    ensures c.autoPresent == b.autoPresent
  {
    var event := DoService(CAPACITY, OnlyFor(i), n => false);
    c := Apply(b, event);
    PassUpTo(b, 0, CAPACITY, i, p);
    assert QuietFrom(b, 0);
    ReachesNext(start, b, event);
  }

  // ----- The remaining batches land -----

  /** Its last posted batch is all that the mount host has, and a batch before that was never
      mounted. */
  ghost predicate Gapped(b: Bridge, i: nat, p: Pending) {
    && Tracked(b, i, p) && p.phase.MountPending? && 1 <= p.next <= |p.batches|
    && p.active == p.next - 1 && (p.activeFinal <==> p.next == |p.batches|)
    && b.flights == [Flight(p.surface, p.source, p.attempt, p.batches[p.next - 1], p.ticket)]
    && |b.records[p.ticket].mounted| + 2 == p.next
  }

  /** The one batch at the mount host is mounted. */
  ghost function Mounted(b: Bridge, p: Pending): Bridge
    requires p.ticket < |b.records| && 1 <= p.next <= |p.batches|
  {
    b.(flights := [],
       records := b.records[p.ticket := b.records[p.ticket].(
                    mounted := b.records[p.ticket].mounted + [p.batches[p.next - 1].batchIndex])])
  }

  lemma GapLands(b: Bridge, i: nat, p: Pending)
    requires Gapped(b, i, p)
    ensures var c := Mounted(b, p);
            && Tracked(c, i, p) && |c.records[p.ticket].mounted| + 1 == p.next
            && MountDone(b, true, EAGER) == (if p.activeFinal then AllMounted(c, i, EAGER) else PostBatch(c, i, Taken))
  {
    var c := Mounted(b, p);
    var f := b.flights[0];
    assert b.flights[1..] == [];
    SameReportsSound(b, c);
    BridgeOrder.FindFrom(c, f, 0, i);
  }

  lemma GapOnward(start: Bridge, b: Bridge, i: nat, p: Pending) returns (c: Bridge)
    requires Reachable(start, b) && Gapped(b, i, p) && p.next < |p.batches|
    ensures Reachable(start, c) && Gapped(c, i, Onward(p)) && c.autoPresent == b.autoPresent
  {
    c := MountDone(b, true, EAGER);
    GapLands(b, i, p);
    PostOnward(Mounted(b, p), i, p);
    ReachesNext(start, b, DoMountDone(true, EAGER));
  }

  /** One batch short, and the slot reports it mounted. */
  lemma ReportsLie(b: Bridge, i: nat, p: Pending)
    requires Tracked(b, i, p) && |b.records[p.ticket].mounted| + 1 == |p.batches|
    ensures Lies(Conclude(b, i, true, true), p.ticket)
  {
    var record := b.records[p.ticket];
    var after := record.(reports := record.reports + [true]);
    assert after.reports[|record.reports|] == true;
    assert Conclude(b, i, true, true).records[p.ticket] == after;
  }

  /** Waiting for its presentation, one batch short. */
  ghost predicate Presenting(b: Bridge, i: nat, p: Pending) {
    && Tracked(b, i, p) && p.phase.PresentPosted? && p.source.request.Some?
    && |b.records[p.ticket].mounted| + 1 == |p.batches|
  }

  lemma LastLands(start: Bridge, b: Bridge, i: nat, p: Pending) returns (c: Bridge)
    requires Reachable(start, b) && Gapped(b, i, p) && p.next == |p.batches|
    requires p.full && b.autoPresent ==> p.source.request.Some?
    ensures Reachable(start, c)
    ensures if p.full && b.autoPresent then Presenting(c, i, p.(phase := PresentPosted)) else Lies(c, p.ticket)
  {
    c := MountDone(b, true, EAGER);
    GapLands(b, i, p);
    var m := Mounted(b, p);
    ReachesNext(start, b, DoMountDone(true, EAGER));
    if p.full && b.autoPresent {
      var q := p.(phase := PresentPosted);
      assert c == Set(Set(m, i, p.(phase := PresentPending)), i, q);
      assert c == Set(m, i, q);
      SetSound(m, i, q);
      SetNames(m, i, q);
    } else {
      ReportsLie(m, i, p);
    }
  }

  /** Another slot that waits for the same presentation is concluded. */
  lemma OtherPresented(b: Bridge, i: nat, p: Pending, j: nat)
    requires Presenting(b, i, p) && j < i && FindPresented(b, p.surface, p.source.request.value, 0) == Some(j)
    ensures var c := AcceptPresented(b, p.surface, p.source.request.value, true, true);
            && Presenting(c, i, p) && FindPresented(c, p.surface, p.source.request.value, 0).Some?
            && j < FindPresented(c, p.surface, p.source.request.value, 0).value <= i
  {
    var c := AcceptPresented(b, p.surface, p.source.request.value, true, true);
    AcceptPresentedSound(b, p.surface, p.source.request.value, true, true);
    assert c.slots == b.slots[j := None];
    assert Awaits(c.slots[i], p.surface, p.source.request.value);
  }

  lemma {:induction false} PresentUntil(start: Bridge, b: Bridge, i: nat, p: Pending) returns (c: Bridge)
    requires Reachable(start, b) && Presenting(b, i, p)
    ensures Reachable(start, c) && Lies(c, p.ticket)
    decreases i - FindPresented(b, p.surface, p.source.request.value, 0).value
  {
    var request := p.source.request.value;
    var event := DoPresented(p.surface, request, true, true);
    assert Awaits(b.slots[i], p.surface, request);
    var j := FindPresented(b, p.surface, request, 0).value;
    c := AcceptPresented(b, p.surface, request, true, true);
    ReachesNext(start, b, event);
    if j == i {
      PresentedLies(b, i, p);
    } else {
      OtherPresented(b, i, p, j);
      c := PresentUntil(start, c, i, p);
    }
  }

  lemma PresentedLies(b: Bridge, i: nat, p: Pending)
    requires Presenting(b, i, p) && FindPresented(b, p.surface, p.source.request.value, 0) == Some(i)
    ensures Lies(AcceptPresented(b, p.surface, p.source.request.value, true, true), p.ticket)
  {
    var noted := Noted(b, p.ticket, b.records[p.ticket].(presented := true));
    SameReportsSound(b, noted);
    ReportsLie(noted, i, p);
  }

  /** Batch after batch, up to the false report. */
  lemma {:induction false} LandAll(start: Bridge, b: Bridge, i: nat, p: Pending) returns (c: Bridge)
    requires Reachable(start, b) && Gapped(b, i, p) && (p.full && b.autoPresent ==> p.source.request.Some?)
    ensures Reachable(start, c) && Lies(c, p.ticket)
    decreases |p.batches| - p.next
  {
    if p.next < |p.batches| {
      c := GapOnward(start, b, i, p);
      c := LandAll(start, c, i, Onward(p));
    } else {
      c := LastLands(start, b, i, p);
      if p.full && b.autoPresent {
        c := PresentUntil(start, c, i, p.(phase := PresentPosted));
      }
    }
  }

  // ----- The careless turn -----

  /** A slot in order, whose batch is at the mount host. */
  lemma InOrder(b: Bridge, i: nat)
    requires Ordered(b) && Has(b, i) && InFlight(b.flights, b.slots[i].value.ticket)
    ensures var p := b.slots[i].value;
            && p.phase.MountPending? && Flying(p, b.records[p.ticket]) && WellFormed(p.batches)
            && b.records[p.ticket].batches == |p.batches| && b.records[p.ticket].full == p.full
            && forall k :: 0 <= k < |b.flights| && SameKey(p, b.flights[k]) ==> FlightOf(b.flights[k], b.slots[i])
  {
    var p := b.slots[i].value;
    assert Recorded(b, p);
    forall k | 0 <= k < |b.flights| && SameKey(p, b.flights[k]) ensures FlightOf(b.flights[k], b.slots[i]) {
      assert Placed(b.flights[k], b.slots);
      var j :| 0 <= j < |b.slots| && FlightOf(b.flights[k], b.slots[j]);
      assert SameName(p, b.slots[j].value);
    }
  }

  /** From after the careless turn a careful run leads to a false report. */
  lemma CarelessTurnLies(b: Bridge, i: nat, a: Answers, released: bool) returns (more: seq<Event>)
    requires Sound(b) && Ordered(b) && !b.closed && Has(b, i) && InFlight(b.flights, b.slots[i].value.ticket)
    requires CanLie(b, i, a.mount)
    ensures var c := ServiceSlot(b, i, a, released);
            CarefulFrom(c, more) && Lies(Run(c, more), b.slots[i].value.ticket)
  {
    InOrder(b, i);
    var p := b.slots[i].value;
    assert Tracked(b, i, p);
    var c := ServiceSlot(b, i, a, released);
    StaysReachable(c);
    var d: Bridge;
    if a.mount.Taken? {
      d := AfterTaken(b, i, p);
      d := LandAll(c, d, i, Onward(p));
    } else {
      d := AfterLater(b, i, p);
      d := LandAll(c, d, i, Onward(p));
    }
    more :| CarefulFrom(c, more) && Run(c, more) == d;
  }

  lemma AfterTaken(b: Bridge, i: nat, p: Pending) returns (d: Bridge)
    requires Ordered(b) && Tracked(b, i, p) && InFlight(b.flights, p.ticket) && p.next < |p.batches|
    ensures Reachable(PostBatch(b, i, Taken), d) && Gapped(d, i, Onward(p)) && d.autoPresent == b.autoPresent
  {
    InOrder(b, i);
    var c := PostBatch(b, i, Taken);
    PostOnward(b, i, p);
    StaysReachable(c);
    d := Drain(c, c, i, Onward(p), |b.flights|);
    assert c.flights[|b.flights|..] == [FlightFor(p)];
  }

  lemma AfterLater(b: Bridge, i: nat, p: Pending) returns (d: Bridge)
    requires Ordered(b) && Tracked(b, i, p) && InFlight(b.flights, p.ticket) && p.next < |p.batches|
    ensures Reachable(PostBatch(b, i, Later), d) && Gapped(d, i, Onward(p)) && d.autoPresent == b.autoPresent
  {
    InOrder(b, i);
    var c := PostBatch(b, i, Later);
    PostLater(b, i, p);
    StaysReachable(c);
    d := Drain(c, c, i, Offered(p), |b.flights|);
    assert c.flights[|b.flights|..] == [];
    d := Retry(c, d, i, Offered(p));
    assert Onward(Offered(p)) == Onward(p);
  }

  /** The slot with its next batch offered and to be offered again. */
  function Offered(p: Pending): Pending
    requires p.next < |p.batches|
  {
    p.(active := p.batches[p.next].batchIndex, activeFinal := p.batches[p.next].isFinal, phase := MountPending)
  }

  lemma PostLater(b: Bridge, i: nat, p: Pending)
    requires Tracked(b, i, p) && p.next < |p.batches|
    ensures var c := PostBatch(b, i, Later);
            && Tracked(c, i, Offered(p)) && c.flights == b.flights && c.records == b.records
            && c.autoPresent == b.autoPresent
  {
    PostBatchSound(b, i, Later);
    SetNames(b, i, Offered(p));
  }

  // ----- When no lie can follow -----

  /** Why a slot's transaction is never falsely reported mounted: its batch was refused for good, it has
      nobody to ask for its presentation, or all its batches are posted. */
  datatype Why = Refused | Mute | Posted

  /** The batches of one transaction at the mount host. */
  function Mine(flights: seq<Flight>, ticket: nat): seq<Flight> {
    if flights == [] then []
    else (if flights[0].ticket == ticket then [flights[0]] else []) + Mine(flights[1..], ticket)
  }

  lemma {:induction false} MineAppends(flights: seq<Flight>, f: Flight, ticket: nat)
    ensures Mine(flights + [f], ticket) == Mine(flights, ticket) + (if f.ticket == ticket then [f] else [])
  {
    if flights == [] {
      assert [] + [f] == [f];
    } else {
      var first := if flights[0].ticket == ticket then [flights[0]] else [];
      var last := if f.ticket == ticket then [f] else [];
      MineAppends(flights[1..], f, ticket);
      assert (flights + [f])[1..] == flights[1..] + [f];
      assert first + (Mine(flights[1..], ticket) + last) == first + Mine(flights[1..], ticket) + last;
    }
  }

  lemma {:induction false} MineIffInFlight(flights: seq<Flight>, ticket: nat)
    ensures Mine(flights, ticket) != [] <==> InFlight(flights, ticket)
    ensures forall f :: f in Mine(flights, ticket) ==> f in flights && f.ticket == ticket
  {
    if flights != [] {
      MineIffInFlight(flights[1..], ticket);
      if InFlight(flights, ticket) {
        var k :| 0 <= k < |flights| && flights[k].ticket == ticket;
        assert k > 0 ==> flights[1..][k - 1].ticket == ticket;
      }
      if InFlight(flights[1..], ticket) {
        var k :| 0 <= k < |flights[1..]| && flights[1..][k].ticket == ticket;
        assert flights[k + 1].ticket == ticket;
      }
    }
  }

  /** The flights that go by a transaction's name are its own. */
  ghost predicate Keyed(flights: seq<Flight>, p: Pending) {
    forall k :: 0 <= k < |flights| ==> (SameKey(p, flights[k]) <==> flights[k].ticket == p.ticket)
  }

  /** The transaction is in this slot, or in none. */
  ghost predicate Home(b: Bridge, i: nat, t: nat) {
    && Sound(b) && NamesApart(b.slots) && t < |b.records|
    && (InSlot(b.slots, t) ==> Has(b, i) && b.slots[i].value.ticket == t && Keyed(b.flights, b.slots[i].value))
  }

  /** All batches are posted, and the last has not landed or what follows is in order. */
  ghost predicate LastPosted(b: Bridge, p: Pending)
    requires p.ticket < |b.records|
  {
    var r, mine := b.records[p.ticket], Mine(b.flights, p.ticket);
    && p.next == |p.batches| > 0 && r.batches == |p.batches| && r.full == p.full
    && match p.phase
       case MountPending =>
         && |mine| == 1 && p.active == |p.batches| - 1 && p.activeFinal && r.mounted == Upto(|p.batches| - 1)
         && mine[0].batch.batchIndex == p.active && mine[0].batch.batchCount == |p.batches|
       case PresentPending => mine == [] && r.mounted == Upto(|p.batches|) && p.full && b.autoPresent
       case PresentPosted => mine == [] && r.mounted == Upto(|p.batches|) && p.full && b.autoPresent
       case CoreResultPending => mine == [] && (p.mounted ==> Done(b.autoPresent, r))
       case RollbackPending => mine == [] && !p.mounted
  }

  ghost predicate SlotHarmless(b: Bridge, p: Pending, why: Why)
    requires p.ticket < |b.records|
  {
    match why
    case Refused =>
      && !p.mounted && (p.phase.RollbackPending? || p.phase.CoreResultPending?)
      && forall f :: f in Mine(b.flights, p.ticket) ==> f.batch.batchIndex != p.active
    case Mute =>
      && b.autoPresent && p.full && p.source.request.None? && !p.phase.PresentPosted?
      && (p.phase.RollbackPending? || p.phase.CoreResultPending? ==> !p.mounted)
    case Posted => LastPosted(b, p)
  }

  ghost predicate GoneHarmless(b: Bridge, t: nat, why: Why)
    requires t < |b.records|
  {
    match why
    case Posted => !Lies(b, t) && Mine(b.flights, t) == []
    case _ => true !in b.records[t].reports
  }

  ghost predicate Harmless(b: Bridge, i: nat, t: nat, why: Why) {
    && Home(b, i, t)
    && (if InSlot(b.slots, t) then SlotHarmless(b, b.slots[i].value, why) else GoneHarmless(b, t, why))
  }

  lemma HarmlessTellsNoLie(b: Bridge, i: nat, t: nat, why: Why)
    requires Harmless(b, i, t, why)
    ensures !Lies(b, t)
  {
    if InSlot(b.slots, t) {
      assert b.records[t].reports == [];
    }
  }

  // ----- What happens elsewhere -----

  ghost predicate NamesFollow(b: Bridge, c: Bridge) {
    && |c.slots| == |b.slots|
    && forall k :: 0 <= k < |c.slots| && c.slots[k].Some? ==>
         b.slots[k].Some? && SameName(b.slots[k].value, c.slots[k].value)
  }

  lemma NamesKept(b: Bridge, c: Bridge)
    requires NamesApart(b.slots) && NamesFollow(b, c)
    ensures NamesApart(c.slots)
  {
  }

  /** Only slot `k` changes, with its own record and at most one more flight of its own. */
  ghost predicate ActsAt(b: Bridge, c: Bridge, k: nat) {
    && Has(b, k) && NamesFollow(b, c)
    && (forall j :: 0 <= j < |b.slots| && j != k ==> c.slots[j] == b.slots[j])
    && (c.slots[k].Some? ==> c.slots[k].value.ticket == b.slots[k].value.ticket)
    && c.autoPresent == b.autoPresent && |c.records| == |b.records|
    && (forall t :: 0 <= t < |b.records| && t != b.slots[k].value.ticket ==> c.records[t] == b.records[t])
    && (c.flights == b.flights || exists f: Flight :: OwnFlight(b, k, f) && c.flights == b.flights + [f])
  }

  ghost predicate OwnFlight(b: Bridge, k: nat, f: Flight) {
    Has(b, k) && f.ticket == b.slots[k].value.ticket && SameKey(b.slots[k].value, f)
  }

  lemma OtherSlot(b: Bridge, c: Bridge, k: nat, t: nat)
    requires ActsAt(b, c, k) && b.slots[k].value.ticket != t
    ensures InSlot(c.slots, t) <==> InSlot(b.slots, t)
  {
    if InSlot(b.slots, t) {
      var j :| 0 <= j < |b.slots| && b.slots[j].Some? && b.slots[j].value.ticket == t;
      assert c.slots[j] == b.slots[j];
    }
    if InSlot(c.slots, t) {
      var j :| 0 <= j < |c.slots| && c.slots[j].Some? && c.slots[j].value.ticket == t;
      assert c.slots[j] == b.slots[j];
    }
  }

  lemma OtherFlights(b: Bridge, c: Bridge, k: nat, i: nat, t: nat)
    requires ActsAt(b, c, k) && b.slots[k].value.ticket != t && NamesApart(b.slots)
    ensures Mine(c.flights, t) == Mine(b.flights, t)
    ensures Has(b, i) && i != k && b.slots[i].value.ticket == t && Keyed(b.flights, b.slots[i].value) ==>
              Keyed(c.flights, b.slots[i].value)
  {
    if c.flights != b.flights {
      var f: Flight :| OwnFlight(b, k, f) && c.flights == b.flights + [f];
      MineAppends(b.flights, f, t);
      if Has(b, i) && i != k && SameKey(b.slots[i].value, f) {
        assert SameName(b.slots[i].value, b.slots[k].value);
      }
    }
  }

  /** What another slot does is harmless. */
  lemma OthersHarmless(b: Bridge, c: Bridge, k: nat, i: nat, t: nat, why: Why)
    requires Harmless(b, i, t, why) && ActsAt(b, c, k) && b.slots[k].value.ticket != t && Sound(c)
    ensures Harmless(c, i, t, why)
  {
    NamesKept(b, c);
    OtherSlot(b, c, k, t);
    OtherFlights(b, c, k, i, t);
  }

  // ----- What a slot's calls do -----

  lemma PostActs(b: Bridge, k: nat, mount: PortAnswer)
    requires Has(b, k)
    ensures ActsAt(b, PostBatch(b, k, mount), k)
  {
    var p := b.slots[k].value;
    if p.next < |p.batches| {
      assert OwnFlight(b, k, FlightFor(p));
    }
  }

  lemma ReportActs(b: Bridge, k: nat, core: bool)
    requires Has(b, k)
    ensures ActsAt(b, TryCoreResult(b, k, core), k)
  {
  }

  lemma ConcludeActs(b: Bridge, k: nat, mounted: bool, core: bool)
    requires Has(b, k)
    ensures ActsAt(b, Conclude(b, k, mounted, core), k)
  {
    var q := b.slots[k].value.(mounted := mounted, phase := CoreResultPending);
    ReportActs(Set(b, k, q), k, core);
  }

  lemma PresentActs(b: Bridge, k: nat, present: PortAnswer, core: bool)
    requires Has(b, k)
    ensures ActsAt(b, TryPresent(b, k, present, core), k)
  {
    ConcludeActs(b, k, false, core);
  }

  lemma AllMountedActs(b: Bridge, k: nat, a: Answers)
    requires Has(b, k)
    ensures ActsAt(b, AllMounted(b, k, a), k)
  {
    var q := b.slots[k].value.(phase := PresentPending);
    ConcludeActs(b, k, true, a.core);
    ConcludeActs(b, k, false, a.core);
    PresentActs(Set(b, k, q), k, a.present, a.core);
    TwoActs(b, Set(b, k, q), TryPresent(Set(b, k, q), k, a.present, a.core), k);
  }

  /** A slot moved on without a flight, and then acts. */
  lemma TwoActs(b: Bridge, m: Bridge, c: Bridge, k: nat)
    requires ActsAt(b, m, k) && m.flights == b.flights && ActsAt(m, c, k)
    ensures ActsAt(b, c, k)
  {
    if c.flights != b.flights {
      var f: Flight :| OwnFlight(m, k, f) && c.flights == m.flights + [f];
      assert OwnFlight(b, k, f);
    }
  }

  lemma ServeActs(b: Bridge, k: nat, a: Answers, released: bool)
    requires Has(b, k)
    ensures ActsAt(b, ServiceSlot(b, k, a, released), k)
  {
    if Serviceable(b.slots[k]) {
      match b.slots[k].value.phase
      case MountPending => PostActs(b, k, a.mount);
      case RollbackPending => ConcludeActs(b, k, b.slots[k].value.mounted, a.core);
      case PresentPending => PresentActs(b, k, a.present, a.core);
      case CoreResultPending => ReportActs(b, k, a.core);
    }
  }

  lemma CompleteActs(b: Bridge, f: Flight, ok: bool, a: Answers)
    requires Find(b, f, 0).Some?
    ensures ActsAt(b, Complete(b, f, ok, a), Find(b, f, 0).value)
  {
    var k := Find(b, f, 0).value;
    var p := b.slots[k].value;
    if f.batch.batchIndex == p.active && f.batch.batchCount == |p.batches| {
      if !ok {
        assert OwnFlight(b, k, Flight(p.surface, p.source, p.attempt, f.batch, p.ticket));
      } else if !p.activeFinal {
        PostActs(b, k, a.mount);
      } else {
        AllMountedActs(b, k, a);
      }
    }
  }

  // ----- The slot itself -----

  ghost predicate HomeAt(b: Bridge, i: nat, t: nat) {
    Home(b, i, t) && InSlot(b.slots, t)
  }

  lemma SetHarmless(b: Bridge, i: nat, t: nat, why: Why, q: Pending)
    requires HomeAt(b, i, t) && SameName(b.slots[i].value, q) && q.ticket == t && q.bytes == b.slots[i].value.bytes
    requires SlotHarmless(b, q, why)
    ensures Harmless(Set(b, i, q), i, t, why) && HomeAt(Set(b, i, q), i, t)
  {
    SetSound(b, i, q);
    SetNames(b, i, q);
    SameTickets(b.slots, i, q);
  }

  /** The core is offered the slot's result. */
  lemma ReportHarmless(b: Bridge, i: nat, t: nat, why: Why, core: bool)
    requires HomeAt(b, i, t) && Harmless(b, i, t, why) && b.slots[i].value.phase.CoreResultPending?
    ensures Harmless(TryCoreResult(b, i, core), i, t, why)
  {
    if core {
      var c := TryCoreResult(b, i, core);
      TryCoreResultSound(b, i, core);
      ReportActs(b, i, core);
      NamesKept(b, c);
      ClearedTickets(b, i, t);
      assert b.records[t].reports == [];
      assert c.records[t].reports == [b.slots[i].value.mounted];
    }
  }

  lemma ConcludeHarmless(b: Bridge, i: nat, t: nat, why: Why, mounted: bool, core: bool)
    requires HomeAt(b, i, t)
    requires SlotHarmless(b, b.slots[i].value.(mounted := mounted, phase := CoreResultPending), why)
    ensures Harmless(Conclude(b, i, mounted, core), i, t, why)
  {
    var q := b.slots[i].value.(mounted := mounted, phase := CoreResultPending);
    SetHarmless(b, i, t, why, q);
    ReportHarmless(Set(b, i, q), i, t, why, core);
  }

  /** A mute transaction's next batch is offered. */
  lemma MutePosts(b: Bridge, i: nat, t: nat, mount: PortAnswer)
    requires HomeAt(b, i, t) && Harmless(b, i, t, Mute)
    ensures Harmless(PostBatch(b, i, mount), i, t, Mute)
  {
    var p := b.slots[i].value;
    if p.next < |p.batches| {
      var c := PostBatch(b, i, mount);
      var q := c.slots[i].value;
      SetHarmless(b, i, t, Mute, q);
      PostBatchSound(b, i, mount);
      assert c == Set(b, i, q).(flights := c.flights);
    }
  }

  lemma TryPresentHarmless(b: Bridge, i: nat, t: nat, why: Why, present: PortAnswer, core: bool)
    requires HomeAt(b, i, t) && Harmless(b, i, t, why) && b.slots[i].value.phase.PresentPending?
    ensures Harmless(TryPresent(b, i, present, core), i, t, why)
  {
    var p := b.slots[i].value;
    if p.source.request.Some? {
      SetHarmless(b, i, t, why, p.(phase := PresentPosted));
      ConcludeHarmless(b, i, t, why, false, core);
    }
  }

  lemma OwnTurnHarmless(b: Bridge, i: nat, t: nat, why: Why, a: Answers, released: bool)
    requires HomeAt(b, i, t) && Harmless(b, i, t, why)
    ensures Harmless(ServiceSlot(b, i, a, released), i, t, why)
  {
    if Serviceable(b.slots[i]) {
      match b.slots[i].value.phase
      case MountPending => MutePosts(b, i, t, a.mount);
      case RollbackPending => ConcludeHarmless(b, i, t, why, b.slots[i].value.mounted, a.core);
      case PresentPending => TryPresentHarmless(b, i, t, why, a.present, a.core);
      case CoreResultPending => ReportHarmless(b, i, t, why, a.core);
    }
  }

  lemma TurnHarmless(b: Bridge, k: nat, i: nat, t: nat, why: Why, a: Answers, released: bool)
    requires Harmless(b, i, t, why) && k < |b.slots|
    ensures Harmless(ServiceSlot(b, k, a, released), i, t, why)
  {
    if b.slots[k].Some? {
      if b.slots[k].value.ticket == t {
        assert InSlot(b.slots, t);
        OwnTurnHarmless(b, i, t, why, a, released);
      } else {
        ServeActs(b, k, a, released);
        ServiceSlotSound(b, k, a, released);
        OthersHarmless(b, ServiceSlot(b, k, a, released), k, i, t, why);
      }
    }
  }

  lemma {:induction false} PassHarmless(
    b: Bridge, k: nat, budget: nat, answers: nat -> Answers, released: nat -> bool, i: nat, t: nat, why: Why)
    requires Harmless(b, i, t, why) && k <= |b.slots|
    ensures Harmless(ServiceFrom(b, k, budget, answers, released), i, t, why)
    decreases |b.slots| - k
  {
    if k < |b.slots| && budget > 0 {
      TurnHarmless(b, k, i, t, why, answers(k), released(k));
      PassHarmless(ServiceSlot(b, k, answers(k), released(k)), k + 1,
                   if Serviceable(b.slots[k]) then budget - 1 else budget, answers, released, i, t, why);
    }
  }

  // ----- Presentations -----

  lemma NotedHarmless(b: Bridge, k: nat, presented: bool)
    requires Sound(b) && Has(b, k)
    ensures var u := b.slots[k].value.ticket;
            u < |b.records| && SameReports(b, Noted(b, u, b.records[u].(presented := presented)))
            && Sound(Noted(b, u, b.records[u].(presented := presented)))
  {
    var u := b.slots[k].value.ticket;
    SameReportsSound(b, Noted(b, u, b.records[u].(presented := presented)));
  }

  lemma OwnPresented(b: Bridge, presented: bool, core: bool, i: nat, t: nat, why: Why)
    requires HomeAt(b, i, t) && Harmless(b, i, t, why) && b.slots[i].value.phase.PresentPosted?
    ensures Harmless(Conclude(Noted(b, t, b.records[t].(presented := presented)), i, presented, core), i, t, why)
  {
    NotedHarmless(b, i, presented);
    ConcludeHarmless(Noted(b, t, b.records[t].(presented := presented)), i, t, why, presented, core);
  }

  lemma OtherPresents(b: Bridge, k: nat, presented: bool, core: bool, i: nat, t: nat, why: Why)
    requires Harmless(b, i, t, why) && Has(b, k) && b.slots[k].value.ticket != t
    ensures var u := b.slots[k].value.ticket;
            u < |b.records|
            && Harmless(Conclude(Noted(b, u, b.records[u].(presented := presented)), k, presented, core), i, t, why)
  {
    var u := b.slots[k].value.ticket;
    var noted := Noted(b, u, b.records[u].(presented := presented));
    NotedHarmless(b, k, presented);
    ConcludeActs(noted, k, presented, core);
    ConcludeSound(noted, k, presented, core);
    OthersHarmless(noted, Conclude(noted, k, presented, core), k, i, t, why);
  }

  lemma PresentedHarmless(
    b: Bridge, surface: SurfaceId, request: RequestId, presented: bool, core: bool, i: nat, t: nat, why: Why)
    requires Harmless(b, i, t, why)
    ensures Harmless(AcceptPresented(b, surface, request, presented, core), i, t, why)
  {
    var found := FindPresented(b, surface, request, 0);
    if found.Some? {
      if b.slots[found.value].value.ticket == t {
        assert InSlot(b.slots, t);
        OwnPresented(b, presented, core, i, t, why);
      } else {
        OtherPresents(b, found.value, presented, core, i, t, why);
      }
    }
  }

  // ----- A batch lands -----

  lemma LandedStill(b: Bridge, ok: bool)
    requires Sound(b) && b.flights != []
    ensures var c := Landed(b, ok);
            && Sound(c) && c.slots == b.slots && c.flights == b.flights[1..] && c.autoPresent == b.autoPresent
            && |c.records| == |b.records|
            && (forall t :: 0 <= t < |b.records| ==> c.records[t].reports == b.records[t].reports)
            && (forall t :: 0 <= t < |b.records| && t != b.flights[0].ticket ==> c.records[t] == b.records[t])
  {
    SameReportsSound(b, Landed(b, ok));
  }

  /** A batch of another transaction has landed. */
  lemma OtherLanded(b: Bridge, ok: bool, i: nat, t: nat, why: Why)
    requires Harmless(b, i, t, why) && b.flights != [] && b.flights[0].ticket != t
    ensures Harmless(Landed(b, ok), i, t, why)
  {
    LandedStill(b, ok);
    assert Mine(b.flights, t) == Mine(b.flights[1..], t);
  }

  lemma OtherLands(b: Bridge, ok: bool, a: Answers, i: nat, t: nat, why: Why)
    requires Harmless(b, i, t, why) && b.flights != [] && b.flights[0].ticket != t
    ensures Harmless(MountDone(b, ok, a), i, t, why)
  {
    var c, f := Landed(b, ok), b.flights[0];
    OtherLanded(b, ok, i, t, why);
    CompleteHarmless(c, f, ok, a, i, t, why);
  }

  /** What the landing comes to in a slot of another transaction. */
  lemma CompleteHarmless(c: Bridge, f: Flight, ok: bool, a: Answers, i: nat, t: nat, why: Why)
    requires Harmless(c, i, t, why) && !(InSlot(c.slots, t) && SameKey(c.slots[i].value, f))
    ensures Harmless(Complete(c, f, ok, a), i, t, why)
  {
    var found := Find(c, f, 0);
    if found.Some? {
      FoundHasKey(c, f, 0);
      assert InSlot(c.slots, c.slots[found.value].value.ticket);
      CompleteActs(c, f, ok, a);
      CompleteSound(c, f, ok, a);
      OthersHarmless(c, Complete(c, f, ok, a), found.value, i, t, why);
    }
  }

  /** A batch of this transaction lands when it is no longer in its slot. */
  lemma LateLands(b: Bridge, ok: bool, a: Answers, i: nat, t: nat, why: Why)
    requires Harmless(b, i, t, why) && b.flights != [] && b.flights[0].ticket == t && !InSlot(b.slots, t)
    ensures Harmless(MountDone(b, ok, a), i, t, why)
  {
    LandedStill(b, ok);
    CompleteHarmless(Landed(b, ok), b.flights[0], ok, a, i, t, why);
  }

  /** A batch of this transaction has landed. */
  lemma OwnLanded(b: Bridge, ok: bool, i: nat, t: nat, why: Why)
    requires HomeAt(b, i, t) && Harmless(b, i, t, why) && b.flights != [] && b.flights[0].ticket == t
    ensures var c := Landed(b, ok);
            HomeAt(c, i, t) && c.slots == b.slots && Find(c, b.flights[0], 0) == Some(i)
            && Mine(b.flights, t) == [b.flights[0]] + Mine(c.flights, t)
  {
    LandedStill(b, ok);
    assert SameKey(b.slots[i].value, b.flights[0]);
    BridgeOrder.FindFrom(Landed(b, ok), b.flights[0], 0, i);
  }

  /** All batches have landed in order. */
  ghost predicate AllIn(b: Bridge, p: Pending)
    requires p.ticket < |b.records|
  {
    var r := b.records[p.ticket];
    && p.next == |p.batches| > 0 && r.batches == |p.batches| && r.full == p.full
    && Mine(b.flights, p.ticket) == [] && r.mounted == Upto(|p.batches|)
  }

  lemma AllMountedHarmless(b: Bridge, i: nat, t: nat, why: Why, a: Answers)
    requires HomeAt(b, i, t) && !why.Refused?
    requires if why.Posted? then AllIn(b, b.slots[i].value) else Harmless(b, i, t, why)
    ensures Harmless(AllMounted(b, i, a), i, t, why)
  {
    var p := b.slots[i].value;
    if !p.full || (a.mark && !b.autoPresent) {
      ConcludeHarmless(b, i, t, why, true, a.core);
    } else if !a.mark {
      ConcludeHarmless(b, i, t, why, false, a.core);
    } else {
      var q := p.(phase := PresentPending);
      SetHarmless(b, i, t, why, q);
      TryPresentHarmless(Set(b, i, q), i, t, why, a.present, a.core);
    }
  }

  lemma MuteLands(c: Bridge, f: Flight, ok: bool, a: Answers, i: nat, t: nat)
    requires HomeAt(c, i, t) && Harmless(c, i, t, Mute) && Find(c, f, 0) == Some(i)
    ensures Harmless(Complete(c, f, ok, a), i, t, Mute)
  {
    var p := c.slots[i].value;
    if f.batch.batchIndex == p.active && f.batch.batchCount == |p.batches| {
      if !ok {
        SetHarmless(c, i, t, Mute, p.(mounted := false, phase := RollbackPending));
      } else if p.activeFinal {
        AllMountedHarmless(c, i, t, Mute, a);
      } else {
        MutePosts(c, i, t, a.mount);
      }
    }
  }

  lemma LastLandsHarmless(b: Bridge, ok: bool, a: Answers, i: nat, t: nat)
    requires HomeAt(b, i, t) && Harmless(b, i, t, Posted) && b.flights != [] && b.flights[0].ticket == t
    ensures Harmless(MountDone(b, ok, a), i, t, Posted)
  {
    OwnLanded(b, ok, i, t, Posted);
    var c, p := Landed(b, ok), b.slots[i].value;
    assert p.phase.MountPending? && Mine(b.flights, t) == [b.flights[0]];
    if ok {
      assert Upto(|p.batches|) == Upto(|p.batches| - 1) + [|p.batches| - 1];
      assert AllIn(c, p);
      AllMountedHarmless(c, i, t, Posted, a);
    } else {
      SetHarmless(c, i, t, Posted, p.(mounted := false, phase := RollbackPending));
    }
  }

  lemma OwnLands(b: Bridge, ok: bool, a: Answers, i: nat, t: nat, why: Why)
    requires HomeAt(b, i, t) && Harmless(b, i, t, why) && b.flights != [] && b.flights[0].ticket == t
    ensures Harmless(MountDone(b, ok, a), i, t, why)
  {
    OwnLanded(b, ok, i, t, why);
    match why
    case Refused => assert Harmless(Landed(b, ok), i, t, Refused);
    case Mute => MuteLands(Landed(b, ok), b.flights[0], ok, a, i, t);
    case Posted => LastLandsHarmless(b, ok, a, i, t);
  }

  lemma LandingHarmless(b: Bridge, ok: bool, a: Answers, i: nat, t: nat, why: Why)
    requires Harmless(b, i, t, why)
    ensures Harmless(MountDone(b, ok, a), i, t, why)
  {
    if b.flights != [] {
      if b.flights[0].ticket != t {
        OtherLands(b, ok, a, i, t, why);
      } else if InSlot(b.slots, t) {
        OwnLands(b, ok, a, i, t, why);
      } else {
        LateLands(b, ok, a, i, t, why);
      }
    }
  }

  // ----- Every continuation -----

  lemma PostHarmless(
    b: Bridge, surface: SurfaceId, source: Source, attempt: AttemptId, full: bool, batches: seq<Transaction>,
    bytes: nat, guard: bool, mount: PortAnswer, i: nat, t: nat, why: Why)
    requires Harmless(b, i, t, why) && NewName(b, surface, source, attempt)
    ensures Harmless(Post(b, surface, source, attempt, full, batches, bytes, guard, mount).1, i, t, why)
  {
    var c := Post(b, surface, source, attempt, full, batches, bytes, guard, mount).1;
    PostSound(b, surface, source, attempt, full, batches, bytes, guard, mount);
    if c != b {
      var k := FreeSlot(b.slots, 0).value;
      var m := Admit(b, k, surface, source, attempt, full, batches, bytes);
      AdmitSound(b, k, surface, source, attempt, full, batches, bytes);
      AdmitHarmless(b, k, surface, source, attempt, full, batches, bytes, i, t, why);
      PostActs(m, k, Taken);
      OthersHarmless(m, c, k, i, t, why);
    }
  }

  lemma AdmitHarmless(
    b: Bridge, k: nat, surface: SurfaceId, source: Source, attempt: AttemptId, full: bool, batches: seq<Transaction>,
    bytes: nat, i: nat, t: nat, why: Why)
    requires Harmless(b, i, t, why) && NewName(b, surface, source, attempt) && k < |b.slots| && b.slots[k].None?
    requires Sound(Admit(b, k, surface, source, attempt, full, batches, bytes))
    ensures Harmless(Admit(b, k, surface, source, attempt, full, batches, bytes), i, t, why)
  {
    var m := Admit(b, k, surface, source, attempt, full, batches, bytes);
    AdmittedTickets(b, k, m.slots[k].value, t);
  }

  lemma StepHarmless(b: Bridge, event: Event, i: nat, t: nat, why: Why)
    requires Harmless(b, i, t, why) && Named(b, event)
    ensures Harmless(Apply(b, event), i, t, why)
  {
    match event
    case DoPost(surface, source, attempt, full, batches, bytes, guard, mount) =>
      PostHarmless(b, surface, source, attempt, full, batches, bytes, guard, mount, i, t, why);
    case DoMountDone(ok, a) => LandingHarmless(b, ok, a, i, t, why);
    case DoPresented(surface, request, presented, core) =>
      PresentedHarmless(b, surface, request, presented, core, i, t, why);
    case DoService(budget, answers, released) =>
      if !b.closed {
        PassHarmless(b, 0, budget, answers, released, i, t, why);
      }
    case DoClose => assert Harmless(b.(accepting := false, closed := true), i, t, why);
  }

  lemma {:induction false} RunHarmless(b: Bridge, events: seq<Event>, i: nat, t: nat, why: Why)
    requires Harmless(b, i, t, why) && NamedRun(b, events)
    ensures Harmless(Run(b, events), i, t, why)
  {
    if events != [] {
      var before := events[..|events| - 1];
      forall k | 0 <= k < |before| ensures Named(Run(b, before[..k]), before[k]) {
        assert before[..k] == events[..k];
      }
      RunHarmless(b, before, i, t, why);
      StepHarmless(Run(b, before), events[|events| - 1], i, t, why);
    }
  }

  // ----- The exact condition -----

  /** In an orderly slot the mount host has one batch of a transaction at most. */
  lemma {:induction false} MineIsOne(flights: seq<Flight>, k: nat, ticket: nat)
    requires k < |flights| && flights[k].ticket == ticket
    requires forall j :: 0 <= j < |flights| && j != k ==> flights[j].ticket != ticket
    ensures Mine(flights, ticket) == [flights[k]]
  {
    if k > 0 {
      MineIsOne(flights[1..], k - 1, ticket);
    } else {
      MineIffInFlight(flights[1..], ticket);
      forall j | 0 <= j < |flights[1..]| ensures flights[1..][j].ticket != ticket {
        assert flights[1..][j] == flights[j + 1];
      }
    }
  }

  lemma AtHome(b: Bridge, i: nat)
    requires Sound(b) && Ordered(b) && Has(b, i) && InFlight(b.flights, b.slots[i].value.ticket)
    ensures HomeAt(b, i, b.slots[i].value.ticket)
    ensures exists f :: Mine(b.flights, b.slots[i].value.ticket) == [f] && FlightOf(f, b.slots[i])
  {
    var t := b.slots[i].value.ticket;
    InOrder(b, i);
    var k :| 0 <= k < |b.flights| && b.flights[k].ticket == t;
    forall j | 0 <= j < |b.flights| && b.flights[j].ticket == t ensures FlightOf(b.flights[j], b.slots[i]) {
      assert Placed(b.flights[j], b.slots);
    }
    MineIsOne(b.flights, k, t);
    assert InSlot(b.slots, t);
  }

  function WhyNot(b: Bridge, i: nat): Why
    requires Has(b, i)
  {
    var p := b.slots[i].value;
    if p.next >= |p.batches| then Posted
    else if p.full && b.autoPresent && p.source.request.None? then Mute
    else Refused
  }

  lemma HarmlessTurn(b: Bridge, i: nat, a: Answers, released: bool)
    requires Sound(b) && Ordered(b) && Has(b, i) && InFlight(b.flights, b.slots[i].value.ticket)
    requires !CanLie(b, i, a.mount)
    ensures Harmless(ServiceSlot(b, i, a, released), i, b.slots[i].value.ticket, WhyNot(b, i))
  {
    InOrder(b, i);
    AtHome(b, i);
    var t := b.slots[i].value.ticket;
    match WhyNot(b, i)
    case Posted => PostedHarmless(b, i);
    case Mute =>
      assert Harmless(b, i, t, Mute);
      MutePosts(b, i, t, a.mount);
    case Refused => RefusedHarmless(b, i);
  }

  lemma PostedHarmless(b: Bridge, i: nat)
    requires Sound(b) && Ordered(b) && Has(b, i) && InFlight(b.flights, b.slots[i].value.ticket)
    requires b.slots[i].value.next >= |b.slots[i].value.batches|
    ensures Harmless(b, i, b.slots[i].value.ticket, Posted)
  {
    InOrder(b, i);
    AtHome(b, i);
    assert LastPosted(b, b.slots[i].value);
  }

  lemma RefusedHarmless(b: Bridge, i: nat)
    requires Sound(b) && Ordered(b) && Has(b, i) && InFlight(b.flights, b.slots[i].value.ticket)
    requires b.slots[i].value.next < |b.slots[i].value.batches|
    ensures Harmless(PostBatch(b, i, Never), i, b.slots[i].value.ticket, Refused)
  {
    InOrder(b, i);
    AtHome(b, i);
    var p := b.slots[i].value;
    var q := Offered(p).(mounted := false, phase := RollbackPending);
    assert PostBatch(b, i, Never) == Set(b, i, q);
    SetHarmless(b, i, p.ticket, Refused, q);
  }

  /** In every run made with care, for every slot that has a batch at the mount host: after a turn of
      the slot some continuation, in which names are still kept apart, reports its transaction mounted
      though it is not, if and only if the slot had a batch left to post, the mount host did not refuse
      it for good, and the transaction is not one to be presented that names no request. The
      continuation needs no further carelessness. */
  lemma FalseReportIff(autoPresent: bool, events: seq<Event>, i: nat, a: Answers, released: bool)
    requires CarefulRun(autoPresent, events)
    requires var b := History(autoPresent, events);
             !b.closed && Has(b, i) && InFlight(b.flights, b.slots[i].value.ticket)
    ensures var b := History(autoPresent, events);
            var c, t := ServiceSlot(b, i, a, released), b.slots[i].value.ticket;
            && ((exists more :: LeadsToLie(c, t, more)) <==> CanLie(b, i, a.mount))
            && (CanLie(b, i, a.mount) ==> exists more :: CarefulFrom(c, more) && LeadsToLie(c, t, more))
  {
    var b := History(autoPresent, events);
    var c, t := ServiceSlot(b, i, a, released), b.slots[i].value.ticket;
    HistoryIsOrdered(autoPresent, events);
    HistoryIsSound(autoPresent, events);
    if CanLie(b, i, a.mount) {
      var more := CarelessTurnLies(b, i, a, released);
      CarefulIsNamed(c, more);
      assert CarefulFrom(c, more) && LeadsToLie(c, t, more);
    } else {
      HarmlessTurn(b, i, a, released);
      forall more | NamedRun(c, more) ensures !Lies(Run(c, more), t) {
        RunHarmless(c, more, i, t, WhyNot(b, i));
        HarmlessTellsNoLie(Run(c, more), i, t, WhyNot(b, i));
      }
    }
  }
}
