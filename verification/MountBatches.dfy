/** Splitting a full mount into batches does not change what it means. */
module MountBatches {
  import opened Wrappers
  import opened MountModel
  import opened MountTables

  const MAX_MOUNT_OPERATIONS := 256

  function Min(x: nat, y: nat): nat {
    if x < y then x else y
  }

  /** How many batches a full mount of `n` operations takes. */
  function BatchCount(n: nat): nat {
    (n + MAX_MOUNT_OPERATIONS - 1) / MAX_MOUNT_OPERATIONS
  }

  function BatchStart(n: nat, k: nat): nat {
    Min(k * MAX_MOUNT_OPERATIONS, n)
  }

  /** Batch `k` of the operations; only the first is a full mount. */
  function Batch(surface: SurfaceId, source: BoundedText, operations: seq<Operation>, k: nat): Transaction {
    var n := |operations|;
    Transaction(surface, source, k == 0, operations[BatchStart(n, k)..Min(BatchStart(n, k) + MAX_MOUNT_OPERATIONS, n)],
                k, BatchCount(n), k + 1 == BatchCount(n))
  }

  function Split(surface: SurfaceId, source: BoundedText, operations: seq<Operation>): seq<Transaction> {
    seq(BatchCount(|operations|), k requires k >= 0 => Batch(surface, source, operations, k))
  }

  /** The same mount as one transaction. */
  function Whole(surface: SurfaceId, source: BoundedText, operations: seq<Operation>): Transaction {
    Transaction(surface, source, true, operations, 0, 1, true)
  }

  type Executor = (State, Transaction) -> Step

  function Executing(native: Native, maxOperations: nat, rootOk: bool): Executor {
    (s, t) => Execute(native, maxOperations, rootOk, s, t)
  }

  /** Runs the batches from `k` on, one after the other, up to the first that fails. */
  function RunBatches(execute: Executor, s: State, batches: seq<Transaction>, k: nat): Step
    requires k <= |batches|
    decreases |batches| - k
  {
    if k == |batches| then Step(true, s)
    else
      var step := execute(s, batches[k]);
      if !step.ok then step else RunBatches(execute, step.s, batches, k + 1)
  }

  predicate BuildsOnly(operations: seq<Operation>) {
    forall i :: 0 <= i < |operations| ==> !operations[i].MoveHost? && !operations[i].RemoveHost?
  }

  function Flatten(batches: seq<Transaction>): seq<Operation> {
    if batches == [] then [] else Flatten(batches[..|batches| - 1]) + batches[|batches| - 1].operations
  }

  // ----- The batches are the operations -----

  /** Where a batch ends the next begins. */
  lemma BatchEnds(n: nat, k: nat)
    requires k < BatchCount(n)
    ensures BatchStart(n, k) < BatchStart(n, k + 1) <= n
    ensures Min(BatchStart(n, k) + MAX_MOUNT_OPERATIONS, n) == BatchStart(n, k + 1)
    ensures k + 1 == BatchCount(n) ==> BatchStart(n, k + 1) == n
    ensures k > 0 ==> n > MAX_MOUNT_OPERATIONS && BatchStart(n, k) == k * MAX_MOUNT_OPERATIONS
  {
  }

  lemma {:induction false} FlattenSplit(surface: SurfaceId, source: BoundedText, operations: seq<Operation>, k: nat)
    requires k <= BatchCount(|operations|)
    ensures Flatten(Split(surface, source, operations)[..k]) == operations[..BatchStart(|operations|, k)]
  {
    var batches := Split(surface, source, operations);
    if k > 0 {
      FlattenSplit(surface, source, operations, k - 1);
      assert batches[..k][..k - 1] == batches[..k - 1];
      BatchEnds(|operations|, k - 1);
      var a, b := BatchStart(|operations|, k - 1), BatchStart(|operations|, k);
      assert operations[..a] + operations[a..b] == operations[..b];
    }
  }

  /** The batches concatenate back to the operations, in order, and none is empty or too long. */
  lemma BatchesConcatenate(surface: SurfaceId, source: BoundedText, operations: seq<Operation>)
    ensures var batches := Split(surface, source, operations);
            && Flatten(batches) == operations
            && forall k :: 0 <= k < |batches| ==>
                 0 < |batches[k].operations| <= MAX_MOUNT_OPERATIONS && batches[k].batchIndex == k
  {
    var batches := Split(surface, source, operations);
    FlattenSplit(surface, source, operations, |batches|);
    assert batches[..|batches|] == batches;
    assert operations[..|operations|] == operations;
  }

  // ----- Preflight without the tables -----

  /** What a full mount's preflight asks of an operation: nothing the tables could answer. */
  predicate BuildOk(operations: seq<Operation>, i: nat)
    requires i < |operations|
  {
    match operations[i]
    case CreateHost(node, kind) => !CreatedBefore(operations, i, node)
    case SetHostProp(node, property, value) => CreatedBefore(operations, i, node) && PropertyOk(property, value)
    case SetHostLayout(node, rect) => CreatedBefore(operations, i, node) && rect.width >= 0 && rect.height >= 0
    case InsertHostChild(node, parent, index) =>
      CreatedBefore(operations, i, node) && CreatedBefore(operations, i, parent)
    case MoveHost(node, parent, index) => false
    case RemoveHost(node) => false
  }

  ghost predicate AllBuildOk(operations: seq<Operation>, a: nat, b: nat) {
    a <= b <= |operations| && forall i :: a <= i < b ==> BuildOk(operations, i)
  }

  lemma FirstCreates(operations: seq<Operation>)
    requires operations != [] && BuildOk(operations, 0)
    ensures operations[0].CreateHost?
  {
  }

  lemma CreatedInPrefix(operations: seq<Operation>, e: nat, i: nat, node: NodeId)
    requires i <= e <= |operations|
    ensures CreatedBefore(operations[..e], i, node) <==> CreatedBefore(operations, i, node)
  {
    if CreatedBefore(operations, i, node) {
      var k :| 0 <= k < i && operations[k].CreateHost? && operations[k].node == node;
      assert operations[..e][k] == operations[k];
    }
  }

  lemma PrefixBuildOk(operations: seq<Operation>, e: nat, i: nat)
    requires i < e <= |operations|
    ensures BuildOk(operations[..e], i) <==> BuildOk(operations, i)
  {
    var op := operations[i];
    CreatedInPrefix(operations, e, i, op.node);
    if op.InsertHostChild? {
      CreatedInPrefix(operations, e, i, op.parent);
    }
  }

  lemma CreatedInSlice(operations: seq<Operation>, b: nat, e: nat, j: nat, node: NodeId)
    requires b <= b + j <= e <= |operations|
    ensures CreatedBefore(operations, b + j, node)
       <==> CreatedBefore(operations, b, node) || CreatedBefore(operations[b..e], j, node)
  {
    if CreatedBefore(operations, b + j, node) {
      var k :| 0 <= k < b + j && operations[k].CreateHost? && operations[k].node == node;
      if k >= b {
        assert operations[b..e][k - b] == operations[k];
      }
    }
    if CreatedBefore(operations[b..e], j, node) {
      var k :| 0 <= k < j && operations[b..e][k].CreateHost? && operations[b..e][k].node == node;
      assert operations[b + k] == operations[b..e][k];
    }
  }

  /** The slots of the surface are exactly those of the nodes created among the first `n`. */
  ghost predicate ExactlyCreated(slots: Slots, surface: SurfaceId, operations: seq<Operation>, n: nat)
    requires n <= |operations|
  {
    forall node: NodeId :: FindSlot(slots, surface, node).Some? <==> CreatedBefore(operations, n, node)
  }

  /** After the operations before it, a later batch's preflight asks the same of each operation as
      the full mount's. */
  lemma LaterBatchOk(s: State, t: Transaction, operations: seq<Operation>, b: nat, e: nat, j: nat)
    requires BuildsOnly(operations) && b <= b + j < e <= |operations|
    requires !t.full && t.batchIndex > 0 && t.operations == operations[b..e]
    requires ExactlyCreated(s.slots, t.surface, operations, b)
    ensures OperationOk(s.slots, s.forest, t, j) <==> BuildOk(operations, b + j)
  {
    var op := operations[b + j];
    assert op == t.operations[j];
    CreatedInSlice(operations, b, e, j, op.node);
    if op.InsertHostChild? {
      CreatedInSlice(operations, b, e, j, op.parent);
    }
  }

  lemma FullOk(s: State, t: Transaction, i: nat)
    requires BuildsOnly(t.operations) && t.full && t.batchIndex == 0 && i < |t.operations|
    ensures OperationOk(s.slots, s.forest, t, i) <==> BuildOk(t.operations, i)
  {
  }

  // ----- Commit in pieces -----

  /** Which nodes have slots after a successful step. */
  lemma CommitFindable(native: Native, s: State, surface: SurfaceId, first: bool, op: Operation, node: NodeId)
    requires !op.MoveHost? && !op.RemoveHost? && Commit(native, s, surface, first, op).ok
    ensures FindSlot(Commit(native, s, surface, first, op).s.slots, surface, node).Some?
       <==> FindSlot(s.slots, surface, node).Some? || (op.CreateHost? && op.node == node)
  {
    var after := Commit(native, s, surface, first, op).s.slots;
    if op.CreateHost? {
      CreateFindable(native, s, surface, first, op, node);
    } else {
      assert forall i :: 0 <= i < |after| ==> (Holds(after[i], surface, node) <==> Holds(s.slots[i], surface, node));
    }
  }

  lemma CreateFindable(native: Native, s: State, surface: SurfaceId, first: bool, op: Operation, node: NodeId)
    requires op.CreateHost? && Commit(native, s, surface, first, op).ok
    ensures FindSlot(Commit(native, s, surface, first, op).s.slots, surface, node).Some?
       <==> FindSlot(s.slots, surface, node).Some? || op.node == node
  {
    var after := Commit(native, s, surface, first, op).s.slots;
    var i := FreeFrom(s.slots, 0).value;
    assert Holds(after[i], surface, op.node) && after[i].value.node == op.node;
    assert forall k :: 0 <= k < |after| && k != i ==> after[k] == s.slots[k];
  }

  lemma CreatedOneMore(operations: seq<Operation>, n: nat, node: NodeId)
    requires n < |operations|
    ensures CreatedBefore(operations, n + 1, node)
       <==> CreatedBefore(operations, n, node) || (operations[n].CreateHost? && operations[n].node == node)
  {
  }

  lemma NextNodes(native: Native, s: State, surface: SurfaceId, first: bool, operations: seq<Operation>, n: nat)
    requires BuildsOnly(operations) && n < |operations| && ExactlyCreated(s.slots, surface, operations, n)
    requires Commit(native, s, surface, first, operations[n]).ok
    ensures ExactlyCreated(Commit(native, s, surface, first, operations[n]).s.slots, surface, operations, n + 1)
  {
    forall node: NodeId
      ensures FindSlot(Commit(native, s, surface, first, operations[n]).s.slots, surface, node).Some?
         <==> CreatedBefore(operations, n + 1, node)
    {
      CommitFindable(native, s, surface, first, operations[n], node);
      CreatedOneMore(operations, n, node);
    }
  }

  lemma {:induction false} CommittedNodes(
    native: Native, start: State, surface: SurfaceId, operations: seq<Operation>, n: nat)
    requires BuildsOnly(operations) && n <= |operations| && NoSlotOf(start.slots, surface)
    requires CommitUpTo(native, start, surface, true, operations, n).ok
    ensures ExactlyCreated(CommitUpTo(native, start, surface, true, operations, n).s.slots, surface, operations, n)
  {
    if n > 0 {
      CommittedNodes(native, start, surface, operations, n - 1);
      NextNodes(native, CommitUpTo(native, start, surface, true, operations, n - 1).s, surface, n == 1, operations, n - 1);
    }
  }

  /** Once a run has failed, nothing more happens. */
  lemma {:induction false} FailureSticks(step: Stepper, s: State, operations: seq<Operation>, m: nat, n: nat)
    requires m <= n <= |operations| && !RunSteps(step, s, true, operations, m).ok
    ensures !RunSteps(step, s, true, operations, n).ok
    decreases n - m
  {
    if m < n {
      FailureSticks(step, s, operations, m, n - 1);
    }
  }

  /** Running a later slice from where the operations before it led is running on. */
  lemma {:induction false} RunSlice(step: Stepper, s: State, operations: seq<Operation>, b: nat, e: nat, m: nat)
    requires 0 < b <= b + m <= e <= |operations| && RunSteps(step, s, true, operations, b).ok
    ensures RunSteps(step, RunSteps(step, s, true, operations, b).s, false, operations[b..e], m)
         == RunSteps(step, s, true, operations, b + m)
    decreases m
  {
    if m > 0 {
      RunSlice(step, s, operations, b, e, m - 1);
    }
  }

  lemma RunAllOfSlice(step: Stepper, s: State, operations: seq<Operation>, b: nat, e: nat, mid: Step)
    requires 0 < b <= e <= |operations| && mid == RunSteps(step, s, true, operations, b) && mid.ok
    ensures RunSteps(step, mid.s, false, operations[b..e], e - b) == RunSteps(step, s, true, operations, e)
  {
    RunSlice(step, s, operations, b, e, e - b);
  }

  lemma {:induction false} RunPrefix(step: Stepper, s: State, operations: seq<Operation>, e: nat, m: nat)
    requires m <= e <= |operations|
    ensures RunSteps(step, s, true, operations[..e], m) == RunSteps(step, s, true, operations, m)
    decreases m
  {
    if m > 0 {
      RunPrefix(step, s, operations, e, m - 1);
    }
  }

  // ----- Batch by batch -----

  predicate GoodSource(source: BoundedText) {
    !source.truncated && 0 < |source.chars| <= MAX_PROPERTY_TEXT
  }

  /** Both fail, or both succeed in the same state. */
  predicate SameOutcome(a: Step, b: Step) {
    (a.ok <==> b.ok) && (a.ok ==> a == b)
  }

  /** The outcome of the first `n` operations of a full mount: refused, or as far as commit gets. */
  ghost function Built(native: Native, s: State, surface: SurfaceId, operations: seq<Operation>, n: nat): Step
    requires n <= |operations|
  {
    if AllBuildOk(operations, 0, n) then
      CommitUpTo(native, DestroySurface(s, surface), surface, true, operations, n)
    else Step(false, s)
  }

  /** A full transaction without moves and removes, whatever the length of its list. */
  lemma FullExecutes(native: Native, maxOperations: nat, s: State, t: Transaction)
    requires BuildsOnly(t.operations) && t.full && t.batchIndex == 0 && HeaderOk(maxOperations, t)
    ensures SameOutcome(Execute(native, maxOperations, true, s, t),
                        Built(native, s, t.surface, t.operations, |t.operations|))
  {
    forall i | 0 <= i < |t.operations|
      ensures OperationOk(s.slots, s.forest, t, i) <==> BuildOk(t.operations, i)
    {
      FullOk(s, t, i);
    }
    if BuildOk(t.operations, 0) {
      FirstCreates(t.operations);
    }
  }

  /** The first batch does what the full mount does with its operations. */
  lemma FirstBatchExecutes(
    native: Native, maxOperations: nat, s: State, surface: SurfaceId, source: BoundedText,
    operations: seq<Operation>)
    requires BuildsOnly(operations) && operations != [] && GoodSource(source)
    requires Min(|operations|, MAX_MOUNT_OPERATIONS) <= maxOperations
    ensures SameOutcome(Execute(native, maxOperations, true, s, Batch(surface, source, operations, 0)),
                        Built(native, s, surface, operations, BatchStart(|operations|, 1)))
  {
    var t := Batch(surface, source, operations, 0);
    var e := BatchStart(|operations|, 1);
    BatchEnds(|operations|, 0);
    FullExecutes(native, maxOperations, s, t);
    RunPrefix(Committer(native, surface), DestroySurface(s, surface), operations, e, e);
    forall i | 0 <= i < e ensures BuildOk(t.operations, i) <==> BuildOk(operations, i) {
      PrefixBuildOk(operations, e, i);
    }
  }

  lemma LaterExecutes(native: Native, maxOperations: nat, s: State, t: Transaction)
    requires !t.full
    ensures SameOutcome(
              Execute(native, maxOperations, true, s, t),
              if Preflight(maxOperations, s.slots, s.forest, t) then
                CommitUpTo(native, s, t.surface, false, t.operations, |t.operations|)
              else Step(false, s))
  {
  }

  lemma LaterPreflight(maxOperations: nat, s: State, t: Transaction, operations: seq<Operation>, b: nat, e: nat)
    requires BuildsOnly(operations) && b < e <= |operations|
    requires !t.full && t.batchIndex > 0 && t.operations == operations[b..e] && HeaderOk(maxOperations, t)
    requires ExactlyCreated(s.slots, t.surface, operations, b)
    ensures Preflight(maxOperations, s.slots, s.forest, t) <==> AllBuildOk(operations, b, e)
  {
    forall j | 0 <= j < e - b ensures OperationOk(s.slots, s.forest, t, j) <==> BuildOk(operations, b + j) {
      LaterBatchOk(s, t, operations, b, e, j);
    }
    if Preflight(maxOperations, s.slots, s.forest, t) {
      forall i | b <= i < e ensures BuildOk(operations, i) {
        assert OperationOk(s.slots, s.forest, t, i - b);
      }
    }
  }

  lemma BuildOkJoins(operations: seq<Operation>, b: nat, e: nat)
    requires b <= e <= |operations| && AllBuildOk(operations, 0, b)
    ensures AllBuildOk(operations, 0, e) <==> AllBuildOk(operations, b, e)
  {
  }

  lemma CommitUpToSlice(
    native: Native, start: State, surface: SurfaceId, operations: seq<Operation>, b: nat, e: nat, mid: Step)
    requires 0 < b <= e <= |operations| && mid == CommitUpTo(native, start, surface, true, operations, b) && mid.ok
    ensures CommitUpTo(native, mid.s, surface, false, operations[b..e], e - b)
         == CommitUpTo(native, start, surface, true, operations, e)
  {
    RunAllOfSlice(Committer(native, surface), start, operations, b, e, mid);
  }

  /** Committing a slice from where the operations before it led is committing on. */
  lemma CommitSlice(native: Native, s: State, surface: SurfaceId, operations: seq<Operation>, b: nat, e: nat)
    requires 0 < b <= e <= |operations|
    requires Built(native, s, surface, operations, b).ok
    requires AllBuildOk(operations, 0, e)
    ensures CommitUpTo(native, Built(native, s, surface, operations, b).s, surface, false, operations[b..e], e - b)
         == Built(native, s, surface, operations, e)
  {
    CommitUpToSlice(native, DestroySurface(s, surface), surface, operations, b, e, Built(native, s, surface, operations, b));
  }

  lemma BuiltNodes(native: Native, s: State, surface: SurfaceId, operations: seq<Operation>, b: nat)
    requires BuildsOnly(operations) && b <= |operations| && Tables(s)
    requires Built(native, s, surface, operations, b).ok
    ensures ExactlyCreated(Built(native, s, surface, operations, b).s.slots, surface, operations, b)
  {
    DestroySurfaceClears(s, surface);
    CommittedNodes(native, DestroySurface(s, surface), surface, operations, b);
  }

  lemma BuiltFails(native: Native, s: State, surface: SurfaceId, operations: seq<Operation>, b: nat, e: nat)
    requires b <= e <= |operations| && !Built(native, s, surface, operations, b).ok
    ensures !Built(native, s, surface, operations, e).ok
  {
    if AllBuildOk(operations, 0, e) {
      FailureSticks(Committer(native, surface), DestroySurface(s, surface), operations, b, e);
    }
  }

  /** A later batch, run where the operations before it led, does what the full mount does with
      its operations. */
  lemma LaterBatchExecutes(
    native: Native, maxOperations: nat, s: State, surface: SurfaceId, operations: seq<Operation>,
    t: Transaction, b: nat, e: nat)
    requires BuildsOnly(operations) && 0 < b < e <= |operations| && Tables(s)
    requires !t.full && t.batchIndex > 0 && t.surface == surface && t.operations == operations[b..e]
    requires HeaderOk(maxOperations, t) && Built(native, s, surface, operations, b).ok
    ensures SameOutcome(Execute(native, maxOperations, true, Built(native, s, surface, operations, b).s, t),
                        Built(native, s, surface, operations, e))
  {
    BuiltNodes(native, s, surface, operations, b);
    BuildOkJoins(operations, b, e);
    if AllBuildOk(operations, 0, e) {
      CommitSlice(native, s, surface, operations, b, e);
    }
    LaterBatchFrom(native, maxOperations, Built(native, s, surface, operations, b).s, operations, t, b, e,
                   Built(native, s, surface, operations, e));
  }

  /** A later batch comes to what committing its operations comes to. */
  lemma LaterBatchFrom(
    native: Native, maxOperations: nat, s: State, operations: seq<Operation>, t: Transaction, b: nat, e: nat,
    built: Step)
    requires BuildsOnly(operations) && b < e <= |operations| && HeaderOk(maxOperations, t)
    requires !t.full && t.batchIndex > 0 && t.operations == operations[b..e]
    requires ExactlyCreated(s.slots, t.surface, operations, b)
    requires AllBuildOk(operations, b, e) ==>
               built == CommitUpTo(native, s, t.surface, false, t.operations, |t.operations|)
    requires !AllBuildOk(operations, b, e) ==> !built.ok
    ensures SameOutcome(Execute(native, maxOperations, true, s, t), built)
  {
    LaterPreflight(maxOperations, s, t, operations, b, e);
    LaterExecutes(native, maxOperations, s, t);
  }

  /** What the batches before batch `k` of a full mount come to. */
  ghost function Progress(native: Native, s: State, surface: SurfaceId, operations: seq<Operation>): nat -> Step {
    (k: nat) => Built(native, s, surface, operations, BatchStart(|operations|, k))
  }

  /** Batch `k` takes the progress made so far one further, and no batch mends a failed one. */
  ghost predicate Advances(execute: Executor, batches: seq<Transaction>, progress: nat -> Step, k: nat)
    requires k < |batches|
  {
    && (progress(k).ok ==> SameOutcome(execute(progress(k).s, batches[k]), progress(k + 1)))
    && (!progress(k).ok ==> !progress(k + 1).ok)
  }

  lemma BatchAdvances(
    native: Native, maxOperations: nat, s: State, surface: SurfaceId, source: BoundedText,
    operations: seq<Operation>, k: nat)
    requires BuildsOnly(operations) && GoodSource(source) && 0 < k < BatchCount(|operations|) && Tables(s)
    requires Min(|operations|, MAX_MOUNT_OPERATIONS) <= maxOperations
    ensures Advances(Executing(native, maxOperations, true), Split(surface, source, operations),
                     Progress(native, s, surface, operations), k)
  {
    BatchEnds(|operations|, k);
    var b, e := BatchStart(|operations|, k), BatchStart(|operations|, k + 1);
    if Built(native, s, surface, operations, b).ok {
      LaterBatchExecutes(native, maxOperations, s, surface, operations, Batch(surface, source, operations, k), b, e);
    } else {
      BuiltFails(native, s, surface, operations, b, e);
    }
  }

  lemma {:induction false} ProgressStuck(
    execute: Executor, batches: seq<Transaction>, progress: nat -> Step, k: nat)
    requires k <= |batches| && !progress(k).ok
    requires forall j :: k <= j < |batches| ==> Advances(execute, batches, progress, j)
    ensures !progress(|batches|).ok
    decreases |batches| - k
  {
    if k < |batches| {
      assert Advances(execute, batches, progress, k);
      ProgressStuck(execute, batches, progress, k + 1);
    }
  }

  /** Batches that each advance finish with the progress of all of them. */
  lemma {:induction false} BatchesFinish(
    execute: Executor, batches: seq<Transaction>, progress: nat -> Step, k: nat)
    requires k <= |batches| && progress(k).ok
    requires forall j :: k <= j < |batches| ==> Advances(execute, batches, progress, j)
    ensures SameOutcome(RunBatches(execute, progress(k).s, batches, k), progress(|batches|))
    decreases |batches| - k
  {
    if k < |batches| {
      assert Advances(execute, batches, progress, k);
      if progress(k + 1).ok {
        BatchesFinish(execute, batches, progress, k + 1);
      } else {
        ProgressStuck(execute, batches, progress, k + 1);
      }
    }
  }

  // ----- The main result -----

  /** The batches of a full mount, run one after the other within the limit on a batch, come to
      what its operations come to. */
  lemma BatchesBuild(
    native: Native, maxOperations: nat, s: State, surface: SurfaceId, source: BoundedText,
    operations: seq<Operation>)
    requires BuildsOnly(operations) && operations != [] && GoodSource(source) && Tables(s)
    requires Min(|operations|, MAX_MOUNT_OPERATIONS) <= maxOperations
    ensures SameOutcome(
              RunBatches(Executing(native, maxOperations, true), s, Split(surface, source, operations), 0),
              Built(native, s, surface, operations, |operations|))
  {
    var execute, batches := Executing(native, maxOperations, true), Split(surface, source, operations);
    ghost var progress := Progress(native, s, surface, operations);
    forall k | 1 <= k < |batches| ensures Advances(execute, batches, progress, k) {
      BatchAdvances(native, maxOperations, s, surface, source, operations, k);
    }
    FirstBatchExecutes(native, maxOperations, s, surface, source, operations);
    BatchEnds(|operations|, |batches| - 1);
    if progress(1).ok {
      BatchesFinish(execute, batches, progress, 1);
    } else {
      ProgressStuck(execute, batches, progress, 1);
    }
  }

  /** A refused first transaction of a run ends the run. */
  lemma FirstRefused(execute: Executor, s: State, batches: seq<Transaction>)
    requires batches != [] && !execute(s, batches[0]).ok
    ensures !RunBatches(execute, s, batches, 0).ok
  {
  }

  /** A full mount split into batches succeeds exactly when the same list does as one transaction
      and the host takes batches of that length, and then leaves the same tables and forest. */
  lemma BatchedEqualsSingle(
    native: Native, maxOperations: nat, rootOk: bool, s: State, surface: SurfaceId, source: BoundedText,
    operations: seq<Operation>)
    requires BuildsOnly(operations) && operations != [] && GoodSource(source) && Tables(s)
    ensures var single := Execute(native, |operations|, rootOk, s, Whole(surface, source, operations));
            var batched :=
              RunBatches(Executing(native, maxOperations, rootOk), s, Split(surface, source, operations), 0);
            && (batched.ok <==> single.ok && Min(|operations|, MAX_MOUNT_OPERATIONS) <= maxOperations)
            && (batched.ok ==> batched == single)
  {
    var execute, batches := Executing(native, maxOperations, rootOk), Split(surface, source, operations);
    BatchEnds(|operations|, 0);
    if !rootOk || Min(|operations|, MAX_MOUNT_OPERATIONS) > maxOperations {
      assert batches[0] == Batch(surface, source, operations, 0);
      FirstRefused(execute, s, batches);
    } else {
      FullExecutes(native, |operations|, s, Whole(surface, source, operations));
      BatchesBuild(native, maxOperations, s, surface, source, operations);
    }
  }

  // ----- A mount that batches refuse -----

  function Views(count: nat): seq<Operation> {
    seq(count, i requires i >= 0 => CreateHost(i, View))
  }

  /** A host of so many objects, the first `n` of them views of one page. */
  function Viewing(count: nat, n: nat): Slots {
    seq(count, i requires i >= 0 =>
      if i < n then Some(Slot(0, i, View, Host(0, i), i == 0, None)) else None)
  }

  function Unmounted(count: nat): State {
    State(Viewing(count, 0), [], Forest(map[], map[], 0), map[])
  }

  lemma {:induction false} FreeAmong(count: nat, n: nat, i: nat)
    requires i <= n < count
    ensures FreeFrom(Viewing(count, n), i) == Some(n)
    decreases n - i
  {
    if i < n {
      FreeAmong(count, n, i + 1);
    }
  }

  lemma {:induction false} ViewsMounted(count: nat, total: nat, n: nat)
    requires n <= count && n <= total
    ensures var done := CommitUpTo(WILLING, Unmounted(count), 0, true, Views(total), n);
            done.ok && done.s.slots == Viewing(count, n) && done.s.forest.clock == n
  {
    if n > 0 {
      ViewsMounted(count, total, n - 1);
      FreeAmong(count, n - 1, 0);
      var slot := Slot(0, n - 1, View, Host(0, n - 1), n == 1, None);
      assert Viewing(count, n) == Viewing(count, n - 1)[n - 1 := Some(slot)];
    }
  }

  lemma {:induction false} UnmountedDestroyed(count: nat, n: nat)
    requires n <= count
    ensures DestroySurfaceBelow(Unmounted(count), 0, n) == Unmounted(count)
  {
    if n > 0 {
      UnmountedDestroyed(count, n - 1);
    }
  }

  /** More views than the host has places for are not committed. */
  lemma TooManyViews(count: nat, total: nat)
    requires count < total
    ensures !CommitUpTo(WILLING, Unmounted(count), 0, true, Views(total), total).ok
  {
    ViewsMounted(count, total, count);
    assert FreeFrom(Viewing(count, count), 0).None?;
    FailureSticks(Committer(WILLING, 0), Unmounted(count), Views(total), count + 1, total);
  }

  lemma ViewsBuildOk(count: nat, i: nat)
    requires i < count
    ensures BuildOk(Views(count), i)
  {
  }

  /** Any number of views, more than a host takes at a time: one transaction on a host that takes
      them mounts them, and their batches do not. */
  lemma OversizeMountRefused(maxOperations: nat, count: nat)
    requires maxOperations < count && maxOperations < MAX_MOUNT_OPERATIONS
    ensures var s, source := Unmounted(count), BoundedText("page", false);
            && Execute(WILLING, count, true, s, Whole(0, source, Views(count))).ok
            && !RunBatches(Executing(WILLING, maxOperations, true), s, Split(0, source, Views(count)), 0).ok
  {
    var s, source, operations := Unmounted(count), BoundedText("page", false), Views(count);
    NoHolders(s.slots);
    UnmountedDestroyed(count, count);
    ViewsMounted(count, count, count);
    forall i | 0 <= i < count ensures BuildOk(operations, i) {
      ViewsBuildOk(count, i);
    }
    FullExecutes(WILLING, count, s, Whole(0, source, operations));
    BatchedEqualsSingle(WILLING, maxOperations, true, s, 0, source, operations);
  }

  /** Batches of one surface, more than one to the mount, run to their end or leave nothing of the
      surface behind, whatever they hold and whatever fails. */
  lemma {:induction false} FailedBatchesLeaveNothing(
    native: Native, maxOperations: nat, rootOk: bool, s: State, surface: SurfaceId, batches: seq<Transaction>, k: nat)
    requires k <= |batches| && Tables(s)
    requires forall j :: 0 <= j < |batches| ==> batches[j].surface == surface && batches[j].batchCount > 1
    ensures var run := RunBatches(Executing(native, maxOperations, rootOk), s, batches, k);
            && Tables(run.s) && SameElsewhere(s.slots, run.s.slots, surface)
            && (!run.ok ==> NoSlotOf(run.s.slots, surface) && NoBindingOf(run.s.bindings, surface))
    decreases |batches| - k
  {
    if k < |batches| {
      var step := Execute(native, maxOperations, rootOk, s, batches[k]);
      ExecuteKeepsTables(native, maxOperations, rootOk, s, batches[k]);
      if step.ok {
        FailedBatchesLeaveNothing(native, maxOperations, rootOk, step.s, surface, batches, k + 1);
        SameElsewhereTwice(
          s.slots, step.s.slots,
          RunBatches(Executing(native, maxOperations, rootOk), step.s, batches, k + 1).s.slots, surface);
      } else {
        FailureLeavesNothing(native, maxOperations, rootOk, s, batches[k]);
      }
    }
  }
}
