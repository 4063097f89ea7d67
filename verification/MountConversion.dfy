/** How the core's mount transactions become batches for the mount host. */
module MountConversion {
  import opened Wrappers
  import opened MountModel
  import opened MountBatches

  const MAX_BATCH_COUNT := 64
  const INT32_MIN := -0x8000_0000
  const INT32_MAX := 0x7FFF_FFFF

  datatype CoreValue = CoreFlag(on: bool) | CoreNumber(number: real) | CoreText(text: string)

  datatype CoreOperation =
    | CoreCreate(node: NodeId, kind: HostType)
    | CoreSetProp(node: NodeId, name: string, value: CoreValue)
    | CoreSetLayout(node: NodeId, rect: Rect)
    | CoreInsert(node: NodeId, parent: NodeId, index: nat)
    | CoreMove(node: NodeId, parent: NodeId, index: nat)
    | CoreRemove(node: NodeId)

  datatype CoreTransaction = CoreTransaction(surface: SurfaceId, source: string, full: bool, operations: seq<CoreOperation>)

  datatype ConvertError = QueueOverflow | AbiInvalidArgument | HostFeatureUnsupported

  function Bounded(value: string): BoundedText {
    if |value| <= MAX_PROPERTY_TEXT then BoundedText(value, false) else BoundedText(value[..MAX_PROPERTY_TEXT], true)
  }

  function ConvertText(value: string): Result<BoundedText, ConvertError> {
    if Bounded(value).truncated then Failure(AbiInvalidArgument) else Success(Bounded(value))
  }

  predicate KeepsNumber(name: string) {
    name in ["min", "max", "step", "value", "selected"]
  }

  predicate NumberFits(name: string, number: real) {
    && (KeepsNumber(name) || name == "borderRadius" || name == "fontSize")
    && 0.0 <= number <= INT32_MAX as real && number == number.Floor as real
    && (name == "fontSize" ==> 1.0 <= number <= 256.0)
  }

  function ConvertValue(name: string, value: CoreValue): Result<Value, ConvertError> {
    match value
    case CoreFlag(on) => Success(Flag(on))
    case CoreText(text) =>
      (match ConvertText(text)
       case Success(bounded) => Success(Words(bounded))
       case Failure(error) => Failure(error))
    case CoreNumber(number) =>
      if !NumberFits(name, number) then Failure(HostFeatureUnsupported)
      else if KeepsNumber(name) then Success(Number(number))
      else Success(Integer(number.Floor))
  }

  predicate IsInt32(x: int) {
    INT32_MIN <= x <= INT32_MAX
  }

  predicate RectFits(rect: Rect) {
    IsInt32(rect.x) && IsInt32(rect.y) && 0 <= rect.width <= INT32_MAX && 0 <= rect.height <= INT32_MAX
  }

  function ConvertOperation(op: CoreOperation): Result<Operation, ConvertError> {
    match op
    case CoreCreate(node, kind) => Success(CreateHost(node, kind))
    case CoreSetProp(node, name, value) =>
      (match ConvertText(name)
       case Failure(error) => Failure(error)
       case Success(bounded) =>
         match ConvertValue(name, value)
         case Failure(error) => Failure(error)
         case Success(converted) => Success(SetHostProp(node, bounded, converted)))
    case CoreSetLayout(node, rect) => if RectFits(rect) then Success(SetHostLayout(node, rect)) else Failure(AbiInvalidArgument)
    case CoreInsert(node, parent, index) => Success(InsertHostChild(node, parent, index))
    case CoreMove(node, parent, index) => Success(MoveHost(node, parent, index))
    case CoreRemove(node) => Success(RemoveHost(node))
  }

  /** The first `n` operations in order, or the first error among them. */
  function ConvertUpTo(operations: seq<CoreOperation>, n: nat): (r: Result<seq<Operation>, ConvertError>)
    requires n <= |operations|
    ensures r.Success? ==> |r.value| == n
  {
    if n == 0 then Success([])
    else
      var before := ConvertUpTo(operations, n - 1);
      if before.Failure? then before
      else
        match ConvertOperation(operations[n - 1])
        case Failure(error) => Failure(error)
        case Success(op) => Success(before.value + [op])
  }

  /** An incremental transaction is one batch. */
  function OneBatch(surface: SurfaceId, source: BoundedText, operations: seq<Operation>): Transaction {
    Transaction(surface, source, false, operations, 0, 1, true)
  }

  function Convert(t: CoreTransaction): Result<seq<Transaction>, ConvertError> {
    if t.operations == [] || (!t.full && |t.operations| > MAX_MOUNT_OPERATIONS) then Failure(QueueOverflow)
    else if t.full && BatchCount(|t.operations|) > MAX_BATCH_COUNT then Failure(QueueOverflow)
    else
      var source := ConvertText(t.source);
      if source.Failure? || t.source == "" then Failure(AbiInvalidArgument)
      else
        match ConvertUpTo(t.operations, |t.operations|)
        case Failure(error) => Failure(error)
        case Success(operations) =>
          Success(if t.full then Split(t.surface, source.value, operations)
                  else [OneBatch(t.surface, source.value, operations)])
  }

  // ----- What conversion keeps -----

  /** Converted operations say the same of the same nodes. */
  predicate SameMeaning(op: CoreOperation, converted: Operation) {
    match op
    case CoreCreate(node, kind) => converted == CreateHost(node, kind)
    case CoreSetProp(node, name, value) =>
      && converted.SetHostProp? && converted.node == node && converted.property == BoundedText(name, false)
      && SameValue(value, converted.value)
    case CoreSetLayout(node, rect) => converted == SetHostLayout(node, rect) && rect.width >= 0 && rect.height >= 0
    case CoreInsert(node, parent, index) => converted == InsertHostChild(node, parent, index)
    case CoreMove(node, parent, index) => converted == MoveHost(node, parent, index)
    case CoreRemove(node) => converted == RemoveHost(node)
  }

  predicate SameValue(value: CoreValue, converted: Value) {
    match value
    case CoreFlag(on) => converted == Flag(on)
    case CoreNumber(number) =>
      converted == Number(number) || (converted.Integer? && converted.integer as real == number && converted.integer >= 0)
    case CoreText(text) => converted == Words(BoundedText(text, false))
  }

  /** Operation by operation, conversion keeps the meaning and the order. */
  lemma {:induction false} ConvertKeepsMeaning(operations: seq<CoreOperation>, n: nat)
    requires n <= |operations| && ConvertUpTo(operations, n).Success?
    ensures forall i :: 0 <= i < n ==> SameMeaning(operations[i], ConvertUpTo(operations, n).value[i])
  {
    if n > 0 {
      ConvertKeepsMeaning(operations, n - 1);
    }
  }

  /** Batches are numbered in order, the last one and only that is final, and they share surface and
      source. */
  ghost predicate WellFormed(batches: seq<Transaction>) {
    && batches != []
    && forall k :: 0 <= k < |batches| ==>
         && batches[k].batchIndex == k && batches[k].batchCount == |batches|
         && (batches[k].isFinal <==> k + 1 == |batches|)
         && batches[k].surface == batches[0].surface && batches[k].source == batches[0].source
  }

  /** The batches of a converted transaction, put together, are its operations one for one and in
      order; only the first of a full mount is full, and none is empty or too long. */
  lemma ConvertConcatenates(t: CoreTransaction)
    requires Convert(t).Success?
    ensures var batches := Convert(t).value;
            && WellFormed(batches) && |batches| <= MAX_BATCH_COUNT
            && |Flatten(batches)| == |t.operations|
            && (forall i :: 0 <= i < |t.operations| ==> SameMeaning(t.operations[i], Flatten(batches)[i]))
            && (forall k :: 0 <= k < |batches| ==>
                  && 0 < |batches[k].operations| <= MAX_MOUNT_OPERATIONS
                  && (batches[k].full <==> t.full && k == 0))
  {
    var operations := ConvertUpTo(t.operations, |t.operations|).value;
    ConvertKeepsMeaning(t.operations, |t.operations|);
    if t.full {
      BatchesConcatenate(t.surface, Bounded(t.source), operations);
    } else {
      var batch := OneBatch(t.surface, Bounded(t.source), operations);
      assert Flatten([batch]) == operations by {
        assert [batch][..0] == [] && Flatten([]) == [];
      }
    }
  }

  /** A core full mount that only builds, converted and run batch by batch, succeeds exactly when its
      operations do as one transaction and the host takes batches of that length; then it leaves the
      same tables and forest. */
  lemma ConvertedMountsTheSame(
    native: Native, maxOperations: nat, rootOk: bool, s: State, t: CoreTransaction)
    requires t.full && Convert(t).Success? && MountTables.Tables(s)
    requires BuildsOnly(ConvertUpTo(t.operations, |t.operations|).value)
    ensures var operations := ConvertUpTo(t.operations, |t.operations|).value;
            var single := Execute(native, |operations|, rootOk, s, Whole(t.surface, Bounded(t.source), operations));
            var batched := RunBatches(Executing(native, maxOperations, rootOk), s, Convert(t).value, 0);
            && (batched.ok <==> single.ok && Min(|operations|, MAX_MOUNT_OPERATIONS) <= maxOperations)
            && (batched.ok ==> batched == single)
  {
    BatchedEqualsSingle(native, maxOperations, rootOk, s, t.surface, Bounded(t.source),
                        ConvertUpTo(t.operations, |t.operations|).value);
  }

  /** What the mount host's contract can say: texts that are not too long, whole numbers of 31 bits for the
      properties that take numbers, a font size from 1 to 256, and rectangles of 32 bits. */
  predicate Expressible(op: CoreOperation) {
    match op
    case CoreSetProp(_, name, CoreText(text)) => |name| <= MAX_PROPERTY_TEXT && |text| <= MAX_PROPERTY_TEXT
    case CoreSetProp(_, name, CoreFlag(_)) => |name| <= MAX_PROPERTY_TEXT
    case CoreSetProp(_, name, CoreNumber(number)) =>
      && name in ["min", "max", "step", "value", "selected", "borderRadius", "fontSize"]
      && 0.0 <= number <= 0x7FFF_FFFF as real && number.Floor as real == number
      && (name == "fontSize" ==> 1 <= number.Floor <= 256)
    case CoreSetLayout(_, rect) =>
      && -0x8000_0000 <= rect.x <= 0x7FFF_FFFF && -0x8000_0000 <= rect.y <= 0x7FFF_FFFF
      && 0 <= rect.width <= 0x7FFF_FFFF && 0 <= rect.height <= 0x7FFF_FFFF
    case _ => true
  }

  lemma OperationConverts(op: CoreOperation)
    ensures ConvertOperation(op).Success? <==> Expressible(op)
  {
  }

  lemma {:induction false} ConvertsUpTo(operations: seq<CoreOperation>, n: nat)
    requires n <= |operations|
    ensures ConvertUpTo(operations, n).Success? <==> forall i :: 0 <= i < n ==> Expressible(operations[i])
  {
    if n > 0 {
      ConvertsUpTo(operations, n - 1);
      OperationConverts(operations[n - 1]);
    }
  }

  /** A transaction converts exactly when it has operations, as an incremental one no more than a batch
      holds and as a full one no more than 64 batches do, a source that is not empty nor too long, and
      only operations that the mount host's contract can say. */
  lemma ConvertsExactly(t: CoreTransaction)
    ensures Convert(t).Success?
       <==> && 0 < |t.operations| <= (if t.full then 64 * 256 else 256)
            && 0 < |t.source| <= MAX_PROPERTY_TEXT
            && forall i :: 0 <= i < |t.operations| ==> Expressible(t.operations[i])
  {
    ConvertsUpTo(t.operations, |t.operations|);
    assert BatchCount(|t.operations|) <= 64 <==> |t.operations| <= 64 * 256;
  }

  // ----- The conversion as a loop -----

  /** Converts the operations of one batch into it, one after the other. */
  method ConvertSlice(operations: seq<CoreOperation>, begin: nat, end: nat, ghost done: seq<Operation>)
    returns (r: Result<seq<Operation>, ConvertError>)
    requires begin <= end <= |operations| && ConvertUpTo(operations, begin) == Success(done)
    ensures r.Success? ==> ConvertUpTo(operations, end) == Success(done + r.value) && |r.value| == end - begin
    ensures r.Failure? ==> ConvertUpTo(operations, |operations|) == Failure(r.error)
  {
    var batch: seq<Operation> := [];
    assert done + batch == done;
    for i := begin to end
      invariant ConvertUpTo(operations, i) == Success(done + batch) && |batch| == i - begin
    {
      var op := ConvertOperation(operations[i]);
      if op.Failure? {
        FailsAt(operations, i + 1, |operations|);
        return Failure(op.error);
      }
      assert done + batch + [op.value] == done + (batch + [op.value]);
      batch := batch + [op.value];
    }
    return Success(batch);
  }

  lemma {:induction false} FailsAt(operations: seq<CoreOperation>, m: nat, n: nat)
    requires m <= n <= |operations| && ConvertUpTo(operations, m).Failure?
    ensures ConvertUpTo(operations, n) == ConvertUpTo(operations, m)
    decreases n - m
  {
    if m < n {
      FailsAt(operations, m, n - 1);
    }
  }

  /** Fills the batches of a full mount in turn. */
  method ConvertFull(t: CoreTransaction, source: BoundedText) returns (r: Result<seq<Transaction>, ConvertError>)
    requires t.operations != []
    ensures match ConvertUpTo(t.operations, |t.operations|)
            case Failure(error) => r == Failure(error)
            case Success(operations) => r == Success(Split(t.surface, source, operations))
  {
    var n := |t.operations|;
    var batches: seq<Transaction> := [];
    ghost var done: seq<Operation> := [];
    for k := 0 to BatchCount(n)
      invariant ConvertUpTo(t.operations, BatchStart(n, k)) == Success(done)
      invariant FilledUpTo(t.surface, source, done, n, batches, k)
    {
      BatchEnds(n, k);
      var slice := ConvertSlice(t.operations, BatchStart(n, k), BatchStart(n, k + 1), done);
      if slice.Failure? { return Failure(slice.error); }
      FilledNext(t.surface, source, done, n, batches, k, slice.value);
      batches := batches + [Filled(t.surface, source, slice.value, n, k)];
      done := done + slice.value;
    }
    BatchEnds(n, BatchCount(n) - 1);
    assert batches == Split(t.surface, source, done) by {
      FilledAll(t.surface, source, done, batches);
    }
    return Success(batches);
  }

  /** The operations of batch `j`, once they have all been converted. */
  function Piece(done: seq<Operation>, n: nat, j: nat): seq<Operation> {
    var a, b := BatchStart(n, j), BatchStart(n, j + 1);
    if a <= b <= |done| then done[a..b] else []
  }

  function Filled(surface: SurfaceId, source: BoundedText, piece: seq<Operation>, n: nat, j: nat): Transaction {
    Transaction(surface, source, j == 0, piece, j, BatchCount(n), j + 1 == BatchCount(n))
  }

  /** The first `k` batches hold the operations converted so far. */
  ghost predicate FilledUpTo(
    surface: SurfaceId, source: BoundedText, done: seq<Operation>, n: nat, batches: seq<Transaction>, k: nat)
  {
    && |batches| == k <= BatchCount(n) && |done| == BatchStart(n, k)
    && forall j :: 0 <= j < k ==> batches[j] == Filled(surface, source, Piece(done, n, j), n, j)
  }

  lemma StartsGrow(n: nat, j: nat, k: nat)
    requires j <= k
    ensures BatchStart(n, j) <= BatchStart(n, k)
  {
  }

  lemma PieceStays(done: seq<Operation>, more: seq<Operation>, n: nat, j: nat, k: nat)
    requires j < k && |done| == BatchStart(n, k)
    ensures Piece(done + more, n, j) == Piece(done, n, j)
  {
    StartsGrow(n, j, j + 1);
    StartsGrow(n, j + 1, k);
    PrefixSlice(done, more, BatchStart(n, j), BatchStart(n, j + 1));
  }

  lemma PrefixSlice(done: seq<Operation>, more: seq<Operation>, a: nat, b: nat)
    requires a <= b <= |done|
    ensures (done + more)[a..b] == done[a..b]
  {
  }

  lemma SuffixSlice(done: seq<Operation>, more: seq<Operation>, b: nat)
    requires b == |done| + |more|
    ensures (done + more)[|done|..b] == more
  {
  }

  lemma FilledNext(
    surface: SurfaceId, source: BoundedText, done: seq<Operation>, n: nat, batches: seq<Transaction>, k: nat,
    slice: seq<Operation>)
    requires FilledUpTo(surface, source, done, n, batches, k) && k < BatchCount(n)
    requires |slice| == BatchStart(n, k + 1) - BatchStart(n, k)
    ensures FilledUpTo(surface, source, done + slice, n, batches + [Filled(surface, source, slice, n, k)], k + 1)
  {
    forall j | 0 <= j < k ensures Piece(done + slice, n, j) == Piece(done, n, j) {
      PieceStays(done, slice, n, j, k);
    }
    SuffixSlice(done, slice, BatchStart(n, k + 1));
  }

  lemma FilledAll(surface: SurfaceId, source: BoundedText, done: seq<Operation>, batches: seq<Transaction>)
    requires done != [] && FilledUpTo(surface, source, done, |done|, batches, BatchCount(|done|))
    ensures batches == Split(surface, source, done)
  {
    forall k | 0 <= k < |batches| ensures batches[k] == Batch(surface, source, done, k) {
      BatchEnds(|done|, k);
    }
  }

  /** Converts a transaction, batch by batch. */
  method ConvertTransaction(t: CoreTransaction) returns (r: Result<seq<Transaction>, ConvertError>)
    ensures r == Convert(t)
  {
    if t.operations == [] || (!t.full && |t.operations| > MAX_MOUNT_OPERATIONS) { return Failure(QueueOverflow); }
    var count := if t.full then BatchCount(|t.operations|) else 1;
    if count > MAX_BATCH_COUNT { return Failure(QueueOverflow); }
    var source := ConvertText(t.source);
    if source.Failure? { return Failure(source.error); }
    if |source.value.chars| == 0 { return Failure(AbiInvalidArgument); }
    if t.full {
      r := ConvertFull(t, source.value);
    } else {
      var slice := ConvertSlice(t.operations, 0, |t.operations|, []);
      assert slice.Success? ==> [] + slice.value == slice.value;
      r := match slice
      case Failure(error) => Failure(error)
      case Success(operations) => Success([OneBatch(t.surface, source.value, operations)]);
    }
  }
}
