# Verified model of the LVGL platform adapter

The adapter sits between a platform-independent core and an LVGL display. This project models the
parts of it that keep hard properties and proves those properties with Dafny 4.11. All of them lie
above the calls into LVGL, SDL and libuv.

`dafny verify dfyconfig.toml` checks the whole project.

## What is modelled

* **Text measurement.** A strict UTF-8 decoder, fixed-point scaling with wide intermediates, and a
  greedy line breaker whose byte cursor jumps back to the last break opportunity. The loop is proved
  equal to a recursive layout over code points (`TextLayout`), and that layout to partition the text,
  to fit, and to use the fewest lines. Files: `Utf8`, `FixedPoint`, `FontMetrics`, `TextLayout`,
  `FontMeasure`, `LineBreaking`, `FewestLines`, `MeasuredSizes`.
* **Batched mounting.** The host's slot tables, font reference counts, event bindings and subtree
  deletion over an abstract forest; the split of a full mount into batches; the conversion from the
  core's operations; the transaction pool between callers and the owner queue; the bridge that takes a
  core transaction through its batches, its presentation and its result; the bridge together with its
  mount host, and what a surface shows (`SamePicture`: nodes, properties, layouts, font sizes, places
  and the order of children). Files: `MountModel`, `MountTables`, `MountBatches`, `MountForests`,
  `MountCycles`, `MountFamilies`, `MountOrders`, `MountPictures`, `MountHandlers`, `MountPools`,
  `MountHosts`, `MountConversion`, `MountBridges`, `BridgeResults`, `BridgeOrder`, `FalseReports`,
  `BridgeCloses`, `BridgeCalls`, `BridgeRollbacks`, `BridgeProgress`, `CoreMountBridges`, `BridgedMounts`,
  `MountedReports`, `FailedMounts`.
* **Surface host.** Six commands over surface phases, admission with conflict and replay checks,
  execution as owner tasks, retried results and the close. Files: `SurfaceCommands`, `SurfaceOrder`,
  `SurfaceEffects`, `SurfaceProtocol`, `SurfaceServices`, `SurfaceCloses`, `SurfaceHosts`.
* **Font snapshot publisher.** Two slots, reader counts and a re-check, as interleaved atomic steps of
  one owner and any number of readers. File: `SnapshotPublisher`.
* **Owner queue and lifecycle.** A ring behind a try-lock that refines a first-in first-out queue, the
  coordinator that opens and stops the backends in stages, and the runtime host with its completions
  and its teardown. Files: `OwnerTasks`, `OwnerTaskQueues`, `BackendLifecycles`,
  `BackendCoordinators`, `RuntimeHosts`, `RuntimeStarts`, `RuntimeAnswers`, `RuntimeTeardowns`,
  `RuntimeHostObjects`.
* **Virtual list.** Slot allocation for the rows of a window, and the hit test. Files: `VirtualLists`,
  `VirtualListWindows`.

## How it is built

Each object that the source updates in place is a class whose methods change the same fields in the
same order and are proved to compute a function of the old state; the theorems are about those
functions, mostly over whole runs (`Run` or `History` of a list of events). What the code cannot
decide for itself is a parameter that ranges over all possibilities: whether a try-lock is free, what
a port, a backend or a native call answers (`Native`, `Answers`, `Ports`, `Setup`), and the order of
events. A parameter that may answer differently each time is indexed by a count of the attempts or
comes with the event it answers.
Fields of objects that count or list what happened (`accepted`, `fates`, `records`, `answers`) are
history; nothing the code does depends on them.

## What turned out not to hold

For each, the model keeps the code as it is, a lemma names a run or an input that shows it, and
another says exactly when the property does hold.

* A full mount of more operations than a host takes in one batch never mounts there. The bridge
  always cuts at 256, and the embedded limits allow 16 (src/mount/mount_host.cpp:342-344):
  `MountBatches.OversizeMountRefused`, `MountBatches.BatchedEqualsSingle`.
* A mounted report need not be true: a service of the bridge while a slot has a batch at the mount
  host posts the next batch (src/integration/core_mount_bridge.cpp:450), the failure of the batch at
  the host then goes unheard, and the failed mount is reported mounted. A core mount that shows it, run
  against the mount host: `BridgedMounts.CarelessServiceLies`. Exactly when such a turn can lead to a
  false report: `FalseReports.FalseReportIff`. What a report means without such turns:
  `BridgeOrder.MountedMeansMounted`, `MountedReports.MountedIsDrawn`.
* A full mount to be presented whose source is no request is never reported once it is mounted: there is
  nobody to ask for its presentation (src/integration/core_mount_bridge.cpp:365-370). Every other
  transaction can be: `BridgeProgress.ReportedInTheEndIff`.
* A result that waits when the bridge closes is never offered to the core again, as a closed bridge
  is not serviced (src/integration/core_mount_bridge.cpp:446): `BridgeCloses.ResultsStayAtClose`.
* A mount task that the owner queue drops keeps its transaction slot, so that the mount host's close
  stays busy for ever: `MountPools.CloseCanBlock`, `MountPools.DroppedBlocksClose`,
  `MountPools.CloseFinishesIff`.
* A command task that the owner queue drops does the same to the surface host's close:
  `SurfaceCloses.CloseCanBlock`, `SurfaceCloses.CloseCanFinishIff`.
* The publisher's look at the readers and its store of the close are separate steps, and a reader
  between them can be left holding a cleared snapshot: `SnapshotPublisher.SplitCloseBreaks`,
  `SnapshotPublisher.CloseIsSafeIff`.
* A scroll backward can give the slot of a row that stays to a row in front of it:
  `VirtualLists.BackwardLosesSlot`, `VirtualLists.SlotsStableIff`.
* A teardown whose stop of the backends gets busy half way is never finished:
  `RuntimeTeardowns.TeardownCanStick`, `RuntimeTeardowns.StuckForEver`, and when it happens and that
  it ends otherwise: `RuntimeTeardowns.SticksIff`, `RuntimeTeardowns.TeardownEndsIff`.
* A failed destroy is not without effect: `SurfaceCommands.FailureChangesNothing`. Creates do not
  commute, with each other or with a command that frees a record:
  `SurfaceOrder.CreatesDoNotCommute`, `SurfaceOrder.CreateCommutesIff`,
  `SurfaceOrder.CreateCommutesUpToOrder`.
* Scaling is not within half a unit for negative design units:
  `FixedPoint.NegativeUnitsRoundFurther`, `FixedPoint.ScalingWithinHalfIff`.
* An insert has no check against cycles, unlike a move, and a full mount can leave one:
  `MountCycles.CrossedMountAccepted`, `MountCycles.CrossedMountCycles`,
  `MountCycles.MountAcyclicIff`, `MountForests.ReparentAcyclic`.

## Model

| member | source | states |
|---|---|---|
| Utf8.NextCodePoint | src/measure/font_measure.cpp:31-75 | Succeeds exactly where a character of the grammar of RFC 3629, section 4, starts; then the bytes passed over are the encoding (section 3) of the scalar value returned |
| Utf8.Continue | src/measure/font_measure.cpp:61-67 | The continuation loop succeeds exactly on tail bytes and assembles six bits of each |
| Utf8.MultiByte | src/measure/font_measure.cpp:68-74 | The range tests on the assembled value accept exactly the well-formed sequences, and an accepted value encodes back to the bytes read |
| Utf8.RangeTestsDecide | src/measure/font_measure.cpp:44-74 | Inside a text: with the announced tail bytes in place, a character starts there if and only if the range tests pass |
| Utf8.EncodingIsWellFormed | src/measure/font_measure.cpp:31-75 | Every encoding of a scalar value matches the grammar, so the decoder accepts it |
| Utf8.SectionsAgree | src/measure/font_measure.cpp:31-75 | The grammar generates exactly the encodings of scalar values: what the decoder accepts is what sections 3 and 4 of RFC 3629 both describe |
| Utf8.OneCharPerPosition | src/measure/font_measure.cpp:31-75 | At most one character starts at a position, so a decoded length is determined |
| Utf8.EncodeInjective | src/measure/font_measure.cpp:31-75 | No two scalar values share an encoding |
| Utf8.DecodesBack | src/measure/font_measure.cpp:31-75 | Decoding at a boundary of an encoded text returns the code point there and stops at the next boundary |
| Utf8.BoundaryStartsChar | src/measure/font_measure.cpp:239-243 | Decoding cannot fail at a boundary of an encoded text |
| Utf8.EncodeAllInjective | src/measure/font_measure.cpp:204-220 | A text decodes to at most one sequence of code points |
| Utf8.PrefixOfText | src/measure/font_measure.cpp:204-220 | Decodable beginnings of one text are beginnings of each other |
| FixedPoint.AddQ26 | src/measure/font_measure.cpp:110-118 | Succeeds exactly when the true sum is a non-negative 64-bit value, is that sum, and never leaves 64 bits on the way |
| FixedPoint.ScalingFits128 | src/measure/font_measure.cpp:97-101 | The product and the sum before the division fit the 128-bit intermediates, for all inputs |
| FixedPoint.ScalingMonotone | src/measure/font_measure.cpp:91-108 | Scaling is monotone in the design units, negative ones included |
| FixedPoint.ScalingWithinHalf | src/measure/font_measure.cpp:99-101 | Scaling non-negative units is within half a Q26.6 unit of the exact quotient |
| FixedPoint.ScalingWithinHalfIff | src/measure/font_measure.cpp:99-101 | Over all design units: the rounding is within half a Q26.6 unit if and only if the units are not negative, or the product is at most half an em below zero, or it lies half an em beyond a whole result |
| FixedPoint.NegativeUnitsRoundFurther | src/measure/font_measure.cpp:99-101 | The half-unit bound is lost below zero: a concrete input |
| TextLayout.FourTimes | src/measure/font_measure.cpp:287-290 | A tab is four advances, and fails exactly when that is negative or over 64 bits |
| TextLayout.MaxWidthIsMaximum | src/measure/font_measure.cpp:254-336 | The width kept over the lines is their maximum |
| FontMeasure.Validate | src/measure/font_measure.cpp:204-220 | Refused for a limit exactly when some decodable beginning of the text is over one; otherwise refused exactly when the text is not an encoding; otherwise the code points are returned |
| FontMeasure.StuckMeansAllSeen | src/measure/font_measure.cpp:208-211 | Where decoding stops, every decodable beginning of the text has been seen |
| FontMeasure.NothingOverLimit | src/measure/font_measure.cpp:208-220 | What the counts at the end of the pass say of all decodable beginnings |
| FontMeasure.ReadAt | src/measure/font_measure.cpp:240-243 | After validation the read in the wrap loop cannot fail, returns the code point at the cursor and moves to the next boundary |
| FontMeasure.SkipHardBreak | src/measure/font_measure.cpp:244-272 | The probe past a carriage return takes a following line feed with it and nothing else |
| FontMeasure.AdvanceGlyph | src/measure/font_measure.cpp:273-303 | The kerned advance of a glyph, or its error, as the layout defines it |
| FontMeasure.WidthWithGlyph | src/measure/font_measure.cpp:273-307 | The width with one glyph more is the candidate of the layout |
| FontMeasure.GoBack | src/measure/font_measure.cpp:308-326 | The byte cursor jumps to where the layout cuts the line, and the width kept is that of the cut |
| FontMeasure.HardStep | src/measure/font_measure.cpp:254-271 | A hard break keeps the loop in step with the layout |
| FontMeasure.WrapStep | src/measure/font_measure.cpp:308-327 | A wrap keeps the loop in step with the layout, or is its line-limit error |
| FontMeasure.GrowStep | src/measure/font_measure.cpp:328-334 | A glyph that fits keeps the loop in step with the layout |
| FontMeasure.GrowInBytes | src/measure/font_measure.cpp:328-334 | The loop's byte variables keep naming the code points of the layout |
| FontMeasure.WrapLoop | src/measure/font_measure.cpp:228-336 | The loop with its backward jumps terminates, its cursor is always on a boundary, and it returns exactly the line count and maximum width of the recursive layout, or its error |
| FontMeasure.MeasureWithSnapshot | src/measure/font_measure.cpp:164-370 | The whole measurement of a text equals that of its code points: error order, constraint clamps and height overflow included |
| LineBreaking.ScanMeans | src/measure/font_measure.cpp:239-335 | What one scan finds: the longest settable beginning, the glyph that blocks it, and the last break opportunity before |
| LineBreaking.FirstLine | src/measure/font_measure.cpp:239-335 | The first line of a layout is cut at an allowed place and fits, and the rest is the layout from there |
| LineBreaking.LayoutPartitions | src/measure/font_measure.cpp:228-336 | The lines cut the text into consecutive pieces between hard breaks, each ends at an allowed place, and each fits unless its last glyph was added at width zero |
| FewestLines.WidthIsSum | src/measure/font_measure.cpp:280-307 | Without kerning the width of a line is the sum of its advances, or no width when that is over 64 bits |
| FewestLines.ReachesAsFar | src/measure/font_measure.cpp:308-326 | A greedy line that starts within an admissible line reaches at least as far as it |
| FewestLines.StaysAhead | src/measure/font_measure.cpp:304-335 | The greedy layout from a later start needs no more lines than any cutting from an earlier one |
| FewestLines.GreedyIsOptimal | src/measure/font_measure.cpp:304-335 | No way to cut the text within the limit has fewer lines, and if some way keeps the line limit the layout succeeds |
| FewestLines.GreedyIsCutting | src/measure/font_measure.cpp:304-335 | The greedy lines are themselves such a way |
| FewestLines.WiderNeverMoreLines | src/measure/font_measure.cpp:304-335 | Raising the width limit never increases the line count; and where the advances add up to 64 bits, a layout that succeeds also succeeds with the wider limit |
| FewestLines.WidthNearExact | src/measure/font_measure.cpp:280-307 | Any tab-free line of n glyphs of a family without kerning and without negative advances is within n/2 units of its exact width |
| MeasuredSizes.MeasuredSize | src/measure/font_measure.cpp:338-359 | Of any valid text within the limits: too high exactly when the lines together are over 64 bits, negative exactly when their height is and is not asked for exactly, otherwise an error of the line height or the layout; and a size allows for each side: the natural one (widest line, lines times line height) when unconstrained, at most both and equal to one of them when at most, the one asked for when exact |
| MeasuredSizes.MeasuredExactly | src/measure/font_measure.cpp:338-359 | With a line height that is not negative, as the snapshots ask for, no text measures negative, and the natural height is exactly the lines times the line height |
| MeasuredSizes.LayoutFailure | src/measure/font_measure.cpp:228-336 | A layout that fails met a glyph that cannot be set after those before it on some line, unsupported exactly if no range covers it, or wrapped into more lines than it may have |
| MeasuredSizes.NothingToMeasure | src/measure/font_measure.cpp:183-202 | The empty text is as large as is asked for exactly, and otherwise nothing |
| MeasuredSizes.KernsInOrder | src/measure/font_measure.cpp:290-303 | A family with the one pair (a, v): "av" is narrower than its glyphs by just that adjustment, "va" is not |
| MeasuredSizes.KerningNeverWidens | src/measure/font_measure.cpp:290-303 | A pair that kerning would move apart is refused as invalid |
| MeasuredSizes.TabIsFourSpaces | src/measure/font_measure.cpp:273-289 | A tab is four times as wide as the family says a space is, whatever the advance of its space glyph, or overflows |
| MeasuredSizes.ExceedsIff | src/measure/font_measure.cpp:204-220 | An encoded text is over the limits exactly if it has more code points than one, or as many line feeds as the other |
| MeasuredSizes.ExactlyWrapsAlike | src/measure/font_measure.cpp:227-359 | Asked for a width exactly, a text fails as, and measures as high as, when asked for at most that width |
| FontMetrics.FontFamilyMetrics.constructor | src/measure/font_metrics.cpp:60-73 | A new family has the default metrics and empty tables |
| FontMetrics.FontFamilyMetrics.AddRange | src/measure/font_metrics.cpp:14-21 | Refuses exactly an empty range, a negative advance and a full table; otherwise appends |
| FontMetrics.FontFamilyMetrics.AddKerning | src/measure/font_metrics.cpp:23-29 | Refuses exactly a full table; otherwise appends |
| FontMetrics.FontFamilyMetrics.HasGlyph | src/measure/font_metrics.cpp:31-38 | True exactly when a range covers the code point |
| FontMetrics.FontFamilyMetrics.AdvanceOf | src/measure/font_metrics.cpp:40-48 | The advance of the first range that covers the code point, or zero |
| FontMetrics.FontFamilyMetrics.KerningOf | src/measure/font_metrics.cpp:50-58 | The adjustment of the first pair that matches, or zero |
| FontMetrics.AppendedRange | src/measure/font_metrics.cpp:14-48 | A range added changes only code points that no earlier range covers |
| FontMetrics.AppendedKerning | src/measure/font_metrics.cpp:23-58 | A pair added changes only pairs that no earlier one names |
| FontMetrics.FoundRange | src/measure/font_metrics.cpp:31-48 | The search finds a range exactly when one covers the code point |
| FontMetrics.LookupsInRange | src/measure/font_metrics.cpp:40-58 | Looked-up metrics keep the 32-bit width of the tables |
| MountTables.AcquireCounts | src/mount/mount_host.cpp:742-770 | Acquiring a font raises the count of the instance returned by one and of no other, keeps one instance per size, and keeps live meaning counted |
| MountTables.ReleaseKeepsCounts | src/mount/mount_host.cpp:772-779 | Clearing a slot and giving its font back keeps each count equal to the number of holders |
| MountTables.ClearedBindings | src/mount/mount_host.cpp:1558-1622 | Clearing the bindings of removed slots leaves bindings of live slots only |
| MountTables.DestroySlotSlots | src/mount/mount_host.cpp:1543-1635 | Destroying a slot removes it and only slots of its surface |
| MountTables.DestroySlotKeeps | src/mount/mount_host.cpp:1543-1635 | Destroying a subtree keeps all tables in agreement |
| MountTables.DestroySurfaceClears | src/mount/mount_host.cpp:1644-1653 | Clearing a surface leaves none of its slots and bindings and every slot of the others |
| MountTables.CreateKeeps | src/mount/mount_host.cpp:1006-1100 | A create, at whatever point it fails, keeps the tables |
| MountTables.SwappedFont | src/mount/mount_host.cpp:1346-1355 | A font change counts the new instance before it gives the old one back, also when they are the same |
| MountTables.CommitKeeps | src/mount/mount_host.cpp:1001-1433 | Each commit step keeps the tables, also when it fails |
| MountTables.CommitUpToKeeps | src/mount/mount_host.cpp:1001-1433 | Any number of commit steps of a transaction that passed preflight keeps the tables and other surfaces, and adds slots only for nodes created |
| MountTables.PreflightCreatesNew | src/mount/mount_host.cpp:877-914 | After preflight no create names a node that exists or was created before |
| MountTables.ExecuteKeepsTables | src/mount/mount_host.cpp:975-1438 | Between transactions: one live slot per node, font counts equal to holders, live fonts counted, bindings of live slots; other surfaces keep their slots |
| MountTables.FailureLeavesNothing | src/mount/mount_host.cpp:984-995 | A failure after preflight, or of any batch of several, leaves no slot, no binding and no font reference of the surface |
| MountTables.RefusedLeavesAll | src/mount/mount_host.cpp:984-995 | A transaction that is no batch of several, refused for want of a root or by preflight, leaves slots, fonts, objects and bindings as they were |
| MountTables.SucceededWas | src/mount/mount_host.cpp:850-973 | A transaction that succeeds was under a root, with operations but not too many, a source that is there and whole and its place among its batches said right; a full one creates, neither moves nor removes and is no later batch; nothing in it is improper, and each node an operation is about is there or created before |
| MountTables.AbsentNodeChangesNothing | src/mount/mount_host.cpp:898-995 | An incremental transaction of one batch about a node that is neither there nor created before is refused and changes nothing |
| MountBatches.BatchesConcatenate | src/integration/core_mount_bridge.cpp:125-206 | The batches concatenate back to the operations in order, and none is empty or over 256 |
| MountBatches.LaterBatchOk | src/mount/mount_host.cpp:877-970 | After the operations before it, preflight asks of an operation of a later batch exactly what it asks in the full mount |
| MountBatches.LaterPreflight | src/mount/mount_host.cpp:850-973 | A later batch passes preflight exactly when its operations are acceptable in the full mount |
| MountBatches.CommittedNodes | src/mount/mount_host.cpp:1001-1433 | After a successful part of a full mount the surface has slots for exactly the nodes created |
| MountBatches.RunSlice | src/mount/mount_host.cpp:1001-1433 | Committing a later slice from where the operations before it led is committing on |
| MountBatches.FirstBatchExecutes | src/mount/mount_host.cpp:975-1438 | The first batch does what the full mount does with its operations |
| MountBatches.LaterBatchExecutes | src/mount/mount_host.cpp:975-1438 | A later batch, run where those before it led, does what the full mount does with its operations |
| MountBatches.BatchesFinish | src/mount/mount_host.cpp:975-1438 | Steps that each advance a common progress end with all of it |
| MountBatches.BatchesBuild | src/mount/mount_host.cpp:975-1438 | The batches in order come to what their operations come to |
| MountBatches.BatchedEqualsSingle | src/mount/mount_host.cpp:850-973 | A building full mount, split and run batch by batch, succeeds exactly when the list does as one transaction and the host takes batches of that length; then tables and forest are the same |
| MountBatches.OversizeMountRefused | src/mount/mount_host.cpp:850-862 | Any number of views above the host's limit and that limit below 256: one transaction mounts them where it is taken, their batches never do |
| MountBatches.FailedBatchesLeaveNothing | src/mount/mount_host.cpp:984-995 | Any batches of one mount run to their end or leave nothing of the surface, whatever fails |
| MountForests.UnderIsUnbounded | src/mount/mount_host.cpp:956-962 | Where there is no cycle the walk up finds the same with any larger number of steps |
| MountForests.WalkIsLongEnough | src/mount/mount_host.cpp:1550-1556 | No walk up is cut short by its bound |
| MountForests.ReparentAcyclic | src/mount/mount_host.cpp:1399-1415 | Putting an object under another keeps the objects free of cycles if and only if the other is not in its subtree |
| MountCycles.CrossedMountAccepted | src/mount/mount_host.cpp:939-943 | A full mount that inserts two nodes each under the other passes preflight, whatever is mounted |
| MountCycles.CrossedMountCycles | src/mount/mount_host.cpp:1389-1402 | On an empty host that mount is committed and leaves a cycle |
| MountCycles.MountAcyclicIff | src/mount/mount_host.cpp:1389-1402 | A full mount that succeeds leaves the objects free of cycles if and only if its insert edges form no cycle |
| MountCycles.OneMoveKeepsForest | src/mount/mount_host.cpp:945-963 | An incremental transaction with no insert and at most one move, wherever it stands among creates, removes and properties, leaves the objects free of cycles, whether it succeeds or not |
| MountCycles.StillApart | src/mount/mount_host.cpp:956-962 | What was not below another when preflight looked is not below it when a move is committed, if only creates and removes came between |
| MountHandlers.BindingOf | src/mount/mount_host.cpp:487-494 | The first live binding of the node from a place on; none exactly when there is none |
| MountHandlers.InstallKeeps | src/mount/mount_host.cpp:480-720 | Installing a handler keeps the tables, and a node never has two live handlers of a kind |
| MountHandlers.ExecuteKeepsOneBinding | src/mount/mount_host.cpp:975-1438 | No transaction gives a node a second handler of a kind |
| MountHandlers.InstallMeans | src/mount/mount_host.cpp:480-720 | A handler is installed exactly on a node of its kind that has one already or while there is room; it replaces the node's own or takes a free place, and nothing else changes |
| MountHandlers.DestroySlotClears | src/mount/mount_host.cpp:1558-1622 | Destroying a slot clears a binding exactly if the node it names loses its slot |
| MountHandlers.ExecuteLoses | src/mount/mount_host.cpp:975-1438 | A transaction, whether it succeeds or not, installs no handler and leaves those of every other surface in their places |
| MountPools.RunIsSound | src/mount/mount_host.cpp:1440-1495 | Over every run: accepted transactions leave the queue once each in the order of acceptance, waiting ones have slots of their own, and no more wait than the depth allows |
| MountPools.PostKeeps | src/mount/mount_host.cpp:1440-1485 | A post, also one made from inside a result, keeps that and leaves the host alone |
| MountPools.PostMeans | src/mount/mount_host.cpp:1440-1485 | A post is taken on exactly if the host accepts, the lock and a place are free, fewer than may wait, the transaction is not too large and the owner queue takes its task; then it waits in a place that was free. A refused one changes nothing |
| MountPools.RunKeepsTables | src/mount/mount_host.cpp:1440-1534 | Over every run of transactions, handlers, releases and the close the tables agree |
| MountPools.ReleaseClears | src/mount/mount_host.cpp:1521-1534 | A surface is released exactly when no transaction of it waits or runs, and then nothing of it is left and the others keep their slots |
| MountPools.CloseFinishesIff | src/mount/mount_host.cpp:1507-1519 | The close finishes exactly when nothing more is taken and every accepted transaction has run; a closed host holds no slot, binding or font |
| MountPools.DroppedBlocksClose | src/mount/mount_host.cpp:1507-1519 | After a run in which the owner queue dropped a task the close stays busy, whatever happens from then on |
| MountPools.CloseCanBlock | src/mount/mount_host.cpp:1507-1519 | A run of a post, a drop and a close after which the close stays busy for ever |
| MountPools.StoppedTakesNothing | src/mount/mount_host.cpp:1505 | Once admission has stopped no run accepts another transaction, also not one made from inside a result |
| MountPools.RunReplays | src/mount/mount_host.cpp:1474-1495 | However posts and tasks interleave, the host is what the accepted transactions make of it in order, and each is reported as it comes out |
| MountPools.MountedBatchesEqualWhole | src/mount/mount_host.cpp:1440-1495 | When an idle host accepts the batches of a building full mount and reports all of them mounted, it is as if the mount had been one transaction that succeeded |
| MountHosts.MountHost.constructor | src/mount/mount_host.cpp:346-369 | A new host is empty, its tables agree, and it accepts exactly with limits in range |
| MountHosts.MountHost.FindSlot | src/mount/mount_host.cpp:375-386 | The first live slot of the node |
| MountHosts.MountHost.FreeSlot | src/mount/mount_host.cpp:388-393 | The first free slot |
| MountHosts.MountHost.Below | src/mount/mount_host.cpp:956-962 | The walk up decides whether an object lies in a subtree |
| MountHosts.MountHost.CachedFont | src/mount/mount_host.cpp:748-754 | The first instance of the size |
| MountHosts.MountHost.FreeFont | src/mount/mount_host.cpp:755-762 | The first unused place |
| MountHosts.MountHost.AcquireFont | src/mount/mount_host.cpp:742-770 | In place: the cached instance of the size, or a new one, or none; its tables and counts |
| MountHosts.MountHost.ReleaseFont | src/mount/mount_host.cpp:772-779 | In place: one reference less; not live without any |
| MountHosts.MountHost.MarkRemoved | src/mount/mount_host.cpp:1546-1557 | Marks exactly the slots whose object lies in the subtree |
| MountHosts.MountHost.ClearHandlers | src/mount/mount_host.cpp:1558-1622 | Clears exactly the bindings of removed slots, one kind |
| MountHosts.MountHost.ClearAllHandlers | src/mount/mount_host.cpp:1558-1622 | The same for all seven kinds |
| MountHosts.MountHost.ClearSlots | src/mount/mount_host.cpp:1624-1634 | Clears the marked slots and gives their fonts back |
| MountHosts.MountHost.DestroySlot | src/mount/mount_host.cpp:1543-1635 | The whole new state after destroying a subtree |
| MountHosts.MountHost.DestroySurfaceObjects | src/mount/mount_host.cpp:1644-1653 | The whole new state after clearing a surface |
| MountHosts.MountHost.DestroyAllObjects | src/mount/mount_host.cpp:1637-1642 | The whole new state after destroying every slot from the highest down |
| MountHosts.MountHost.DestroyFonts | src/mount/mount_host.cpp:781-788 | Every font place is empty |
| MountHosts.MountHost.InstallHandler | src/mount/mount_host.cpp:480-720 | Replaces the node's binding or takes a free one; refused for no slot, a wrong type or no room |
| MountHosts.MountHost.WasCreated | src/mount/mount_host.cpp:889-896 | Whether a create of the node comes before |
| MountHosts.MountHost.HasOrCreates | src/mount/mount_host.cpp:877-888 | Whether the node exists, in an incremental transaction, or is created before |
| MountHosts.MountHost.CheckMove | src/mount/mount_host.cpp:945-963 | Both nodes are there and the parent does not lie below the child |
| MountHosts.MountHost.CheckOperation | src/mount/mount_host.cpp:898-971 | Whether preflight takes the operation |
| MountHosts.MountHost.CheckShape | src/mount/mount_host.cpp:863-875 | A full mount creates something and neither moves nor removes |
| MountHosts.MountHost.Preflight | src/mount/mount_host.cpp:850-973 | The whole preflight |
| MountHosts.MountHost.Give | src/mount/mount_host.cpp:1346-1355 | A slot's font is replaced, new reference before old |
| MountHosts.MountHost.Create | src/mount/mount_host.cpp:1006-1100 | A create and everything it leaves, at each point of failure |
| MountHosts.MountHost.SetFontSize | src/mount/mount_host.cpp:1336-1355 | A font size, unchanged when the slot has it already |
| MountHosts.MountHost.SetProp | src/mount/mount_host.cpp:1101-1369 | A property, with its form checked before the native side is asked |
| MountHosts.MountHost.SetLayout | src/mount/mount_host.cpp:1370-1388 | A layout of an existing node |
| MountHosts.MountHost.Insert | src/mount/mount_host.cpp:1389-1402 | A child is attached once, at its index |
| MountHosts.MountHost.Move | src/mount/mount_host.cpp:1403-1415 | A node moves under another, at its index |
| MountHosts.MountHost.Remove | src/mount/mount_host.cpp:1416-1423 | A node goes with its subtree |
| MountHosts.MountHost.CommitOne | src/mount/mount_host.cpp:1003-1425 | One operation of any kind |
| MountHosts.MountHost.CommitAll | src/mount/mount_host.cpp:1001-1433 | All operations in order, as far as they succeed |
| MountHosts.MountHost.Execute | src/mount/mount_host.cpp:975-1438 | A whole transaction: preflight, clearing, commit, rollback |
| MountHosts.MountHost.Post | src/mount/mount_host.cpp:1440-1485 | A transaction takes the first free slot and an owner task, or is refused for the first reason that applies |
| MountHosts.MountHost.RunTask | src/mount/mount_host.cpp:1487-1495 | The first task's transaction is executed, its result told, and only then its slot freed |
| MountHosts.MountHost.ReleaseSurface | src/mount/mount_host.cpp:1521-1534 | Busy while a transaction of the surface waits; otherwise the surface is cleared |
| MountHosts.MountHost.FinishClose | src/mount/mount_host.cpp:1507-1519 | Busy while accepting or while a slot is occupied; otherwise everything goes |
| MountConversion.ConvertKeepsMeaning | src/integration/core_mount_bridge.cpp:31-64 | Each converted operation says the same of the same node, its number, text and flag values unchanged |
| MountConversion.ConvertConcatenates | src/integration/core_mount_bridge.cpp:114-207 | A converted transaction: numbered batches, the last final, the first full, none empty or too long, together its operations one for one in order |
| MountConversion.ConvertsExactly | src/integration/core_mount_bridge.cpp:31-160 | A core transaction converts exactly when its operations are neither none nor too many, its source is not empty nor too long, and each operation can be said in the mount host's terms |
| MountConversion.ConvertedMountsTheSame | src/integration/core_mount_bridge.cpp:114-207 | A building core mount, converted and run batch by batch, mounts what it would as one transaction |
| MountConversion.ConvertSlice | src/integration/core_mount_bridge.cpp:160-201 | The inner loop converts its slice or meets the first error of the whole list |
| MountConversion.ConvertFull | src/integration/core_mount_bridge.cpp:147-205 | The outer loop fills exactly the batches of the split |
| MountConversion.ConvertTransaction | src/integration/core_mount_bridge.cpp:114-212 | The conversion with its refusals in order |
| BridgeResults.HistoryIsSound | src/integration/core_mount_bridge.cpp:214-440 | Over every run: each accepted transaction keeps a slot of its own until the core takes exactly one result of it, and the bytes retained are the sum over the slots, at most 2 MiB |
| BridgeResults.AdmitSound | src/integration/core_mount_bridge.cpp:244-260 | Admission within the byte bound keeps that |
| BridgeResults.ReportSound | src/integration/core_mount_bridge.cpp:387-399 | A result the core takes frees its slot and is the transaction's only one |
| BridgeOrder.HistoryIsOrdered | src/integration/core_mount_bridge.cpp:302-440 | Over every run with care: the batch at the mount host is the last one posted and those before it were mounted in order |
| BridgeOrder.MountedMeansMounted | src/integration/core_mount_bridge.cpp:302-440 | Over every such run a mounted result means all batches mounted, each once and in order, and presented if it was to be |
| FalseReports.FalseReportIff | src/integration/core_mount_bridge.cpp:442-474 | Over every run with care, for every slot that has a batch at the mount host: after a turn of the slot some continuation reports its transaction mounted though it is not, if and only if a batch was left to post, the mount host did not refuse it for good, and the transaction is not a full mount to be presented whose source is no request; the continuation can itself be careful |
| FalseReports.CarelessTurnLies | src/integration/core_mount_bridge.cpp:319-356 | The continuation: the other batches at the host fail, the remaining ones of the slot are mounted and the core is told |
| FalseReports.RunHarmless | src/integration/core_mount_bridge.cpp:302-440 | A transaction whose batch was refused for good, that nobody can be asked to present, or whose batches are all posted in order, is not falsely reported whatever else runs |
| BridgedMounts.CarelessServiceLies | src/integration/core_mount_bridge.cpp:442-474 | A core full mount of 257 views, converted, on any mount host with fewer than 256 places: serviced once too early, its first batch fails and is rolled back, its second is mounted on the emptied surface, and the core is told that it is mounted while the last view alone is there |
| BridgedMounts.PageSplits | src/integration/core_mount_bridge.cpp:147-205 | What that mount converts to: a batch of 256 views and one of the last |
| BridgeCalls.PostMeans | src/integration/core_mount_bridge.cpp:214-267 | A transaction is taken exactly by an open bridge with the lock, a free slot, fewer than sixteen batches held back and room for its bytes, when the mount host takes its first batch; then it is in a slot with that batch posted, and otherwise nothing changes |
| BridgeCalls.PresentedMeans | src/integration/core_mount_bridge.cpp:401-440 | An answered presentation concludes the first slot that waits for one of this surface under this request, with that answer; if no slot does, nothing changes |
| BridgeCalls.PresentTurn | src/integration/core_mount_bridge.cpp:359-385 | A turn of a slot to be presented: asked for, kept for another turn, or, refused for good, the mount failed |
| BridgeRollbacks.RollbackReports | src/integration/core_mount_bridge.cpp:454-464 | In every run, for a slot to be rolled back: its turn changes nothing while the surface cannot be released; released, it reports failure and frees the slot if the core takes the result, and otherwise leaves a failed result waiting |
| BridgeProgress.ReportedInTheEndIff | src/integration/core_mount_bridge.cpp:359-474 | After every run with care of an open bridge, for every slot: some continuation with care reports its transaction if and only if it does not wait for a presentation while its source is no request |
| FailedMounts.RollbackTurn | src/integration/core_mount_bridge.cpp:454-464 | The turn of a slot to be rolled back lets the surface go at the mount host, unless a batch of it waits, and only then offers its result |
| FailedMounts.FailedIsCleared | src/integration/core_mount_bridge.cpp:302-474 | Over every run with care of the bridge with its mount host: when a transaction that was not mounted to the end is reported, or its result waits, the host holds no slot of its surface, as long as no other transaction was run there since |
| BridgeCloses.ClosedTakesNothing | src/integration/core_mount_bridge.cpp:476-480 | A closed bridge takes no transaction in any run and never opens again |
| BridgeCloses.ResultsStayAtClose | src/integration/core_mount_bridge.cpp:442-480 | A result that waits when the bridge closes, after a run with care, is never offered to the core again |
| MountFamilies.CommitFamilies | src/mount/mount_host.cpp:1001-1433 | Each commit step keeps the lists of children right: every child has a live slot and knows its parent |
| MountFamilies.DestroySlotFamilies | src/mount/mount_host.cpp:1543-1635 | Destroying a subtree keeps them right |
| MountOrders.CreateOrder | src/mount/mount_host.cpp:1006-1100 | A new node is the last under its root and has nothing under it |
| MountOrders.InsertOrder | src/mount/mount_host.cpp:1389-1402 | An inserted node leaves its place and comes at the index among the parent's children, last if there is no such place; every other order stays |
| MountPictures.ExecuteOnly | src/mount/mount_host.cpp:975-1438 | A transaction changes slots, objects, children and font sizes of its own surface only, whether it succeeds or not |
| MountPictures.OthersKeepPicture | src/mount/mount_host.cpp:975-1438 | What every other surface shows stays: its nodes, their properties, layouts, fonts and places, and the order of children |
| MountPictures.FailureShows | src/mount/mount_host.cpp:984-995 | What a failed transaction leaves on every surface: the same picture everywhere if it is no batch of several and was refused before its commit; otherwise nothing on its own surface and the same picture on every other |
| MountPictures.RetouchShows | src/mount/mount_host.cpp:1101-1388 | A property or a layout that succeeds changes just that of its node and nothing that another node shows |
| MountPictures.MoveShows | src/mount/mount_host.cpp:1403-1415 | A move succeeds exactly for two different nodes that are there; then the node hangs under its new parent at its index, and everything else is and shows as before |
| MountPictures.RemoveShows | src/mount/mount_host.cpp:1416-1423 | A remove succeeds exactly for a node that is there; it takes its subtree along, and every other node shows what it did |
| MountOrders.RemoveOrder | src/mount/mount_host.cpp:1543-1635 | After a removal the children of the root and of each node that stays are as before, in order, without the node |
| MountPictures.CommitsDrawTheSame | src/mount/mount_host.cpp:1001-1433 | The same building operations, where they succeed on two hosts that show the same on a surface, leave the same picture, whatever else is on the hosts and however their native calls differ |
| MountPictures.FirstBatchDraws | src/mount/mount_host.cpp:975-1438 | The first batch of a building mount draws what its operations draw in one transaction elsewhere |
| MountPictures.LaterBatchDraws | src/mount/mount_host.cpp:975-1438 | So does each later one, on a host that shows what those before it draw |
| MountedReports.MountedIsDrawn | src/integration/core_mount_bridge.cpp:214-440 | Over every run with care of the bridge with its mount host: once the core is told that its building full mount is mounted, the surface shows what the mount draws as one transaction, whatever was run for other surfaces in between and since, as long as nothing else ran on the surface and nothing let it go |
| MountedReports.OwnRun | src/mount/mount_host.cpp:1487-1495 | A batch that the mount host runs draws its part, or fails and the transaction posts no more |
| MountedReports.OtherRun | src/mount/mount_host.cpp:1487-1495 | A batch of another surface leaves what is drawn so far |
| CoreMountBridges.CoreMountBridge.constructor | src/integration/core_mount_bridge.cpp:68-76 | A new bridge has sixteen free slots |
| CoreMountBridges.CoreMountBridge.ClearSlot | src/integration/core_mount_bridge.cpp:536-544 | The slot is free and its bytes are given back |
| CoreMountBridges.CoreMountBridge.OfferBatch | src/integration/core_mount_bridge.cpp:269-300 | The next batch is posted; kept for a retry, or the mount is to be rolled back |
| CoreMountBridges.CoreMountBridge.OfferResult | src/integration/core_mount_bridge.cpp:387-399 | A result the core takes frees the slot; otherwise nothing changes |
| CoreMountBridges.CoreMountBridge.OfferPresent | src/integration/core_mount_bridge.cpp:359-385 | The presentation is asked for; kept for a retry, or the mount fails |
| CoreMountBridges.CoreMountBridge.CountHeld | src/integration/core_mount_bridge.cpp:488-494 | The batches held back over all slots |
| CoreMountBridges.CoreMountBridge.Weigh | src/integration/core_mount_bridge.cpp:496-510 | The bytes of the batches |
| CoreMountBridges.CoreMountBridge.PostTransaction | src/integration/core_mount_bridge.cpp:214-267 | A transaction is converted and its first batch posted, or refused for the first reason that applies with nothing changed |
| CoreMountBridges.CoreMountBridge.CompleteBatch | src/integration/core_mount_bridge.cpp:302-357 | The whole new state for each answer of the mount host |
| CoreMountBridges.CoreMountBridge.FinishMount | src/integration/core_mount_bridge.cpp:332-356 | The last batch: done, refused, or to be presented |
| CoreMountBridges.CoreMountBridge.AcceptSurfaceResult | src/integration/core_mount_bridge.cpp:401-440 | The slot waiting for that presentation is concluded |
| CoreMountBridges.CoreMountBridge.ServeSlot | src/integration/core_mount_bridge.cpp:449-471 | One slot's turn by its phase |
| CoreMountBridges.CoreMountBridge.Serve | src/integration/core_mount_bridge.cpp:442-474 | A pass over the slots within the budget |
| SurfaceCommands.ExecuteKeepsConsistent | src/surface/surface_host.cpp:357-543 | After every command the live roots are the recorded ones, each of one surface, shown exactly when it is visible, and none is half destroyed |
| SurfaceCommands.FailureChangesNothing | src/surface/surface_host.cpp:378-543 | A failed command leaves everything as it was if and only if it is not a destroy that found its surface |
| SurfaceCommands.ChangedIsConsistent | src/surface/surface_host.cpp:378-543 | Changes that do to roots what they do to records keep them in step |
| SurfaceCommands.PlanFits | src/surface/surface_host.cpp:378-543 | Every command is such a change |
| SurfaceOrder.PlanLocal | src/surface/surface_host.cpp:414-543 | What a command other than a create does is decided by the surfaces it touches |
| SurfaceOrder.CommandsCommute | src/surface/surface_host.cpp:35-51 | Two commands that the admission check lets in together, neither a create, leave the same host and the same results in either order |
| SurfaceOrder.CreatesDoNotCommute | src/surface/surface_host.cpp:378-412 | Creates do not: a concrete pair |
| SurfaceOrder.CreateCommutesIff | src/surface/surface_host.cpp:378-412 | A create and any command that does not conflict with it leave the same host and have the same results in either order if and only if there is room for both (Room) and the create gets the same record (SamePlace): conditions on the free records, the guards and the answers |
| SurfaceOrder.CreateCommutesUpToOrder | src/surface/surface_host.cpp:378-412 | They have the same results in either order if and only if there is room for both, and then the hosts differ at most in the order of the records |
| SurfaceOrder.ExchangeKeepsVisible | src/surface/surface_host.cpp:432-516 | Push and close keep the number of visible surfaces |
| SurfaceProtocol.HistoryIsSound | src/surface/surface_host.cpp:120-290 | Over every run: slots agree with what happened to their commands, commands in flight touch different surfaces, tasks and queued slots correspond one to one, and no accepted command is forgotten |
| SurfaceProtocol.NothingRunsTwice | src/surface/surface_host.cpp:174-194 | Over every run no accepted command runs twice and no result is delivered or given up twice |
| SurfaceProtocol.ClosedIsSettled | src/surface/surface_host.cpp:262-290 | When the close has finished each accepted command ran once and its result was taken once or refused for good once |
| SurfaceProtocol.HistoryIsConsistent | src/surface/surface_host.cpp:322-543 | Over every run in which the backend hands a create no root that is in use just then, records and roots are in step, also when a finished request is used again |
| SurfaceProtocol.StoppedTakesNothing | src/surface/surface_host.cpp:197-199 | Once admission has stopped no run accepts another command |
| SurfaceProtocol.CloseLetsRootsGo | src/surface/surface_host.cpp:274-288 | The finished close leaves no root |
| SurfaceProtocol.AdmittedExactly | src/surface/surface_host.cpp:120-195 | Admitted exactly: no surface in common with a command in flight, a request neither in flight nor among the last sixteen finished, and room |
| SurfaceProtocol.QueuedCommute | src/surface/surface_host.cpp:101-151 | Any two queued commands other than creates commute |
| SurfaceProtocol.RingTurns | src/surface/surface_host.cpp:545-551 | The ring holds the last sixteen finished requests |
| SurfaceCloses.CloseCanFinishIff | src/surface/surface_host.cpp:262-290 | In every run: some continuation closes the host if and only if the owner queue has dropped no task of an accepted command |
| SurfaceCloses.CloseCanBlock | src/surface/surface_host.cpp:262-272 | A run that posts a command and drops its task, after which the close stays busy for ever |
| SurfaceCloses.ClosesInTheEnd | src/surface/surface_host.cpp:174-290 | With no task dropped: the tasks run, the results are taken, a service frees the slots, and the close finishes |
| SurfaceEffects.CreateMeans | src/surface/surface_host.cpp:378-412 | Created exactly with a viewport of a size, a surface not there yet, a free record and a root; then the surface is there with these, hidden and empty, its root hidden; otherwise nothing changes, and the error is the first that applies |
| SurfaceEffects.PresentRootMeans | src/surface/surface_host.cpp:414-430 | Presented exactly for a mounted surface whose root is still taken; then it is visible and its root shown, and nothing else changed |
| SurfaceEffects.PresentPushMeans | src/surface/surface_host.cpp:432-454 | Presented exactly for a mounted surface over a visible one, both roots still taken; then it is visible with its root shown, the other hidden with its root hidden, and nothing else changed |
| SurfaceEffects.VisibilityMeans | src/surface/surface_host.cpp:456-485 | Completed exactly for a surface that is visible or hidden; then it and its root are as asked; where it was so already nothing changes |
| SurfaceEffects.CloseMeans | src/surface/surface_host.cpp:487-516 | Completed exactly for a visible surface over a hidden one, both roots still taken and its content releasable; then it is gone with its root, its content released once, and the other is visible |
| SurfaceEffects.DestroyMeans | src/surface/surface_host.cpp:518-543 | A surface that is there always goes with its root: destroyed with its content released if that can be, otherwise failed with its content reset |
| SurfaceServices.PostMeans | src/surface/surface_host.cpp:120-195 | A refused command changes nothing but the count of overflows, for want of a slot or of a place in the owner queue |
| SurfaceServices.ServiceMeans | src/surface/surface_host.cpp:201-232 | In every run: a pass spends its budget on results it settles and slots it frees, passes it by one at most, and otherwise settles every result the port does not overflow and frees every settled slot whose lock is free |
| SurfaceServices.MarkMeans | src/surface/surface_host.cpp:234-245 | A surface that is hidden and empty becomes a mounted one, still hidden; any other call changes nothing |
| SurfaceServices.CloseMeans | src/surface/surface_host.cpp:262-290 | The close is refused while admitting, busy with what its pass came to while a slot is taken, and otherwise frees every record, releasing once all content that can be and resetting once all other |
| SurfaceHosts.SurfaceHostAdapter.constructor | src/surface/surface_host.cpp:59-75 | A new adapter is empty and admits exactly with limits in range |
| SurfaceHosts.SurfaceHostAdapter.FindRecord | src/surface/surface_host.cpp:81-90 | The record of the surface |
| SurfaceHosts.SurfaceHostAdapter.FindFreeRecord | src/surface/surface_host.cpp:92-99 | The first free record |
| SurfaceHosts.SurfaceHostAdapter.MeetsInFlight | src/surface/surface_host.cpp:138-151 | Whether a command in flight touches a surface of this one |
| SurfaceHosts.SurfaceHostAdapter.RequestInUse | src/surface/surface_host.cpp:152-160 | Whether the request is in flight |
| SurfaceHosts.SurfaceHostAdapter.WasCompleted | src/surface/surface_host.cpp:161-167 | Whether the request is in the ring |
| SurfaceHosts.SurfaceHostAdapter.Check | src/surface/surface_host.cpp:120-167 | The first reason to refuse, if any |
| SurfaceHosts.SurfaceHostAdapter.Post | src/surface/surface_host.cpp:120-195 | Admission with its whole effect, a refusal by the queue undone |
| SurfaceHosts.SurfaceHostAdapter.ServiceOne | src/surface/surface_host.cpp:214-230 | One slot: a second try to deliver, then its release, and what that spends |
| SurfaceHosts.SurfaceHostAdapter.Service | src/surface/surface_host.cpp:201-232 | A pass within the budget |
| SurfaceHosts.SurfaceHostAdapter.MarkFullMountCommitted | src/surface/surface_host.cpp:234-245 | A hidden empty surface becomes mounted; otherwise refused |
| SurfaceHosts.SurfaceHostAdapter.ResetRecords | src/surface/surface_host.cpp:274-287 | Every record goes with its root, its content released or reset |
| SurfaceHosts.SurfaceHostAdapter.FinishClose | src/surface/surface_host.cpp:262-290 | Refused while accepting, busy while a slot is taken, otherwise closed |
| SurfaceHosts.SurfaceHostAdapter.ExecuteOperation | src/surface/surface_host.cpp:322-334 | A queued command runs and its result waits |
| SurfaceHosts.SurfaceHostAdapter.DeliverResult | src/surface/surface_host.cpp:336-355 | Taken or refused for good frees the result; an overflow keeps it |
| SurfaceHosts.SurfaceHostAdapter.ExecuteCreate | src/surface/surface_host.cpp:378-412 | The create and each of its failures |
| SurfaceHosts.SurfaceHostAdapter.ExecutePresentRoot | src/surface/surface_host.cpp:414-430 | The first presentation |
| SurfaceHosts.SurfaceHostAdapter.ExecutePresentPush | src/surface/surface_host.cpp:432-454 | One surface shown, the other hidden |
| SurfaceHosts.SurfaceHostAdapter.ExecuteVisibility | src/surface/surface_host.cpp:456-485 | Shown or hidden, idempotent |
| SurfaceHosts.SurfaceHostAdapter.ExecuteClose | src/surface/surface_host.cpp:487-516 | One surface gone, the other shown |
| SurfaceHosts.SurfaceHostAdapter.ExecuteDestroy | src/surface/surface_host.cpp:518-543 | A surface always goes; content that cannot be released is reset and reported |
| SurfaceHosts.SurfaceHostAdapter.ExecuteCommand | src/surface/surface_host.cpp:357-376 | The six commands |
| SurfaceHosts.SurfaceHostAdapter.RunTask | src/surface/surface_host.cpp:174-194 | The owner queue runs this host's first pending task |
| SurfaceHosts.SurfaceHostAdapter.ClearOperation | src/surface/surface_host.cpp:545-556 | The slot is free and its request enters the ring |
| SnapshotPublisher.RunIsSound | src/measure/font_metrics.cpp:133-221 | In every interleaving of steps counts equal counting readers, before the close the active slot holds the newest snapshot, the slot being filled is nobody's, and what a guard holds is published and in its slot until the close clears that slot |
| SnapshotPublisher.HeldIsIntact | src/measure/font_metrics.cpp:133-221 | What a guard holds is at each moment the published snapshot it was given, until the close clears that very slot |
| SnapshotPublisher.RecheckSeesNewest | src/measure/font_metrics.cpp:138-144 | At the re-check, before the close, the guard gets the newest published snapshot |
| SnapshotPublisher.AcquireMeans | src/measure/font_metrics.cpp:133-149 | An acquire that nobody moves during gets the newest snapshot at its first attempt and is counted in its slot; before initialize and after the close it gets nothing and leaves everything |
| SnapshotPublisher.NoThirdAttempt | src/measure/font_metrics.cpp:138-148 | In every interleaving no reader makes a third attempt |
| SnapshotPublisher.PublishMeans | src/measure/font_metrics.cpp:151-183 | A publish that no reader moves during makes its snapshot the active one under the next generation and offers it exactly where publishing is open, the families match, nothing is pending, nobody reads the other slot and a generation is left; otherwise nothing changes |
| SnapshotPublisher.CloseMeans | src/measure/font_metrics.cpp:204-221 | A close that no reader moves during goes through exactly where the notification is settled and nobody counts in either slot; otherwise it only ends admission |
| SnapshotPublisher.NobodyHoldsAnew | src/measure/font_metrics.cpp:138-144 | After the store that closes nobody comes to hold a guard |
| SnapshotPublisher.CloseIsSafeIff | src/measure/font_metrics.cpp:204-221 | In every interleaving: every held snapshot stays intact throughout the run if and only if nobody holds a slot at the step that clears it |
| SnapshotPublisher.SplitCloseBreaks | src/measure/font_metrics.cpp:212-218 | A run of the separate steps in which a reader is left holding a cleared snapshot |
| SnapshotPublisher.RunIsAnnounced | src/measure/font_metrics.cpp:151-203 | Settled notifications are those of the generations after the first, in order, each once |
| SnapshotPublisher.NotificationsInOrder | src/measure/font_metrics.cpp:151-221 | If the port refuses only for overflow, notifications taken and the one pending are exactly initial+1 up to the current generation |
| SnapshotPublisher.NoneLost | src/measure/font_metrics.cpp:193-202 | Without other refusals every settled notification was taken |
| OwnerTasks.HistoryIsOrderly | src/owner_task_queue.cpp:20-219 | Over every run: accepted tasks are the executed, then the cancelled, then the pending ones in the order of acceptance; only a cancelling stop cancels; a closed queue is empty |
| OwnerTasks.ClosedForEver | src/owner_task_queue.cpp:146-164 | Once closed, closed and empty for ever, whatever is called |
| OwnerTasks.PumpRuns | src/owner_task_queue.cpp:77-106 | A pump runs at most its budget in order, whatever its tasks and other threads post meanwhile, and stops short only when empty or contended |
| OwnerTasks.CancelKeeps | src/owner_task_queue.cpp:202-219 | Cancelling drops tasks in order and reports success exactly with an empty queue |
| OwnerTasks.BeginStopKeeps | src/owner_task_queue.cpp:108-144 | A stop is begun once; a cancelling one that reports no error leaves nothing pending |
| OwnerTasks.StoppingPump | src/owner_task_queue.cpp:77-106 | A pump of a stopping queue takes off as many tasks as its budget allows if and only if each of its pops finds the lock free |
| OwnerTasks.DrainDoneIff | src/backend_lifecycle.cpp:78-94 | A drain with as many passes as the ring has places ends with an empty queue if and only if each pop finds the lock free, at attempts counted from the tasks alone |
| OwnerTasks.DrainIsBusyOrDone | src/backend_lifecycle.cpp:78-94 | Contended or not, a drain by the owner is done or busy, never stuck |
| OwnerTasks.PostMeans | src/owner_task_queue.cpp:38-75 | Taken exactly with the lock, a body, a running queue and a place; then last in line, the peak the most that ever waited; otherwise refused with the queue as it was |
| OwnerTasks.BindMeans | src/owner_task_queue.cpp:20-36 | The queue gets its owner exactly once, with the lock and limits that are not zero |
| OwnerTasks.DrainMeans | src/owner_task_queue.cpp:108-144 | A draining stop is taken by the owner with the lock, unless the queue was never bound or stops otherwise; its tasks stay pending |
| OwnerTasks.FinishMeans | src/owner_task_queue.cpp:146-164 | A stop is finished by the owner with the lock once the queue stops and is empty |
| OwnerTasks.PumpMeans | src/owner_task_queue.cpp:77-106 | A pump runs for the owner only, while the queue runs or drains, and takes at most what is asked for and what one pump may take |
| OwnerTaskQueues.OwnerTaskQueue.constructor | src/owner_task_queue.cpp:8-18 | A new ring is an empty queue |
| OwnerTaskQueues.OwnerTaskQueue.Bind | src/owner_task_queue.cpp:20-36 | The queue gets its owner once |
| OwnerTaskQueues.OwnerTaskQueue.Post | src/owner_task_queue.cpp:38-75 | The ring takes the task at its tail or refuses for the first reason that applies |
| OwnerTaskQueues.OwnerTaskQueue.Append | src/owner_task_queue.cpp:61-67 | The place after the last holds the task; the peak is the maximum |
| OwnerTaskQueues.OwnerTaskQueue.TryPop | src/owner_task_queue.cpp:186-200 | The first task in order, if the lock can be had and there is one |
| OwnerTaskQueues.OwnerTaskQueue.Pump | src/owner_task_queue.cpp:77-106 | The ring pumps as the first-in first-out queue does |
| OwnerTaskQueues.OwnerTaskQueue.BeginStop | src/owner_task_queue.cpp:108-144 | The ring stops as that queue does |
| OwnerTaskQueues.OwnerTaskQueue.FinishStop | src/owner_task_queue.cpp:146-164 | Closed exactly when stopping and empty |
| OwnerTaskQueues.OwnerTaskQueue.CancelPending | src/owner_task_queue.cpp:202-219 | The ring cancels as that queue does |
| BackendLifecycles.HistoryIsSound | src/backend_lifecycle.cpp:10-196 | Over every run the stages agree with the queue and with what the backends answered |
| BackendLifecycles.StoppedIsClean | src/backend_lifecycle.cpp:43-168 | A finished stop: queue closed and empty, input and display closed once each, the first error of any backend remembered, and under drain every accepted task executed |
| BackendLifecycles.StopConverges | src/backend_lifecycle.cpp:43-168 | Once nothing is busy any more, stopping and finishing closes everything at the first try |
| BackendLifecycles.StopSticksIff | src/backend_lifecycle.cpp:43-112 | A stop of running backends that drains gets stuck half begun if and only if the queue takes it and then the input, a pop of the drain or the discard is busy |
| BackendLifecycles.PreparedReports | src/backend_lifecycle.cpp:108-111 | A prepared stop reports what is remembered, and never that something was busy |
| BackendLifecycles.FinishedReports | src/backend_lifecycle.cpp:164-167 | A stop that closes everything is never reported busy |
| BackendLifecycles.OpenMeans | src/backend_lifecycle.cpp:10-41 | New backends are opened in order, the first failure reported, and what was opened before it closed again, with the wakeup |
| BackendLifecycles.HistoryDiscardsOnce | src/backend_lifecycle.cpp:96-108 | Over every run samples are discarded at most once, and those counted are the ones dropped then |
| BackendCoordinators.BackendLifecycleCoordinator.constructor | src/backend_lifecycle.cpp:5-8 | A new coordinator |
| BackendCoordinators.BackendLifecycleCoordinator.Open | src/backend_lifecycle.cpp:10-41 | Opened in order, or given up with what was opened closed again |
| BackendCoordinators.BackendLifecycleCoordinator.GiveUp | src/backend_lifecycle.cpp:180-196 | What is closed after a failed opening |
| BackendCoordinators.BackendLifecycleCoordinator.BeginStop | src/backend_lifecycle.cpp:43-112 | The stop up to the stage that is busy, repeatable from there |
| BackendCoordinators.BackendLifecycleCoordinator.StopInput | src/backend_lifecycle.cpp:66-74 | The input stops first; a busy one ends the call |
| BackendCoordinators.BackendLifecycleCoordinator.DrainPass | src/backend_lifecycle.cpp:78-90 | Passes of the pump while tasks are pending |
| BackendCoordinators.BackendLifecycleCoordinator.Drain | src/backend_lifecycle.cpp:78-94 | The drain, if the policy asks for it |
| BackendCoordinators.BackendLifecycleCoordinator.Discard | src/backend_lifecycle.cpp:96-111 | Samples are discarded once, and the stop is prepared |
| BackendCoordinators.BackendLifecycleCoordinator.FinishStop | src/backend_lifecycle.cpp:114-168 | Input, display, wakeup and queue closed in order, repeatable where busy |
| BackendCoordinators.BackendLifecycleCoordinator.FinishDisplay | src/backend_lifecycle.cpp:139-148 | The display is closed once |
| BackendCoordinators.BackendLifecycleCoordinator.FinishWakeup | src/backend_lifecycle.cpp:149-167 | The wakeup and the queue are closed, and the remembered error reported |
| VirtualLists.RebuiltOk | src/list/virtual_list.cpp:94-144 | A rebuild succeeds exactly within the budget, and then its rows are a range of the list under their keys in distinct slots below the budget |
| VirtualLists.SlotsSucceed | src/list/virtual_list.cpp:111-136 | After the budget check the slot search never fails, and no two rows get the same slot |
| VirtualLists.HitIsExact | src/list/virtual_list.cpp:71-84 | A hit is exactly the row of the window that the point lies on |
| VirtualLists.ViewportHits | src/list/virtual_list.cpp:71-84 | Every point of the viewport on content hits the row there |
| VirtualLists.SlotsStableIff | src/list/virtual_list.cpp:111-136 | Rows that stay all keep their slots if and only if none has one of the lowest slots, as many as rows come in front |
| VirtualLists.ScrollKeepsSlots | src/list/virtual_list.cpp:60-69 | That for a scroll; a scroll forward always keeps them |
| VirtualLists.BackwardLosesSlot | src/list/virtual_list.cpp:119-126 | A list configured and scrolled forward twice, then backward: the row that stays loses its slot |
| VirtualLists.ConfigureOk | src/list/virtual_list.cpp:19-58 | Configured exactly with bounds kept, unique keys and enough slots; otherwise unchanged or reset |
| VirtualLists.ScrollToOk | src/list/virtual_list.cpp:60-69 | A scroll fails only unconfigured or over the budget, and then changes nothing |
| VirtualLists.ScrollEndsAt | src/list/virtual_list.cpp:94-103 | A scroll ends at the offset asked for where the content reaches that far, at the top before it and at the bottom behind it, the window starting with the row there |
| VirtualListWindows.VirtualListWindow.constructor | src/list/virtual_list.cpp:86-92 | A new window is empty |
| VirtualListWindows.VirtualListWindow.AllUnique | src/list/virtual_list.cpp:30-37 | Whether no key repeats |
| VirtualListWindows.VirtualListWindow.FindOldSlot | src/list/virtual_list.cpp:113-118 | The slot of the row's key, if not taken again |
| VirtualListWindows.VirtualListWindow.FindFreeSlot | src/list/virtual_list.cpp:119-127 | The lowest slot not taken |
| VirtualListWindows.VirtualListWindow.LayOut | src/list/virtual_list.cpp:108-136 | A slot for each row in turn |
| VirtualListWindows.VirtualListWindow.Rebuild | src/list/virtual_list.cpp:94-144 | The new window, or nothing changed |
| VirtualListWindows.VirtualListWindow.Configure | src/list/virtual_list.cpp:19-58 | The new list, unchanged or reset on failure |
| VirtualListWindows.VirtualListWindow.ScrollTo | src/list/virtual_list.cpp:60-69 | The new window, unchanged on failure |
| VirtualListWindows.VirtualListWindow.HitTest | src/list/virtual_list.cpp:71-84 | The row under the point |
| RuntimeHosts.HistoryKeeps | src/runtime_host.cpp:59-439 | Over every run each completion was taken on as often as it was called and is still owed, and the host's phases agree with what the core owes |
| RuntimeHosts.CompletionsCalledOnce | src/runtime_host.cpp:259-401 | Over every run no completion is called more often than taken on; once destroyed each was called exactly as often and no control slot is active |
| RuntimeHosts.FinishKeeps | src/runtime_host.cpp:374-385 | The end of a teardown calls what is still owed |
| RuntimeTeardowns.RunKeeps | src/runtime_host.cpp:59-401 | Over every run the backends are opened with the start, belong to the owner, run with their queue until a draining stop is begun, and close with the host |
| RuntimeTeardowns.StuckForEver | src/runtime_host.cpp:348-372 | A run whose stop got stuck half begun stays stuck and its host is never destroyed, whatever events follow |
| RuntimeTeardowns.TeardownCanStick | src/runtime_host.cpp:348-359 | A run from a new host, one start with no package source and an input busy once, after which the host is never destroyed |
| RuntimeTeardowns.SticksIff | src/runtime_host.cpp:313-359 | An event of any run gets the host stuck if and only if its teardown reaches the stop of the backends, the queue takes that stop, and then the input, a pop of the drain or the discard is busy |
| RuntimeTeardowns.TeardownEndsIff | src/runtime_host.cpp:313-385 | In every run, once the core has called back and nothing is busy any more, the next pump of a host to be destroyed, or that failed to start, destroys it if and only if it is not stuck |
| RuntimeTeardowns.DestroyedIsReleased | src/runtime_host.cpp:325-383 | In every run a destroyed host has closed its package source and its backends |
| RuntimeStarts.StartMeans | src/runtime_host.cpp:59-116 | A start is taken on exactly when nothing is found wrong, the backends open, and package source and core agree; otherwise it is unchanged, destroyed or torn down under that fault, and its completion never called |
| RuntimeStarts.StartEnds | src/runtime_host.cpp:261-282 | Over every run in which the core calls a start back and a pump comes before any destroy: done and presented, that pump has the host running and calls the completion with success; otherwise it begins the teardown under the core's fault, or a presentation that failed, and the host never runs |
| RuntimeStarts.RunsOnlyByStart | src/runtime_host.cpp:59-282 | In every run a host that runs was starting when the core called back as done and presented, and a pump took that up while it still was |
| RuntimeStarts.NeverRunsAgain | src/runtime_host.cpp:130-401 | A host that is destroying, failed or destroyed never runs again |
| RuntimeAnswers.CallMeans | src/runtime_host.cpp:118-145 | A control or destroy is taken on exactly when the state allows it, a slot is free and the core agrees; turned down, it leaves everything but the overflow count |
| RuntimeAnswers.SignalMeans | src/runtime_host.cpp:230-257 | A repeated signal is answered at once with success, one turned down with the reason; any other is taken on, remembered, and not answered yet |
| RuntimeAnswers.ControlEnds | src/runtime_host.cpp:284-311 | Over every run: the pump after the core answers a control frees its slot and calls its completion with what the core said, or a fault if it spoke of another request |
| RuntimeAnswers.DestroyEnds | src/runtime_host.cpp:284-383 | Over every run: the pump after the core answers the destroy begins the teardown, under the core's fault if it reports one |
| RuntimeAnswers.FirstFaultKept | src/runtime_host.cpp:325-372 | One go of a teardown keeps the first fault of all that its stages report |
| RuntimeAnswers.EndedWith | src/runtime_host.cpp:374-401 | A teardown that ends calls the start's completion, if still owed, and then the destroy's, both with its first fault, or success if there was none |
| RuntimeHostObjects.RuntimeHost.constructor | src/runtime_host.cpp:206-228 | A new host with eight idle control slots |
| RuntimeHostObjects.RuntimeHost.Start | src/runtime_host.cpp:59-116 | Each stage of a start and what its failure leaves |
| RuntimeHostObjects.RuntimeHost.ControlRuntime | src/runtime_host.cpp:118-128 | A control while running, refused otherwise |
| RuntimeHostObjects.RuntimeHost.Destroy | src/runtime_host.cpp:130-145 | A destroy, undone if the core does not admit it |
| RuntimeHostObjects.RuntimeHost.AskCore | src/runtime_host.cpp:403-439 | A slot is taken exactly when the core admits the control |
| RuntimeHostObjects.RuntimeHost.FindFreeControl | src/runtime_host.cpp:206-220 | The first idle slot |
| RuntimeHostObjects.RuntimeHost.HandleRawSignal | src/runtime_host.cpp:230-257 | A repeated or refused signal is answered at once, another passed on |
| RuntimeHostObjects.RuntimeHost.TakeStartResult | src/runtime_host.cpp:261-282 | The start completes, fails or is overtaken by a destroy |
| RuntimeHostObjects.RuntimeHost.TakeControlResult | src/runtime_host.cpp:285-309 | A caller is called, or the teardown begins |
| RuntimeHostObjects.RuntimeHost.TakeControlResults | src/runtime_host.cpp:284-309 | All ready slots in order |
| RuntimeHostObjects.RuntimeHost.StopServices | src/runtime_host.cpp:325-346 | The services and the package source stop first |
| RuntimeHostObjects.RuntimeHost.BeginStop | src/runtime_host.cpp:348-359 | The backends' stop is begun once |
| RuntimeHostObjects.RuntimeHost.FinishStop | src/runtime_host.cpp:360-372 | The backends' stop is finished |
| RuntimeHostObjects.RuntimeHost.TearItDown | src/runtime_host.cpp:325-372 | How far a teardown gets |
| RuntimeHostObjects.RuntimeHost.FinishTeardown | src/runtime_host.cpp:374-385 | The end: start's completion, then destroy's |
| RuntimeHostObjects.RuntimeHost.Progress | src/runtime_host.cpp:313-385 | A teardown waits for the start and every control |
| RuntimeHostObjects.RuntimeHost.OnCoreLifecycle | src/runtime_host.cpp:456-471 | The core's answer to a control waits in its slot |
| RuntimeHostObjects.RuntimeHost.PumpOnce | src/runtime_host.cpp:160-191 | Tasks, then answers, then the teardown |

## Left out

- LVGL, SDL, libuv, image decoding and resizing, fonts and colours: native calls succeed or fail by an oracle (`Native`), and a property the native side accepts is a map entry. A layout never fails in the model, while the code can fail to resize an image.
- Which native object a property goes to: a button's private label, a tab view's pages and the values a slider or a picker rounds to are not distinguished from the host object's own properties.
- Walks up the object tree take at most as many steps as there are objects. Without cycles that is no restriction (`MountForests.UnderIsUnbounded`); with one the code's walk would not end.
- Acyclicity over incremental transactions with inserts or several moves: it fails in general, and is stated for single steps (`MountForests.ReparentAcyclic`), for full mounts (`MountCycles.MountAcyclicIff`) and for transactions with at most one move (`MountCycles.OneMoveKeepsForest`).
- MountHosts.MountHost.SetProp: which values the native side accepts is an oracle of the value and the properties set before.
- MountHosts.MountHost.SetLayout: an image that cannot be resized does not fail the layout.
- CoreMountBridges.CoreMountBridge.CloseBridge: the mount host that the bridge closes with itself is a model of its own here, and its close a separate event (`MountPools`).
- OwnerTaskQueues.OwnerTaskQueue.Post: the wakeup that an accepted post notifies, whatever that answers, is not modelled.
- RuntimeHostObjects.RuntimeHost.PumpOnce: the service of the event loop and the package source's own completions are left out; neither changes the host's fields.
- Floating point: sizes and constraints enter the measurement as Q26.6 integers, surface viewports are reals, and the conversion of a core number is over reals. Results are not divided back to doubles.
- `FontMeasureAdapter::measure` with its request limits, and choosing a family of a snapshot: checks before the measurement that only compare fields.
- FontMeasure.WrapLoop: the line limit is claimed only where the code checks it; hard breaks inside the loop are not counted against it.
- FewestLines.GreedyIsOptimal: for families without kerning, and texts all of whose glyphs have an advance that is not negative; with kerning a line's width is not the sum of its glyphs' own.
- SnapshotPublisher.RunIsSound: under sequential consistency and after `initialize`; acquire and release orderings weaker than that are not modelled.
- MountedReports.MountedIsDrawn: event bindings are no part of the picture, and the joint run posts to a mount host whose owner queue drops no task and takes batches in the order of their posts.
- BridgeOrder.MountedMeansMounted: for runs with care, and with names that are apart; the service of the code does not check for a batch in flight.
- SurfaceProtocol.HistoryIsConsistent: for a root backend that does not hand a create a handle that is live when the create runs.
- SurfaceHosts.SurfaceHostAdapter.DeliverResult: a result port that refuses a result for overflow is taken to leave it intact.
- VirtualListWindows.VirtualListWindow.Rebuild: a viewport height plus a row height, and an offset plus a point, are required to fit 32 bits, as the code's own sums do not check that.
- RuntimeHosts.CompletionsCalledOnce: the core is taken to call back at most once for each call it admitted.
- Reentrancy: owner tasks may post tasks, and those told a mount result may post on the spot; tasks that begin a stop and completions that call back into the runtime host are not modelled.
- The runtime host uses the coordinator and the queue as values that their methods compute, not as objects it shares; host signals are modelled from when their owner task runs.
- Calls by others than the owner, which the hosts refuse at once, are modelled for the queue, the coordinator and nowhere else.
- Binding a virtual list to LVGL rows (`VirtualListHost`), the C ABI, composition checks, feature and media providers, package sources, device backends and trace markers.
- Error messages, retry flags of errors that no caller here looks at, diagnostic counters, and failed allocations that the code turns into an error.
- Results that the bridge passes through unseen, and the sizes of its types: the weight of a batch is a parameter.
