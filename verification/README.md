# Chronowire in Dafny

Chronowire runs a dataflow graph of SOURCE, RATE, FRAME and MAP nodes over exact
logical time. Two machines execute such a graph: a demand-driven scheduler in
Python, which moves one item at a time through bounded shared buffers, and a
native evaluator in C++, which runs every node once over a whole batch, in
64-bit ticks of a common timebase. This project models both machines, the
meaning they share, the buffers between nodes and the compile-time analyses, and
proves that they fit together.

`dafny verify dfyconfig.toml` checks everything.

## What is proved

- **One meaning.** `Stream` says what RATE and FRAME do to a sequence of items:
  fire times on a grid, frames at offsets 0, hop, 2 * hop, ... of each gap-free
  segment. `Operators` gives the nodes as step functions and shows that folding
  the steps yields that meaning.
- **The streaming machine.** `Plans` and `Scheduling` treat a plan as a network
  whose nodes fire in any order. Every reachable state shows prefixes of what the
  ports denote; two schedules that finish agree; whenever an item is unread some
  root can be advanced, so the scheduler's deadlock report cannot be made; every
  unit of work is one of those that remain. `PlanRuntime` is the scheduler itself,
  a class whose methods drive real `PortBuffer` objects, and each of its runs is
  such a schedule: it terminates, never overflows a buffer, and at any boundary
  shows exactly the snapshot that the boundary alone determines. `Session` slices
  it under a step budget: every exhausted slice has done its share of the remaining
  work, and boundaries and flush, retried, end where one run ends.
- **The native machine.** `CppNodes` and `CppMap` hold the node loops,
  `Ticks` the encoding of rational times, `CppGraph` the whole evaluation. It
  refuses exactly what does not fit 64 bits (or pads a frame); otherwise every
  batch is, in ticks and with its diagnostics, the stream that the streaming machine
  has published when it stands quiet at the same boundary (`Machines`). `Scaling`
  shows that the unit of time changes nothing.
- **Gaps.** Python carries a realtime gap as a flag on every emission of the item
  behind it, the native code as a new segment number. `Gaps` and `Agreement` give
  the exact condition, for all items, under which HOLD and SAMPLE keep the two in
  step, `CppMap` the one for kernels that reset, and inputs on which they part.
  `IngressRecords`, `RealtimeIngress` and `RealtimeSource` follow dropped items from
  the callback to the degraded emission that reports them.
- **Buffers, merges, frontiers.** `PortBuffer` and `PortHistory` reduce the shared
  buffer to one queue per consumer. `Merge` and `Latest` show that exact merges
  and LATEST inputs depend on the two streams alone and not on their arrival
  order, and compare the batch loops with them. `Frontiers` proves the promise
  they rely on node by node, `Spacing` and `PortPromises` carry it to every port of
  a plan and instantiate the joins. `Chains`, `Diamond`, `MergeRun` and `DiamondRun`
  run two chains of FRAME, SAMPLE and MAP nodes from a shared port into an exact merge,
  over real buffers and on demand, and prove exactly when the shared capacity suffices
  and exactly when the merge receives every pair.
- **Compile time.** `Grid` proves the static time signatures for exactly the plans
  that keep them, `Capacity` the burst bounds and planned capacities, `Stages` the
  partition into Python islands and native stages.
- **Stage splitting.** `Fractions` is Python's exact arithmetic, `PrefixStage` the
  batch loops of Python stages over rational times, `StageSplit` the session that
  runs native sections and islands in turn: each section packs its boundary batch,
  runs it natively over its own timebase and is decoded again. Wherever the plan is
  cut, output and status counts are those of the streaming machine.
- **MVDR.** `Vectors`, `GaussJordan`, `Solvers` and `Mvdr` prove both in-place
  solvers against one elimination, uniqueness of the solution, what it means that a
  system is refused, and optimality of the beamforming weights.

Times are exact rationals in Python; the streaming model uses reals, on which the
program's additions, multiplications, divisions and comparisons are exact too. The
batch loops of Python stages compute with reduced fractions. Ticks are integers with
explicit 64-bit range checks. Payloads are opaque, except in the solver, which
computes in reals. A `Node` of the plan owns the port of the same number. A kernel
is a function of everything it has processed since its state was created.

Where the program does not have a property for all inputs, the model keeps the
program's behaviour, and gives the exact condition and an input that fails:

- HOLD copies the overrun flag to every emission of a flagged item
  (`src/chronowire/runtime.py:3812-3822`), while the native item stays in one
  segment (`src/chronowire/cpp_runtime.cpp:627`). `HoldAgreesIff` is the condition;
  `LongFlaggedItemDiffers` and `EmptyFlaggedItemDiffers` are the two ways to fail.
- A SAMPLE that drops a flagged item drops the flag, not the segment
  (`SampleAgreesIff`, `DroppedFlagDiffers`). The native MAP never resets a kernel
  (`ResetAgreesIff`, `NativeKeepsCounting`).
- The native source passes late items over one by one, the scheduler stops at the
  first (`PassingOverIsPrefixIff`, `LateStaysIff`, `FallingEndsDiffer`).
- The loops of a Python stage do not look at gaps (`HoldThroughAgreesIff`,
  `FramesAlignIff`, `UnresetAgreesIff`; `GapOffGridDiffers`, `FrameAcrossGapDiffers`,
  `ForgottenResetDiffers`).
- A MAP announces the end of its input interval as frontier
  (`src/chronowire/runtime.py:3962`). It keeps the promise exactly on intervals that
  do not overlap (`MapKeepsIff`, `OverlapBreaksPromise`).
- The native scan skips primary items without a LATEST value, the others stop
  there (`ScansAgreeIff`, `ScansDiffer`). The island merge compares position by
  position (`IslandMergeAgreesIff`, `IslandMergeDiffers`).
- Capacity planning multiplies frame sizes and sample ratios, but no hops.
  `CapacitySufficesIff` is the exact need over all reachable states, which plans without
  skipping FRAMEs meet (`PlanSuffices`) and `SkippingDefeatsThePlan` does not.
- A FRAME that holds nothing announces the end of what it has read
  (`src/chronowire/runtime.py:3706-3712`). On overlapping intervals the next frame
  starts before that, and so do the next items of a SAMPLE and a MAP: an auxiliary branch
  that ends in one of these, or in a FRAME with hop >= size, behind overlapping intervals
  stalls the merge exactly when there is a second item
  (`Outcome`; `OverlapStallsTheMerge`, `SkipStallsTheMerge`, `SharedOverlapStalls`).
- The compile-time checks accept a HOLD or a padded FRAME behind a SAMPLE, where the
  static grid may not hold: `GridIsKeptIff` is the exact condition,
  `SampleThenHoldLeavesGrid` and `SampleThenPadLeavesGrid` are compiled plans.
- A session that closes under a step budget runs one slice and loses the rest: with
  one root exactly when the budget is smaller than the remaining work (`Close`,
  `CloseTruncates`).
- `EveryLogicalTime` documents that the first emission to cover a boundary fires
  (`src/chronowire/extension.py:135-136`). Boundaries that an emission started behind
  are skipped for good; `SessionsFireIff` says when this makes no difference, and
  `LateStartIsNotDue` is an input where it does.

## Model

| member | source | states |
|---|---|---|
| Stream.FireCountMeans | src/chronowire/runtime.py:3804-3825 | the closed form for the number of fires counts exactly the grid points before the bound |
| Stream.FrameCounted | src/chronowire/cpp_runtime.cpp:275-277 | frame j exists in the closed form exactly when a whole frame fits from offset j * hop, for every hop |
| Stream.FrameContents | src/chronowire/runtime.py:3715-3726 | frame j holds the payloads of items j * hop, ..., j * hop + size - 1 in order, from the start of the first to the end of the last; INVALID exactly when one of them is, OK exactly when all are, flagged exactly when one is |
| Stream.WorstMeans | src/chronowire/runtime.py:286-287 | the combined status is INVALID exactly when some item is, and OK exactly when all are |
| Stream.HoldEmitsItems | src/chronowire/runtime.py:3795-3826 | whatever a HOLD emits is an item it has read, with its payload, status and flag, at a time within that item, for one period |
| Operators.RateRun | src/chronowire/runtime.py:3772-3826 | stepping a RATE node over any input gives the HOLD or SAMPLE meaning and the pending fire time |
| Operators.MapEmitsAnswers | src/chronowire/runtime.py:3870-3970 | whatever a MAP emits is an INVALID item that it does not accept, as it is, or a value its kernel returned for one item: a bare value with the interval and status of that item, an Emission with its own interval and no better status |
| Operators.GapFreeFrames | src/chronowire/runtime.py:3674-3713 | on a gap-free run the FRAME step emits exactly the closed-form frames, and holds exactly the items from the next frame's start on, or skips the rest of the hop |
| Operators.StreamingFrames | src/chronowire/runtime.py:3674-3713 | on every input the FRAME step emits the frames of each segment in turn: a gap flag starts over |
| Operators.HistoryFits | src/chronowire/runtime_buffer.py:217-279 | the frame history never overflows its planned size |
| Operators.PaddedTail | src/chronowire/runtime.py:3728-3765 | on any input: behind the frames of all segments exactly one padded frame follows, when the last segment left anything behind its last hop: these payloads, then empty ones up to the size, each as long as the last item; INVALID exactly when one of the items is, DEGRADED otherwise |
| Operators.RunMonotone | src/chronowire/runtime.py:3138-3162 | a longer input only extends what a node has emitted |
| CppNodes.AlignTicks | src/chronowire/cpp_runtime.cpp:616-621 | the tick loop reaches the aligned fire time, or reports overflow exactly when it lies beyond 64 bits |
| CppNodes.RunHoldNode | src/chronowire/cpp_runtime.cpp:583-636 | accepts exactly the batches whose pending fire times fit, and then yields the HOLD meaning with each item's segment and diagnostics |
| CppNodes.RunSampleNode | src/chronowire/cpp_runtime.cpp:593-603 | the modulo test on ticks is the multiple test on times, and a kept item keeps its segment |
| CppNodes.RunSegment | src/chronowire/cpp_runtime.cpp:650-689 | the frames of one segment are the closed-form frames, hop larger than size included |
| CppNodes.RunFrameNode | src/chronowire/cpp_runtime.cpp:638-693 | on every batch with gaps as segments it yields what the streaming FRAME yields on the same stream with gaps as flags |
| Agreement.HoldAgreesIff | src/chronowire/cpp_runtime.cpp:605-635 | behind a HOLD, flags and segments still agree if and only if every flagged item spans at most one period, and one that spans nothing has nothing emitted before it or no emission in its segment; for all items |
| Gaps.SpreadAgreesIff | src/chronowire/cpp_runtime.cpp:583-693 | for any node that emits several items per item: flags and segments agree if and only if every segment with emissions behind other emissions is led by exactly one emission of its flagged item |
| Agreement.SampleAgreesIff | src/chronowire/cpp_runtime.cpp:593-603 | behind a SAMPLE they agree if and only if no flagged item is dropped whose segment is kept in part, with something kept before |
| Agreement.RunHoldThenFrame | src/chronowire/cpp_runtime.cpp:583-693 | under that condition the native RATE and FRAME in sequence equal the streaming ones, gaps included |
| Agreement.LongFlaggedItemDiffers | src/chronowire/runtime.py:3812-3822 | an input on which a FRAME behind a HOLD yields nothing in Python and one frame natively |
| Agreement.EmptyFlaggedItemDiffers | src/chronowire/runtime.py:3795-3826 | an empty flagged item leaves its segment without a flag: one run in Python, two segments natively |
| Agreement.DroppedFlagDiffers | src/chronowire/runtime.py:3772-3794 | a SAMPLE that drops the flagged item hides the gap from Python and not from the native code |
| Agreement.FrameByIndex | src/chronowire/cpp_runtime.cpp:275-307 | the fixed-plan session's frames, counted in advance, are the gap-free frames |
| Fractions.WholeIff | src/chronowire/cpp_executor.py:417 | a reduced fraction has denominator 1 exactly when its value is a whole number |
| PrefixStages.PrefixHold | src/chronowire/cpp_executor.py:412-445 | on any input the prefix loop over rational times yields HOLD with one unbroken grid of fire times, gaps ignored and flags carried along |
| PrefixStages.HoldThroughAgreesIff | src/chronowire/cpp_executor.py:412-445 | when nothing reaches over a gap, that is what the streaming HOLD emits if and only if every item fires from the same time in both, or in neither |
| PrefixStages.StaysInStepIff | src/chronowire/cpp_executor.py:412-445 | both stay in step, outputs and pending fire time at every item, if and only if every gap ends at a fire time that is due anyway |
| PrefixStages.EmptyGapAgrees | src/chronowire/cpp_executor.py:412-445 | equal outputs do not need that: an empty item behind a gap, off the grid |
| PrefixStages.GapOffGridDiffers | src/chronowire/cpp_executor.py:422-426 | a gap that ends half a period off the grid shifts what the prefix loop emits |
| PrefixStages.PrefixSample | src/chronowire/cpp_executor.py:416-419 | on any input the prefix loop keeps what SAMPLE keeps |
| PrefixStages.PrefixFrames | src/chronowire/cpp_executor.py:446-468 | on any input the prefix loop yields the frames at offsets 0, hop, ... of the whole batch, gaps ignored |
| PrefixStages.FramesAlignIff | src/chronowire/cpp_executor.py:452-468 | when starts grow these are the streaming frames if and only if a frame is due exactly where a segment begins that can hold one, and no frame reaches over a gap |
| PrefixStages.FrameAcrossGapDiffers | src/chronowire/cpp_executor.py:452-468 | two items with a gap between them: one frame in the prefix loop, none in the stream |
| PrefixStages.RunPythonMap | src/chronowire/cpp_executor.py:268-376 | for one input, the loop yields the MAP that never resets its kernel state, outputs of any number and INVALID items included |
| PrefixStages.UnresetAgreesIff | src/chronowire/cpp_executor.py:268-376 | it is the streaming MAP for every kernel that resets on gaps if and only if no item behind a gap and a processed item is followed by a processed one |
| PrefixStages.ForgottenResetDiffers | src/chronowire/cpp_executor.py:268-376 | two items with a gap between them and a counting kernel: the stream answers 1 and 1, the loop 1 and 2 |
| PortBuffers.PortBuffer.RegisterConsumer | src/chronowire/runtime_buffer.py:55-72 | a new consumer gets an empty queue of its own; a known one is refused |
| PortBuffers.PortBuffer.UnregisterConsumer | src/chronowire/runtime_buffer.py:74-83 | only that consumer's queue disappears, and the prefix nobody needs any more is released |
| PortBuffers.PortBuffer.Publish | src/chronowire/runtime_buffer.py:92-107 | every queue gets the item, or none when the buffer is full |
| PortBuffers.PortBuffer.Peek | src/chronowire/runtime_buffer.py:109-120 | the head of the consumer's own queue, or which error |
| PortBuffers.PortBuffer.Pop | src/chronowire/runtime_buffer.py:122-134 | one consumer loses the head of its queue, no other queue changes |
| PortBuffers.PortBuffer.MinimumPosition | src/chronowire/runtime_buffer.py:166-170 | the least cursor, or the end of the stream without consumers |
| PortBuffers.PortBuffer.RetainedIsLargestBacklog | src/chronowire/runtime_buffer.py:143-147 | what is retained is exactly the longest queue |
| PortHistories.Perform | src/chronowire/runtime_buffer.py:55-134 | each operation succeeds exactly when its queue condition holds, and changes the queues as if they were separate |
| PortHistories.PerformAll | src/chronowire/runtime_buffer.py:55-174 | after any sequence of operations every consumer has read exactly the items published since it registered, in order, up to those in its queue |
| Plans.FireIsSound | src/chronowire/runtime.py:3138-3328 | every unit of work at any node keeps every port equal to its transducer applied to what was read |
| Plans.Determinate | src/chronowire/runtime.py:3138-3328 | in every reachable state a port shows a prefix of its denotation, and all of it once closed |
| Scheduling.AfterIsSound | src/chronowire/runtime.py:3138-3162 | any sequence of node activations keeps the network sound |
| Scheduling.OrderDoesNotMatter | src/chronowire/runtime.py:2928-2970 | two runs in any two orders publish prefixes of one stream, and the same stream where both have closed the port |
| Scheduling.NoDeadlock | src/chronowire/runtime.py:2928-2970 | as long as a root is open and no source waits at the boundary, demanding some root leads to work that fits its buffer |
| Scheduling.PendingWorks | src/chronowire/runtime.py:3138-3162 | unread input anywhere means that some root can be advanced |
| Scheduling.QuietIsSnapshot | src/chronowire/runtime.py:2790-2798 | when no root can be advanced, every port shows exactly what the boundary determines |
| Scheduling.FullSnapshot | src/chronowire/runtime.py:2823-2857 | without a boundary that is the whole denotation |
| Scheduling.SnapshotGrows | src/chronowire/cpp_executor.py:2209-2226 | the snapshot at an earlier boundary is a prefix of every later one |
| Scheduling.FireDecreases | src/chronowire/runtime.py:2928-2970 | every unit of work is exactly one of the units that were left |
| PlanRuntimes.PlanRuntime.ProcessFrameInput | src/chronowire/runtime.py:3674-3713 | the method on history and skip counter is the FRAME firing of the network |
| PlanRuntimes.PlanRuntime.ProcessRateInput | src/chronowire/runtime.py:3772-3826 | the method on the pending fire time is the RATE firing of the network |
| PlanRuntimes.PlanRuntime.ProcessMap | src/chronowire/runtime.py:3839-3963 | the method on the kernel state is the MAP firing of the network |
| PlanRuntimes.PlanRuntime.FlushPaddedFrame | src/chronowire/runtime.py:3728-3765 | pads exactly when the network flushes; the published frame is the held payloads and empty slots, INVALID exactly when a held item is and DEGRADED otherwise |
| PlanRuntimes.PlanRuntime.AdvanceSource | src/chronowire/runtime.py:3189-3216 | publishes, holds back at the boundary, or ends, and loses no item |
| PlanRuntimes.PlanRuntime.AdvanceFrame | src/chronowire/runtime.py:3304-3316 | does exactly the unit of work that the demand on its port leads to |
| PlanRuntimes.PlanRuntime.AdvanceRate | src/chronowire/runtime.py:3318-3328 | does exactly the unit of work that the demand on its port leads to |
| PlanRuntimes.PlanRuntime.AdvanceMap | src/chronowire/runtime.py:3330-3350 | does exactly the unit of work that the demand on its port leads to |
| PlanRuntimes.PlanRuntime.AdvancePort | src/chronowire/runtime.py:3138-3162 | succeeds exactly when the demand reaches work, which fires once, in a buffer with room |
| PlanRuntimes.PlanRuntime.Drive | src/chronowire/runtime.py:2928-2970 | terminates with every root quiet, or with the step budget reported as used up, which happens exactly when at least the budget was spent, and overruns it by less than one step per root; every step does one remaining unit of work; without a boundary and budget every root has ended |
| PlanRuntimes.PlanRuntime.RunUntil | src/chronowire/runtime.py:2790-2798 | unless the budget was used up, every port then shows exactly its snapshot at the boundary; every step does one remaining unit of work |
| PlanRuntimes.PlanRuntime.Flush | src/chronowire/runtime.py:2800-2857 | reports an exhausted budget exactly when the budget is no larger than the remaining work; a budget that covers the remaining work ends every port with its whole denotation, and one smaller by the number of roots does not |
| Sessions.IncrementalSession.RunUntil | src/chronowire/runtime.py:2474-2490 | refused exactly when closed or when the end does not grow; an exhausted slice has done some of the remaining work and leaves the same end to be tried again |
| Sessions.IncrementalSession.Reach | src/chronowire/runtime.py:2474-2490 | a boundary retried under any budget is reached after finitely many slices, and then every port shows its snapshot |
| Sessions.IncrementalSession.Drain | src/chronowire/runtime.py:2492-2502 | flush retried under any budget ends with every port showing its whole denotation |
| Sessions.IncrementalSession.Close | src/chronowire/runtime.py:2504-2515 | closes for good; complete when the budget covers the remaining work, cut short when it misses it by the number of roots; with one root that is if and only if |
| Sessions.CloseTruncates | src/chronowire/runtime.py:2504-2515 | a source of two items under a budget of one step: close loses the second |
| Sessions.IncrementalSession.RunToEnd | src/chronowire/runtime.py:2474-2515 | any growing boundaries under any budget, each retried, then flush and close: every port has published what one run publishes |
| PlanRuntimes.PlanRuntime.constructor | src/chronowire/runtime.py:2640-2727 | a fresh session has one buffer per port, one cursor per input, and nothing published |
| Ticks.Bezout | src/chronowire/cpp_runtime.cpp:65 | the greatest common divisor divides both numbers and is a combination of them |
| Ticks.LcmIsLeast | src/chronowire/cpp_runtime.cpp:61-71 | left / gcd * right divides every common multiple |
| Ticks.CheckedLcm | src/chronowire/cpp_runtime.cpp:61-71 | the least common multiple, refused exactly when not positive or beyond 64 bits |
| Ticks.CheckedScale | src/chronowire/cpp_runtime.cpp:73-80 | the product, refused exactly outside -9223372036854775808, ..., 9223372036854775807 |
| Ticks.TickIsExact | src/chronowire/native.py:122-126 | a time has an integral tick over every multiple of its denominator, equal to the time itself in ticks |
| Ticks.DenominatorIsLeast | src/chronowire/native.py:133-141 | the ingress denominator divides every common multiple of the interval denominators |
| Ticks.PackVectorIngress | src/chronowire/native.py:129-171 | accepts exactly what fits over the least common denominator, and the packed stream is the same stream in ticks |
| Scaling.FireCountScale | src/chronowire/cpp_runtime.cpp:588-589 | scaling all times leaves the number of fires unchanged |
| Scaling.RunScale | src/chronowire/cpp_runtime.cpp:1070-1082 | every node commutes with a change of the time unit, outputs and state |
| Scaling.DenotationScale | src/chronowire/cpp_runtime.cpp:1070-1082 | and so does every plan |
| CppMaps.NativeIsTimeless | src/chronowire/cpp_runtime.cpp:751-956 | a native kernel gives the same payloads and statuses whatever the time unit |
| CppMaps.RunMapNode | src/chronowire/cpp_runtime.cpp:751-956 | the native MAP loop on any batch; it is the streaming MAP, skipping of INVALID items and gap segments included, when no reset on a gap would matter |
| CppMaps.ResetAgreesIff | src/chronowire/cpp_runtime.cpp:751-956 | the native loop, which never resets a kernel state, computes what Python does for every kernel that resets on gaps if and only if no item behind a gap and a processed item is followed by a processed one |
| CppMaps.NativeKeepsCounting | src/chronowire/cpp_runtime.cpp:751-956 | two items with a gap between them and a counting kernel: Python answers 1 and 1, the native loop 1 and 2 |
| CppGraphs.CommonTimebase | src/chronowire/cpp_runtime.cpp:1070-1078 | the common timebase, refused exactly when it exceeds 64 bits |
| CppGraphs.RunSource | src/chronowire/cpp_runtime.cpp:1091-1118 | refused exactly beyond 64 bits; otherwise all items on time are kept, whatever their order |
| CppGraphs.PassingOverIsPrefixIff | src/chronowire/cpp_runtime.cpp:1091-1105 | passing late items over leaves the admitted prefix if and only if nothing behind the first late item is on time |
| CppGraphs.LateStaysIff | src/chronowire/cpp_runtime.cpp:1091-1105 | this holds at every boundary if and only if interval ends never fall |
| CppGraphs.FallingEndsDiffer | src/chronowire/cpp_runtime.cpp:1091-1105 | a late item before a punctual one: the scheduler waits, the native source goes on |
| CppGraphs.RunRate | src/chronowire/cpp_runtime.cpp:583-636 | with its period in ticks, refuses exactly a period or fire time out of range, and else equals the streaming RATE under the exact condition of its policy |
| CppGraphs.RunNode | src/chronowire/cpp_runtime.cpp:1119-1142 | each node on its input batch equals the streaming node on the same stream in ticks, under the exact condition of its kind |
| CppGraphs.RunGraph | src/chronowire/cpp_runtime.cpp:1063-1150 | the whole evaluation is refused exactly when something does not fit, and otherwise every batch decodes to the port's snapshot at the boundary in ticks, diagnostics included; no accepted value leaves 64 bits. Nodes behind gaps and sources with falling ends meet the exact conditions stated above |
| Machines.MachinesAgree | src/chronowire/cpp_executor.py:2209-2226 | what the scheduler has published when quiet at a boundary is, in ticks, the native batch at that boundary |
| Machines.TimebaseDoesNotMatter | src/chronowire/cpp_runtime.cpp:1070-1082 | runs over two timebases decode to the same times, payloads, statuses, diagnostics and segment changes |
| Machines.GapFreePlansAreFaithful | src/chronowire/cpp_runtime.cpp:1091-1118 | on gap-free sources every node of every plan meets its gap condition; of the conditions of the native run only that on interval ends at a boundary is left |
| IngressRecords.GapStands | src/chronowire/runtime_buffer.py:474-497 | a recorded or merged marker stands for the dropped item and for what it stood for before, with its exact interval and count |
| IngressRecords.GapInPlace | src/chronowire/runtime_buffer.py:474-497 | expanding the markers, the dropped item lies at its own place in the flow |
| IngressRecords.OldestExplained | src/chronowire/runtime_buffer.py:386-397 | dropping the oldest item loses nothing from the expanded flow |
| IngressRecords.NewestArranged | src/chronowire/runtime_buffer.py:384-385 | dropping the newest item of a contiguous stream never leaves two adjacent markers |
| IngressRecords.OldestNoAdjacent | src/chronowire/runtime_buffer.py:386-397 | nor does dropping the oldest |
| IngressRecords.RunningGap | src/chronowire/runtime_buffer.py:474-497 | every marker reports the running total of drops up to itself |
| RealtimeIngress.RealtimeIngressBuffer.Publish | src/chronowire/runtime_buffer.py:373-401 | in any state and under either policy: which items are pending afterwards, how many were dropped, and the expanded flow is still everything published, in order |
| RealtimeIngress.RealtimeIngressBuffer.Take | src/chronowire/runtime_buffer.py:418-433 | the first record, or wait, end or failure, each exactly when due |
| RealtimeIngress.RealtimeIngressBuffer.Discard | src/chronowire/runtime_buffer.py:435-444 | exactly what was pending is thrown away, and counted |
| RealtimeIngress.RealtimeIngressBuffer.Drain | src/chronowire/runtime_buffer.py:403-433 | behind close or fail, taking until nothing is left hands out exactly the pending records in order, and only then the end, or the failure if there was one |
| RealtimeSources.DropsAccounted | src/chronowire/runtime.py:3241-3266 | counts attached to emissions plus pending ones equal the sum over the markers taken |
| RealtimeSources.MarkedExactlyAfterGaps | src/chronowire/runtime.py:3241-3266 | an emission behind markers keeps payload and interval, is INVALID when its item is and DEGRADED otherwise, carries the overrun and counts exactly the drops of the markers directly before it; any other is untouched |
| RealtimeSources.RealtimeSource.Advance | src/chronowire/runtime.py:3164-3266 | one step takes at most one record: a marker becomes a pending count, an item is emitted or, exactly when it ends behind the boundary, held back, DEGRADED unless INVALID and with the sum of the counts when there are any; what is held is otherwise published first; the accounting is kept |
| RealtimeSources.RealtimeSource.NothingLostSilently | src/chronowire/runtime.py:3164-3266 | at the end every published item was emitted, counted as dropped, or discarded by a cancel |
| Merges.PairsUnique | src/chronowire/runtime.py:3371-3418 | in an increasing stream the pairing by interval is unique |
| Merges.ExactMerge.Advance | src/chronowire/runtime.py:3371-3418 | one unit of work, or which input it needs: a pair when both heads start and end together, a drop when the auxiliary one starts earlier; it stops exactly at a primary item of which no auxiliary item has both start and end, or at the end |
| Merges.ExactMerge.JoinsWholeStreams | src/chronowire/runtime.py:3330-3418 | for every completion of what arrived, pair i is primary item i with an auxiliary item of the same start and the same end, and when the node has stopped short no auxiliary item has both start and end of the next primary one |
| Merges.RunIslandMerge | src/chronowire/cpp_executor.py:274-284 | the island loop pairs position by position while starts and ends are equal, and stops at the first position where one of them differs |
| Merges.IslandMergeAgreesIff | src/chronowire/cpp_executor.py:274-284 | its pairs are a prefix of the streaming join, and all of it if and only if the first primary item that differs from its position in the auxiliary stream, if any, does not occur there at all |
| Merges.IslandMergeDiffers | src/chronowire/cpp_executor.py:274-284 | one early auxiliary item stops the island but not the scheduler |
| Merges.LongerFramesAreMissed | src/chronowire/runtime.py:3397-3418 | the frames of FRAME(2, 2) and FRAME(4, 2) over the same items start together and end apart: nothing is joined |
| Merges.LongerFramesStall | src/chronowire/runtime.py:3397-3418 | given both first frames the merge stalls with no output |
| Latests.LatestIsLast | src/chronowire/runtime.py:3522-3555 | the selected candidate is the last of the whole stream that starts no later |
| Latests.CursorScan | src/chronowire/cpp_runtime.cpp:774-811 | the cursor over the batch selects exactly that candidate for every primary item that has one |
| Latests.IslandScan | src/chronowire/cpp_executor.py:285-302 | so does the island loop, up to the first item without one |
| Latests.ScansAgreeIff | src/chronowire/cpp_runtime.cpp:785-811 | skipping and stopping agree if and only if the first item has a value or none has |
| Latests.ScansDiffer | src/chronowire/cpp_executor.py:293-301 | a first primary item before any value: the native scan skips it and goes on, the island stops |
| Latests.LatestNode.Advance | src/chronowire/runtime.py:3522-3555 | one unit of work, or which input it needs; a candidate is asked for only while the port is open and its frontier has not passed the primary start |
| Latests.LatestNode.SelectsFromWholeStreams | src/chronowire/runtime.py:3522-3555 | for every completion of what arrived, each output pairs its item with the last candidate of the whole stream that starts no later, whatever the arrival order |
| Frontiers.FrontierIs | src/chronowire/runtime.py:3131-3136 | on every input that suits the node the announced frontier is exactly the earliest start still possible |
| Frontiers.FrontierIsKept | src/chronowire/runtime.py:3706-3712 | on such input nothing that starts before the frontier is published, whatever more arrives and at the end too; a FRAME with hop < size needs only starts in order, and a HOLD only input without gaps |
| Frontiers.PromiseKeptIff | src/chronowire/runtime.py:3786-3793 | SAMPLE and one-output MAPs keep their promise at every prefix of the input if and only if nothing they publish starts before an end they have read |
| Frontiers.MapKeepsIff | src/chronowire/runtime.py:3955-3962 | a MAP keeps its promise if and only if its input intervals do not overlap |
| Frontiers.StepsInOrderIff | src/chronowire/runtime.py:3674-3826 | every node, on every input, keeps its promise if and only if no single step, and no flush, publishes anything that starts before what an earlier step announced |
| Frontiers.HoldKeepsIff | src/chronowire/runtime.py:3795-3826 | for a HOLD: if and only if every item that fires does so no earlier than any end before it |
| Frontiers.OverlapBreaksPromise | src/chronowire/runtime.py:3962 | two overlapping intervals through a MAP break it |
| Spacing.StreamsKeepOrder | src/chronowire/runtime.py:3674-3826 | gap-free ordered input stays gap-free and ordered behind every node with one output per input; intervals stay disjoint unless a FRAME overlaps; behind a HOLD they always are |
| PortPromises.EveryPortKeepsItsPromise | src/chronowire/runtime.py:3131-3136 | in every reachable state of an orderly plan no port ever publishes an item that starts before its frontier |
| PortPromises.JoinOfPorts | src/chronowire/runtime.py:3330-3418 | an exact merge fed by any two ports of any run emits a prefix of the join of the two whole denotations, and all of it when it has stopped |
| PortPromises.LatestOfPorts | src/chronowire/runtime.py:3522-3555 | a LATEST input fed by a port of any run selects from its whole denotation |
| Chains.ChainNeeds | src/chronowire/runtime.py:592-618 | item j leaves a chain of FRAME, SAMPLE and MAP nodes exactly when stride * j + span items entered it |
| Chains.DemandCovers | src/chronowire/runtime.py:592-634 | without skipping FRAMEs the product of frame sizes and sample ratios covers both the span and the stride of a chain |
| Diamonds.BranchDemand | src/chronowire/runtime.py:3304-3316 | demand on a chain of FRAME, SAMPLE and MAP nodes over their buffers leads to its last link with unread input, and past a drained chain to the shared port or to the nodes before it |
| Diamonds.LinkEmits | src/chronowire/runtime.py:3674-3826 | on a time grid FRAME, SAMPLE and one-output MAP emit item j exactly when size items remain from offset j * hop, with size 1 for the last two and the ratio as hop of a SAMPLE |
| Diamonds.StepKeeps | src/chronowire/runtime.py:3330-3418 | behind a shared port of any chain of nodes: every turn of the merge keeps what holds of the network, both read positions and all pairs so far, and is not refused when the buffer suffices |
| Diamonds.Outcome | src/chronowire/runtime.py:3330-3418 | when the merge stops, pair i is item i of both branches, with equal starts and equal ends; it has paired all of them if and only if the auxiliary branch is smooth, in view of the shared port's signature, or there is no second one; otherwise it stalls after one pair |
| Diamonds.CapacitySufficesIff | src/chronowire/runtime.py:620-634 | over all reachable states of the run, no publish into the shared buffer is refused if and only if its capacity holds one span and one stride, as far as the shared port has items for them and for its end |
| Diamonds.PlanSuffices | src/chronowire/runtime.py:572-644 | with the planned capacity no reachable state refuses a publish, whatever SAMPLE and MAP nodes the branches contain, unless a FRAME skips |
| Diamonds.SamplesNeedTheirRatio | src/chronowire/runtime.py:603-613 | two SAMPLEs that keep every ratio-th item: the planned capacity is the ratio, no run is refused with it, and with less room every run is once that many items come |
| Diamonds.SkippingDefeatsThePlan | src/chronowire/runtime.py:599-602 | with two FRAMEs of size 1 and hop 3 and two items the run reaches a refused demand under the planned capacity |
| Diamonds.OverlapStallsTheMerge | src/chronowire/runtime.py:3706-3712 | an auxiliary branch that ends in FRAME(1, 1) behind an overlapping FRAME announces too late a frontier, and the merge stalls after one of several pairs |
| Diamonds.SkipStallsTheMerge | src/chronowire/runtime.py:3690-3712 | so does one that ends in FRAME(1, 2) behind FRAME(4, 1) |
| Diamonds.SharedOverlapStalls | src/chronowire/runtime.py:3706-3712 | behind a shared FRAME(2, 1) even FRAME(1, 1) on both branches stalls |
| MergeRuns.MergeRuntime.Turn | src/chronowire/runtime.py:3330-3418 | the method over real shared buffers takes exactly the step of the transition system, and puts together only items that start and end together |
| DiamondRuns.RunDiamond | src/chronowire/runtime.py:3330-3418 | the program, from empty buffers to its end: terminates in the state that the outcome describes, with no publish refused; pairs have equal starts and equal ends |
| Grids.TimeSignatures | src/chronowire/runtime.py:312-337 | the loop computes the signature of every port |
| Grids.GridIsKept | src/chronowire/runtime.py:312-337 | in a fitting plan that compiles every port lies on its signature's grid, padded frames included |
| Grids.ValidateRateFrameBoundaries | src/chronowire/runtime.py:340-433 | accepts exactly the plans without a HOLD behind a FRAME and without a SAMPLE whose period is no multiple of its input's |
| Grids.SampleCompilesIff | src/chronowire/runtime.py:407-433 | a SAMPLE compiles exactly when its period is a positive whole number of steps of its input |
| Grids.HoldOnGridIff | src/chronowire/runtime.py:3795-3826 | a HOLD on a grid leaves its own grid if and only if a point of it falls between two items with another one hit later; a closed form in signature and period |
| Grids.FrameOnGridIff | src/chronowire/runtime.py:3728-3765 | a FRAME stays on its grid if and only if nothing is padded or the input is contiguous |
| Grids.GridIsKeptIff | src/chronowire/runtime.py:340-433 | of the plans that compile, exactly the fitting ones keep every port on its grid |
| Grids.EmissionIs | src/chronowire/runtime.py:312-337 | emission k starts at k * step and has the signature's length |
| Grids.SampleThenHoldLeavesGrid | src/chronowire/runtime.py:407-433 | a compiled plan of SAMPLE and a faster HOLD whose port leaves its grid |
| Grids.SampleThenPadLeavesGrid | src/chronowire/runtime.py:3728-3765 | a compiled plan of SAMPLE and a padded FRAME whose last frame is shorter than predicted |
| Grids.SampleThenHoldKeepsGrid | src/chronowire/runtime.py:407-433 | a HOLD of the same period behind a SAMPLE keeps its grid |
| Capacities.LengthsAreKept | src/chronowire/runtime.py:547-559 | in any plan with items no longer than declared, gaps and holes or not, no port in front of a FRAME carries a longer item than its signature says |
| Capacities.BurstsAreBounded | src/chronowire/runtime.py:547-559 | no unit of work of any run of a compiled plan emits more than planned |
| Capacities.BurstIsReached | src/chronowire/runtime.py:547-559 | a HOLD on its grid emits the whole planned burst with its first item |
| Capacities.SampleKeepsOneOf | src/chronowire/runtime.py:603-613 | a SAMPLE multiplies demand by k when among every k consecutive items of its input exactly one is kept |
| Capacities.EmitsFromItsMultiplier | src/chronowire/runtime.py:599-602 | a FRAME or a MAP emits from as many items on as it multiplies demand by |
| Capacities.DemandIsDependence | src/chronowire/runtime.py:592-618 | a port has a demand on another exactly when it depends on it |
| Capacities.RoundUpIsLeast | src/chronowire/runtime.py:627-629 | the shared demand is rounded to the least number of whole bursts that holds it |
| Capacities.UnsharedHoldsABurst | src/chronowire/runtime.py:620-634 | a port with one reader, or that never feeds both branches of a merge, is planned one burst |
| Capacities.PlannedPortBuffers | src/chronowire/runtime.py:572-644 | the planned bursts and capacities, shared merge demand included, are what the scheduler's freedom from overflow requires; the rows above and `Diamonds.PlanSuffices` say what they mean |
| Stages.PythonIslands | src/chronowire/runtime.py:722-751 | the worklist finds the least set that holds every Python MAP and is closed under edges that touch no native MAP |
| Stages.IslandsUnique | src/chronowire/runtime.py:722-751 | that set is unique |
| Stages.EdgesCrossAtNativeMaps | src/chronowire/runtime.py:703-751 | an edge between the Python side and the rest has a native MAP at its other end |
| Stages.StageDescriptors | src/chronowire/runtime.py:771-821 | the stages partition the node list and are cut exactly where the domain changes, at native MAPs and at observed ports outside Python |
| Stages.StageOfNode | src/chronowire/runtime.py:771-821 | a native MAP is alone in its stage, an observed node outside the islands is the last of its stage, and island or kind decide the domain |
| Stages.StagesMeet | src/chronowire/runtime.py:771-821 | two stages meet only at a native MAP, behind an observed node outside the islands, at the edge of an island, or between a SOURCE and another node |
| Stages.StagesAreTheNodes | src/chronowire/runtime.py:796-822 | concatenated, the stages are the node list |
| Stages.NoConsecutivePythonStages | src/chronowire/runtime.py:771-821 | no two consecutive stages are Python |
| StageSplits.SectionStreams | src/chronowire/cpp_executor.py:632-718 | a section that starts from the stream of its first position carries the streams of the whole plan |
| StageSplits.EvaluateSection | src/chronowire/cpp_executor.py:632-891 | a native section packs its boundary batch, runs its nodes behind a synthetic source over a timebase of its own, and is refused exactly when a node has no native form, the batch cannot be packed or the run refuses; otherwise its ports are those of the whole plan in ticks |
| StageSplits.Decode | src/chronowire/cpp_executor.py:893-1040 | decoding a batch over any timebase gives the stream back: times, payloads, statuses, gap diagnostics |
| StageSplits.RunNativeSection | src/chronowire/cpp_executor.py:1965-2025 | a native section decodes to the stream of its last position, the counts without the replayed batch are those of its own positions, and it fails exactly when it refuses the batch at its boundary |
| StageSplits.RunPythonNode | src/chronowire/cpp_executor.py:392-498 | each Python loop yields the stream of its node: HOLD, SAMPLE and FRAME under the exact condition of their kind, a MAP when no reset matters, which is exact for all kernels at once; refused exactly are padding and, behind a native section, whatever is no MAP |
| StageSplits.RunIsland | src/chronowire/cpp_executor.py:2033-2050 | an island yields the stream and the counts of its positions; refused exactly when one of its nodes is |
| StageSplits.Admit | src/chronowire/cpp_executor.py:1957-1962 | the filter on the logical end leaves the admitted prefix |
| StageSplits.SubtractBoundaryCounts | src/chronowire/cpp_executor.py:1892-1903 | each status count is lowered by its occurrences in the replayed batch, and no zero entry remains |
| StageSplits.MergeCounts | src/chronowire/cpp_executor.py:1905-1911 | the counts are added status by status |
| StageSplits.RunIslands | src/chronowire/cpp_executor.py:1948-2080 | wherever a linear plan is cut, the decoded output is what the streaming machine shows at the same logical end, and the status counts are those of all its ports; the run fails if and only if the end is not positive or some piece refuses what is at its boundary |
| StageSplits.RanIsNotRefused | src/chronowire/cpp_executor.py:893-1040 | fractions in lowest terms: the batch at a boundary is determined by the stream, so that a section cannot both run and be refused |
| StageSplits.GapFreeSplits | src/chronowire/cpp_executor.py:1913-2110 | a source without gaps can be cut anywhere, without further condition |
| StageSplits.SameCounts | src/chronowire/cpp_executor.py:1892-1911 | dictionaries without zero entries and with equal counts are equal, so two ways of cutting a plan give one dictionary |
| Triggers.NormalizedIs | src/chronowire/extension.py:164-168 | the normalised offset lies in one period and differs from the given one by whole periods |
| Triggers.DueMeans | src/chronowire/extension.py:118-128 | in numbers: some offset + k * period lies in the emission, and every earlier emission starts no later than that and ends by then |
| Triggers.EveryLogicalTimeSession.ShouldFire | src/chronowire/extension.py:118-128 | on any emissions: fires exactly when the emission covers a boundary that no earlier emission covered or started behind |
| Triggers.SessionsFireIff | src/chronowire/extension.py:118-142 | that is the first emission to cover a boundary, as documented, on every grid of a session, if and only if no earlier emission started behind a time from 0 on that this one is the first to cover |
| Triggers.FirstToCoverIsDueIff | src/chronowire/extension.py:118-142 | the same over all grids, whatever the offset |
| Triggers.FirstToCoverIsDue | src/chronowire/extension.py:118-142 | in particular while starts do not fall |
| Triggers.LateStartIsNotDue | src/chronowire/extension.py:118-128 | behind an emission that started later, the first one to cover a boundary does not fire |
| GaussJordan.StepKeepsSolutions | src/chronowire_reference/mvdr.py:80-93 | a pivot step changes no solution |
| GaussJordan.StepReduces | src/chronowire_reference/mvdr.py:80-93 | and leaves one more unit column |
| GaussJordan.UniqueSolution | src/chronowire_reference/mvdr.py:75-94 | a returned vector is the one and only solution, for every size |
| GaussJordan.RefusedIsAlmostSingular | src/chronowire_reference/mvdr.py:81-83 | a refused matrix maps some vector with an entry 1 to a vector whose entries are all at most 1.0e-12 in size, for every size and any pivoting |
| GaussJordan.SingularIsRefused | src/chronowire_reference/mvdr.py:81-83 | a matrix that maps a vector other than zero to zero is always refused |
| GaussJordan.OneEquation | src/chronowire_reference/mvdr.py:81-83 | one equation in one unknown is refused exactly when its coefficient is at most 1.0e-12 in size |
| Solvers.Solve | src/chronowire_reference/mvdr.py:75-94 | the Python rows, swapped whole and divided from the pivot on, arrive at that elimination: an answer is the only solution, and a refused matrix is singular up to 1.0e-12 |
| Solvers.SolveLinearSystem | src/chronowire/cpp_runtime.cpp:695-749 | the native flat table with its partial row swap arrives at the same answers and the same refusals |
| Mvdr.CovarianceAccumulator.Process | src/chronowire_reference/mvdr.py:249-292 | over any run of frames the estimate is the loaded covariance of all samples so far; rejected, with which error, and degraded exactly when the program does so |
| Mvdr.AccumulateNative | src/chronowire/cpp_runtime.cpp:846-853 | the native sums are the same |
| Mvdr.CovariancePower | src/chronowire_reference/mvdr.py:269-276 | the covariance as a form is the mean over the samples of the products of both projections, plus the loading times the scalar product |
| Mvdr.MvdrWeights | src/chronowire_reference/mvdr.py:109-124 | the weights are x over steering . x for the only x with covariance * x == steering, and are refused exactly when that product is at most 1.0e-12 in size; without such an x the covariance is singular up to 1.0e-12 |
| Mvdr.ZeroDenominatorIff | src/chronowire_reference/mvdr.py:121-123 | the denominator is reported as zero exactly when there is an answer and the only solution is orthogonal to the steering vector up to 1.0e-12 |
| Mvdr.CovarianceForm | src/chronowire_reference/mvdr.py:249-292 | the loaded covariance is symmetric and positive semidefinite |
| Mvdr.WeightsAreOptimal | src/chronowire_reference/mvdr.py:109-124 | whenever weights are produced they have gain 1 towards the steering vector, and no vector with gain 1 has less output power |

## Left out

- Floating-point rounding: the solver is proved over exact reals, payloads elsewhere are opaque.
- MAPs with several inputs inside the scheduler class: exact merges and LATEST inputs are proved as nodes of their own, under any arrival order, and an exact merge on top of the scheduler in `MergeRun`.
- CONTAINS, OVERLAPS and TOLERANCE synchronization, explicit time transforms, MAPs with several outputs, gaps at exact merges.
- Realtime sources inside the scheduler class: the ingress and the source step are proved on their own; waiting in `take` is a result, not a blocked thread.
- Kernel exceptions, Skip and EmitMany beyond a list of outputs, collectors, extensions other than the EveryLogicalTime trigger, profiler, metrics, snapshot files.
- Provenance indices and metadata: of a native item's provenance only whether it holds an item with an INPUT_OVERRUN diagnostic. Sequence numbers are positions in a port's published list.
- Diagnostics: of the diagnostics of an emission only the presence of INPUT_OVERRUN is kept.
- `port_gaps` bookkeeping, which only exact merges read.
- Python's `elif port_id in exhausted_ports` after a failed advance and the SCHEDULER_DEADLOCK report in `_drive`: both are proved unreachable for single-input plans and are not written out.
- Branches of the C++ session that validate the portable plan, and the collectors of public outputs.
- Memory layout: flat native tables are two-dimensional arrays, the running sums of the covariance are a list of rows, zero-copy buffers are values.
- CppGraphs.RunGraph: under the exact conditions of its nodes and sources; behind a node that fails its condition the two machines carry different streams and nothing is said.
- CppMaps.RunMapNode: one input per MAP; the secondary LATEST input of the native loop is `Latests.CursorScan`.
- PlanRuntimes.PlanRuntime.ProcessMap: one input and one output port per MAP; merges are nodes of their own.
- PlanRuntimes.PlanRuntime.AdvanceSource: the pull source only; the realtime branch is `RealtimeSources.RealtimeSource.Advance`.
- StageSplits.RunIslands: linear plans whose sources are punctual; islands with several inputs, the cooperative coordinator, buffer borrowing and zero-copy decisions are not modelled. What the constructor refuses is refused here when the piece is reached.
- PrefixStages.RunPythonMap: one input per MAP; the joins of further inputs are `Merges.RunIslandMerge` and `Latests.IslandScan`. The max_items check belongs to the kernel exceptions above.
- Diamonds.Outcome: the shared port lies behind a chain of nodes on their time grids that emit at most one item at a time; its two branches consist of FRAME, SAMPLE and one-output MAP nodes and have equal signatures. Fan-out before the shared port, a HOLD inside a branch and further consumers are left out.
- PrefixStages.HoldThroughAgreesIff: items that reach over a later gap are left out of the converse; on them equal fire times are sufficient.
- Sessions.IncrementalSession.Close: with several roots, a budget that misses the remaining work by less than the number of roots is undecided; it depends on which root's turn the budget ends in.
- Grids.GridIsKeptIff: MAPs preserve times; explicit time transforms and synchronized inputs of the compile check are left out.
- Latests.LatestNode.Advance: one LATEST input per MAP, and it must keep the promise of its frontier.
- Merges.ExactMerge.Advance: one auxiliary input per merge, no gap entries.
