# CEDR verification model

A Dafny 4.11 model of CEDR, a runtime that executes applications on a pool of heterogeneous processing
elements (PEs). `dafny verify dfyconfig.toml` checks the whole project. It has three parts.

**The DAG dataflow runtime** (`Dag*.dfy`). Task graphs in four modes (non-streaming, single buffer, double
buffer, sequential), with any number of applications, frames and PEs. The runtime is a transition system with
one step per critical section (Arrive, Queue, Assign, Take, Finish, Drain), and every result is about all
runs under all interleavings: where tasks can be, how far the two ends of an edge can drift apart, that
frames do not overlap in sequential mode, when applications retire, that runs end, and exactly when they end
with everything done. `DagGraph` holds graphs and guards, `DagSystem` the steps, `DagLocation`, `DagSafety`,
`DagCounting` and `DagRuns` the invariants, `DagTheorems`, `DagSequential` and `DagProgress` the results;
`DagDaemon` is a class whose methods are the daemon's and the workers' code. It records every step taken, and
its invariant says that the record leads from the initial state to the present one; between any two actions of
the daemon the workers do whatever a given but arbitrary script says (`DagWorkers`). A whole pass of the daemon
(drain, arrivals, scan, the SIMPLE policy) is proved there against the completion criterion.

**The API runtime** (`Api*.dfy`, `ListScheduling.dfy`, `Makespan.dfy`). `ApiScheduler` is a class with the six
scheduling policies, which erase from the ready queue while walking it, push to todo deques and keep each
PE's availability; `ApiMachine` states what their choices satisfy, and `ListScheduling`, `Makespan` and
`ApiRounds` derive conservation, ETF's order and the approximation bounds of EFT and HEFT_RT.
`ApiLifecycle` and `ApiLifecycleRuns` are a second transition system, for the life of an application (count,
push, poison pill, drain, join and free) and for the shutdown handshake with the workers; `ApiDaemon` is the
class with the code of those steps, again with the other threads acting between the daemon's actions.

**The image writer** that the lane-detection application carries. `ZlibCompress` with `BitWriter`,
`DeflateCodes`, `StoredBlocks` and `Adler` is the zlib compressor, proved against `Inflate`, a decoder
written from RFC 1950 and RFC 1951. `PngFilter` is the PNG row filtering, proved against the reconstruction
of RFC 2083 section 6 and composed with the compressor. `HdrRle` and `TgaRle` are the two run-length
writers, over `RunLength`, proved against decoders for their formats. `HdrColor` is the conversion between
linear and shared-exponent colours, proved against the reader that ships beside the writer; it is done in real
arithmetic, where each scaling is by a power of two.

`Basics` holds what the parts share. Its predicate `Inspect` is always true: a loop invariant written
"for all k with Inspect(k), P" is P, but a proof unfolds P only where it mentions Inspect.

Where the original meets the outside, the model takes a parameter: the clock is any function from reading
number to time, `std::shuffle` any permutation, `std::sort` any sorted permutation, costs any table of
natural numbers, and a thread's next step any enabled one.

Three results are exceptions to what one would expect of the code. The compressor's fallback writes no block
for empty input, so that one stream cannot be decoded (`EmptyStreamRejected`, and the if-and-only-if of
`Compress`). The DAG runtime completes exactly the graphs called healthy in `DagGraph`: every application has
at least one frame, and no sequential node that is both head and tail has more than one
(`CompletionCriterion`); the first condition is needed because an arrival queues heads without testing the
frame count, the second because such a node waits for itself. The HDR writer's exponent byte wraps to 0 for a
float of 2^127 or more, which is then read back as black; every smaller colour comes back to within a 128th of
its largest component (`ColourKept`).

## Model

| member | source | states |
|---|---|---|
| DagGraph.LinksMirror | src-dag/dag_parse.cpp:277-310 | the linked predecessor and successor lists describe the same edges, inside one application, with the sequential mode's tail-to-head links included |
| DagGraph.DoubleBufferGuard | src-dag/runtime.cpp:66-72 | the unsigned `iter - 1` that wraps at frame 0 still makes the double-buffer test mean `succ.iter + 1 >= iter` |
| DagGraph.CheckPredComp | src-dag/runtime.cpp:16-55 | the loop with its early returns decides exactly the predecessor guard over all predecessors, in all four modes |
| DagGraph.CheckSuccComp | src-dag/runtime.cpp:57-93 | the same for the successor guard |
| DagSystem.WokenExactly | src-dag/runtime.cpp:321-329 | the wakeup loop pushes exactly the successors that pass the guard and are not flagged, each once, even if listed twice |
| DagSystem.ArrivingOnce | src-dag/runtime.cpp:355-364 | an arrival pushes no task twice |
| DagSafety.ArrivalPushesHeads | src-dag/runtime.cpp:355-364 | before anything has run, the predecessor guard holds exactly for the heads, in every mode |
| DagSafety.HeadTailNeverScanned | src-dag/runtime.cpp:73-88 | a sequential node that is head and tail can never pass both guards again |
| DagSafety.DrainKeepsCounters | src-dag/runtime.cpp:301-329 | draining and waking keep edge discipline, frame limits, started heads and the wakeup equivalence |
| DagSafety.QueueKeepsCounters | src-dag/runtime.cpp:376-391 | so does queueing a task in the streaming scan |
| DagLocation.StepKeepsLocation | src-dag/runtime.cpp:286-391 | every step keeps each task in at most one place, there once, and in one exactly when `in_ready_queue` is set |
| DagLocation.StepKeepsFifo | src-dag/threads.cpp:60-185 | every step keeps each PE's hand-out order: handed = drained ++ completed ++ running ++ todo |
| DagTheorems.SingleLocationFifo | src-dag/scheduler.cpp:52-62 | single location and per-PE FIFO hold after every run, under every interleaving |
| DagTheorems.SingleBufferDiscipline | src-dag/runtime.cpp:16-65 | single buffer: a producer is 0 or 1 frames ahead and never in flight together with its consumer |
| DagTheorems.DoubleBufferDiscipline | src-dag/runtime.cpp:26-72 | double buffer: a producer is 0 to 2 frames ahead, exactly 1 when both are in flight |
| DagTheorems.WakeupRefinesScan | src-dag/runtime.cpp:321-329 | non-streaming: a task of an arrived application is in flight or done iff all predecessors are done; nothing runs twice |
| DagSequential.ReachableHeadsWait | src-dag/runtime.cpp:32-50 | sequential: a head is at most one frame ahead of every tail and in flight only when no tail is behind it, also when head or tail are one node |
| DagSequential.SequentialNoOverlap | src-dag/runtime.cpp:73-88 | all tasks of a sequential application are at frame k or k + 1 for one k; a head in flight for a frame means all earlier frames are finished by all tasks |
| DagTheorems.CountIsFramesDone | src-dag/runtime.cpp:301-303 | `completed_task_count` is the sum of the tasks' `iter` |
| DagTheorems.RetiredExactlyWhenFinished | src-dag/runtime.cpp:331-341 | an application is in `completed_apps` iff it has tasks and frames and every task is exactly at its frame count; at most once; with none of its tasks in flight |
| DagTheorems.FreeCountExact | src-dag/runtime.cpp:293-295 | non-queued mode: a PE holds at most one task and `free_resource_count` is the number of PEs holding none for policies that decrement it; for HEFT_RT, which does not, the exact drift |
| DagTheorems.AssignHasFreePe | src-dag/scheduler.cpp:98-130 | the decrement after an assignment never underflows |
| DagProgress.HealthyCompletes | src-dag/runtime.cpp:286-391 | deadlock freedom in every mode: a reachable state of a healthy acyclic graph with no enabled step has every application retired and every task at its frame count |
| DagProgress.UnhealthyNeverCompletes | src-dag/runtime.cpp:355-364 | a streaming application with frame count 0, or a head-and-tail sequential node with more than one frame, never completes |
| DagProgress.UnhealthyExamples | src-dag/runtime.cpp:79-82 | both exceptions occur: one graph each |
| DagProgress.LoneUnhealthy | src-dag/runtime.cpp:73-88 | an application of one task is unhealthy exactly when it streams with frame count 0 or is sequential with more than one frame |
| DagProgress.CompletionCriterion | src-dag/runtime.cpp:296-391 | a run that cannot continue has completed everything if and only if the graph is healthy |
| DagProgress.RunsAreBounded | src-dag/runtime.cpp:286-391 | termination: no run has more steps than one per application and five per task and frame |
| DagDaemon.Runtime.ArriveApp | src-dag/runtime.cpp:351-374 | the arrival loop is the Arrive step |
| DagDaemon.Runtime.ScanStreaming | src-dag/runtime.cpp:376-391 | going through the list of streaming applications in order of arrival, with workers acting after every task, the scan makes only Queue steps and leaves unqueued no task that passes both guards |
| DagDaemon.Runtime.WakeSuccessors | src-dag/runtime.cpp:321-329 | the wakeup loop over the successor list |
| DagDaemon.Runtime.DrainPe | src-dag/runtime.cpp:286-346 | with workers completing more meanwhile, the loop drains exactly the tasks that were complete when it looked, in order; one `free_resource_count++` per PE is right because a non-queued PE never has two completed tasks |
| DagDaemon.Runtime.RetireIfComplete | src-dag/runtime.cpp:331-341 | both completion tests, with the streaming product |
| DagDaemon.Runtime.AttemptToAssign | src-dag/scheduler.cpp:17-69 | succeeds iff the PE supports the task and, without queueing, holds nothing, even if the worker acts between test and push; then pushes and moves the PE's availability on as one Assign step, else changes nothing |
| DagDaemon.Runtime.AssignAt | src-dag/scheduler.cpp:107-120 | the attempt, then erasing the task and counting the PE as used, brings the ready queue and the counter back in line with the step |
| DagDaemon.Runtime.ScheduleSimple | src-dag/scheduler.cpp:98-130 | makes only Assign steps, and afterwards no PE takes any task still in the ready queue: giving up at `free_resource_count == 0` misses nothing |
| DagDaemon.Runtime.Pass | src-dag/runtime.cpp:286-392 | one whole pass with workers acting throughout: nothing is left to queue or to assign; if it leaves the PEs empty with everything arrived, all applications are complete if and only if the graph is healthy |
| DagDaemon.Runtime.WorkerTake | src-dag/threads.cpp:61-69 | the worker's first critical section |
| DagDaemon.Runtime.WorkerFinish | src-dag/threads.cpp:171-174 | the worker's second critical section |
| ApiScheduler.Scheduler.AttemptToAssign | src-api/scheduler.cpp:17-64 | succeeds iff the PE supports the task and, without queueing, is idle; then pushes to that PE's todo deque and moves its availability on, else changes nothing |
| ApiScheduler.Scheduler.FindEarliestFromTop | src-api/scheduler.cpp:362-374 | the EFT search returns an earliest-finishing PE, of equals the highest, and keeps the previous task's choice when no PE supports the task |
| ApiScheduler.Scheduler.FindEarliest | src-api/scheduler.cpp:242-265 | the HEFT_RT search returns an earliest-finishing PE, of equals the lowest |
| ApiScheduler.Scheduler.FindEarliestTask | src-api/scheduler.cpp:418-439 | the ETF search returns the global minimum over queue and PEs |
| ApiScheduler.Scheduler.FindCheapest | src-api/scheduler.cpp:144-154 | the MET search returns a cheapest configured and supported type, type 0 when there is none |
| ApiMachine.SortByRank | src-api/scheduler.cpp:195-214 | a permutation in decreasing order of mean execution time |
| ApiScheduler.Scheduler.PlaceAround | src-api/scheduler.cpp:157-170 | the rotating search hands the task to the first PE from the cursor that takes it and leaves the cursor behind it, or proves that every PE refuses it |
| ApiScheduler.Scheduler.ScheduleEft | src-api/scheduler.cpp:344-397 | a round conserves tasks, picks an earliest-finishing PE each time, and with queueing leaves exactly the tasks no PE supports, the others placed in order; it places something iff some task's PE takes it; the free count drops by the placements |
| ApiScheduler.Scheduler.ScheduleHeftRt | src-api/scheduler.cpp:189-284 | the same in rank order; with queueing the queue empties; the free count is untouched |
| ApiScheduler.Scheduler.ScheduleEtf | src-api/scheduler.cpp:399-457 | each pick is the global minimum over what is left; with queueing the queue empties; it places something iff the first pair it settles on can be used |
| ApiScheduler.Scheduler.ScheduleMet | src-api/scheduler.cpp:132-188 | each pick is on a PE of a cheapest type; with queueing only unsupported tasks stay; it places something iff an idle PE of some task's cheapest type exists |
| ApiScheduler.Scheduler.ScheduleSimple | src-api/scheduler.cpp:94-123 | with queueing each pick takes the first supporting PE after the previous pick's; unless no PE is counted free at the start, no PE takes any task that is left; it places something iff some PE takes one of the tasks it looks at |
| ApiScheduler.Scheduler.ScheduleRandom | src-api/scheduler.cpp:126-130 | the same over any shuffle of the queue |
| ApiScheduler.Scheduler.PerformScheduling | src-api/scheduler.cpp:460-503 | the dispatch conserves tasks under every policy; from the state before: the daemon's exit for a round that placed nothing happens exactly when no PE the policy has in mind for a task takes it; with queueing and a PE for every task it empties the queue and never exits |
| ApiRounds.IdleOnce | src-api/scheduler.cpp:26-37 | without queueing a round uses each PE at most once, and only PEs that were idle when it began |
| ApiMachine.WalkEnds | src-api/scheduler.cpp:361-395 | when the erase-while-iterating walk reaches the end with queueing on, what is left is exactly the unsupported tasks and what was placed exactly the others, both in order |
| ApiRounds.RoundConserves | src-api/scheduler.cpp:53-56 | ready queue and todo deques together hold the same tasks before and after a round |
| ApiRounds.EtfInOrder | src-api/scheduler.cpp:417-455 | ETF's picked finish times never go down, even if the clock advances during the round |
| ApiRounds.PlanEtf | src-api/scheduler.cpp:399-457 | an ETF round: each pick finishes first of everything left, and the picks are in order of finish time |
| ListScheduling.GrahamBound | src-api/scheduler.cpp:344-397 | greedy placement: m * makespan <= total work + (m - 1) * longest task |
| ListScheduling.GrahamRatio | src-api/scheduler.cpp:344-397 | hence at most 2 - 1/m times any other placement's makespan |
| ListScheduling.LptRatio | src-api/scheduler.cpp:189-284 | greedy placement of decreasing jobs: at most 4/3 - 1/(3m) times any other placement's makespan |
| Makespan.PlanIsGreedy | src-api/scheduler.cpp:44-51 | on identical PEs `thread_avail_time - now` is exactly the work placed on the PE, and earliest finish is least load |
| Makespan.EarliestFinishBound | src-api/scheduler.cpp:344-397 | Graham's bound for EFT's predicted makespan |
| Makespan.EarliestFinishRatio | src-api/scheduler.cpp:344-397 | the 2 - 1/m ratio for earliest-finish choices |
| Makespan.LongestFirstRatio | src-api/scheduler.cpp:232-281 | the 4/3 - 1/(3m) ratio when the choices come longest first |
| Makespan.RankIsCost | src-api/scheduler.cpp:196-213 | a task that supports one type ranks by its execution time there |
| ApiRounds.Reordered | src-api/scheduler.cpp:195-214 | a placement of a batch gives one with the same loads for any reordering of it |
| ApiRounds.PlanEft | src-api/scheduler.cpp:344-397 | one EFT round on identical idle PEs with a clock that stands still: everything is placed, within 2 - 1/m of every placement of the batch |
| ApiRounds.PlanHeftRt | src-api/scheduler.cpp:189-284 | one HEFT_RT round under the same conditions: within 4/3 - 1/(3m) of every placement of the batch |
| ApiLifecycle.StepConserves | src-api/runtime.cpp:489-518 | kernel calls of any kind enter only by the push in enqueue_kernel and leave only by the drain, which logs them |
| ApiLifecycleRuns.StepKeepsInv | src-api/runtime.cpp:489-562 | every step of applications, daemon and workers keeps all invariants |
| ApiLifecycleRuns.CountsAreInFlight | src-api/runtime.cpp:112-118 | `task_count - completed_task_count` is the number of the application's calls in flight, plus the one counted and not yet pushed |
| ApiLifecycleRuns.ReapedWhenDrained | src-api/runtime.cpp:520-527 | with its pill queued, an application can be joined and freed if and only if none of its calls is in the ready queue, in a deque or running |
| ApiLifecycleRuns.FreedFullyLogged | src-api/runtime.cpp:501-517 | when an application has been freed, the trace log holds each of its calls exactly once |
| ApiLifecycleRuns.NoCallOutlivesItsApp | src-api/runtime.cpp:501-506 | nothing in flight refers to an application that has been freed, so the drain never touches freed memory |
| ApiLifecycleRuns.FreedForever | src-api/runtime.cpp:520-562 | a freed application's record is never changed again, so it is freed at most once |
| ApiLifecycleRuns.ToldForever | src-api/threads.cpp:99-205 | once a worker's state is 3, its deque is empty, nothing runs, and the 3 is never overwritten |
| ApiLifecycleRuns.ExitedHasExecutedAll | src-api/threads.cpp:189-198 | a worker that has left has executed, in order, everything ever handed to it |
| ApiLifecycleRuns.ShutdownCompletes | src-api/runtime.cpp:362-377 | the handshake cannot deadlock: when neither a worker nor the exit loop can move, all PEs have been told, all workers have left and all work handed out is executed |
| ApiLifecycleRuns.HandshakeIsBounded | src-api/runtime.cpp:362-377 | it ends after a bounded number of its own steps, whatever applications enqueue meanwhile |
| ApiDaemon.Runtime.CountCall | src-api/runtime.cpp:112-112 | enqueue_kernel's counter, a separate section from the push |
| ApiDaemon.Runtime.PushCall | src-api/runtime.cpp:114-119 | enqueue_kernel's push |
| ApiDaemon.Runtime.PushPill | src-api/runtime.cpp:36-55 | the poison pill |
| ApiDaemon.Runtime.WorkerPass | src-api/threads.cpp:100-201 | one pass of the idle worker: take the front task, leave on state 3, or nothing |
| ApiDaemon.Runtime.WorkerFinish | src-api/threads.cpp:190-193 | completed push and state 0 in one section |
| ApiDaemon.Runtime.DrainPe | src-api/runtime.cpp:489-518 | with applications and workers acting meanwhile, the loop logs exactly the calls that were complete when it looked, in order, and is part of a run |
| ApiDaemon.Runtime.ReapPoisoned | src-api/runtime.cpp:520-562 | with the other threads doing anything but push a pill, the retirement loop frees exactly the applications with all calls drained and keeps the other pills in order |
| ApiDaemon.Runtime.ExitPass | src-api/runtime.cpp:364-376 | one look of the exit loop at the current PE |
| ZlibCompress.Compress | applications/APIApps/lane_detection/stb_image_write.h:895-1022 | decoding the output gives back the input for every input but the empty one, for which the exact (undecodable) output is given; output length at most n + 6 + 5 * ceil(n / 32767) |
| ZlibCompress.EmptyStreamRejected | applications/APIApps/lane_detection/stb_image_write.h:985-999 | on empty input the stored fallback writes no block, and no decoder accepts that stream |
| Adler.Compute | applications/APIApps/lane_detection/stb_image_write.h:1001-1016 | reducing once per 5552 bytes gives the Adler-32 of the data, and neither sum leaves 32 bits |
| Adler.S2BoundFits | applications/APIApps/lane_detection/stb_image_write.h:1004-1010 | 5552 additions without reduction stay below 2^32 |
| BitWriter.BitRev | applications/APIApps/lane_detection/stb_image_write.h:849-857 | bit reversal turns least-significant-first output into most-significant-first |
| BitWriter.BitWriter.Flush | applications/APIApps/lane_detection/stb_image_write.h:839-847 | flushing whole bytes leaves the bit stream unchanged and fewer than 8 bits waiting |
| BitWriter.BitWriter.Add | applications/APIApps/lane_detection/stb_image_write.h:879-881 | appends exactly the code's low bits; the accumulator never leaves 32 bits |
| ZlibCompress.CountMatch | applications/APIApps/lane_detection/stb_image_write.h:859-865 | the length of the common prefix, at most 258 |
| ZlibCompress.FindBest | applications/APIApps/lane_detection/stb_image_write.h:928-933 | a longest match of at least 3 among the chain's entries in the window, none if there is none |
| ZlibCompress.LongerMatchNext | applications/APIApps/lane_detection/stb_image_write.h:941-955 | the lazy test holds iff some entry in the window has a longer match one byte on |
| ZlibCompress.Remember | applications/APIApps/lane_detection/stb_image_write.h:934-939 | a full chain loses its older half, then gains the position |
| ZlibCompress.WriteMatch | applications/APIApps/lane_detection/stb_image_write.h:957-966 | the two table searches end, pick the codes whose ranges hold length and distance, and write code, extra bits, code, extra bits |
| ZlibCompress.EncodeNext | applications/APIApps/lane_detection/stb_image_write.h:922-971 | one iteration writes bits that take a decoder from the data before it to the data after it |
| DeflateCodes.DecodeEmittedSymbol | applications/APIApps/lane_detection/stb_image_write.h:884-889 | the fixed Huffman code of every symbol decodes to that symbol in front of any bits |
| DeflateCodes.MatchEmits | applications/APIApps/lane_detection/stb_image_write.h:957-966 | the bits of a length/distance pair decode to that copy |
| DeflateCodes.LengthTable | applications/APIApps/lane_detection/stb_image_write.h:901-902 | the length tables agree with RFC 1951 section 3.2.5 on every length |
| DeflateCodes.DistanceTable | applications/APIApps/lane_detection/stb_image_write.h:903-904 | the distance tables agree with RFC 1951 section 3.2.5 on every distance |
| DeflateCodes.CopyReproduces | applications/APIApps/lane_detection/stb_image_write.h:957-966 | an overlapping byte-by-byte copy of a match reproduces the data |
| ZlibCompress.WriteStored | applications/APIApps/lane_detection/stb_image_write.h:985-999 | the fallback writes exactly the stored blocks, inside the buffer's capacity |
| StoredBlocks.StoredDecodes | applications/APIApps/lane_detection/stb_image_write.h:987-998 | the stored blocks decode to the data and leave what follows unread |
| PngFilter.Paeth | applications/APIApps/lane_detection/stb_image_write.h:1083-1089 | of the three neighbours one nearest to a + b - c, ties in the order left, above, upper left |
| PngFilter.EncodeLine | applications/APIApps/lane_detection/stb_image_write.h:1092-1126 | every byte is the pixel minus what the nominal filter predicts, with the first row's remapped filters, any stride and either flip, all reads in bounds |
| PngFilter.UnfilterRestores | applications/APIApps/lane_detection/stb_image_write.h:1092-1126 | undoing the recorded filter by RFC 2083 section 6 restores the row |
| PngFilter.ChooseFilter | applications/APIApps/lane_detection/stb_image_write.h:1151-1170 | the first of the five filters with the least estimate, and the line encoded with it |
| PngFilter.FilterImage | applications/APIApps/lane_detection/stb_image_write.h:1143-1174 | undoing the filters row by row restores all rows in emitted order; the recorded filter is the forced or the best one |
| PngFilter.WriteImageData | applications/APIApps/lane_detection/stb_image_write.h:1143-1178 | inflating the image data and undoing the filters gives back the rows |
| HdrRle.FindRun | applications/APIApps/lane_detection/stb_image_write.h:727-735 | the first run of three from x on, or the end |
| HdrRle.WriteComponent | applications/APIApps/lane_detection/stb_image_write.h:721-757 | packets within 127 and 128 that stand for the component; a decoder reads it back whatever follows |
| HdrRle.DecodePackets | applications/APIApps/lane_detection/stb_image_write.h:656-670 | packets within their limits decode to what they stand for |
| HdrRle.WriteScanline | applications/APIApps/lane_detection/stb_image_write.h:672-760 | outside 8..32767 raw pixels; inside, header and four components that decode to the converted colours' bytes, whatever follows |
| HdrRle.ScanlineKept | applications/APIApps/lane_detection/stb_image_write.h:704-717 | a pixel put together from the decoded components is the colour it was written for, to within a 128th of its largest component, if and only if that is below 2^127 |
| HdrRle.PixelsOfComponents | applications/APIApps/lane_detection/stb_image_write.h:713-716 | the four components determine the pixels |
| HdrColor.LinearToRgbe | applications/APIApps/lane_detection/stb_image_write.h:637-654 | dividing frexp's mantissa by the maximum scales by a power of two: the bytes are the truncated shifted components, and every scaled value fits a byte |
| HdrColor.HdrConvert | applications/APIApps/lane_detection/stb_image.h:7053-7081 | the reader's conversion is the shift back |
| HdrColor.ColourKept | applications/APIApps/lane_detection/stb_image_write.h:637-654 | over the floats, writing and reading gives black for colours below 1e-32 and every other colour to within a 128th of its largest component, if and only if it is below 2^127 |
| HdrColor.NeverAHeader | applications/APIApps/lane_detection/stb_image.h:7150-7166 | a written pixel is never 2, 2 and a byte below 128, the test by which the reader tells a coded scanline from a pixel |
| TgaRle.NextPacket | applications/APIApps/lane_detection/stb_image_write.h:563-591 | 1 to 128 pixels: a maximal run of equal pixels, or literals ended by a pixel equal to the one two before it |
| TgaRle.DecodePackets | applications/APIApps/lane_detection/stb_image_write.h:593-603 | packets decode to the pixels they stand for |
| TgaRle.WriteContext.Write1 | applications/APIApps/lane_detection/stb_image_write.h:399-404 | appends one byte to what has been written, through the 64-byte buffer |
| TgaRle.WriteContext.Write3 | applications/APIApps/lane_detection/stb_image_write.h:406-416 | appends three bytes |
| TgaRle.WriteContext.WritePixel | applications/APIApps/lane_detection/stb_image_write.h:418-449 | appends the pixel in file order |
| TgaRle.WriteContext.WriteRow | applications/APIApps/lane_detection/stb_image_write.h:559-604 | packets within 1..128 that stand for exactly the row |
| TgaRle.WriteContext.WriteRows | applications/APIApps/lane_detection/stb_image_write.h:549-607 | after the final flush the rows decode in emitted order, bottom up or flipped |

## Left out

- DagDaemon.Runtime.Pass: composes the daemon's pass with SIMPLE only; under the other policies of src-dag, which sort or shuffle the ready queue or take costs from the graph, a round is any choice of enabled Assign steps.
- ApiScheduler.Scheduler.AttemptToAssign: whether a PE is busy does not change during a non-queued round, and `assigned_resource_type`, `actual_run_func` and schedule caching are not modelled.
- ApiScheduler.Scheduler.ScheduleSimple: `free_resource_count` is an unbounded integer, without the wrap below zero that is possible in src-api, where nothing replenishes it.
- ApiScheduler.Scheduler.ScheduleEtf: needs a supporting PE for every task, as the source does: otherwise its stale iterator can be the end of the deque. The same holds for HEFT_RT, whose index would stay -1.
- ApiRounds.PlanEft: bounds the predicted makespan, from `thread_avail_time`; how long kernels really run is outside the model.
- Inflate.Decode: rejects dynamic Huffman blocks, which this compressor never writes.
- ZlibCompress.Compress: C int overflow of lengths beyond 2^31, allocation failure and the hook for a user-supplied compressor are not modelled.
- PngFilter.ChooseFilter: requires rows short enough that the estimate stays an int, as the source silently does (a forced filter makes no estimate and has no such bound); the default of a zero stride is the caller's.
- HdrColor.ToRgbe: takes real components; a component so negative that C leaves its conversion to a byte undefined is excluded, as are NaN and infinities.
- HdrRle.WriteScanline: the text header of the HDR file is not modelled.
- TgaRle.WriteContext.WriteRows: the 18-byte header and the uncompressed TGA and BMP paths are not modelled.
- Growth of `iter` beyond 2^63, overflow of the C int counters, and negative frame counts are not modelled; frame counts are below 2^31.
- The fields `complete_flag` and `running_flag`, which only repeat what iter and the queues say.
- src-dag's shutdown, where a busy worker can overwrite the exit state, and the exit path of src-api after the handshake: joining applications that still run and cancelling the others.
- A kernel with too many arguments, which a worker completes without running it; completion barriers and condition variables; applications that enqueue from more than one thread.
- The window between creating an application's thread and entering it in the thread map, modelled as one step; the iterator handling of the retirement loop, modelled on a sequence.
- DNN and RT scheduling, accelerator drivers, JSON parsing, shared objects, IPC, configuration, logging, affinity and PAPI.
- JPEG and BMP writers, PNG chunks and CRC, and the floating-point applications.
