# A verified model of the page-replacement simulator

The program simulates demand paging for a trace of memory references.  A first pass over the
trace file finds the processes and the stretches of lines that belong to each.  An event loop
then runs the reference of the process at the head of the runnable queue, one line a tick: a
resident page is a hit; any other page sends the process to the queue of the one disk, which
takes a fixed penalty per page.  When a page arrives it goes into the lowest free frame, or over
the victim chosen by the replacement module the program was linked with: LRU, FIFO, Clock or
Random.

## How the model is built

Two layers.  The lower layer has the program's own form: classes with its fields, updated in
place, and its loops.  Every method is proved against a function on values.  The upper layer
proves what those functions mean, over every trace, every policy and every run.

| part of the program | in place | on values | what is proved about it |
|---|---|---|---|
| event loop (`simulator.c`, `stat.c`) | `Simulator` | `Machine` | `MachineInvariant`, `Iterations`, `Runs`, `Accounting`, `Termination`, `DiskQueue`, `OwnLines`, `Tracking`, `ShortPenalty`, `Livelock` (on `Views`, `JamTrace`, `Aging`), `Interleaving`, `GivingUp` |
| physical memory (`memory.c`) | `Bitmap`, `Memory`, `PageOps` | `Types`, `Replacement` | `Memory`, `Replacement` |
| replacement modules (`replace-*.c`) | `Replacer`, `PageOps` | `Replacement` | `Paging`, `FifoMemory`, `ClockBound`, `Recency`, `SingleProcess`, `SimulatedPaging` |
| processes and queues (`process.c`) | `Process` | `ProcessModel` | `ProcessModel`, `MachineInvariant` |
| first pass (`trace_parser.c`) | `TraceParser` | `TraceModel` | `TraceModel` |
| interval tree (`intervaltree.c`) | `IntervalNode` | `IntervalTree` | `IntervalTree` |

Choices a reader should know:

- The disk penalty D, the number of frames K and the trace are parameters.  The program fixes D
  at 2000000 and a tick at 1.
- File positions are numbers made from line numbers.  The first pass notes positions just before
  the newline that ends the previous line (`trace_parser.c:87`, `trace_parser.c:95`), while the
  loop's read format swallows that newline (`simulator.c:189`).  The two kinds of position precede
  the same line but differ, and the scheduler compares them, so a position is `2 * line` or
  `2 * line + 1`.
- The one file cursor shared by all processes is modelled as it is: the loop seeks only when the
  head of the queue is not the process it last ran, and every resumption moves the cursor.  With
  several processes the line read need not be one of the process's own; a process is still charged
  exactly its number of lines.  `Tracking` says exactly when every process reads its own lines.
- The state machine loads pages into any free frame; the free list reaches only K / 32 whole words
  of frames (`memory.c:66`, `memory.c:142`).  `Memory.PhysicalMemory` models the free list for
  every K, `Memory.AllocatorExactly` shows that the two agree on all frame contents exactly when K
  is a multiple of 32, and `GivingUp.SearchFails` reaches the disagreement on a trace for every
  other K.  The simulator class takes any K: it follows the state machine until a page arrives for
  which the scan finds no frame, and gives up there as the program does.
- A failing read, a failing search for a free frame and a zero pid in the trace end the program;
  they are outcomes of the model (`aborted`, `outOfFrames`, `bad`), not preconditions.
- Clock's reference bits are not initialised by the program (`replace-clock.c:36`); the model lets
  them start with any values.
- `rand()` is a parameter: an arbitrary stream of numbers.

Where code and documentation differ, the model follows the code: the comment at `process.c:23`
says that the runnable queue only ever has one element, but it holds every process that is not
waiting for the disk; the comment at `replace-clock.c:73` says that the load notification is
unimplemented, but it sets the reference bit, which the sweep relies on.

## Main results

- Safety: one invariant ties frames, bitmap, page flags, eviction queue, page tables, status
  queues, disk timers and line counts together, and every iteration keeps it
  (`MachineInvariant.StepKeepsInv`, `Simulator.Simulator.Iterate`).
- One iteration, twice: the steps of the state machine are exactly the pairs of states in a
  relation that says where everything is afterwards: which frame changed and why that one, between
  which neighbours a process stands, what is left of each queue (`Iterations.StepExactly`).
- Progress: unless the penalty is two ticks the loop ends for every trace, policy and number of
  frames (`ShortPenalty.EndsUnlessTwo`), and so does the loop of the in-place program
  (`Simulator.Simulate`).  With two ticks and any even number of frames from six on,
  LRU, FIFO, Clock and a Random that draws the frames in turn each have a trace that runs for
  ever (`Livelock.EndsExactly`, an equivalence for each of these policies and sizes, which include
  every memory the free list serves in full).  With at most D processes every line costs at most
  one page-in and D + 2 ticks (`Termination.ExitBudget`).
- Own lines: in every run a hit takes a process to the next line of the trace with its pid, and
  ends it after the last (`OwnLines.LinesInOrder`).
- Line by line: a run keeps every process on its own lines exactly as long as no page is delivered
  to one process while another is in the middle of its lines (`Tracking.TrackExactly`); then every
  reference is of the process and page its line names, and every line is hit exactly once
  (`Tracking.LineByLine`).  The program simulates every trace without giving up, be it on a read
  past the end of the file or on a search for a free frame, if and only if the penalty is one
  tick and K a multiple of 32 (`GivingUp.GivesUpExactly`).
- Conservation: elapsed time is accounted for exactly, and every line is run exactly once
  (`Accounting.TimeConservation`, `Accounting.ExitStatistics`).
- Disk: first in, first out, with an exact deadline known at the moment of blocking
  (`DiskQueue.BlockingDeadline`, `DiskQueue.ServedOnTime`); the jump over idle ticks reaches the
  same states at the same times (`DiskQueue.JumpsAreSound`, `DiskQueue.JumpsAreComplete`).
- Refinement: on a one-process trace block, wait, load and retry is plain demand paging, and the
  running time is exactly D * TPI + TMR + TPI (`SingleProcess.OneProcessResult`).
- Paging theory, for the page-ins the simulator reports on one-process traces: LRU never does worse
  with more memory, FIFO with k and l > k frames exactly when l >= 2k - 1
  (`SimulatedPaging.MoreMemoryUnderFifo`); LRU and FIFO add at most one page-in for each page named
  by a stretch, Clock only with one or two frames (`SimulatedPaging.ClockInTheSimulator`); LRU and
  FIFO are K-competitive against every schedule.

## Model

| member | source | states |
|---|---|---|
| Simulator.Simulate | simulator.c:134-240 | the whole program, for every memory size, penalty and trace but those it would simulate for ever: a trace with a zero pid is refused with the number of the first such line; any other is simulated until the loop ends, or until no free frame can be found, which never happens when K is a multiple of 32 |
| Types.PositionsOrdered | trace_parser.c:87-95 | a noted position and one reached by reading lead to the same line, and the noted one is the smaller |
| Simulator.Simulator.constructor | simulator.c:134-139 | memory, replacement module, queues and statistics start in the state machine's initial state |
| Simulator.Simulator.TickClock | simulator.c:143-148 | clock, statistics and head timer advance by one tick, nothing else changes |
| Simulator.Simulator.FinishDiskIO | simulator.c:58-78 | the awaited page is loaded into the lowest free frame or over the victim, and its process resumes at its own position; it fails exactly when a frame is free but none that has a bit |
| Simulator.Simulator.SkipAhead | simulator.c:159-168 | the jump changes clock, statistics and the head timer as the state machine says |
| Simulator.Simulator.FetchLine | simulator.c:171-207 | reads the line at the shared cursor, or at the saved position after a context switch, and finds or makes the page's record |
| Simulator.Simulator.BlockHead | simulator.c:231-236 | a miss is counted and the process joins the tail of the disk queue with a full penalty |
| Simulator.Simulator.EndProcess | simulator.c:226-229 | the process leaves the queue and all its pages leave memory and eviction queue |
| Simulator.Simulator.AdvanceHead | simulator.c:214-230 | next interval, next line or end of the process, by the cursor |
| Simulator.Simulator.HitPage | simulator.c:210-230 | a hit is counted, the replacement module is told, the cursor moves on |
| Simulator.Simulator.RunReference | simulator.c:178-236 | one reference: hit, miss, or a read past the end of the file |
| Simulator.Simulator.Iterate | simulator.c:141-237 | one iteration of the loop is one step of the state machine, or the failing search for a frame, and the in-place structures stay consistent |
| Simulator.Simulator.RunSimulation | simulator.c:134-240 | wherever the state machine stops, the loop terminates in a state that the state machine reaches, or one tick after it where the search for a frame fails |
| Iterations.StepExactly | simulator.c:141-237 | an iteration leads from one state to another if and only if the two are related as follows: clock and accumulators move by frames and queues in use, timers by one tick; a page comes into the lowest empty frame or over the page at the head of the queue, at the first clear bit from the hand, or drawn; a process stands behind everybody at or before its position; a hit moves no page unless it is on the last line, a miss nothing but queues |
| Iterations.HitMemory | simulator.c:210-230 | a hit moves no page and only tells the policy, unless the process has run its last line; then the frames with its pages are emptied and no others |
| Iterations.FinishedStep | process.c:56-63 | a process is entered at the tail of the finished queue by the hit on its last line, and by nothing else |
| OwnLines.JumpPosition | process.c:279-288 | the position after a jump is the one the first pass noted for the line jumped to |
| OwnLines.LinesInOrder | simulator.c:214-230 | in every reachable state a hit takes the head to the least later line with its pid, at the position it has kept if that is the next line, else at the one noted for it, where the file cursor then is too; with no such line it leaves the queue |
| MachineInvariant.StepKeepsInv | simulator.c:141-237 | every iteration keeps the invariant over memory, queues, timers and lines, and no process is created, lost or duplicated |
| MachineInvariant.InitInv | simulator.c:135-139 | the state after the first pass satisfies the invariant |
| MachineInvariant.HeadIsAlone | process.c:43 | no other process in a queue has the pid of the head of the runnable queue |
| MachineInvariant.StillWaiting | simulator.c:58-78 | a load for one process never brings in the page another process waits for |
| MachineInvariant.QuitMemory | process.c:312-321 | after an exit no frame holds a page of that process, and every other process keeps exactly what it had |
| MachineInvariant.ProcessExit | process.c:312-321 | frame by frame what an exit empties; the frame count and the queue shrink by exactly the process's resident pages, and the others keep their eviction order |
| Runs.StepEffect | simulator.c:141-237 | what each kind of iteration does to clock, counters and disk queue, and when it happens |
| Accounting.TimeConservation | simulator.c:143-168 | in every reachable state elapsed time is D per completed load, plus what the queue head has been served, plus one tick per iteration that found the disk idle; TPI is completed loads plus queued ones |
| Accounting.ExitStatistics | README:97-99 | at a normal exit TMR is the number of trace lines, D * TPI <= RTime <= D * TPI + TMR + TPI, and every process has finished |
| Accounting.StepCharges | stat.c:31-35 | every iteration adds exactly frames in use times ticks taken to the memory accumulator, and one tick to the runnable accumulator if a process was runnable |
| Accounting.AveragesHold | stat.c:31-35 | in every reachable state memory use averages at most K frames, and ticks charged to the runnable queue are TMR + TPI plus at most one per load |
| Termination.PromiseKept | simulator.c:210-236 | once a resumed process is due in time, a hit happens before anything else is loaded |
| Termination.LoadPromises | simulator.c:147-155 | a resumed process will find its page when its turn comes |
| Termination.MeasureDecreases | simulator.c:141-237 | a measure over lines left, loads without a hit and the disk timer falls at every iteration |
| Termination.Terminates | simulator.c:141-237 | from every state of the invariant the loop ends within that measure |
| ShortPenalty.NeverOvertaken | simulator.c:147-155 | with a penalty of one tick no delivery ever overtakes, so every process stays on its own lines |
| ShortPenalty.EndsUnlessTwo | simulator.c:141-237 | the simulation of every trace, under every policy and with any number of processes, ends unless the penalty is two ticks |
| GivingUp.StopsUnlessTwo | simulator.c:141-237 | every simulation ends or gives up, unless the penalty is two ticks and there are more than two processes |
| Aging.LoadAges | simulator.c:64-75 | under LRU, FIFO, Clock and a Random drawing in turn, each load brings every other page one load closer to its eviction |
| Aging.TouchAges | simulator.c:210-212 | a hit on another page never lengthens a page's stay |
| JamTrace.JammedParse | trace_parser.c:69-155 | the first pass over the trace that never ends finds its K + 2 processes, one interval each, in file order |
| Livelock.PairGoes | simulator.c:141-237 | on that trace each pair of processes in turn is dragged to the last line of the file, after hits up to there, and blocks |
| Livelock.TurnStep | simulator.c:141-237 | once there, K + 2 processes take turns at K frames and each page is replaced before its process runs again |
| Livelock.NeverEnds | simulator.c:141-237 | with a penalty of two ticks and any even K >= 6, a trace that LRU, FIFO, Clock with any initial bits and a Random drawing in turn simulate for ever, without ever giving up if K is a multiple of 32 |
| Livelock.EndsExactly | simulator.c:141-237 | for every even K >= 6 and each of these policies the loop ends for every trace if and only if the penalty is not two ticks; with K a multiple of 32, the program stops on every trace if and only if it is not |
| Termination.HitsKeepUp | simulator.c:147-155 | with at most D processes completed loads are never more than one ahead of hits |
| Termination.ExitBudget | README:155-157 | with at most D processes TPI <= TMR and RTime <= (D + 2) * lines |
| Termination.LoadsAreBounded | simulator.c:147-155 | each load uses up budget that only hits replace |
| Termination.PageInBudget | simulator.c:231-236 | with N processes TPI is at most (lines + 1) * (N + 2) plus the loads still queued |
| DiskQueue.BlockingDeadline | simulator.c:231-236 | blocking behind b others with w ticks left on the head fixes the service time: w + b * D ticks away, D if the disk is idle |
| DiskQueue.QueuePosition | simulator.c:147-155 | each completion moves every waiting process up one place and no deadline ever changes |
| DiskQueue.ServedOnTime | simulator.c:149-153 | the process at place i is served by the (i + 1)-th completion, at exactly its deadline |
| DiskQueue.ServedAtLast | simulator.c:147-155 | every blocked process is served, unless the program gives up first |
| DiskQueue.JumpIsWaiting | simulator.c:157-168 | one jump equals the idle ticks it skips, statistics included |
| DiskQueue.JumpsAreSound | simulator.c:157-168 | every state reached with jumps is reached tick by tick |
| DiskQueue.JumpsAreComplete | simulator.c:157-168 | every tick-by-tick run flows into the run with jumps, and they end in the same states |
| Tracking.BeginOnTrack | process.c:192 | at the start every process will read the first of its own lines |
| Tracking.ReadsOwnLine | simulator.c:171-196 | on track the head reads a line of its own, the one it has got to, and never past the end of the file |
| Tracking.TrackStep | simulator.c:88-126 | an iteration leaves the track if and only if it is a delivery that moves the cursor away from a head in the middle of its lines |
| Tracking.OffTrack | simulator.c:116-118 | what then goes wrong: the head reads a line of the resumed process, or will go back to a line of its own before the one it had got to |
| Tracking.TrackExactly | simulator.c:141-237 | a run has been on track throughout if and only if no delivery overtook, and then the program has not given up |
| Tracking.LineByLine | simulator.c:210-230 | without overtaking, every reference is of the pid and page that its line names, all hits fall on different lines, and when the loop ends every line of the trace has been hit exactly once |
| Interleaving.InterleavedTraceAborts | simulator.c:116-118 | for every D >= 2, K >= 2 and policy, a well-formed trace of two processes on which the program reads past the end of the file and gives up with lines not run |
| GivingUp.SearchFails | memory.c:141-165 | for every K that is not a multiple of 32, every D and every policy, a trace of one process on which the program finds no free frame although one is free |
| GivingUp.GivesUpExactly | simulator.c:141-237 | for every D, K and policy, no trace makes the program give up, by a failing read or a failing search for a frame, if and only if D is one tick and K a multiple of 32 |
| SingleProcess.StepRefines | simulator.c:141-237 | each iteration of a one-process run keeps it in step with plain demand paging and with the exact time formula |
| SingleProcess.RefinesDemandPaging | simulator.c:141-237 | after every number of iterations: same frames, same policy state, same faults as demand paging, line by line |
| SingleProcess.OneProcessResult | README:97-99 | a one-process simulation ends with every line run, page-ins equal to demand-paging faults, and RTime = D * TPI + TMR + TPI |
| SimulatedPaging.MoreMemoryNeverHurtsLru | replace-lru.c:92-137 | under LRU more frames never mean more page-ins or a longer run of the simulator |
| SimulatedPaging.MoreMemoryUnderFifo | replace-fifo.c:101-131 | under FIFO l >= k frames never mean more page-ins than k on any one-process trace, if and only if l = k or l >= 2k - 1 |
| SimulatedPaging.FifoHurts | replace-fifo.c:101-131 | for every k < l < 2k - 1 a one-process trace that the simulator reports with one page-in more, and a longer run, for l frames than for k |
| SimulatedPaging.StretchBound | replace-fifo.c:101-131 | between any two states of a one-process run, page-ins grow by at most one for each page named by the lines gone through, if at most K, under LRU and FIFO |
| SimulatedPaging.SimulatorIsCompetitive | replace-lru.c:92-137 | page-ins are at most K times the disk reads of any schedule with K frames, even one that looks ahead |
| SimulatedPaging.ClockInTheSimulator | replace-clock.c:81-90 | under Clock, lines naming at most K pages add at most one page-in for each, if and only if K is at most two |
| SimulatedPaging.ClockBreaksBound | replace-clock.c:81-90 | for every K of at least three, lines that name K pages and add K + 1 page-ins to a one-process trace |
| Paging.DemandIsQueueRef | replace-lru.c:92-137 | one reference through frames, policy and load path is one move of the eviction queue |
| Paging.QueueIsEnough | replace-lru.c:92-137 | a whole run on frames and policy has the queue and the faults of the bare queue |
| Paging.LruInclusion | replace-lru.c:92-137 | after every reference the pages in k frames are among those in l >= k frames, and faults never rise with memory |
| Paging.PhaseBound | replace-fifo.c:101-131 | from any queue, a stretch naming at most k pages faults at most once per page, LRU and FIFO |
| Paging.EveryPhaseCosts | simulator.c:58-78 | every schedule with k frames reads the disk in each phase that names more than k pages |
| Paging.Competitive | replace-fifo.c:101-131 | from empty memory, at most k times the disk reads of any schedule |
| FifoMemory.FaultsArePaid | replace-fifo.c:101-131 | with l >= 2k - 1 frames every FIFO fault is paid for by a fault with k frames: faults and outstanding credits stay within the smaller memory's faults |
| FifoMemory.FifoMemoryExactly | replace-fifo.c:101-131 | l >= k frames never fault more often than k under FIFO, if and only if l = k or l >= 2k - 1 |
| ClockBound.ClockBoundExactly | replace-clock.c:81-90 | Clock keeps the bound of one fault per page named if and only if memory has at most two frames, whatever the initial bits |
| ClockBound.LargeMemoryBreaksBound | replace-clock.c:81-90 | with k >= 3 frames, references after which a stretch naming k pages costs k + 1 faults |
| Recency.LruByLastUse | replace-lru.c:92-137 | over every run the LRU queue is in strictly increasing order of last load or hit |
| Recency.FifoByLastLoad | replace-fifo.c:101-131 | over every run the FIFO queue is in strictly increasing order of load |
| Recency.EvictsTheOldest | replace-lru.c:125-137 | the victim has the smallest stamp of all resident pages, process exits included |
| Recency.ReplacesTheOldest | simulator.c:70-74 | whenever a page comes in with every frame in use, it replaces the page with the smallest stamp, under LRU and FIFO |
| Recency.ClockHandIsSet | replace-clock.c:81-90 | over every run with full memory the bit under the hand is set, so the frame just refilled is the next victim only if every bit is set |
| Recency.RandomByDraws | replace-random.c:32 | over every run under Random, on any stream of numbers, the frame refilled when none is free is given by the number whose index is the count of such loads before it, modulo K |
| Replacement.QueueLength | replace-lru.c:108-118 | the eviction queue is as long as the number of occupied frames |
| Replacement.SweepDistance | replace-clock.c:81-90 | the sweep stops at the first clear bit in cyclic order, after a full lap if there is none |
| Replacement.ClockSparesHand | replace-clock.c:81-90 | with the bit under the hand set, the victim is the hand's frame only if all bits are set, else the first clear one |
| Replacement.AccessKeepsMemOk | replace-lru.c:92-101 | a hit keeps policy and frames in agreement |
| Replacement.LoadKeepsMemOk | simulator.c:64-75 | a load keeps them in agreement, brings in the page, drops at most the victim, and counts it |
| Replacement.ForgetKeepsMemOk | replace-lru.c:73-85 | freeing any set of pages keeps them in agreement |
| Replacer.ReplacementModule.constructor | replace-clock.c:33-39 | the four modules start empty, Clock with its hand at 0 |
| Replacer.ReplacementModule.NotifyPageAccess | replace-lru.c:92-101 | LRU moves the page to the tail, Clock sets its bit, FIFO and Random do nothing |
| Replacer.ReplacementModule.NotifyPageLoad | replace-lru.c:108-118 | the queue modules append the page and flag it |
| Replacer.ReplacementModule.Sweep | replace-clock.c:81-90 | the loop ends, and leaves hand and bits as the sweep function says |
| Replacer.SweptMore | replace-clock.c:85-88 | clearing a set bit under the hand makes the swept stretch one frame longer, which the bits still allow only within one lap |
| Replacer.ReplacementModule.GetPageToEvict | replace-lru.c:125-137 | returns the frame of the policy's victim and updates queue, flag and counter, hand and bits, or the number of draws |
| Replacer.ReplacementModule.FreeOverhead | replace-lru.c:73-85 | unlinks the page if it is queued, wherever it stands |
| Replacer.UnlinkIsFilter | replace-lru.c:73-85 | unlinking one element keeps the order of the others |
| Bitmap.LeadingZeros | memory.c:28-30 | counts the clear bits above the highest set bit: the word shifted right by 31 minus the result is 1 |
| Bitmap.FindFirstZero | memory.c:28-30 | the first clear bit from the top, in the same terms for the complement; -1 exactly for the word of all ones |
| Bitmap.BitIs | memory.c:103-106 | the bit at place o from the top is the one worth 2 to the power 31 - o, in test and mask |
| Bitmap.SetFrame | memory.c:131-135 | setting one frame's bit changes no other frame's |
| Bitmap.FlipFrame | memory.c:103-106 | clearing one frame's bit changes no other frame's |
| Memory.PhysicalMemory.constructor | memory.c:55-70 | empty memory with an all-clear free list |
| Memory.FreeListBit | memory.c:131-135 | frame i is in use exactly if the bit worth 2 to the power 31 - i % 32 is set in word i / 32 |
| Memory.PhysicalMemory.HasFreePage | memory.c:161-165 | true exactly when some frame is empty |
| Memory.PhysicalMemory.HowManyAllocPages | memory.c:170 | the counter is the number of occupied frames |
| Memory.PhysicalMemory.GetFreePage | memory.c:141-156 | the lowest-numbered free frame; the failure exit exactly when every frame with a bit is in use |
| Memory.PhysicalMemory.LoadPage | memory.c:119-136 | fills one empty frame, keeping frames, bitmap, page and counter in agreement |
| Memory.PhysicalMemory.EvictPage | memory.c:93-111 | empties one frame, keeping them in agreement |
| PageOps.LoadInto | simulator.c:66-69 | page into frame and into the eviction queue, with both modules still in agreement |
| PageOps.PickVictim | simulator.c:71 | the replacement module gives up the policy's victim and memory is as it was |
| PageOps.EvictVictim | simulator.c:71-72 | the victim's frame is emptied and nothing else leaves memory |
| PageOps.LoadFromDisk | simulator.c:66-75 | the load path of the code is the load function of the model, or the failure exit, taken exactly when a frame is free but none that has a bit |
| PageOps.NewPage | process.c:290-294 | a page record not in memory and not queued is added |
| PageOps.TouchPage | simulator.c:212 | the replacement module learns of a hit |
| PageOps.FreePage | memory.c:204-208 | a freed page leaves its frame and the eviction queue |
| PageOps.FreeAll | process.c:316 | whatever order the page table is walked in, exactly its pages leave memory and queue |
| Process.Process.constructor | process.c:177-200 | a new process stands on the first line of its first run |
| Process.Process.AddInterval | trace_parser.c:123-132 | a later run extends the process's chain and last line |
| Process.Process.GoToNextInterval | process.c:279-288 | the cursor jumps to the next interval of the chain |
| Process.PlaceFor | process.c:40-46 | the loop stops behind every process at or before the position |
| Process.EnqueueByPos | process.c:29-53 | the process is inserted there and none is lost |
| Process.Enqueue | process.c:56-63 | by position into the runnable queue, to the tail of the others |
| Process.ProcessQueues.SwitchStatus | process.c:220-230 | the head of one queue moves to another; all three together hold the same processes |
| ProcessModel.InsertionPoint | process.c:42-46 | where the walk stops: everything before is at or before the position, the next is after it |
| ProcessModel.EnqueueKeepsSorted | process.c:29-53 | insertion keeps the queue sorted by file position |
| ProcessModel.OneLinePerHit | process.c:238-288 | each way a hit moves the cursor uses up exactly one line, and the last way is taken exactly on the last line |
| TraceParser.FirstPass | trace_parser.c:69-155 | the loop over the file yields the parsed processes, or the first line with a zero pid |
| TraceParser.EndRun | trace_parser.c:105-148 | a finished run goes to its process, which is created if need be |
| TraceModel.ParseCorrect | trace_parser.c:86-152 | every pid gets exactly its maximal runs, as chains in file order that cover every line, and processes stand in order of first occurrence |
| TraceModel.ParsedPids | trace_parser.c:134-144 | a process exists exactly for the pids that occur |
| TraceModel.SinglePidParse | trace_parser.c:86-152 | a one-process trace is one interval holding every line |
| IntervalTree.InsertCorrect | intervaltree.c:37-57 | insertion keeps search order and augmentation and adds exactly one interval |
| IntervalTree.FindCorrect | intervaltree.c:67-106 | following one child only, the search answers for the whole set of intervals |
| IntervalTree.FindsFirst | intervaltree.c:88-106 | of several intervals that contain the number, the search returns the first in preorder |
| IntervalTree.InsertKeepsPlaces | intervaltree.c:37-57 | insertion moves no interval of the tree, so the new one is a leaf |
| OwnLines.TreeFindsOwnLines | intervaltree.c:67-85 | the tree the first pass builds for a process answers, for every line of the trace, whether the line is its own |
| IntervalTree.SearchAgreesWithInserted | intervaltree.c:37-106 | after any inserts, in any order and with any overlaps, search answers whether some inserted interval contains the number |
| IntervalTree.InsertExtendsChain | intervaltree.c:45-49 | inserting a later run extends the right-going chain at its end |
| IntervalNode.InsertRecursive | intervaltree.c:37-57 | the linked nodes change in place as the insertion function says, and the new node is the only one added |
| IntervalNode.InsertInterval | intervaltree.c:60-64 | the linked tree stays a search tree and gains exactly the interval |
| IntervalNode.IntervalNode.FindInt | intervaltree.c:67-85 | the search on linked nodes is the search on the tree they stand for |
| IntervalNode.IntervalNode.FindNode | intervaltree.c:88-106 | the node found is the root of the subtree the search stops at |
| IntervalNode.Lookup | intervaltree.c:67-106 | found exactly when some interval of the linked tree contains the number, with a node that does |

## Left out

- Termination.ExitBudget: asks for at most D processes, as its argument needs each resumed process to run before the next load; beyond that `Termination.PageInBudget` gives the bound.
- Simulator.Simulator.Iterate: the simulator class holds its queues as sequences of process values, so sharing of process objects between queues is not captured there; queues of process objects changed in place are modelled by `Process.ProcessQueues` and the first pass.
- Livelock.EndsExactly: does not decide D = 2 for odd K, for K below six, or for Random on other draws; there `ShortPenalty.EndsUnlessTwo` gives one direction.
- Simulator.Simulate: asks, for a penalty of two ticks only, that the simulation stop, because a method must terminate and on the traces of `Livelock.NeverEnds` the program does not.
- Process.Process.AddInterval: a process keeps its chain of intervals as a tree value; linked nodes changed in place are modelled by `IntervalNode.InsertRecursive`.
- Command-line arguments and memory-size arithmetic in `main.c`; the model takes K and the policy as parameters.
- All printing, and the averages AMU and ARP, which are floating-point quotients of counters the model keeps.
- Opening, seeking and malformed lines of the trace file; a trace is a sequence of pid and page-number pairs.
- The warning printed when the line read belongs to another process (`simulator.c:194-196`); the run goes on, as in the model.
- Machine overflow of counters, and pids beyond the `int` range of the parser's search tree; numbers are unbounded.
- Allocation failure, `free`, and the finished queue's pointers to freed processes; the finished queue is a sequence of pids.
- The library's search trees, tail queues and random numbers; maps, sequences and a parameter stand for them.
- `it_giveNext`, `Process_setStatus`, `Process_linesRemainingInInterval` and `Replace_freeReplacementModule`, which the simulation does not use.
