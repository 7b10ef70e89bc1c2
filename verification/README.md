# Verified model of the Vortex simulator's state machines

A Dafny model of the parts of the repository's Vortex GPU simulator that hold the most state, and of
the configuration generator's conditional output, with proofs about every run or every input.
`dafny verify dfyconfig.toml` checks the whole project.

- **Command processor** (`CpModel`, `CpRuns`, `CpEffects`, `CpFormat`, `CpPublish`, `CpBundle`,
  `CpCopy`, `CommandProcessor`): a ring of 64-byte lines, a line unpacker, the engine and launch state
  machines, draw bundles and the copy engine. Host actions interleave freely with clock ticks; hook calls are recorded in a log, and
  device responses and address translation are arbitrary functions. Commands retire once and in ring
  order, the completion slot counts them, kernels never overlap, every tick makes progress or waits,
  and a draw bundle does to the device what the same commands do in the ring.
- **Issue and commit** (`Dispatcher`, `DispatchProgress`, `Pipeline`, `CorePipeline`): instructions are
  split into packets, all of which are sent, and which may commit in any order; what every
  instruction reads is nevertheless what in-order execution would read.
- **Thread blocks** (`ThreadIds`, `CtaModel`, `CtaRuns`, `CtaBlocks`, `CtaHistory`, `CtaDispatcher`): slots and
  cluster windows of the block dispatcher, what each block's warps are handed and when, and the carry
  arithmetic of thread ids.
- **Barriers** (`Barrier`): the phase protocol of a core and the rendezvous of a cluster.
- **Event kernel** (`TimingWheel`, `TimingLedger`): the wheel against a stable priority queue, and its
  callers' requests.
- **Memory** (`Acl`, `SparseRam`): the interval map against a function from addresses to flags, the
  paged RAM against a function from addresses to bytes.
- **Compressed fetch** (`RvcFetch`, `RvcProgress`): instructions cut out of cache lines for interleaved
  warps.
- **Configuration headers** (`ConfigExpr`, `ConfigLocals`, `IfdefTree`, `ConfigHeader`): private names
  are inlined and conditionals become ifdef trees; a preprocessor that reads the header ends up with
  what the resolver computes.

Values and step functions come first, in modules of functions and lemmas. Where the source updates
objects in place, a class does too, and each of its methods is proved equal to the step function, so
that the lemmas about runs apply to it.

## Where the code and its promises part

- A draw bundle is documented as identical to streaming its commands
  (`vortex/sim/common/cmd_processor.h:47-59`). A command does in a bundle what it does in the ring
  exactly when it is no draw, no event signal, no event wait that can hold up, and no copy that can
  move a byte (`BundleStepExact`).
- The design notes give a draw record 8 bytes, and every record 8 more when it is profiled
  (`vortex/docs/designs/command_processor.md:86-101`); the code reads 12 for a draw and looks at no such
  flag (`RecordSizes`).
- The copy engine is a memmove only if the transfer fits one chunk or does not overlap upwards
  (`CopyIsMemmove`).
- Releasing a barrier's last event turns the phase also before the first arrival (`ReleaseExact`), an
  arrival too many loses a turn (`ExtraArrivalLosesTurn`), and the token of an arrival is one bit
  while waiting compares the whole phase (`ArriveTokenSuspends`).
- A local-memory stride wraps when rounding up leaves 32 bits (`StrideCovers`).
- If the decode latch refuses a completed 32-bit instruction, the fetch state machine has already
  dropped its first half. The retry is right inside a line and wrong across two lines unless the next
  line happens to end in the same half (`RefusalExact`, `RefusedAcrossLines`).
- An `_ENABLE` key given by a conditional or arithmetic expression is defined even when its value is
  zero (`EnableExact`, `EnableZero`).
- `and` and `or` are emitted as operators that yield 0 or 1 where the resolver yields an operand, so a
  macro has the resolver's value exactly when that value is 0 or 1 (`ConnectiveExact`).

## Model

| member | source | states |
|---|---|---|
| CpRuns.RetiresInRingOrder | vortex/sim/common/cmd_processor.cpp:391-420 | in every state of every run with unmodified unread lines, the retired commands are exactly those of the consumed lines and of the slots done in the current line, in ring order, each once, and the sequence number counts them |
| CpRuns.TickKeepsRing | vortex/sim/common/cmd_processor.cpp:581-586 | one tick retires at most the command in flight, keeping that ledger |
| CpPublish.RetirePublishes | vortex/sim/common/cmd_processor.cpp:281-285 | a retiring tick leaves, at a nonzero completion address, eight bytes that read as the number of retired commands modulo 2^64, and changes no other byte |
| CpPublish.TickPublishes | vortex/sim/common/cmd_processor.cpp:581-586 | if no ring command writes to the slot, every tick keeps it reading as the number retired |
| CpPublish.SlotCountsRetired | vortex/sim/common/cmd_processor.cpp:581-586 | over every run in which no ring command and no host write touches the slot, it reads as the number of commands retired so far |
| CpPublish.RingIsCircular | vortex/sim/common/cmd_processor.cpp:207-217 | line after line the fetch address goes round the ring's memory and stays in it |
| CpRuns.UnpackAt | vortex/sim/common/cmd_processor.cpp:259-275 | the k-th unpacked command is the one decoded after skipping the first k by their sizes |
| CpRuns.LaunchesDrain | vortex/sim/common/cmd_processor.cpp:370-387 | over every run the starts are as many as the launches executed from the ring plus the launches walked in bundles; each comes only after all earlier kernels were seen busy and then idle, and a launch in progress keeps the engine waiting |
| CpRuns.TickStarts | vortex/sim/common/cmd_processor.cpp:437-448 | one tick pulses start exactly as often as it dispatches a launch, from the ring or in a bundle: at most once |
| CpRuns.TickKeepsLaunch | vortex/sim/common/cmd_processor.cpp:550-579 | one tick of the two state machines together keeps starts, launches and drained kernels in balance |
| CpRuns.OneKernelAtATime | vortex/sim/common/cmd_processor.cpp:550-579 | a tick that pulses start or passes a launch, direct or in a draw, finds every earlier kernel drained |
| CpRuns.FreshInv | vortex/sim/common/cmd_processor.cpp:49-61 | a reset processor with any line-aligned tail satisfies the invariants the run lemmas start from |
| CpRuns.TickLowersRank | vortex/sim/common/cmd_processor.cpp:389-595 | a busy tick that waits neither for the device nor for an event strictly lowers the rank of lines, commands, draw steps and phase |
| CpRuns.IdleTick | vortex/sim/common/cmd_processor.cpp:56-61 | a waiting tick, and a tick with nothing to do, changes only the cycle counter |
| CpRuns.Drains | vortex/sim/common/cmd_processor.cpp:590-595 | without waiting and with a quiet host the processor is no longer busy after as many ticks as its rank |
| CpRuns.DrainsFromRun | vortex/sim/common/cmd_processor.cpp:590-595 | so it drains from whatever state a run over intact lines has reached |
| CpEffects.RunFollowsReference | vortex/sim/common/cmd_processor.cpp:437-586 | in every run whose ring commands, completion slot and host leave the descriptors alone, the hook calls and the latched response are those of executing the ring's commands one after the other |
| CpEffects.TickFollows | vortex/sim/common/cmd_processor.cpp:389-588 | one tick extends the hook log only by what the reference execution does next, and leaves the descriptors alone if the command in flight does |
| CpEffects.CompleteRunEffect | vortex/sim/common/cmd_processor.cpp:590-595 | such a run that consumes the whole ring ends with exactly the reference log and response |
| CpEffects.InlineCalls | vortex/sim/common/cmd_processor.cpp:328-357 | the hook calls of every command, written out call by call: a register write, a register read with its response, a flush of every core, and a descriptor's writes |
| CpEffects.BidCalls | vortex/sim/common/cmd_processor.cpp:437-548 | a command from the ring makes those calls |
| CpEffects.LaunchWrites | vortex/sim/common/cmd_processor.cpp:308-322 | for every list of register-value pairs in memory, a launch writes exactly those values to exactly those registers, in order and no more than 64, and then starts |
| CpEffects.DecodeEncoded | vortex/sim/common/cmd_processor.cpp:223-257 | decoding recovers every field that was encoded at an offset, up to the length of the record |
| CpEffects.PackLineRoundTrip | vortex/sim/common/cmd_processor.cpp:259-275 | a line packed from commands unpacks to commands of the same meaning, the zero header ending it |
| CpFormat.EnableBits | vortex/sim/common/cmd_processor.cpp:52-54 | only with the low bits of both control registers set does a tick change more than the cycle counter; then it takes up a waiting line |
| CpFormat.RecordSizes | vortex/sim/common/cmd_processor.cpp:240-256 | record lengths by opcode number: header, and the arguments the command has |
| CpFormat.RecordSuffices | vortex/sim/common/cmd_processor.cpp:437-548 | two commands that agree on their records are executed alike from every state: hook calls, memory, waiting and launches depend on nothing else |
| CpFormat.ZeroExtended | vortex/sim/common/cmd_processor.cpp:223-239 | a record cut off by the end of the buffer decodes as if zeros followed |
| CpEffects.DescriptorBundle | vortex/sim/common/cmd_processor.cpp:360-368 | reading a resident descriptor step by step recovers the commands it was written from |
| CpEffects.DrawMatchesRing | vortex/sim/common/cmd_processor.h:47-59 | for every step list without nested draws, memory and event commands included as long as they write outside the descriptors, any run of it as one draw and any run of it through the ring make the same hook calls and leave the same last response |
| CpBundle.BundleStepExact | vortex/sim/common/cmd_processor.cpp:328-357 | over all devices, memories and hook logs, a command makes the same hook calls, leaves the same memory and is got past alike from the ring and in a bundle, if and only if it is no draw, no event signal, no wait that some counter value can hold up, and no copy that some translation lets move a byte |
| CpBundle.BundledAgrees | vortex/sim/common/cmd_processor.cpp:557-571 | for such a command the two engine steps agree from every pair of states with the same memory and log |
| CpBundle.CopyDiffers | vortex/sim/common/cmd_processor.cpp:506-543 | any other copy moves a byte from the ring, for some translation and memory, and none in a bundle |
| CpBundle.WaitDiffers | vortex/sim/common/cmd_processor.cpp:288-301 | any other wait holds up the ring, for some counter value, and never a bundle |
| CpBundle.SignalDiffers | vortex/sim/common/cmd_processor.cpp:328-357 | an event signal changes memory from the ring and never in a bundle |
| CpBundle.WaitCompares | vortex/sim/common/cmd_processor.cpp:288-301 | a wait is satisfied if and only if the eight bytes at its address compare with its value as its mode says |
| CpBundle.CopySides | vortex/sim/common/cmd_processor.cpp:506-543 | a copy from the ring moves its bytes, as CopyIsMemmove allows, between the addresses that opcode and flag say, each translated or not |
| CpBundle.SignalStores | vortex/sim/common/cmd_processor.cpp:490-497 | an event signal stores its eight bytes at its address and changes no other |
| CpBundle.OthersLeaveMemory | vortex/sim/common/cmd_processor.cpp:437-548 | no other command changes memory |
| CpBundle.NestedDrawSkipped | vortex/sim/common/cmd_processor.cpp:328-357 | a draw from the ring may start a kernel, a nested one makes no hook call |
| CpCopy.CopyIsMemmove | vortex/sim/common/cmd_processor.cpp:506-543 | the chunked copy is a memmove for every memory if and only if the size is within one chunk or the destination does not overlap the source from above |
| CpCopy.SafeCopyMoves | vortex/sim/common/cmd_processor.cpp:506-543 | under that condition each chunk extends the part already moved |
| CpCopy.OverlapLoses | vortex/sim/common/cmd_processor.cpp:506-543 | otherwise a byte of the last chunk has been overwritten before it is read |
| CommandProcessor.DecodeCmd | vortex/sim/common/cmd_processor.cpp:223-257 | the field-by-field loop decodes what the model's byte reader decodes |
| CommandProcessor.UnpackLine | vortex/sim/common/cmd_processor.cpp:259-275 | the unpacking loop yields the line's commands: at most the slot count, ended by a zero NOP or by the line's end |
| CommandProcessor.FindSlot | vortex/sim/common/cmd_processor.cpp:391-420 | the search in the line buffer finds the offset of the slot to execute |
| CommandProcessor.CopyEngine | vortex/sim/common/cmd_processor.cpp:506-543 | the chunk loop computes the chunked copy that CopyIsMemmove is about |
| CommandProcessor.CommandProcessor.FetchIfNeeded | vortex/sim/common/cmd_processor.cpp:207-217 | fetches a line exactly when the current one is used up and the tail is ahead |
| CommandProcessor.CommandProcessor.LoadNextCmd | vortex/sim/common/cmd_processor.cpp:391-420 | loads the next command of the line or consumes the line |
| CommandProcessor.CommandProcessor.ApplyDescriptor | vortex/sim/common/cmd_processor.cpp:308-322 | the descriptor loop makes the register writes of the kernel descriptor, in order |
| CommandProcessor.CommandProcessor.ExecInlineCmd | vortex/sim/common/cmd_processor.cpp:328-357 | executes one command as the reference does and reports a launch |
| CommandProcessor.CommandProcessor.DoBid | vortex/sim/common/cmd_processor.cpp:437-548 | the dispatch state does what the model's step does, for every opcode |
| CommandProcessor.CommandProcessor.DoDrawStep | vortex/sim/common/cmd_processor.cpp:557-571 | walks one step of a draw |
| CommandProcessor.CommandProcessor.DoRetire | vortex/sim/common/cmd_processor.cpp:581-586 | counts the retired command and publishes as RetirePublishes says |
| CommandProcessor.CommandProcessor.TickLaunch | vortex/sim/common/cmd_processor.cpp:370-387 | the launch state machine's step |
| CommandProcessor.CommandProcessor.TickEngine | vortex/sim/common/cmd_processor.cpp:389-588 | the engine's step |
| CommandProcessor.CommandProcessor.Tick | vortex/sim/common/cmd_processor.cpp:590-595 | a tick of the object is a tick of the model, so every run lemma holds of it |
| Dispatcher.SplitPartitions | vortex/sim/simx/dispatcher.cpp:62-117 | the packets of an instruction partition its thread mask and are as many as each announces |
| Dispatcher.SplitCount | vortex/sim/simx/dispatcher.cpp:79-87 | the announced count is the number of packets sent |
| Dispatcher.SplitMarks | vortex/sim/simx/dispatcher.cpp:110-118 | exactly the first packet starts the instruction and exactly the last ends it |
| Dispatcher.PortStepOwes | vortex/sim/simx/dispatcher.cpp:62-126 | a visit to a port moves packets from those owed to those sent, in order |
| Dispatcher.TickKeeps | vortex/sim/simx/dispatcher.cpp:43-135 | a tick over all ports, whatever the back-pressure, loses and invents no packet |
| Dispatcher.PacketsConserved | vortex/sim/simx/dispatcher.cpp:43-135 | over every run, what an input has sent followed by what it still owes is the split of its traces, in order |
| DispatchProgress.EveryPacketSent | vortex/sim/simx/dispatcher.cpp:43-135 | with room in the outputs, after as many ticks as packets are owed times one more than the batches, every input has sent all its packets |
| DispatchProgress.TickProgress | vortex/sim/simx/dispatcher.cpp:43-135 | a tick with room sends a packet, or comes closer to a batch with work |
| DispatchProgress.BatchTurns | vortex/sim/simx/dispatcher.cpp:127-135 | exactly when every block is through, its input empty or the last packet of an instruction sent, the next batch is turned to, each block at its first group |
| DispatchProgress.PacketsRouted | vortex/sim/simx/dispatcher.cpp:43-60 | over every run the packets of an input leave by the output of its block |
| Dispatcher.CountPackets | vortex/sim/simx/dispatcher.cpp:79-87 | the counting loop |
| Dispatcher.FindRange | vortex/sim/simx/dispatcher.cpp:88-98 | the first active lane from a position on, and the last |
| Dispatcher.LaneMask | vortex/sim/simx/dispatcher.cpp:110-114 | the mask of one packet |
| Dispatcher.DispatchUnit.OnTick | vortex/sim/simx/dispatcher.cpp:43-135 | a tick of the object, nested loops included, is a tick of the model |
| Dispatcher.DispatchUnit.NextPacket | vortex/sim/simx/dispatcher.cpp:62-117 | computes the packet the model's port step sends next |
| Pipeline.RunIsInOrder | vortex/sim/simx/core.cpp:516-605 | for every program and every order in which packets return, each captured operand is what in-order execution reads, and with nothing in flight the registers are the in-order ones |
| Pipeline.PipelineBytes | vortex/sim/simx/opc_unit.cpp:137-190 | once nothing is in flight, a register byte that the last issued instruction overwrites holds what its unit computes from the operands it captured, any other what the instructions before it leave |
| Pipeline.InOrderBytes | vortex/sim/simx/opc_unit.cpp:137-190 | the same of every program executed in order, its operands read from the registers before it |
| Pipeline.StepBytes | vortex/sim/simx/core.cpp:470-474 | an instruction overwrites exactly the selected bytes of the active lanes of its destination, with what its unit computes, and nothing of x0 or without a destination |
| Pipeline.OperandsExact | vortex/sim/simx/opc_unit.cpp:101-125 | the operands are the named registers' values, source by source, and zero where no register is named |
| Pipeline.IssueReadsInOrder | vortex/sim/simx/opc_unit.cpp:101-125 | an instruction the scoreboard lets through reads in-order values |
| Pipeline.IssueLegal | vortex/sim/simx/scoreboard.cpp:80-86 | the assertion in reserve holds in every reachable state |
| Pipeline.IssueKeeps | vortex/sim/simx/core.cpp:516-605 | issuing keeps the invariant that pending writes bring the registers to the in-order ones |
| Pipeline.CommitIsLegal | vortex/sim/simx/scoreboard.cpp:88-106 | the assertions in release hold for whichever packet commits |
| Pipeline.CommitKeeps | vortex/sim/simx/core.cpp:715-739 | committing any packet of any instruction in flight keeps the invariant; the register is freed only with the last |
| Pipeline.RegIdInjective | vortex/sim/simx/types.h:155-172 | the scoreboard's register number tells all warps' registers apart |
| Pipeline.WarpIndependent | vortex/sim/simx/opc_unit.cpp:137-190 | a warp's registers depend only on its own instructions |
| Pipeline.ZeroRegister | vortex/sim/simx/core.cpp:470-474 | register x0 of every warp stays zero |
| CorePipeline.Scoreboard.CheckInUse | vortex/sim/simx/scoreboard.cpp:41-56 | true exactly when a source or the destination is reserved |
| CorePipeline.Scoreboard.Reserve | vortex/sim/simx/scoreboard.cpp:80-86 | reserves the destination for its instruction |
| CorePipeline.Scoreboard.CommitPacket | vortex/sim/simx/scoreboard.cpp:145-154 | true for the packet that completes the announced number |
| CorePipeline.Scoreboard.Release | vortex/sim/simx/scoreboard.cpp:88-106 | frees the register and its counters |
| CorePipeline.RegFile.FetchOperands | vortex/sim/simx/opc_unit.cpp:101-125 | gathers each source's lanes |
| CorePipeline.RegFile.Writeback | vortex/sim/simx/opc_unit.cpp:137-190 | writes the selected bytes of the active lanes and no other |
| CorePipeline.CoreUnit.TryIssue | vortex/sim/simx/core.cpp:516-605 | issues exactly when the scoreboard allows it, as the model's step |
| CorePipeline.CoreUnit.CommitOne | vortex/sim/simx/core.cpp:715-739 | commits one packet as the model's step |
| ThreadIds.ThreadIdsBijective | vortex/sim/simx/cta_dispatcher.cpp:208-231 | over all ranks and active lanes of a block the thread ids are a bijection onto the block |
| ThreadIds.WarpsExact | vortex/sim/simx/cta_dispatcher.cpp:133 | a rank is one of the block's warps if and only if it has a thread |
| ThreadIds.ThreadIdIsDigits | vortex/sim/simx/csr_unit.cpp:95-107 | the id a lane reads is the mixed-radix digits of rank * threads + lane |
| ThreadIds.AdvanceAdds | vortex/sim/simx/cta_dispatcher.cpp:215-224 | the carry step adds digit representations |
| ThreadIds.CsrAdds | vortex/sim/simx/csr_unit.cpp:95-107 | the read adds the lane number |
| ThreadIds.IndexIsDigits | vortex/sim/simx/cta_dispatcher.cpp:208-231 | the running index of a rank is the digits of its first thread number |
| CtaRuns.WarpsConserved | vortex/sim/simx/cta_dispatcher.cpp:72-175 | in every reachable state a slot's count is its mapped warps plus the ranks not handed out, so warp_done never finds an empty slot |
| CtaRuns.DoneConserves | vortex/sim/simx/cta_dispatcher.cpp:167-175 | the assertion in warp_done holds and an exit keeps the balance |
| CtaRuns.DispatchHands | vortex/sim/simx/cta_dispatcher.cpp:177-234 | every warp record carries the index, lane count and local-memory base of its rank and slot |
| CtaBlocks.LiveMemory | vortex/sim/simx/cta_dispatcher.cpp:90-141 | over every run of one kernel: live warps share a slot if and only if they are of one block; the memory of a live warp, from the address in its record for the size its block asked for, is disjoint from that of every other live block, and lies in the local memory, alone or not, when one block fits |
| CtaBlocks.BlocksOverRun | vortex/sim/simx/cta_dispatcher.cpp:72-175 | over every run each finished block has handed out all its ranks once and in order, the one in progress those below its next rank, and every warp holds a record of the block in its slot |
| CtaBlocks.BlockIdsOverRun | vortex/sim/simx/cta_dispatcher.cpp:177-234 | over every run the active lanes of a finished block's records read each thread id of the block exactly once, and no record is without one |
| CtaBlocks.NoteKeeps | vortex/sim/simx/cta_dispatcher.cpp:72-175 | one call or exit keeps the ledger of blocks, records and holders |
| CtaBlocks.EmptyInv | vortex/sim/simx/cta_dispatcher.cpp:51-61 | a dispatcher out of reset starts such a run |
| CtaBlocks.WarpInRange | vortex/sim/simx/cta_dispatcher.cpp:63-70 | a live warp's memory is inside the local memory when one block fits |
| CtaHistory.RunFromReset | vortex/sim/simx/cta_dispatcher.cpp:116-165 | over every run out of reset the blocks taken up are those delivered, in order, but for one that waits; each goes to the slot after the one before, or to the first if that slot or its cluster's window is beyond the usable ones; and a record asks for initialisation if and only if its warp got no record since the last block whose kernel differed from the one before |
| CtaHistory.SlotsExact | vortex/sim/simx/cta_dispatcher.cpp:63-70 | the usable slots are as many as fit the local memory, at least one and no more than the warps |
| CtaHistory.RecordedKeeps | vortex/sim/simx/cta_dispatcher.cpp:72-165 | one call or exit keeps the order of blocks and the initialisation of warps |
| CtaHistory.RecordedRounds | vortex/sim/simx/cta_dispatcher.cpp:90-141 | and the round of the slots |
| CtaHistory.ServedMeans | vortex/sim/simx/cta_dispatcher.cpp:116-122 | the reset at a kernel change, and nothing else, forgets which warps were served |
| CtaHistory.RecordGoesOut | vortex/sim/simx/cta_dispatcher.cpp:143-165 | a call hands out a record if and only if a block is in progress and a warp is idle, to the lowest idle warp |
| CtaHistory.WaitsForWarp | vortex/sim/simx/cta_dispatcher.cpp:90-114 | a block is kept waiting only while a warp of an earlier block runs |
| CtaHistory.IdleCoreGetsWork | vortex/sim/simx/cta_dispatcher.cpp:72-165 | with no warp running, a call hands out a record if and only if there is a block |
| CtaRuns.StrideCovers | vortex/sim/simx/cta_dispatcher.cpp:90-141 | a region is as large as asked for if and only if rounding up stays within 32 bits |
| CtaRuns.FirstOpens | vortex/sim/simx/cta_dispatcher.cpp:90-141 | the first member of a cluster that fits opens a window of free consecutive slots |
| CtaRuns.FollowerPlaced | vortex/sim/simx/cta_dispatcher.cpp:90-141 | every later member is admitted at once, into the next slot |
| CtaRuns.ClusterStep | vortex/sim/simx/cta_dispatcher.cpp:72-165 | one call keeps the window, and a member after the first never waits for a slot |
| CtaRuns.ClustersConsecutive | vortex/sim/simx/cta_dispatcher.cpp:90-141 | over every run that delivers whole clusters, members occupy consecutive slots in member order |
| CtaDispatcher.CtaDispatcher.UsableSlots | vortex/sim/simx/cta_dispatcher.cpp:63-70 | capacity over stride, at least one and at most the warps |
| CtaDispatcher.CtaDispatcher.LoadCta | vortex/sim/simx/cta_dispatcher.cpp:72-141 | admission as the model's |
| CtaDispatcher.CtaDispatcher.CheckWindow | vortex/sim/simx/cta_dispatcher.cpp:90-141 | true exactly when the whole window is free |
| CtaDispatcher.CtaDispatcher.NextWarp | vortex/sim/simx/cta_dispatcher.cpp:177-234 | the next rank's record, and the running index advanced with carries |
| CtaDispatcher.CtaDispatcher.DispatchStep | vortex/sim/simx/cta_dispatcher.cpp:72-165 | a step of the object is a step of the model |
| CtaDispatcher.CtaDispatcher.WarpDone | vortex/sim/simx/cta_dispatcher.cpp:167-175 | an exit of the object is an exit of the model, and its assertion holds |
| TimingWheel.FiresOnTime | vortex/sim/common/simobject.h:596-620 | in every run, whatever the delays and whatever fired events schedule: an event fires exactly at its due cycle, in scheduling order within a cycle, and none is lost |
| TimingLedger.RequestsFire | vortex/sim/common/simobject.h:529-565 | in every run each request, made from outside or by a fired event, has fired if and only if the cycle it was made in plus its delay has come, then once and in that cycle |
| TimingLedger.ApplyBooked | vortex/sim/common/simobject.h:596-620 | one request or tick keeps the book of requests |
| TimingLedger.FreshBooked | vortex/sim/common/simobject.h:529-565 | an empty wheel has an empty book |
| TimingWheel.TickRefines | vortex/sim/common/simobject.h:596-620 | a tick of the wheel fires what a tick of a stable priority queue fires, in the same order |
| TimingWheel.ScheduleRefines | vortex/sim/common/simobject.h:529-565 | scheduling with any delay from one up keeps wheel and queue related, beyond the wheel's size too |
| TimingWheel.QTickKeeps | vortex/sim/common/simobject.h:596-620 | the reference queue keeps its firing record timely and complete |
| TimingWheel.FreshWheel | vortex/sim/common/simobject.h:529-565 | an empty wheel starts such a run |
| TimingWheel.SimPlatform.ScheduleEvent | vortex/sim/common/simobject.h:529-565 | puts the event in the bucket of its due cycle |
| TimingWheel.SimPlatform.Step | vortex/sim/common/simobject.h:596-620 | the walk over a bucket that grows while it fires is the model's tick |
| Acl.SetCorrect | vortex/sim/common/mem.cpp:346-395 | set gives the range the new flags, every other address keeps its own, and the map stays canonical |
| Acl.ReplayIsLastWriter | vortex/sim/common/mem.cpp:346-395 | after any history the map stands for the last-writer function |
| Acl.CanonUnique | vortex/sim/common/mem.cpp:358-394 | two canonical maps with the same permissions are identical |
| Acl.SamePermissionsSameMap | vortex/sim/common/mem.cpp:358-394 | histories that give the same permissions give identical maps |
| Acl.AllowedMeans | vortex/sim/common/mem.cpp:397-417 | for a non-empty range, allowed if and only if every mapped byte carries all the flags |
| Acl.AclManager.SetRange | vortex/sim/common/mem.cpp:346-395 | editing the map in place is the model's set |
| Acl.AclManager.CutRange | vortex/sim/common/mem.cpp:358-377 | trims, splits or erases every overlapping interval |
| Acl.AclManager.Insert | vortex/sim/common/mem.cpp:379-394 | inserts into the gap and merges with equal neighbours on both sides |
| Acl.AclManager.Check | vortex/sim/common/mem.cpp:397-417 | the scan answers as the model does, and for a non-empty range by bytes |
| SparseRam.PutUpdates | vortex/sim/common/mem.cpp:471-511 | storing a byte changes that address of the byte map and no other |
| SparseRam.Ram.FindChunk | vortex/sim/common/mem.cpp:471-497 | finds or adds a directory; the cached one is always the one in the table |
| SparseRam.Ram.GetByte | vortex/sim/common/mem.cpp:471-511 | reads the byte map and allocates nothing |
| SparseRam.Ram.SetByte | vortex/sim/common/mem.cpp:471-511 | updates the byte map at one address |
| SparseRam.Ram.Read | vortex/sim/common/mem.cpp:513-521 | returns the bytes of the range, or which error it stops with |
| SparseRam.Ram.Write | vortex/sim/common/mem.cpp:523-531 | writes the whole range, nothing if the access list forbids it, or the bytes before the end of the memory |
| SparseRam.Ram.Copy | vortex/sim/common/mem.cpp:533-549 | moves the range as it was before the call, for every overlap; otherwise what the error leaves behind |
| SparseRam.Ram.Clear | vortex/sim/common/mem.cpp:448-457 | every byte reads as the fill pattern again |
| Barrier.ActionExact | vortex/sim/simx/barrier_unit.cpp:69-111 | the phase turns if and only if all arrivals have happened and every event attached has been released; then exactly the sleepers wake, otherwise nobody |
| Barrier.PhasesBalance | vortex/sim/simx/barrier_unit.cpp:69-167 | over every legal run the phase has turned once per full set of arrivals, no sleeper is lost, and the events counted are those attached and not released |
| Barrier.ReleaseExact | vortex/sim/simx/barrier_unit.cpp:135-167 | a last release is right if and only if somebody has arrived |
| Barrier.ExtraArrivalLosesTurn | vortex/sim/simx/barrier_unit.cpp:69-93 | an arrival too many with an event pending loses the turn if and only if the barrier is for more than one |
| Barrier.ArriveTokenSuspends | vortex/sim/simx/wctl_unit.cpp:121-142 | waiting with the token just received suspends if and only if the phase is below two |
| Barrier.GlobalExact | vortex/sim/simx/barrier_unit.cpp:52-68 | arrivals, synchronising or not, waits, attached and released events act as at a rendezvous: a core is complete once its active warps have arrived and no event attached is unreleased; when the last of the cores completes, the sleepers of exactly those cores wake and their phases turn; any other action wakes nobody |
| Barrier.SettleAt | vortex/sim/simx/cluster.cpp:476-504 | whatever the arrivals, the cores woken are exactly those that have notified, when the last of them notifies |
| Barrier.GlobalRunRefines | vortex/sim/simx/cluster.cpp:476-504 | over every run the units' sleepers, pending events, phases and notified cores are those of the rendezvous |
| Barrier.GlobalStart | vortex/sim/simx/barrier_unit.cpp:32-36 | units out of reset start such a run |
| Barrier.PhasesTogether | vortex/sim/simx/cluster.cpp:476-504 | over every run of a barrier for all cores no core is in another phase than any other |
| Barrier.BarrierUnit.ArriveAt | vortex/sim/simx/barrier_unit.cpp:69-93 | an arrival of the object, waking the sleepers one by one, is the model's |
| Barrier.BarrierUnit.WaitAt | vortex/sim/simx/barrier_unit.cpp:96-111 | suspends exactly in the phase waited for |
| Barrier.BarrierUnit.EventAttach | vortex/sim/simx/barrier_unit.cpp:129-133 | adds pending events |
| Barrier.BarrierUnit.EventRelease | vortex/sim/simx/barrier_unit.cpp:140-165 | a release at a local barrier of the object is the model's |
| Barrier.BarrierUnit.ResumeAll | vortex/sim/simx/barrier_unit.cpp:113-127 | resumes each warp of the mask once, in ascending order |
| Barrier.GlobalBarrier.NotifyArrival | vortex/sim/simx/cluster.cpp:476-504 | resumes every notified core when the count is reached and clears the mask |
| Barrier.GlobalBarrier.ArriveGlobal | vortex/sim/simx/barrier_unit.cpp:52-68 | a global arrival of the object, synchronising or not, is the model's |
| Barrier.GlobalBarrier.AttachGlobal | vortex/sim/simx/barrier_unit.cpp:129-133 | so is an attached event |
| Barrier.GlobalBarrier.ReleaseGlobal | vortex/sim/simx/barrier_unit.cpp:142-151 | and its release, which may complete the core |
| RvcFetch.FetchesRight | vortex/sim/simx/core.cpp:353-437 | for any memory, program counters, interleaving, response order and harmless refusals, each warp's codes are the instructions at the addresses it asked for, once each, in order, and none is missing once the stage is empty |
| RvcProgress.FetchesFinish | vortex/sim/simx/core.cpp:353-437 | from every reachable state at most four requests sent and responses accepted per warp are possible, in whatever order, and when no more are, every fetch asked for has come out with the instruction at its address |
| RvcFetch.FirstResponse | vortex/sim/simx/decompressor.cpp:444-483 | the first word yields the instruction in memory, or stashes the low half of one that goes on |
| RvcFetch.SecondResponse | vortex/sim/simx/decompressor.cpp:444-460 | the second word completes it, across words and lines |
| RvcFetch.LengthRule | vortex/sim/simx/decompressor.cpp:444-483 | an instruction has 16 bits unless the two low bits of its first half are both set |
| RvcFetch.AnswerKeeps | vortex/sim/simx/core.cpp:353-384 | handling any outstanding response keeps every warp's stash and queue entry consistent |
| RvcFetch.RequestKeeps | vortex/sim/simx/core.cpp:386-437 | sending keeps them too, second words first |
| RvcFetch.RefusalExact | vortex/sim/simx/core.cpp:359-384 | a refused completion ends in the right code if and only if the second word's line holds the instruction's low half at the first word's place |
| RvcFetch.HarmlessRefusal | vortex/sim/simx/decompressor.cpp:444-460 | that is so for every instruction inside a line, and across two lines only if the next line ends in the same half |
| RvcFetch.RefusedAcrossLines | vortex/sim/simx/decompressor.cpp:454-460 | an input, with lines of two words, on which a refusal yields a wrong code |
| RvcFetch.Decompressor.PickRequest | vortex/sim/simx/decompressor.cpp:414-428 | second words go before new fetches, with their addresses |
| RvcFetch.Decompressor.CommitRequest | vortex/sim/simx/decompressor.cpp:430-434 | a sent second word leaves the queue |
| RvcFetch.Decompressor.OnIcacheRsp | vortex/sim/simx/decompressor.cpp:444-483 | the state machine of the object is the model's |
| RvcFetch.FetchStage.HandleResponse | vortex/sim/simx/core.cpp:353-384 | a response handled, kept or refused as in the model |
| RvcFetch.FetchStage.SendRequest | vortex/sim/simx/core.cpp:386-437 | a request sent as in the model |
| ConfigExpr.SubstEval | vortex/ci/gen_config.py:730-740 | evaluating after substitution is evaluating before it with the substituted names' values |
| ConfigExpr.MacroValue | vortex/ci/gen_config.py:767-854 | if every connective in an expression comes to 0 or 1, its macro text has the value the resolver computes |
| ConfigExpr.ConnectiveExact | vortex/ci/gen_config.py:787-790 | a connective over such operands has the resolver's value in the macro if and only if that value is 0 or 1 |
| ConfigLocals.InliningPreserves | vortex/ci/gen_config.py:730-740 | an inlined expression has the value the resolver gives the original |
| ConfigLocals.LocalValue | vortex/ci/gen_config.py:692-727 | a private name's resolved value is that of its substituted expression |
| ConfigLocals.LocalsHaveValues | vortex/ci/gen_config.py:1327-1358 | names that resolve have a consistent valuation |
| ConfigLocals.NoPrivateNameLeft | vortex/ci/gen_config.py:671-676 | inlining leaves no private name behind |
| ConfigLocals.ResolvedAcyclic | vortex/ci/gen_config.py:707-723 | once all private names are resolved there is no cycle of references |
| ConfigLocals.LocalBuilder.Resolve | vortex/ci/gen_config.py:707-723 | the memoised walk ends with the substituted expression, or with a cycle only if there is one |
| ConfigLocals.LocalBuilder.Visit | vortex/ci/gen_config.py:714-719 | rewriting an expression while the cache grows is substitution with the final cache |
| ConfigLocals.LocalBuilder.Build | vortex/ci/gen_config.py:692-727 | all names resolve if and only if there is no cycle among them |
| IfdefTree.TestMeans | vortex/ci/gen_config.py:861-918 | the blocks emitted for a test execute the true branch's lines if the test holds of the macros, else the false branch's, and do nothing inside an inactive block |
| IfdefTree.HoldsIsEval | vortex/ci/gen_config.py:861-918 | with flags defined exactly when true, that is the resolver's value of the test |
| IfdefTree.TreeMeans | vortex/ci/gen_config.py:964-978 | a nested conditional executes the defines of exactly one branch, the one the resolver picks |
| IfdefTree.TreeAccepted | vortex/ci/gen_config.py:918-978 | emission fails if and only if the expression is outside the grammar |
| IfdefTree.TranslatableExact | vortex/ci/gen_config.py:767-854 | an expression translates to macro text if and only if there is no conditional and no unknown operator anywhere in it |
| IfdefTree.WritesLast | vortex/ci/gen_config.py:964-978 | after the executed defines a macro is what the last of them for it says |
| IfdefTree.PickEval | vortex/ci/gen_config.py:1351-1358 | the picked branch has the value of the whole conditional |
| IfdefTree.EmittedIsResolved | vortex/ci/gen_config.py:1064-1116 | from an entry with private names to the preprocessor: one define of the key is executed, its expression has the value the resolver gives the entry, and so has the macro if the expression's connectives come to 0 or 1 |
| IfdefTree.KeyMeans | vortex/ci/gen_config.py:1064-1129 | a preset or disabled key is left alone, any other gets what the resolver computes |
| ConfigHeader.HeaderMeans | vortex/ci/gen_config.py:1201-1208 | a whole header, whose keys test only outside flags and flag keys before them: every key comes out as the resolver has it, flag keys are defined exactly when true, and no other macro changes |
| ConfigHeader.EntryMeans | vortex/ci/gen_config.py:1064-1129 | one key changes its own macro only, to what the resolver has |
| IfdefTree.EnableExact | vortex/ci/gen_config.py:1064-1129 | an enable key is defined exactly when the resolver finds it true if and only if its expression is a flag test or its value is not zero |
| IfdefTree.EnableZero | vortex/ci/gen_config.py:1118-1129 | an input on which it is defined although zero |

## Left out

- Command processor registers: the memory-mapped host interface beyond tail, enable and the completion address; hooks are always present.
- Address translation: the page walk is an arbitrary function of the address.
- CorePipeline.CoreUnit.TryIssue: functional-unit locks, credits, operand collectors' timing and the sequencer are not modelled; results are an arbitrary function of the captured operands, and packets return in any order.
- CorePipeline.Scoreboard.Release: the hand-over to a pending reservation, which only snapshot and restore of a warp create, is not modelled; nor are traps and instructions that rewrite the thread mask in flight.
- CorePipeline.RegFile.Writeback: registers hold bytes, and the byte-select mask selects bytes instead of expanding to a 64-bit mask.
- Thread ids and cluster sizes: products and sums are unbounded; 32-bit wrap-around is modelled for the local-memory stride only.
- Empty thread blocks: a block has at least one thread.
- CtaBlocks.LiveMemory: blocks whose size does not round up within 32 bits are excluded; StrideCovers says what happens to them.
- TimingWheel.FiresOnTime: events with delay zero, which fire within the same cycle, and a reset with events pending are not modelled.
- TimingWheel.SimPlatform.ScheduleEvent: a delay of zero, which goes to a list of its own, is not modelled.
- TimingWheel.SimPlatform.Step: that list and the ticks of the simulated objects are not modelled.
- Acl.AclManager.SetRange: ranges that end at or wrap past the end of the 64-bit address space are not modelled.
- Acl.AclManager.Check: the same; so it is for the RAM's accesses.
- SparseRam pages are values inside their directory, not separately allocated objects; image loaders are not modelled.
- Barrier.GlobalExact: a warp arrives once per phase, and the active warps of a core are fixed.
- Barrier.BarrierUnit.EventAttach: event counts are unbounded.
- RvcFetch: memory is a sequence of aligned words and a program counter is a word and a half of it; virtual addresses and the tables that expand 16-bit instructions are not modelled.
- RvcFetch.FetchesRight: a warp has one fetch outstanding, and a completion is refused only where RefusalExact allows it.
- ConfigExpr.MacroValue: integer operators are taken to mean the same in macros as for the resolver; division of negative numbers and machine widths are not modelled.
- ConfigHeader.HeaderMeans: enumeration keys, plain literals and the numeric companions of enable keys are not part of this header; a preset key is taken to be true for the resolver, a disabled one false.
- Configuration files: parsing, undefined keys and exceptions inside operators are not modelled.
- Caches, arbiters, the kernel management unit, the other simulators, drivers, viewers and the SoC sources.
