# FlashStack: a verified model

FlashStack keeps a second copy of every return address on a parallel shadow stack and
moves or re-keys that copy while the program runs. This project models three parts of it in
Dafny and proves what each promises.

**The shadow-stack machine.** Memory is a map of aligned 64-bit words (`Memory`), the
templates that the instrumenter prints are instruction sequences with an interpreter
(`Asm`, `Templates`), whose machine code `Encoding` decodes, and addresses are taken modulo
2^64 (`Words`).

* GS_RSP, the default: the shadow slot of `a` is `gs + a - 2^47`. `GsRspRuntime.Runtime` is
  the runtime, one call at a time, as a class whose methods edit the address space, the GS
  base and the region table. `GsProcess` is a whole process as a state machine: any number of
  threads call, return, start, move (cut at every system call) and exit, while the cleaner
  unmaps regions and the rest of the program writes what it likes outside them. `GsReclaim` says
  when regions of finished threads are unmapped. `rsp0`, the rsp at which a thread was
  initialised, is a field of each thread.
* FS_GS: the slot is `a + diff`, keyed by `R` when SPA_ENABLE_GS_MSR is set. `FsGsAttempts`
  says how often a thread moves.
* Buddy: the slot is `a - S`, keyed by a random value stored in two records below the stack.

**The instrumenter.** `Instrumenter` specifies add_instrumentation line by line,
`InstrumenterLoop` is its loop over mutable flags. `LineText` says what labels and returns are
in a line of text, apart from what the instrumenter looks for, and `FlagEffects` what each part
of a line's processing does to the flags. `Consistency` proves what happens to whole procedures,
`Redirection` what stands at entries and where redirected calls land, `CallSites` which calls are
redirected, and `Counts` what is reported; `Mixtures` holds texts for which
consistency and redirection fail. `EmittedCode` maps the instrumenter's marks to the templates of each scheme and joins both
sides. `Names` is the loader and the binary search of the protected-function list.

**The binary rewriters.** `CodeRewriter`, `CodeScan`, `DataRewriter` patch byte arrays in
place; `RewrittenCode` decodes the patched bytes back to the templates.

How to read the results: a method is tied by its `ensures` to a function of the old state
(for instance `Relocated`, `Rekeyed`, `Greedy`), and the lemmas below are about those functions.
The steps of the state machines use the same functions, and `GsReference.MoveInSteps`,
`GsReference.EpilogueCode` and their neighbours connect steps, methods and templates.

Assumptions, all visible in the contracts: mmap fails or returns a fresh page-aligned range
of user space; a failing mremap changes nothing; arch_prctl fails only above the largest
user GS base; the cycle counter does not go back or wrap; call stacks lie above 20MB and in
user space; protected frames lie in the window of their region (`GsRsp.InWindow`, and below
`rsp0` where a live range is shifted); under GS_RSP a thread re-randomizes and exits at an rsp
below `rsp0` and at most 8MB below it (`GsProcess.InRuntime`), where the masked lookup is right;
the rest of the program writes, maps and unmaps what it likes outside shadow regions, as long as
call stacks stay mapped; random numbers and cycle counts are parameters.

Some properties hold only under a condition, and the model says which:

* FS_GS does not check mremap; `FsGs.FailedRemapLosesFrames` says what a failure leaves.
* Between the remap and the switch of the GS base the masked lookup finds the region just left
  (`GsRuns.LookupAlwaysExact`).
* data_rewriter.py finds every copy of its pattern only if copies do not overlap, which for
  sizes in KB they can (`DataRewriter.ModifyImage`, `DataRewriter.OverlapPossible`), and going
  back restores an image only if no page for the new size stands or arises between
  (`DataRewriter.ThereAndBack`, `DataRewriter.RoundTripLoses`).
* code_rewriter.py is exact if and only if code does not overlap (`CodeScan.ScanIsExact`), which
  it cannot for sizes whose prologue does not end with the start of a pattern
  (`CodeRewriter.OverlapPossible`); all sizes in KB up to 2^30 are such.
* The instrumenter inserts prologues whatever the returns look like, but replaces only returns
  written as a tab, `ret` or `retq` and a newline, outside Intel blocks and inline assembly
  (`Consistency.ConsistentExactly`). `Mixtures.RepReturnIsLeft` is a procedure that returns by
  `rep ret`, `Mixtures.OpenedIsMixed` one in an Intel block. It takes labels without a dot for
  functions' (`Mixtures.LabelledIsMixed`).
* A redirected call enters past a prologue only if its target's name is not an exempt one. A
  label counts only in a text section, outside blocks and in code of the right width; otherwise
  the function is of the kind of the one before (`Redirection.LandsPastPrologue`,
  `Mixtures.InheritedIsExempt`). "Past the prologue" supposes that nothing is emitted between
  the label and .cfi_startproc: `Redirection.Defines` admits comments, dot-labels and the
  directives that only describe (`Redirection.EmitsNothing`).

## Model

| member | source | states |
|---|---|---|
| GsRuns.EpilogueReturns | FlashStack/afl-as.c:7518-7550 | In every run of every interleaving, an epilogue jumps to the address that was in its frame's slot when that frame's prologue ran; the frame was live at its depth ever since. |
| GsRuns.RunKeepsInv | FlashStack/gs.rsp.c:515-645 | In every state of every run, shadow regions and call stacks are mapped and pairwise disjoint and each live frame's shadow slot holds its return address. |
| GsRuns.StepKeepsInv | FlashStack/gs.rsp.c:515-645 | Each single step of any thread, the cleaner or the program keeps that invariant. |
| GsRuns.FrameOrigin | FlashStack/afl-as.c:7091-7093 | A live frame was pushed by one prologue or redirected call and has been live, at its depth, since. |
| GsRuns.RollbacksUnreachable | FlashStack/gs.rsp.c:555-606 | After any number of moves neither the range check nor the arch_prctl rollback can be taken. |
| GsRuns.LookupAlwaysExact | FlashStack/gs.rsp.c:163-175 | In every reachable state masking the shadow pointer at an rsp in the 8MB below rsp0 finds the thread's own region if and only if the thread is not between the remap and the switch of the GS base; the region of its GS base is found exactly there. |
| GsReference.SameAsPlain | FlashStack/afl-as.c:7091-7093 | If no return slot of a live frame is overwritten, every thread returns where the uninstrumented call/ret machine returns, and that machine's memory is exactly what is mapped outside shadow regions. |
| GsReference.EnvRelated | FlashStack/gs.rsp.c:515-645 | The program's own writes and unmappings, applied to both machines, keep them related. |
| GsReference.BehindInvisible | FlashStack/gs.rsp.c:546-627 | Prologues, epilogues, moves, starts, exits and the cleaner change nothing the program can see. |
| GsReference.RedirectionIsTransparent | FlashStack/afl-as.c:7277-7371 | Any run with redirected call sites reaches exactly the state of the run with plain calls followed by prologues. |
| GsSteps.RedirectedIsCallThenPrologue | FlashStack/afl-as.c:7356-7367 | Pre-storing the return address and entering past the prologue is a plain call followed by the prologue. |
| GsReference.MoveInSteps | FlashStack/gs.rsp.c:546-627 | The steps of one uninterrupted move leave the very state that the runtime's method guarantees. |
| GsReference.PrologueCode | FlashStack/afl-as.c:7091-7093 | Running the compiled prologue in any reachable state, whatever the scratch registers hold, is the machine's prologue step. |
| GsReference.EpilogueCode | FlashStack/afl-as.c:7547-7549 | Running the compiled epilogue, whatever the scratch registers hold, is the machine's epilogue step and jumps to the recorded target. |
| GsReference.DirectCallCode | FlashStack/afl-as.c:7356-7366 | Running the compiled redirected call site is the machine's redirected-call step, whatever the scratch registers hold; it enters as far past the entry as the bytes that decode to the prologue reach, 19. |
| GsSafety.BystanderSpared | FlashStack/gs.rsp.c:546-585 | No step of another thread or of the cleaner changes a word of a live thread's shadow region or call stack. |
| GsSafety.AttemptsApart | FlashStack/gs.rsp.c:537-548 | Any two attempts of one thread that pass the gate are 32 million cycles apart, however other threads interleave and whether attempts fail. |
| GsSafety.AttemptsInWindow | FlashStack/gs.rsp.c:537-544 | In any run, the attempts of a living thread within a window of T cycles are at most T / 32000000 + 1. |
| GsSafety.StampIsLatest | FlashStack/gs.rsp.c:537-544 | The stored cycle count is that of the thread's latest attempt, carried along by every move. |
| GsInvariant.OthersKept | FlashStack/gs.rsp.c:552-585 | Writing inside one region keeps every thread that lives in another as it was. |
| GsMoves.RemapKeeps | FlashStack/gs.rsp.c:574-595 | Remapping a region onto its reservation keeps the invariant, frames and recorded values translated together. |
| GsMoves.AbandonKeeps | FlashStack/gs.rsp.c:587-595 | Giving a reservation back after a failed move keeps the invariant. |
| GsMoves.MmapKeeps | FlashStack/gs.rsp.c:271-285 | A fresh reservation is disjoint from all regions and stacks. |
| GsMoves.ExitKeeps | FlashStack/gs.rsp.c:361-388 | On exit the region passes to the table, or is lost when the table is full, and stays disjoint from all others. |
| GsMoves.CleanKeeps | FlashStack/gs.rsp.c:210-239 | Unmapping a queued region keeps every live thread's region and frames. |
| GsMoves.StartKeeps | FlashStack/gs.rsp.c:309-343 | Initialising a thread on a fresh region keeps the invariant. |
| GsRsp.SlotAddress | FlashStack/gs.rsp.c:329-335 | The wrapped address of a slot is its place in the thread's own region and never touches the metadata. |
| GsRsp.GsBaseInRange | FlashStack/gs.rsp.c:552-555 | The recorded GS base is above 8MB and at most 2^47 - 12MB. |
| GsRsp.LookupIsExact | FlashStack/gs.rsp.c:163-175 | Masking finds the region if and only if rsp is in the 8MB below rsp0. |
| GsRsp.RelocatedContents | FlashStack/gs.rsp.c:574-585 | A move translates every word of the region but the two recorded ones unchanged. |
| GsRsp.RelocatedElsewhere | FlashStack/gs.rsp.c:574-585 | Nothing stays mapped at the old place, and outside both places nothing changes. |
| GsReclaim.CleanedLate | FlashStack/gs.rsp.c:210-239 | In every run, what the cleaner unmaps is the whole region of a thread that exited more than 32 billion cycles before, and nothing else. |
| GsReclaim.WaitsUntilLate | FlashStack/gs.rsp.c:221-225 | Until then, the region stays in the table and mapped. |
| GsReclaim.QueuedByExit | FlashStack/gs.rsp.c:361-388 | An entry in use was taken by one thread's exit, with that thread's region and the cycle count of the exit, and has not changed since. |
| GsReclaim.CleanExactly | FlashStack/gs.rsp.c:221-222 | The cleaner may retire an entry if and only if more than 32 billion cycles have gone by since its release. |
| GsRspRuntime.Runtime.GetMemoryAtRandom | FlashStack/gs.rsp.c:251-300 | Failure after exactly 21 mmap calls, or an 8MB-aligned region well below rsp after at most as many; no other mapping left; the statistics entry counted is in range. |
| GsRspRuntime.Runtime.DoInitShadowStack | FlashStack/gs.rsp.c:309-343 | A fresh region whose metadata record its place and GS base, ready for use. |
| GsRspRuntime.Runtime.InitMetadataOnShadowStack | FlashStack/gs.rsp.c:184-195 | The metadata fields written, and nothing else. |
| GsRsp.UnfinishedNotReady | FlashStack/gs.rsp.c:184-195 | A fresh region with these fields alone is not ready. |
| GsRspRuntime.Runtime.RuntimeRerandomize | FlashStack/gs.rsp.c:515-645 | All or nothing: contents, GS base, recorded base and diff translated together, or only the attempt recorded; the flag is clear on every exit. |
| GsRspRuntime.Runtime.PassGate | FlashStack/gs.rsp.c:527-544 | Passes exactly when the thread is ready and a period has elapsed; then the flag is set. |
| GsRspRuntime.Runtime.TryMove | FlashStack/gs.rsp.c:546-619 | Either nothing changes or the region is relocated; a reservation never outlives a failure. |
| GsRspRuntime.Runtime.MoveTo | FlashStack/gs.rsp.c:552-613 | Records, remaps and switches, or restores the records and drops the reservation. |
| GsRspRuntime.Runtime.MoveAndLeave | FlashStack/gs.rsp.c:546-645 | The common exit: the flag cleared in the metadata's old or new place. |
| GsRspRuntime.Runtime.GetMetadataByRsp | FlashStack/gs.rsp.c:163-175 | When the GS base can be read: the thread's own metadata if and only if rsp is in the 8MB below rsp0. |
| GsRspRuntime.Runtime.AddMemoryRegion | FlashStack/gs.rsp.c:198-209 | The first free entry takes the region; a full table drops it. |
| GsRspRuntime.Runtime.ReleaseShadowStack | FlashStack/gs.rsp.c:361-388 | The region that the metadata found name is queued; in the 8MB below rsp0 it is the thread's own. |
| GsRspRuntime.Runtime.CleanerPass | FlashStack/gs.rsp.c:210-239 | Retires exactly the entries released more than 32 billion cycles before they are looked at, and unmaps exactly their regions. |
| RateGate.AttemptsSpaced | FlashStack/spa.h:142-145 | Accepted calls are as many periods apart as there are accepted calls between them. |
| RateGate.AttemptsInWindow | FlashStack/gs.rsp.c:537-544 | The same bound for the calls that pass the gate alone. |
| RateGate.RejectedOnlyWhenEarly | FlashStack/gs.rsp.c:539-542 | A call is turned away only within a period of an accepted one. |
| Templates.GsDirectCallIsCallThenPrologue | FlashStack/afl-as.c:7356-7366 | The redirected direct call leaves the processor as a plain call and the prologue do, past the bytes that decode to the prologue. |
| Templates.GsIndirectCallIsCall | FlashStack/afl-as.c:7299-7315 | The redirected indirect call, through a register or memory operand, to a target at any alignment, is a call, with the prologue's effect and past its bytes exactly when the target's first eight bytes are those of the compiled prologue; it faults when these cannot be read. |
| Templates.GsPrologueRuns | FlashStack/afl-as.c:7091-7093 | The prologue copies the return address to the shadow slot and touches only scratch registers besides. |
| Templates.GsCompiled | FlashStack/spa.h:128-138 | The 19 bytes of the compiled prologue decode, one instruction after the other, to the template, and the magic number is the word of the first eight. |
| Templates.FsCompiled | FlashStack/spa.h:105-126 | So for FS_GS: 26 bytes with a key and 17 without, each with its magic number. |
| Templates.GsEpilogueRuns | FlashStack/afl-as.c:7547-7549 | The epilogue pops the return slot and jumps to what the shadow slot holds. |
| Templates.FsPrologueRuns | FlashStack/afl-as.c:7211-7219 | The FS_GS prologue stores the keyed return address at a + diff. |
| Templates.FsEpilogueRuns | FlashStack/afl-as.c:7584-7593 | The FS_GS epilogue jumps to the stored value less the key. |
| Templates.FsDirectCallIsCallThenPrologue | FlashStack/afl-as.c:7456-7470 | The redirected direct call of FS_GS, keyed or not, leaves the processor as a plain call and the prologue do, past the bytes that decode to the prologue. |
| Templates.FsIndirectCallIsCall | FlashStack/afl-as.c:7396-7416 | So does its indirect call exactly when the target's first eight bytes are those of the compiled prologue; otherwise it is a plain call. |
| Templates.BuddyPrologueRuns | FlashStack/afl-as.c:7032-7038 | The masked record's key plus the return address is stored at rsp - S. |
| Templates.BuddyEpilogueRuns | FlashStack/afl-as.c:7506-7515 | The epilogue jumps to the stored value less the masked record's key. |
| Templates.SizedPrologueRuns | FlashStack/afl-as.c:7228-7244 | The same with the mask read from the global variable. |
| Templates.SizedEpilogueRuns | FlashStack/afl-as.c:7620-7639 | The same for the epilogue. |
| FsGs.RunReturns | FlashStack/fsgs.c:563-660 | Through any run of calls, returns, key shifts and moves, the compiled epilogue jumps to the address recorded for its frame. |
| FsGs.EpilogueReturns | FlashStack/afl-as.c:7584-7593 | That address is what was on top of the stack when, at the same rsp, the frame's prologue ran; the frame was live at its depth ever since. |
| FsGs.FrameOrigin | FlashStack/afl-as.c:7211-7219 | A frame not live at the start was pushed by one prologue and has been live, at its depth, since. |
| FsGs.StartedRunReturns | FlashStack/fsgs.c:248-316 | The epilogue returns, from the initialisation of a thread on. |
| FsGs.PrologueCode | FlashStack/afl-as.c:7211-7219 | Running the compiled prologue in any reachable state, whatever the scratch registers hold, is the machine's prologue step. |
| FsGs.InitialisedLive | FlashStack/fsgs.c:210-316 | After initialisation the thread can start to run, without frames, if and only if it was initialised in the upper 8MB of its call stack. |
| FsGs.UnfinishedNotReady | FlashStack/fsgs.c:236-239 | Until the call stack is recorded the thread is not ready. |
| FsGs.RekeyedHolds | FlashStack/fsgs.c:594-609 | Shifting R and the live range keeps every slot below rsp0 decoding, although the range is computed from call_stack_top and diff from rsp0. |
| FsGs.RekeyedSlot | FlashStack/fsgs.c:594-609 | A live slot keeps decoding if and only if it lies below rsp0 or the shift is a multiple of 2^64. |
| FsGs.MoveKeepsThread | FlashStack/fsgs.c:616-650 | Copying the metadata, setting diff' = diff + (new - old) and remapping keeps the thread whole, its frames and its key. |
| FsGs.FailedRemapLosesFrames | FlashStack/fsgs.c:631-642 | After an unchecked mremap failure a frame decodes if and only if its keyed return address is zero. |
| FsGs.MoveLeaksNothing | FlashStack/fsgs.c:616-650 | After a move the old page and the old region are unmapped, and outside the old and new places nothing changes. |
| FsGsAttempts.RunRests | FlashStack/fsgs.c:563-667 | In every state of every run from the initialisation on the thread is ready, the cycle count that it stores is that of its latest attempt, and no attempt has left it in place. |
| FsGsAttempts.NextAttempt | FlashStack/fsgs.c:581-589 | The thread can move to fresh places if and only if 32 million cycles have gone by since its latest attempt. |
| FsGsAttempts.AttemptsApart | FlashStack/fsgs.c:581-589 | Any two attempts are 32 million cycles apart. |
| FsGsAttempts.MoveRests | FlashStack/fsgs.c:655-665 | The struct copy takes the gate's fields along and the flag is cleared at the new page, whether the remap succeeds or not. |
| FsGsRuntime.Runtime.RuntimeRerandomize | FlashStack/fsgs.c:563-667 | Skipped, without effect, exactly when the thread is not initialised, not ready or early. Otherwise the key is shifted or the thread moved, as the ratio count says, or moved with a failed remap; at the place where its metadata then are, the flag is clear, the thread ready and the cycle count that of the call. |
| FsGsRuntime.Runtime.InitShadowStack | FlashStack/fsgs.c:248-340 | Once per thread: fresh ranges, every field recorded, and a state from which runs can start. |
| FsGsRuntime.Runtime.SetCallStackInfo | FlashStack/fsgs.c:210-245 | The tops recorded, a stack smaller than 8MB taken to reach higher. |
| FsGsRuntime.Runtime.ShiftKey | FlashStack/fsgs.c:594-609 | R and the live range shifted by the same amount. |
| FsGsRuntime.Runtime.Move | FlashStack/fsgs.c:616-650 | Both reservations are fresh, and the move is the specified one. |
| FsGsRuntime.Runtime.PassGate | FlashStack/fsgs.c:567-589 | Passes exactly when ready and a period has elapsed; then the flag is set. |
| FsGsRuntime.Runtime.GetMemoryAtRandom | FlashStack/fsgs.c:190-208 | A fresh page-aligned range and nothing else. |
| FsGsRuntime.Runtime.CountAndMove | FlashStack/fsgs.c:612-665 | A move exactly when the ratio count runs out; on either way out the flag is clear and the gate's other fields are carried along, the count reduced or reset to one. |
| BuddyRuntime.RunReturns | FlashStack/simd_rand.c:65-119 | In every state of every run both records agree, every live slot holds its return address plus their key, and the compiled epilogue jumps to that address. |
| BuddyRuntime.EpilogueReturns | FlashStack/afl-as.c:7506-7515 | It is what was on top of the stack when, at the same rsp, the frame's prologue ran; the frame was live at its depth ever since. |
| BuddyRuntime.FrameOrigin | FlashStack/afl-as.c:7032-7038 | A frame not live at the start was pushed by one prologue and has been live, at its depth, since. |
| BuddyRuntime.InitialisedLive | FlashStack/buddy_tls.c:226-264 | Once the records are initialised a thread can start to run, without frames, if and only if its rsp is above the guard page. |
| BuddyRuntime.SizedEpilogueJumps | FlashStack/afl-as.c:7620-7639 | So does the epilogue that reads the mask from memory. |
| BuddyRuntime.SizedPrologueCode | FlashStack/afl-as.c:7228-7244 | The prologue that reads the mask from memory protects the frame. |
| BuddyRuntime.Runtime.Randomize | FlashStack/simd_rand.c:65-119 | Both records and the live range re-keyed and stamped, in either record's role, and both at rest again, exactly when the buddy points back and neither record is being changed; otherwise nothing. |
| BuddyRuntime.Runtime.InitMainThreadTls | FlashStack/buddy_tls.c:196-264 | The pair of records initialised inside the stack; the top is its end, or 4S above its start for a stack smaller than that. |
| BuddyRuntime.Runtime.InitTlsMetadata | FlashStack/buddy_tls.c:113-158 | Both records written with the same key and pointing at each other. |
| BuddyRuntime.Runtime.GetTlsInfo | FlashStack/buddy_tls.c:21-24 | One of the two records. |
| Buddy.RekeyedHolds | FlashStack/simd_rand.c:84-112 | Every live slot is shifted with both records. |
| Buddy.RekeyedOk | FlashStack/simd_rand.c:88-119 | The records agree again afterwards. |
| Buddy.RekeyedStamps | FlashStack/simd_rand.c:91-98 | Both records hold the cycle count of the re-randomization. |
| Buddy.ShiftedExactlyOnce | FlashStack/simd_rand.c:39-53 | Each live slot's word is shifted once; any other shifted word is of a dead slot within one block below rsp. |
| Buddy.RecordFound | FlashStack/buddy_tls.c:21-24 | For every rsp of the call stack masking finds one of the two records, and which one. |
| Buddy.RecordsInside | FlashStack/spa.h:338-348 | Both record pages lie in the 4S of the thread's memory, apart, and below every shadow slot above the guard page. |
| Buddy.GuardPageNeeded | FlashStack/buddy_tls.c:261-261 | Without the guard page a shadow slot falls on a record if and only if the top is a multiple of S. |
| Buddy.InitialisedOk | FlashStack/buddy_tls.c:123-152 | Writing the two records makes a valid pair, with the cycle count 0. |
| Memory.AddressSpace.AddFourLanes | FlashStack/simd_rand.c:39-53 | The four-lane loop adds x to exactly the words from the rounded-down start to the end. |
| ShadowStack.ShiftHolds | FlashStack/simd_rand.c:105-112 | Shifting key and range together keeps every frame decoding. |
| ShadowStack.MoveHolds | FlashStack/gs.rsp.c:581-585 | Moving the region and the offset together keeps every frame decoding. |
| InstrumenterLoop.AddInstrumentation | FlashStack/afl-as.c:6872-7970 | The loop over mutable flags writes exactly the specified output and counts; what that output is follows from `Redirection.EntryByName`, `Consistency.ConsistentExactly` and `CallSites.RedirectedByText`. |
| InstrumenterLoop.Loop.ProcessLine | FlashStack/afl-as.c:6908-7874 | One pass through the loop body is one step of the specification. |
| InstrumenterLoop.Loop.Update | FlashStack/afl-as.c:7665-7872 | The flag updates at the bottom of the loop body. |
| Consistency.ProceduresAreConsistent | FlashStack/afl-as.c:7008-7094 | In code with dot-labels only inside procedures, every return written plainly and every block closed before it, each procedure has its prologue and all returns replaced, or neither, whatever flags earlier functions left. |
| Consistency.ConsistentExactly | FlashStack/afl-as.c:7481-7550 | With dot-labels only, a procedure is treated as a whole if and only if it is exempt or every return of it, however written, is a plain one outside Intel blocks and inline assembly. |
| Consistency.ConsistentByText | FlashStack/afl-as.c:7703-7716 | The same condition read off the text, for files whose block directives stand on lines of their own. |
| Consistency.SkippedBlocks | FlashStack/afl-as.c:7703-7716 | The skip flags are set only inside blocks of the text, and exactly there when directives stand on lines of their own. |
| Consistency.ProtectedMeansAll | FlashStack/afl-as.c:7481-7550 | A procedure gets a prologue if and only if it is not exempt, and then all its returns, however written, are replaced if and only if each is a plain one outside blocks, whatever labels it contains. |
| Consistency.UnprotectedMeansNone | FlashStack/afl-as.c:7819-7868 | An exempt procedure is left alone if and only if none of its plain returns outside blocks follows a label taken for a function's. |
| Consistency.InProcedure | FlashStack/afl-as.c:7262-7268 | Throughout any procedure the automaton knows that it is inside one and stays exempt until a function label. |
| Mixtures.LabelledIsMixed | FlashStack/afl-as.c:6541-6558 | Six lines of assembly, a C library function with a label of its own: no prologue, but its return is replaced. |
| Mixtures.LabelBreaksConsistency | FlashStack/afl-as.c:7852-7868 | So is every file of that shape. |
| Mixtures.OpenedIsMixed | FlashStack/afl-as.c:7012-7094 | Four lines of assembly, a return in an open Intel block: the prologue is inserted, but the return is left. |
| Mixtures.BlockBreaksConsistency | FlashStack/afl-as.c:7481-7484 | So is every file of that shape. |
| Mixtures.RepReturnIsLeft | FlashStack/spa.h:54-56 | Three lines of assembly, a procedure that returns by `rep ret`: the prologue is inserted, but the return is left. |
| Mixtures.InheritedIsExempt | FlashStack/afl-as.c:7684-7691 | Seven lines of assembly, a function outside text sections after one of the C library: its name is not exempt, and it gets no prologue. |
| Consistency.LinesInOrder | FlashStack/afl-as.c:7655-7657 | Each input line is written once, in order: as it was or, if a return or call, in its instrumented form with its own operand. |
| Consistency.PassedThrough | FlashStack/afl-as.c:7655-7659 | In pass-through mode a line is written unchanged and nothing is added. |
| Consistency.OtherLine | FlashStack/afl-as.c:7481-7484 | No line but a procedure start or a return gets a prologue or an epilogue. |
| LineText.RecognisedExactly | FlashStack/spa.h:55-56 | The test for returns accepts exactly the two plain forms. |
| LineText.ReturnIsNoCall | FlashStack/spa.h:56-63 | A return, however written, is never taken for a call. |
| LineText.ParsedAsRead | FlashStack/afl-as.c:6908-6930 | What was read line by line is still so after the write-mask notation is rewritten. |
| LineText.SectionsAsText | FlashStack/afl-as.c:7662-7691 | Procedure starts and ends and the directives that open and leave text sections, as text. |
| LineText.ModesAsText | FlashStack/afl-as.c:7696-7716 | Code width, Intel syntax and inline assembly, as text. |
| LineText.SqueezedAsText | FlashStack/afl-as.c:6927-6933 | Only the write-mask notation at the end of a line is rewritten, its blank taken out. |
| Redirection.RedirectedExactly | FlashStack/afl-as.c:7318-7371 | A direct call is redirected if and only if calls are looked at, it is not external, its target is not taken for a library function's and is in the list. |
| CallSites.RedirectedByText | FlashStack/afl-as.c:7274-7371 | Where block and width directives stand on lines of their own: a line that is a call of a name, with a comment at most, in 64-bit code of a procedure, in a text section and outside blocks, is redirected if and only if the name is neither external nor a library's and is in the list; then what is redirected is the call without its comment. |
| CallSites.IndirectByText | FlashStack/afl-as.c:7277-7316 | There, every call through an operand is redirected, with that operand without its comment. |
| CallSites.DirectCallRead | FlashStack/afl-as.c:7318-7352 | The call read off such a line is the text up to the comment, and the target the rest of the line after the mnemonic. |
| CallSites.IndirectCallRead | FlashStack/afl-as.c:7277-7297 | The operand read off an indirect call is the text up to the comment. |
| CallSites.WatchedByText | FlashStack/afl-as.c:7270-7274 | Calls are looked at exactly in 64-bit code of procedures, in text sections and outside blocks. |
| Counts.ProceduresCounted | FlashStack/afl-as.c:7008-7268 | The counts reported are the numbers of lines that start and that end procedures. |
| Counts.LocationsCounted | FlashStack/afl-as.c:7003-7756 | The number of locations reported is that of the trampolines noted in the output. |
| Redirection.LandsPastPrologue | FlashStack/afl-as.c:7041-7093 | A redirected call, possibly to another file, enters past a prologue if and only if its target's name is none of the exempt ones; if its target's label does not count, if and only if what came before was not exempt. |
| Redirection.RedirectionIsSafe | FlashStack/afl-as.c:7336-7367 | If no listed name is exempt, unless taken for a library's, every redirected call to a label in a text section and outside blocks enters past a prologue. |
| Redirection.LabelProtects | FlashStack/afl-as.c:7829-7866 | A function gets a prologue if and only if its name is not exempt, when its label, comment or not, counts; otherwise it is of the kind of what came before. |
| Redirection.CountsByText | FlashStack/afl-as.c:7742-7743 | A label counts in a text section, outside blocks and outside 32-bit code; outside text sections it never does. |
| Redirection.SectionByText | FlashStack/afl-as.c:7665-7691 | The automaton knows exactly which lines are in a text section. |
| Redirection.WidthByText | FlashStack/afl-as.c:7696-7701 | Where code-width directives stand on lines of their own, exactly code after .code32, up to .code64, is skipped. |
| Redirection.StartsByText | FlashStack/afl-as.c:7008-7012 | It knows exactly which lines are inside a procedure. |
| Redirection.ProtectedEntry | FlashStack/afl-as.c:7029-7094 | From the label to the prologue nothing is emitted exactly when the function gets one. |
| Redirection.EntryByName | FlashStack/afl-as.c:7047-7093 | What is written at the entry of a function whose label counts: the call that initialises the shadow stack if and only if its name is one of the customized ones, the call that counts if and only if it is one of the signal handlers, the prologue if and only if it is not exempt; in the buddy scheme always the prologue. |
| Redirection.LabelMatches | FlashStack/afl-as.c:6541-6580 | Prefix matching against a list of labels is equality of names. |
| EmittedCode.PairReturns | FlashStack/afl-as.c:7032-7038 | In every scheme, the one with its size in memory too, the code written at the entry and for a return belong together: the second jumps to the address that the first saw, whatever happened to the return slot. |
| EmittedCode.CallThenPrologue | FlashStack/afl-as.c:7356-7366 | In both schemes that redirect calls, what is written for a direct call does what a plain call and what is written at the target's entry do, and enters past the bytes that decode to it. |
| EmittedCode.IndirectCallThenPrologue | FlashStack/afl-as.c:7299-7315 | So does what is written for an indirect call exactly when the target starts with the first eight of these bytes; otherwise it is the plain call. |
| EmittedCode.WrittenIsCoded | FlashStack/afl-as.c:7277-7371 | All that is written for a line is text, a comment, a call of the runtime or such code; buddy calls are never redirected. |
| EmittedCode.ProcedureReturns | FlashStack/afl-as.c:7481-7550 | In a procedure that is not exempt, with plain returns outside blocks, running what is written for any return jumps to the address that what is written at the entry saw. |
| Names.NameList.Load | FlashStack/afl-as.c:121-152 | The buffer holds every kept piece of the file as a NUL-terminated string, in order, within len + 8 bytes. |
| Names.NameList.IsProtectedFunction | FlashStack/afl-as.c:6676-6715 | For a line that is a name, then a newline, blank or tab, then anything, binary search answers yes exactly when that name is among the loaded ones. |
| Names.NameList.IsProtectedLinear | FlashStack/afl-as.c:6690-6697 | So does the disabled linear scan. |
| Names.LookUp | FlashStack/afl-as.c:6676-6715 | For a sorted file of newline-terminated names shorter than 8191, loading it and searching for a call of a name answers yes exactly when that name, not empty, is a line of the file, and so does the linear scan. |
| Names.LoadedSorted | FlashStack/afl-as.c:118-152 | A sorted file is loaded as a sorted list. |
| Names.FoundIsLine | FlashStack/afl-as.c:121-152 | For newline-terminated files a name is found if and only if it is a line. |
| Names.KeptAreLines | FlashStack/afl-as.c:134-146 | The names are the non-empty lines; a last line without newline is kept without its last character. |
| Names.CompareTransitive | FlashStack/afl-as.c:6703-6703 | strcmp orders names transitively. |
| Names.CompareDecides | FlashStack/afl-as.c:6703-6703 | strcmp is the order of the first difference, a proper prefix being less. |
| Names.TargetIs | FlashStack/afl-as.c:6682-6687 | A name without newline, blank and tab, followed by one of them, is the target cut out. |
| CodeRewriter.NoOverlap | FlashStack/code_rewriter.py:48-72 | No prologue or epilogue occurrence starts inside another, unless a prologue for that size ends with the start of a pattern. |
| CodeRewriter.OverlapPossible | FlashStack/code_rewriter.py:48-72 | For exactly the sizes with such a prologue, images with overlapping code exist. |
| CodeRewriter.KbUnambiguous | FlashStack/code_rewriter.py:185-186 | No size in KB up to 2^30 is one of them. |
| CodeRewriter.Pow2Unambiguous | FlashStack/code_rewriter.py:81-89 | Nor is any power of two. |
| CodeRewriter.RewriteCreatesNone | FlashStack/code_rewriter.py:154-179 | Patching creates no new match: occurrences for the new size afterwards are those for the old size before. |
| CodeRewriter.RoundTrip | FlashStack/code_rewriter.py:154-179 | There and back restores the image if and only if it held no code of the new size, or the sizes have the same code. |
| CodeScan.ScanIsExact | FlashStack/code_rewriter.py:142-179 | The skip-ahead scan replaces every occurrence and changes no other byte if and only if no occurrences overlap in the image, or the two sizes have the same code. |
| CodeScan.CountsAreTrue | FlashStack/code_rewriter.py:169-179 | The returned counts are the numbers of occurrences if and only if none overlap. |
| CodeScan.CompleteExactly | FlashStack/code_rewriter.py:154-179 | The scan misses no occurrence if and only if none overlap. |
| CodeScan.ThereAndBack | FlashStack/code_rewriter.py:154-179 | The round trip, for the scan itself. |
| CodeScan.ModifyAll | FlashStack/code_rewriter.py:154-179 | The in-place loop computes the greedy rewrite; it is exact, and its counts true, if and only if no occurrences overlap (or, for exactness, the sizes have the same code). |
| CodeScan.ModifySite | FlashStack/code_rewriter.py:114-138 | The three immediates of one site are patched. |
| CodeScan.ModifyImage | FlashStack/code_rewriter.py:183-198 | The whole rewrite of an image, sizes in KB: exact and with true counts for every size up to 2^30, and exact for any size under the same condition. |
| CodeScan.MakePattern | FlashStack/code_rewriter.py:188-192 | The pattern for a size is the literal 8MB one, patched. |
| CodeScan.BaseIsFor8MB | FlashStack/code_rewriter.py:48-66 | The literal patterns are those for 8MB. |
| Bytes.GetBytes | FlashStack/code_rewriter.py:81-89 | The low bytes of a possibly negative number. |
| Bytes.ModifyBytes | FlashStack/code_rewriter.py:96-102 | The bytes are written at the position and nothing else changes. |
| Bytes.IsMatching | FlashStack/code_rewriter.py:142-150 | Decides whether the pattern occurs at the position. |
| Bytes.ValueOfLowBytes | FlashStack/code_rewriter.py:81-89 | The bytes encode the number modulo 256^n. |
| RewrittenCode.PatchedMeansBuddy | FlashStack/code_rewriter.py:114-138 | The patched bytes decode to the buddy pair for x if and only if -2^30 < x <= 2^30. |
| RewrittenCode.ImmediatesRight | FlashStack/code_rewriter.py:81-89 | Sign extension gives -x and -2x exactly in that range. |
| RewrittenCode.PatchedEpilogueReturns | FlashStack/code_rewriter.py:132-138 | The patched epilogue, decoded and run, returns to the saved address. |
| RewrittenCode.PatchedPrologueProtects | FlashStack/code_rewriter.py:114-120 | The patched prologue, decoded and run, protects the frame. |
| DataRewriter.ModifyGlobalStackSize | FlashStack/data_rewriter.py:78-96 | The sites found are apart, every other occurrence starts inside one, and exactly their masks are replaced. |
| DataRewriter.ModifyImage | FlashStack/data_rewriter.py:100-116 | The rewrite is exact if and only if no occurrences overlap, and then the count is true. |
| DataRewriter.ExactWithoutOverlaps | FlashStack/data_rewriter.py:78-96 | The same, for the scan's result. |
| DataRewriter.ThereAndBack | FlashStack/data_rewriter.py:78-96 | Run twice, there and back: the image is restored if and only if both sizes have the same mask, or no page for the new size stood or arises outside the pages found. |
| DataRewriter.RoundTrip | FlashStack/data_rewriter.py:78-96 | The same, for the results of the two scans. |
| DataRewriter.RoundTripLoses | FlashStack/data_rewriter.py:78-96 | From 64KB to 16MB and back an image without any page for 16MB can be lost. |
| DataRewriter.OverlapPossible | FlashStack/data_rewriter.py:25-26 | Overlapping copies of the pattern exist if and only if the mask's low byte is zero, as it is for sizes in KB. |
| DataRewriter.OverlapIsShort | FlashStack/data_rewriter.py:25-26 | Overlapping copies share at most the eight bytes of a mask. |
| DataRewriter.StoresMask | FlashStack/data_rewriter.py:37-45 | What is stored is the mask as a 64-bit word, which the sized templates read. |

## Left out

- GsRspRuntime.Runtime.DoInitShadowStack: the source allocates until it succeeds; `rounds` bounds how often it is tried, so nothing is said of a run that never gets memory.
- FsGsRuntime.Runtime.GetMemoryAtRandom: the same bound; a loop that never ends is the result `Stuck`, about which nothing is promised.
- GsRspRuntime.Runtime.RuntimeRerandomize: at an rsp outside the 8MB below rsp0 the masked lookup finds other memory (`GsRsp.LookupIsExact`); what the source then reads and writes is outside the model.
- GsRspRuntime.Runtime.MoveTo: the two rollback branches that cannot be taken are not written out, only proved dead.
- FsGsRuntime.Runtime.RuntimeRerandomize: nothing is promised for the result `Stuck`, an allocation that the bound of GetMemoryAtRandom cut off.
- FsGs.RunReturns: a failing mremap is not a step; what it does to frames is `FsGs.FailedRemapLosesFrames`. One thread at a time: key, region and metadata are all the thread's own.
- BuddyRuntime.Runtime.InitMainThreadTls: a small stack whose extension upward is not mapped; the source then faults.
- GsProcess.After: the start of a thread is one step, and a thread is gone once it has released its region; what runs in between and after the last destructor is outside the model.
- GsMoves.ExitKeeps: an exit whose arch_prctl cannot read the GS base is not a step; a region dropped by a full table counts as leaked and is never reclaimed.
- LineText.IsReturn: a return that follows a label or another statement on its line is not taken for one.
- CallSites.RedirectedByText: a call line whose comment holds a second hash mark is not described as text.
- Names.NameList.Load: the unchecked limit of the pointer table is a precondition, and files contain no NUL characters.
- Buddy.RekeyedHolds: the guard page is the hypothesis that live slots lie above the lowest page; other mprotect calls are not modelled.
- BuddyRuntime.Runtime.Randomize: one thread at a time; its callers' rate gate in rt_lib.c is outside the model.
- Stack sizes of the buddy scheme that are not powers of two: the environment value is unchecked.
- FlashStack/fsgs.c:133-175, the region table of FS_GS: like that of GS_RSP, with a second range per entry and a delay ten times as long.
- FlashStack/rt_lib.c, FlashStack/init.c, FlashStack/fork.c: interposition of library functions.
- FlashStack/afl-gcc.c, FlashStack/afl-rustc.c and the command-line handling of FlashStack/afl-as.c: arguments and files.
- The name tables of FlashStack/afl-as.c:157-6540 are an arbitrary list with prefix matching; the trampolines, which are comments in the output, are notes.
- The 32-bit, Apple and OpenBSD paths and the shadow-stack variants that spa.h disables.
