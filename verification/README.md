# NO_OS: language, memory, heap, files, scheduler

NO_OS is a small x86-64 kernel with a language of its own, NOC. This project
models the parts of it that carry the heaviest promises and proves those
promises.

**NOC.** `Ast`, `Bytecode` and `Word` are the data. `CodeGen` says what code a
program should become, with absolute jumps; `Compiler` is the one-pass compiler
that emits and patches it, `Patching` and `CodeGenFacts` connect the two, and
`Linking` adds functions and lines. `Vm` is the stack machine as a step
function, `VmClass` the machine with its fixed stack. `Compiled` is the meaning
of NOC as compiled, `Simulation` shows that the bytes realise it, `Session`
lifts that to lines in a session, and `Reentry` treats builtins that run lines
of their own. `Meaning` is the documented language, `Agreement` and `Shell` say
where the two meet, and `StackDepth` where the stack suffices. `Grammar`, `StmtGrammar`, `RoundTrip`, `StmtRoundTrip` and
`Parser` do the same for syntax, and `Console` joins everything.

**Memory.** `Frames` is the frame bitmap, `PageTables` the theory of
four-level tables (section 4.5 of the Intel SDM, volume 3A), `Paging` the code
that edits them. `Tasks` states when the whole memory system is consistent, and
what a task sees at a page wherever that is kept; `Steps`, `Swapping`,
`Residency`, `Lifecycle` and `Scripts` show what each kind of step keeps;
`KernelMemory` is the kernel's code for swap, demand-paged model pages, user
heaps, faults, exit and spawn, and `MemoryRuns` runs it.

**The rest.** `Heap` is the kernel heap; `Volume`, `VolumeSteps`, `Device` and
`FileSystem` are NO_OSFS; `Sched` is the scheduler, `InteractionLog` the log
with its checkpoint, `ModelSize` the sizing of the model. `Wrappers` holds the
one shared datatype.

Functions, calls and recursion stay functions; code that changes state stays
imperative, as classes whose methods are proved against those functions. Frames
and pages are named by number. Where the code and its documentation disagree,
the code is modelled; the disagreements are listed below the table.

## Model

| member | source | states |
|---|---|---|
| Word.AluSigned | kernel/noc/vm.c:370-372 | add, subtract and multiply are signed arithmetic modulo 2^64 |
| Word.AluDivision | kernel/noc/vm.c:373-386 | quotient and remainder are defined unless the divisor is 0 or the quotient does not fit; then they recompose the dividend, with the remainder smaller than the divisor and of the dividend's sign |
| Bytecode.FetchEnc | kernel/noc/compiler.c:72-127 | decoding inverts encoding wherever an instruction is placed |
| Compiler.Compiler.CompileExpr | kernel/noc/compiler.c:356-447 | one pass with patching yields exactly the two-pass code with absolute jumps, and succeeds exactly when the expression is acceptable and fits |
| Compiler.Compiler.CompileCall | kernel/noc/compiler.c:208-258 | the same for calls, with defaults pushed for the arguments left out |
| Compiler.Compiler.CompileLogic | kernel/noc/compiler.c:262-287 | the same for the logical operators |
| Compiler.Compiler.CompileStmt | kernel/noc/compiler.c:453-610 | the same for statements, with the symbol table and the kept value of a last expression |
| Compiler.Compiler.CompileFuncDecl | kernel/noc/compiler.c:625-701 | a definition is registered exactly when it is acceptable; otherwise the registry stays |
| Compiler.Compiler.CompileLine | kernel/noc/compiler.c:705-754 | a line is accepted exactly when every statement is acceptable and the tables and the code fit; definitions before a failing statement stay registered |
| VmClass.VirtualMachine.Call | kernel/noc/vm.c:244-301 | a call takes its arguments off the stack into zeroed locals, or fails for the first of the source's reasons |
| VmClass.VirtualMachine.CallBuiltin | kernel/noc/vm.c:244-301 | a builtin answers, fails, or frees running code; what it compiles is in the registry afterwards |
| VmClass.VirtualMachine.RunLoop | kernel/noc/vm.c:160-434 | the loop, stopped from the keyboard after some turns, ends where that many steps end |
| VmClass.VirtualMachine.RunChunk | kernel/noc/vm.c:436-474 | the same from a clean machine, with the first value above the locals as result |
| VmClass.VirtualMachine.RunNested | kernel/noc/vm.c:1100-1129 | a nested run bracketed by save and restore leaves every cell and frame of the enclosing run as it was, however it ends |
| Simulation.SimExpr | kernel/noc/compiler.c:356-447 | run on the VM, the bytes of any accepted expression leave exactly the values of the as-compiled semantics on the operand stack and everything below untouched, or fail as it does, or run on |
| Simulation.SimLogic | kernel/noc/compiler.c:262-287 | the same for the logical operators, through their jumps |
| Simulation.SimInvoke | kernel/noc/vm.c:244-316 | a call that returns replaces its arguments by one result; cells below and caller frames are unchanged |
| Simulation.SimFn | kernel/noc/vm.c:244-316 | a called function, from entry to return, realises its source |
| Simulation.SimStmt | kernel/noc/compiler.c:453-610 | the same for statements, `if`, `while`, `for` and `return` included |
| Session.WorldKeptAll | kernel/noc/compiler.c:625-701 | accepted definitions keep every registry entry the code of its source |
| Session.NewsKeep | kernel/noc/vm.c:1100-1129 | so do the definitions of lines that builtins run, at every point of a run |
| Session.LineCorrect | kernel/noc/compiler.c:702-754 | compiler correctness for a whole line: its bytes, run from the VM's initial state, realise what its statements say |
| Session.LineHalts | kernel/noc/vm.c:436-474 | the converse: if the VM halts, the line finishes with that trace and those values |
| Session.LineSafe | kernel/noc/vm.c:160-434 | no run of an accepted line meets an unknown or cut-off instruction, runs off the end, underflows, touches a bad slot or string, returns at top level or misses a function; left are full stacks, what the program computes, and code freed under it |
| Reentry.FreedExactly | kernel/noc/vm.c:53-75 | a run goes wrong by freed code if and only if at one of its states a builtin redefines a function that is on the frame stack |
| Reentry.NeverFreed | kernel/noc/vm.c:53-75 | never, if builtins define only functions of new names |
| Reentry.LineSafeNew | kernel/noc/vm.c:160-434 | then only full stacks and what the program computes are left of `LineSafe` |
| Reentry.FreedWitness | kernel/noc/vm.c:1074-1133 | it does happen: `I64 f() { Run("s"); return 1; } f();` is accepted, and its third step reads freed code if the file s redefines f |
| Agreement.LeaksExactly | kernel/noc/compiler.c:260-317 | an expression that finishes leaves exactly one value if and only if it has no logical operator and no prefix `++`/`--` |
| Agreement.AgreeExpr | kernel/noc/compiler.c:356-447 | there the as-compiled semantics is the documented one, calls included |
| Agreement.AgreeStmt | kernel/noc/compiler.c:453-610 | the same for statements |
| Agreement.LogicExact | kernel/noc/compiler.c:262-287 | over leak-free operands the top is the documented value if and only if both operands are not 0 (for or: both are 0) |
| Agreement.LogicTop | kernel/noc/compiler.c:262-287 | whatever the operands are, a logical and leaves 1 on top of 0, a logical or 0 on top of 1 |
| Agreement.AndAndFails | kernel/noc/compiler.c:262-287 | `1 && 0` leaves 1 on top |
| Agreement.PreIncExact | kernel/noc/compiler.c:385-412 | prefix `++`/`--` has the right value and effect, over one stray cell |
| Shell.LineMeans | kernel/noc/exec.c:34-97 | meaning preservation: if the VM halts on a line of the leak-free part, the documented semantics finishes with the same builtin calls, the printed value is the documented one, and nothing else is on the stack |
| Shell.LineMeansConverse | kernel/noc/exec.c:34-97 | conversely, what the documented semantics finishes halts the VM, what dies dies of the same error, what runs on runs on, unless a stack overflows or running code is freed |
| StackDepth.LineFits | kernel/noc/vm.c:140-148 | no run of a leak-free line that calls only builtins overflows or loses code, if its variables and its deepest expression fit in 4096 cells and builtins redefine nothing |
| StackDepth.LineMeansExactly | kernel/noc/exec.c:34-97 | so there the VM does exactly what the documented semantics says, with no exception |
| Shell.ExecuteLine | kernel/noc/exec.c:34-97 | compile and run: rejected exactly when the compiler refuses; what is printed is the documented value, unless that is 0 |
| RoundTrip.RoundTrips | kernel/noc/parser.c:111-387 | every expression tree, written with just the parentheses it needs, parses back to itself up to its last token |
| RoundTrip.ParsedSayable | kernel/noc/parser.c:111-387 | every tree the parser yields is one that can be written |
| StmtRoundTrip.StmtRoundTrips | kernel/noc/parser.c:481-662 | the same for statements, unless an open `if` is followed by `else` |
| StmtRoundTrip.LineRoundTrips | kernel/noc/parser.c:664-695 | the same for lines |
| StmtRoundTrip.ParsedStmtSayable | kernel/noc/parser.c:481-662 | and back; an open `if` is never followed by `else` |
| Parser.Parser.ParseLevel | kernel/noc/parser.c:277-387 | the same for the whole chain of levels |
| Parser.Parser.ParseArgs | kernel/noc/parser.c:165-185 | at most 16 arguments, so their array is never overrun |
| Parser.Parser.ParseBlock | kernel/noc/parser.c:393-419 | with at most 512 tokens the array of 1024 statements is never overrun |
| Parser.Parser.ParseParams | kernel/noc/parser.c:421-479 | fewer than 16 parameters |
| Parser.Parser.ParseStmt | kernel/noc/parser.c:481-662 | the same for statements |
| Parser.Parser.ParseLine | kernel/noc/parser.c:664-695 | the same for a line |
| Console.SaidIsRead | kernel/noc/parser.c:664-695 | a line written out in tokens is read as that line |
| Console.NeverTooMany | kernel/noc/parser.c:664-695 | with at most 512 tokens the limit on statements is never what fails |
| Console.ExecuteTokens | kernel/noc/exec.c:34-97 | tokens to printed value: saying a line makes exactly that line run, and prints what the documentation says it means |
| Frames.FramePool.Reserve | kernel/mm/pmm.c:16-29 | every frame the byte range touches is taken, no other |
| Frames.FramePool.Alloc | kernel/mm/pmm.c:76-86 | first fit; 0 exactly when no frame is clear |
| Frames.FramePool.AllocRun | kernel/mm/pmm.c:88-107 | the lowest run of that many clear frames, 0 exactly when there is none |
| Frames.FramePool.Free | kernel/mm/pmm.c:109-116 | freeing a clear frame, or one beyond the end, changes nothing; the count stays exact |
| Frames.FramePool.FreeRun | kernel/mm/pmm.c:118-122 | the same for runs |
| PageTables.PathInjective | kernel/mm/vmm.c:43-71 | different pages take different walks |
| PageTables.WalkIsFlat | kernel/mm/vmm.c:94-118 | outside the kernel's shared top-level slot the four-level tables refine a flat map: a page translates exactly when it is mapped, to its frame, with exactly the rights of its own entry |
| Steps.WalksElsewhere | kernel/mm/vmm.c:43-92 | a change at one page leaves every other walk, in this space or another, as it was |
| Paging.AddressSpaces.Map | kernel/mm/vmm.c:43-71 | it maps the page exactly when frames suffice for the missing tables; else nothing visible happens; either way only tables on the way are new |
| Paging.AddressSpaces.Unmap | kernel/mm/vmm.c:73-92 | exactly that page goes; no table is given back |
| Paging.AddressSpaces.NewSpace | kernel/mm/vmm.c:31-41 | a space that shares only the kernel's slot |
| Paging.AddressSpaces.FreeSpace | kernel/mm/vmm.c:132-158 | every table and page of a space with a user tree goes back exactly once, and the count of free frames rises by exactly that number |
| Swapping.SwapOutKeeps | kernel/mm/swap.c:93-121 | swapping a page out keeps the system consistent and every page of every task as its task sees it |
| Swapping.SwapInKeeps | kernel/mm/swap.c:123-143 | so does swapping in |
| Swapping.NoneMissing | kernel/mm/swap.c:123-143 | the tables of a swapped-out page are still there, so swapping in never needs one |
| Residency.SwapOutExact | kernel/arch/x86_64/syscall.c:141-143 | of mapped pages exactly the ordinary ones may be swapped out; a model page would count as resident in a frame that is free |
| KernelMemory.SwapsModelPage | kernel/arch/x86_64/syscall.c:141-143 | it does happen: from boot a task faults in a model page, swaps it out, and is left with a page in a free frame |
| KernelMemory.Kernel.SwapOut | kernel/mm/swap.c:93-121 | it succeeds exactly for a mapped page of a live task with room in its list and on disk; of an ordinary page no task can tell afterwards, and a page of the model window dangles |
| KernelMemory.Kernel.SwapIn | kernel/mm/swap.c:123-143 | it succeeds exactly for a swapped-out page while a frame is free; no task can tell |
| KernelMemory.Kernel.Prefetch | kernel/mm/swap.c:165-179 | no task can tell |
| KernelMemory.Kernel.Reclaim | kernel/mm/swap.c:221-230 | the same over all tasks |
| Residency.FaultExact | kernel/mm/model.c:114-126 | after a fault-in, resident and mapped is the same thing if and only if it was before and the mapping was entered (`FaultInPage` says when, beforehand) |
| Residency.DroppedWitness | kernel/mm/model.c:114-126 | a state with one free frame in which a fault-in drops its mapping |
| KernelMemory.Kernel.FaultInPage | kernel/mm/model.c:114-126 | resident and mapped stays the same thing if and only if no frame is free or enough for the missing tables; the charge and the frames are exact |
| KernelMemory.Kernel.DemandFault | kernel/mm/model.c:132-161 | it succeeds exactly for a page of the window with arrays, budget and a frame; the charge stays within the budget; nothing else changes for anyone |
| KernelMemory.Kernel.ModelPrefetch | kernel/mm/model.c:169-196 | the same for the predicted page |
| KernelMemory.Kernel.EvictPage | kernel/mm/model.c:201-218 | the frame, of a dropped mapping too, comes back and is refunded |
| KernelMemory.Kernel.InvalidateTask | kernel/mm/model.c:224-241 | nothing of the window is resident, every frame is back |
| KernelMemory.Kernel.Resize | kernel/noc/trans.c:1402-1409 | new weights and a new window only after everything was invalidated |
| KernelMemory.Kernel.Commit | kernel/arch/x86_64/syscall.c:109-119 | charged by the sum in 64 bits, granted exactly if that is within the budget; the books stay right if and only if the sum still covers the resident pages, as it always does without wrap-around |
| KernelMemory.CommitWraps | kernel/arch/x86_64/syscall.c:109-119 | a charge that wraps to nothing |
| KernelMemory.Kernel.GrowHeap | kernel/arch/x86_64/syscall.c:35-43 | a zeroed page at the end of the heap; its mapping is dropped exactly if frames run out on the way |
| KernelMemory.Kernel.SysAlloc | kernel/arch/x86_64/syscall.c:29-47 | refused exactly beyond 2 MiB or without frames; new pages are zeroed, all others stay |
| Lifecycle.ExitKeeps | kernel/kern/sched.c:121-134 | after an exit the system is consistent and no other task notices |
| KernelMemory.Kernel.ExitUser | kernel/kern/sched.c:121-134 | every table and mapped frame of the task goes back exactly once; left taken are a bare top-level table and pages whose mapping was dropped |
| Scripts.CopiedByte | kernel/kern/sched.c:235-239 | the copy puts every byte where it belongs and changes no other |
| Scripts.ShortScript | kernel/kern/sched.c:235-239 | a script that fits in a page with its terminator changes that page and nothing else |
| Scripts.CopyExact | kernel/kern/sched.c:235-239 | for scripts of any length, read off memory before the copy: everything stays in order (tables, bookkeeping, the kernel's slot of every address space, every page but the script's own) if and only if each byte from the second frame on is there already or falls into an empty slot without its present bit |
| Scripts.NothingBehind | kernel/kern/sched.c:235-239 | it stays in order if no table or page lies behind the first frame as far as the script goes |
| Scripts.OverrunBreaks | kernel/kern/sched.c:235-239 | where a table with its slot 0 in use lies behind the first script frame, a script of 4096 bytes or more does harm unless it spells out that very entry, within its eight bytes; one of exactly 4096 bytes always does |
| Scripts.KernelLost | kernel/kern/sched.c:235-239 | where a top-level table lies behind it, a script of 4096 bytes unmaps the kernel in that address space |
| KernelMemory.Kernel.Prepare | kernel/kern/sched.c:208-239 | image and script, for scripts of any length: the system is in order afterwards exactly as `CopyExact` says; where no frame was ever freed such a table lies behind the script |
| KernelMemory.Kernel.Spawn | kernel/kern/sched.c:179-266 | a spawn that succeeds has mapped every page, with image and script in place, and wasted nothing; no other task notices either way |
| KernelMemory.Kernel.PageFault | kernel/arch/x86_64/isr.c:53-97 | it retries exactly if the page can be swapped or faulted in; all that changes for anyone is that absent model pages of this task appear; otherwise the task ends |
| KernelMemory.Kernel.UserStore | kernel/arch/x86_64/isr.c:53-97 | a store reaches exactly one word of one page of one task, wherever the page was, or the task ends |
| MemoryRuns.Run | kernel/mm/swap.c:93-230 | over every run a page of a living task holds what the task stored, through evictions, reclaims, faults, resizes, spawns and exits; the frames lost for good are the sum of what single events lost |
| Heap.TakenKeeps | kernel/mm/heap.c:85-120 | an allocation tiles the same bytes, moves the counters as the code does, and adds exactly one allocation |
| Heap.MergedKeeps | kernel/mm/heap.c:122-171 | a merge keeps bytes, counters and allocations |
| Heap.FreedKeeps | kernel/mm/heap.c:122-171 | a free removes exactly that allocation, and the list tiles the same bytes |
| Heap.FreedCoalesced | kernel/mm/heap.c:150-168 | merging is complete if and only if the predecessor could not be merged or was found within the guard |
| Heap.GuardWitness | kernel/mm/heap.c:150-168 | it does happen: in a list of 100002 blocks freeing the last leaves two free neighbours |
| Heap.BytesExact | kernel/mm/heap.c:19-22 | rounding up is right if and only if it does not wrap |
| Heap.KernelHeap.RegionAlloc | kernel/mm/heap.c:57-83 | it succeeds exactly when the pool has a run of that many frames |
| Heap.KernelHeap.Kmalloc | kernel/mm/heap.c:85-120 | first fit, else a new region, else 0; exactly one allocation is new; nothing is left to merge |
| Heap.KernelHeap.Kfree | kernel/mm/heap.c:122-171 | exactly that allocation is gone; a null pointer or a second free changes nothing as long as nobody overwrote the stale header; completeness of merging exactly as in `FreedCoalesced` |
| Device.TableReach | kernel/fs/noosfs.c:30-33 | the inode table reaches one block into the data area, for exactly the last four inodes |
| Device.BitmapCovers | kernel/fs/noosfs.c:180-184 | one recomputation suffices for exactly the disk sizes that a test on the size alone admits |
| Device.OneIn4097 | kernel/fs/noosfs.c:180-184 | below 16621569 blocks those that fail are exactly the ones that leave 39 when divided by 4097; that size is the first other |
| Device.BitmapShort | kernel/fs/noosfs.c:180-184 | a disk of 5514 sectors leaves 4136 blocks, and their bitmap is one bit short |
| Device.Partition | kernel/mm/swap.c:34-42 | superblocks, bitmap, inodes, clusters and swap slots are disjoint, and the data area ends exactly where swap starts |
| FileSystem.FileSystem.Lookup | kernel/fs/noosfs.c:386-406 | the inode of that name, none exactly if there is no such file |
| FileSystem.FileSystem.Create | kernel/fs/noosfs.c:365-384 | it succeeds exactly for a new proper name while an inode and room are left; the file is empty, no other changed; a cluster is taken only for the first directory block |
| FileSystem.FileSystem.WriteFile | kernel/fs/noosfs.c:408-449 | it succeeds exactly when ten blocks and the free clusters suffice; then the file holds the data and no other changed; a failed write keeps the volume consistent if and only if no cluster was free |
| FileSystem.RunsOut | kernel/fs/noosfs.c:430-432 | it does happen: on a fresh disk of 42 blocks a file of 1024 bytes finds one cluster of the two it needs, and the volume is inconsistent afterwards |
| FileSystem.FileSystem.ReadFile | kernel/fs/noosfs.c:451-471 | as much of the contents as fits |
| FileSystem.FileSystem.Unlink | kernel/fs/noosfs.c:499-527 | it succeeds exactly for a file there is; the file is gone, no other changed |
| FileSystem.FileSystem.Format | kernel/fs/noosfs.c:172-227 | the layout on disk |
| FileSystem.FileSystem.Mount | kernel/fs/noosfs.c:129-147 | the newer good superblock, the bitmap as on disk, only the root inode marked |
| FileSystem.FileSystem.FormatAndMount | kernel/fs/noosfs.c:231-255 | a fresh volume is consistent and empty, with every cluster but the first free |
| Sched.Fair | kernel/kern/sched.c:32-45 | a task that stays ready is passed over at most 14 times, whatever happens to the others |
| Sched.NeverStarved | kernel/kern/sched.c:32-45 | in any run it is chosen at one of any 15 choices in a row |
| Sched.Scheduler.PickUser | kernel/kern/sched.c:32-45 | the first ready slot in cyclic order, none exactly if none is ready |
| Sched.Scheduler.SwitchToNext | kernel/kern/sched.c:62-81 | the next ready task gets the frame saved for it last, or starts; the REPL is resumed only if none is ready |
| Sched.Scheduler.OnTick | kernel/kern/sched.c:136-149 | exactly the sleepers whose time has come wake |
| Sched.Scheduler.OnKey | kernel/kern/sched.c:151-160 | exactly those waiting for a key wake |
| Sched.Scheduler.Spawn | kernel/kern/sched.c:179-195 | a slot is taken only if it was never used or its task has exited, and never that of the running task |
| Sched.Run | kernel/kern/sched.c:62-160 | over every run a task is running exactly if it is current, choices are round robin, and every resumed task gets the very frame it was last interrupted with |
| InteractionLog.KeptLongest | kernel/noc/interact.c:21-44 | what is kept is the longest suffix of whole records that fits |
| InteractionLog.HoldsLongestSuffix | kernel/noc/interact.c:21-44 | so after any appends the log holds the longest suffix of all that was appended |
| InteractionLog.EscapeRoundTrip | kernel/noc/interact.c:49-69 | escaping is inverted up to dropped bytes, and leaves one record |
| InteractionLog.CheckpointFits | kernel/noc/interact.c:113-126 | a checkpoint is whole records, at most 4096 bytes, at least the newest if that fits |
| InteractionLog.Log.Append | kernel/noc/interact.c:21-44 | the ring holds the kept records; an over-long record is cut |
| InteractionLog.Log.AppendEsc | kernel/noc/interact.c:49-69 | tag and escaped payload become one record, of as much of the payload as the buffer takes |
| InteractionLog.Log.Save | kernel/noc/interact.c:113-147 | exactly the checkpoint goes to the file, whenever the file is there and eight clusters are free |
| InteractionLog.Log.Load | kernel/noc/interact.c:149-169 | the log becomes what the file holds, if its size is proper |
| InteractionLog.SaveAndLoad | kernel/noc/interact.c:113-169 | saving and loading restores the newest records, whole and in order |
| ModelSize.TensorsTile | kernel/noc/trans.c:135-169 | the tensors, by the source's offsets, tile the blob exactly |
| ModelSize.FootprintExact | kernel/noc/trans.c:1166-1187 | the bytes budgeted are exactly those the allocations ask for |
| ModelSize.NoTruncation | kernel/noc/trans.c:1166-1187 | in range the conversion to 32 bits loses nothing |
| ModelSize.Degrade | kernel/noc/trans.c:1192-1220 | it ends, with the first configuration on the way down that fits, and then everything asked for is within the cap; or none of them fits |

What the code does and the model proves, against what one might expect:

- `&&` and `||` do not mean what docs/NOC.md:71-72 says (`Agreement.AndAndFails`, exactly when: `Agreement.LogicExact`); prefix `++`/`--` leaves a stray cell (`Agreement.PreIncExact`).
- The bitmap of a fresh volume can be one bit short (`Device.BitmapShort`, exactly when: `Device.BitmapCovers`), and a write that runs out of clusters loses those it took (`FileSystem.RunsOut`, exactly when: `FileSystem.FileSystem.WriteFile`).
- A fault-in whose mapping was dropped still counts as resident (`Residency.DroppedWitness`, exactly when: `KernelMemory.Kernel.FaultInPage`).
- A script of a page or more overwrites memory that is not the script's (`Scripts.OverrunBreaks`, exactly when: `Scripts.CopyExact`).
- Swapping out a model page leaves a dangling frame (`KernelMemory.SwapsModelPage`, exactly when: `Residency.SwapOutExact`), a builtin can free running code (`Reentry.FreedWitness`, exactly when: `Reentry.FreedExactly`), a free far down a long list may not merge (`Heap.GuardWitness`, exactly when: `Heap.FreedCoalesced`), and a charge may wrap (`KernelMemory.CommitWraps`, exactly when it matters: `KernelMemory.Kernel.Commit`).

## Left out

- KernelMemory.Kernel.SwapOut: takes the pages of image, script, heap, stack and model window; the system call takes any address. In the kernel's shared slot `vmm_translate` follows the boot tables, which are not part of this model; the kernel maps nothing else for a task.
- KernelMemory.Kernel.Spawn: takes only scripts of less than 4096 bytes; for longer ones `KernelMemory.Kernel.Prepare` and `Scripts.CopyExact` say what the copy leads to, and what the kernel does on corrupted tables is not followed further.
- KernelMemory.Kernel.EvictPage: asks that the task's arrays, if allocated, cover the page, which the code leaves to its callers.
- FileSystem.FileSystem.FormatAndMount: takes only disk sizes whose bitmap covers the clusters (`Device.BitmapCovers`); with a bitmap that is short the code reads beyond it.
- KernelMemory.Kernel.EnsureTask: the kernel heap's answer is a parameter, as it is for kernel stacks; the frames that the heap takes for itself come from a pool that the memory system does not share with it here.
- MemoryRuns.Run: events outside these conditions on callers are passed by.
- PageTables.WalkIsFlat: covers every top-level slot but the kernel's, whose tables are made at boot and stay outside the model; `PageTables.KernelAlike` covers that one.
- Shell.LineMeansConverse: leaves open which programs that call functions overflow the fixed stacks, as recursion makes that depend on the whole run; for lines that call only builtins `StackDepth.LineMeansExactly` settles it.
- InteractionLog.Log.Append: records have no newline inside; task names in spawn records are assumed to have none.
- InteractionLog.Log.Load: the file, if there is one, was written by `il_save`.
- InteractionLog.Log.Save: its success is stated for an existing file; creating one may fail as `FileSystem.FileSystem.Create` says.
- FileSystem.FileSystem.Mount: only a freshly formatted volume is shown consistent, because mounting marks no inode but the root.
- Heap.KernelHeap.Kmalloc: sizes near 2^64, whose rounding wraps, are covered by `Heap.BytesExact` and promise less.
- VmClass.VirtualMachine.Turn: states in which the next step would read beyond the code or the used stack are excluded; `Session.LineSafe` shows that no accepted line reaches one.
- The lexer, error messages, and running out of arena or syntax-tree memory; growth of the code buffer is a limit of at most 2^30 bytes.
- The quotient INT64_MIN / -1, which faults, is an error of its own; addresses of string literals and answers of builtins are parameters, keyboard interruption is a bound on turns.
- Registers of the memory-management unit: the translation cache, CR3, accessed and dirty bits.
- Disk outcomes in swapping and predictions of the page predictor are parameters; a failed disk write leaves the slot as it was.
- `vmm_alloc_user_pages`, whose loop is that of `sys_alloc`.
- Agreement of resident model pages with weights after training: training updates the blob in place.
- The byte layout of the structures on disk: blocks are typed, and an inode has the 72 bytes of natural alignment rather than the 64 of its comment; the last four inodes, in cluster 0, are not cleared by formatting.
- Input and output errors of the file system, and extending the directory beyond one block, which the code never does.
- Remounting a volume with files.
- The coroutine switch is one step; `SYS_KBD_WAIT` continues after the frame has been swapped; process numbers do not wrap.
- `autotune`, whose search need not end, and the arithmetic of the transformer.
- Port drivers, descriptor tables, the REPL, the line editor and most builtins.
