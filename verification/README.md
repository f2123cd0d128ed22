# MetalHLE: models of the emulator's own protocols and algorithms

MetalHLE runs iPhone OS applications by emulating their CPU and implementing the system's
libraries in host code. Most of it forwards to foreign parts: a JIT, a windowing library, a
graphics driver. In between are self-contained protocols and algorithms that are the emulator's
own, and those are modelled here, in Dafny, one module or group of modules each:

- **Lazy dynamic linking** (`LazyLinker`, `StubSetup`, `DynamicLinker`). Symbol stubs are guest code
  that is rewritten while the guest runs. `LazyLinker` has the linker's operations as functions on
  guest memory, the translated-code cache and the tables, and a small semantics of A32
  (PC reads as the instruction's address plus 8, section A2.3 of the Arm Architecture Reference
  Manual DDI 0406C) in which other threads, the translator and the linker act between any two
  instructions. `DynamicLinker` is the object that updates the same state in place.
- **Load order** (`LoadOrder`, `Counting`). Kahn's algorithm over maps of arbitrary iteration order.
- **Cooperative threads** (`Threads`, `ThreadInvariants`, `WaitQueues`, `Scheduling`, `Wakeups`, `Executor`). A
  `World` is the threads with their stored contexts, the CPU, and everything threads can wait for.
  Every operation of a thread and every decision of the executor is a function on worlds; the
  invariants are proved of all of them, the theorems of all runs, and `Executor` is the object.
- **Fonts** (`LineBreak`, `ByteOffsets`, `PostTable`). Greedy line breaking by binary search, on
  characters and on the byte offsets that stand for them, and two walks of the same table of glyph
  names.
- **64-bit runtime** (`GuestMemory64`, `CxxString`, `CxxStrings`, `Dictionary`, `StartupStack`,
  `NextPrime`, `Lifecycle`). libc++ strings, a dictionary and the startup stack in guest memory; the
  search for a prime; and the order of an application's callbacks.
- **Calls through the guest's convention** (`Abi`), by section 6.5 of AAPCS32 without the rule of
  even registers.
- **ADTS framing** (`Adts`), section 6.2 of ISO/IEC 13818-7 and section 1.6.3.4 of ISO/IEC 14496-3.

Where the source changes state, the model has a class or a method with the same steps, proved
against a function of the old state; the properties are then proved of those functions, over all
inputs, all reachable states or all runs.

## Where the code does less than one might expect

Each is stated as a lemma at one input that shows it, and as a theorem that says exactly when it
happens.

- A dictionary of 4096 or more entries still accepts new keys, but its search stops at 4096: such a
  key then reads as 0, and setting it again appends it again (`Dictionary.FullDictionaryForgets`;
  exactly when: `Dictionary.SetThenGet`). Growing leaves the old arrays allocated.
- `next_prime` answers 2 for everything above 2^30, although there are larger primes
  (`NextPrime.AnswerAboveTheLimit`; exactly when: `NextPrime.NextPrime`).
- A result in memory of fewer than 4 bytes, with four or more argument words, would make the last
  argument word overwrite memory of the caller: the spill area is sized without the hidden pointer
  (`Abi.CallerMemoryOverwritten`; exactly when: `Abi.CallerMemory`). The results that the emulator
  passes in memory are larger.
- A trap with an unknown number is said to return to the caller; the code executes the same trap
  again, for ever if nothing else happens (`LazyLinker.UnknownTrapStays`; exactly when:
  `LazyLinker.UnknownTrap` and `LazyLinker.UnknownTrapRepeats`). No stub and no trampoline has such a
  number (`LazyLinker.OwnTrapsAreLinked`).
- The node that the load order reports may only lead to a cycle without being on one
  (`LoadOrder.ReportedNodeOffCycle`). It is on one, whatever the iteration order, exactly if every node
  that leads to a cycle is on one (`LoadOrder.ReportedNodeIsOnCycle`).
- Memory that is freed is not used again: an allocation fails once the search has come near the end of
  the address space, even with nothing mapped (`GuestMemory64.SearchNeverGoesBack`; exactly when:
  `GuestMemory64.Mem64.AllocZeroed`).
- The empty glyph name finds the first glyph that has no name at all (`PostTable.NamelessGlyphFound`;
  exactly when: `PostTable.EmptyNameLookup`).

## Model

| member | source | states |
|---|---|---|
| LazyLinker.CallReachesTarget | src/dyld.rs:1537-1729 | Calling a rewritten stub of 4, 12 or 16 bytes, at any time and whatever other threads and the translator do between its instructions, reaches its target: guest code with LR untouched and no host call, or exactly one call of the host function and a return to LR. The stub is bound to that target afterwards. |
| LazyLinker.EveryCallReachesTheFirstTarget | src/dyld.rs:1537-1729 | Two calls of one stub, with any number of other first calls, new trampolines, translations and stores in between, reach the target that the first of them bound. |
| LazyLinker.CallGoesOn | src/dyld.rs:1537-1729 | As long as a call of a rewritten stub has not arrived, its next instruction can be executed, whatever the rest of the system has done since the call began. |
| LazyLinker.CallTakesPlace | src/dyld.rs:1537-1729 | From every state that keeps the invariant there is a complete call of every rewritten stub, so the theorems on calls are about something. |
| LazyLinker.FirstCallBinds | src/dyld.rs:1589-1729 | A first call binds the stub to the preferred target and keeps the invariant; no other stub's binding changes. |
| LazyLinker.FirstCallPrefers | src/dyld.rs:1610-1729 | A first call of entry i of a stub section binds it to what the i-th symbol prefers: the trampoline handed out for it; else the address the first binary exporting it gives; the host's function exactly if there is neither and the host has one; the stub that returns 0 exactly if nobody has it. |
| LazyLinker.FirstCallReachesPreferred | src/dyld.rs:1537-1729 | The first call of entry i arrives there: in the guest code, by one trap and the restored stub, with no host call; or back at LR after one call of that host function. |
| LazyLinker.StubOfEntry | src/dyld.rs:1610-1633 | The stub found at entry i of a section has the i-th symbol and the section's entry size; a 4-byte stub's slot is 8 bytes past the i-th word of the pointer section, or past the stub if there is no such section. |
| LazyLinker.EventsKeep | src/dyld.rs:1537-1790 | Any sequence of first calls, trampolines, translations and guest stores elsewhere keeps the invariant that every stub is unbound or bound and that no stale translation of linker code exists, and only extends what is bound. |
| LazyLinker.RestoreMeaning | src/dyld.rs:1546-1608 | Restoring a stub changes its code words and its pointer slot only, and makes the restored load read the slot that was written, for all three shapes. |
| LazyLinker.BindHostMeaning | src/dyld.rs:1655-1687 | Binding to a host function appends it to the table and rewrites one word, which then traps with that function's number and, for 4-byte stubs, with the return flag. |
| LazyLinker.GuestRun | src/dyld.rs:1553-1608 | Executing the restored instructions, PC reading as the instruction plus 8, arrives at the linked address with LR untouched. |
| LazyLinker.HostReturn | src/dyld.rs:194-208 | The word after a rewritten first word returns to LR. |
| LazyLinker.CallTrampoline | src/dyld.rs:1752-1790 | A trampoline calls its function once and returns to LR. |
| LazyLinker.UnknownTrap | src/dyld.rs:1515-1523 | A trap with a function number changes nothing, calls nothing and is executed again exactly when the number, without the return flag, is not that of a linked function. |
| LazyLinker.UnknownTrapRepeats | src/environment.rs:2344-2347 | Left to itself, a thread stays at such a trap for any number of steps without a call, exactly when the number is not linked. |
| LazyLinker.OwnTrapsAreLinked | src/dyld.rs:1672-1797 | A trap with a function number at a rewritten stub or in a trampoline is always that of a linked function. |
| LazyLinker.UnknownTrapStays | src/dyld.rs:1515-1523 | Trap number 3 with an empty table: the thread stays there instead of returning to its caller. |
| LazyLinker.ProcAddressKeeps | src/dyld.rs:1738-1790 | Handing out a trampoline, old or new, keeps the invariant and everything bound before. |
| LazyLinker.ProcAddressFinds | src/dyld.rs:1738-1797 | No address exactly if the symbol is neither spelling of the binder nor exported by the host; the same trampoline for a name each time, and a new one for its own function at the allocation. |
| LazyLinker.LoadedStubsApart | src/dyld.rs:1610-1633 | Stubs found by address in disjoint sections never overlap. |
| LazyLinker.DecodedFields | src/dyld.rs:441-444 | The instructions that stubs consist of, told by the fields of an A32 word: condition and operation, registers n and d, and the operand. |
| StubSetup.SetupEstablishes | src/dyld.rs:762-834 | After set-up, with nothing translated yet, the linker's invariant holds for every stub that was rewritten. |
| StubSetup.SetupAtStub | src/dyld.rs:762-834 | Set-up writes exactly the trap, the return and the filler words at every recognised stub, and leaves other stubs' words alone. |
| StubSetup.RestoringUndoesSetup | src/dyld.rs:1553-1588 | Restoring a stub after set-up gives back the words that the binary had; a 4-byte stub becomes the load of its pointer. |
| StubSetup.SetupBinariesEffect | src/dyld.rs:498-560 | Set-up of all binaries changes memory only inside stub sections of supported entry sizes. |
| DynamicLinker.Environment.SetupLazyLinking | src/dyld.rs:762-834 | The loop over the stubs of a binary has the effect of the set-up function; stubs whose code is not recognised are left alone. |
| DynamicLinker.Environment.DoInitialLinking | src/dyld.rs:498-560 | All binaries are set up, in order. |
| DynamicLinker.Environment.RestoreOriginalCode | src/dyld.rs:1578-1588 | Writes back the original instructions, with the offset for a 4-byte stub, and forgets their translations. |
| DynamicLinker.Environment.LazyPointerOf | src/dyld.rs:1590-1606 | The slot of a restored stub, by its absolute word or relative to the code. |
| DynamicLinker.Environment.LinkByRestoringStub | src/dyld.rs:1546-1608 | The stub is restored and its slot filled, as the restoring function says. |
| DynamicLinker.Environment.LookupGuestExport | src/dyld.rs:1652-1670 | The first binary that exports a symbol decides its address. |
| DynamicLinker.Environment.BindStubToHost | src/dyld.rs:1672-1729 | The stub traps with the number of the appended function. |
| DynamicLinker.Environment.DoLazyLink | src/dyld.rs:1537-1729 | Links the stub to what its entry's symbol prefers, in the order trampoline, first exporting binary, host function, return-0 stub; keeps the invariant and every other stub's binding. |
| DynamicLinker.Environment.GetSvcHandler | src/dyld.rs:1494-1535 | Dispatches lazy links, linked numbers with or without the return flag, and unknown numbers. |
| DynamicLinker.Environment.HandleSvc | src/environment.rs:2294-2349 | One trap is one step of the machine: link or call, then go on after the instruction, return to LR for flagged numbers, or execute the trap again. |
| DynamicLinker.Environment.CreateGuestFunction | src/dyld.rs:1783-1797 | A new trampoline traps with the next number and then returns. |
| DynamicLinker.Environment.CreateProcAddress | src/dyld.rs:1738-1782 | The trampoline of a symbol, made once, and none exactly if the host has no such function; the invariant holds and earlier bindings stay. |
| LoadOrder.GenerateBinaryLoadOrder | src/environment.rs:223-302 | For distinct names and any iteration order of the maps: either a permutation of all nodes in which every bundled dependency precedes its dependents, or the first node in iteration order from which a cycle is reached; an error exactly when the dependency graph has a cycle, self-loops included. |
| LoadOrder.CountDependencies | src/environment.rs:231-258 | Degrees count the library paths that name bundled nodes, repeated ones included, and the lists of dependents have one entry for each of them. |
| LoadOrder.RemoveLeaf | src/environment.rs:269-288 | Removing the first leaf keeps degrees equal to the dependencies that remain and the queue equal to the nodes that need nothing else. |
| LoadOrder.FindPositive | src/environment.rs:290-295 | The first node of positive degree in iteration order, if there is one. |
| LoadOrder.AllSortedOrStuck | src/environment.rs:290-295 | With nothing left to remove, the degrees that are not 0 are exactly those of the nodes that lead to a cycle; if there are none, everything is sorted. |
| LoadOrder.ReportedNodeIsOnCycle | src/environment.rs:290-295 | The reported node is on a cycle for every iteration order if and only if every node that leads to a cycle is on one. |
| LoadOrder.OnlyOneFirst | src/environment.rs:290-295 | One iteration order determines the reported node, so in that order the report is on a cycle if and only if that first node is. |
| LoadOrder.ReportedNodeOffCycle | src/environment.rs:290-295 | One binary that needs another one, which needs itself, iterated in that order: the first is reported and is on no cycle. |
| LoadOrder.TargetsAreDependencies | src/environment.rs:238-246 | The resolved paths of a node, with the prefix stripped, are the nodes it depends on. |
| LoadOrder.DependencyPaths | src/environment.rs:238-246 | A node depends on another exactly if one of its paths is "/usr/lib/" and the other's name, or that name itself where it does not begin with that directory. |
| LoadOrder.TopologicalMeansAcyclic | src/environment.rs:290-295 | A complete order excludes every cycle. |
| LoadOrder.StuckMeansCycle | src/environment.rs:290-295 | Nodes left over lead to a cycle. |
| LoadOrder.SortedLeadsNowhere | src/environment.rs:269-295 | No sorted node leads to a cycle. |
| ThreadInvariants.StepContexts | src/environment.rs:1312-1389 | Every step keeps that exactly the current thread has no stored guest context, that every other active thread has its own coroutine, and that exactly the active threads have a stack. |
| ThreadInvariants.DecideContexts | src/environment.rs:1896-1921 | A decision to switch finds both contexts stored, so that no unwrap fails, and gives them up in exchange for those of the thread that ran. |
| ThreadInvariants.StepSemaphores | src/environment.rs:1506-1578 | Every step keeps that the waiting set of a semaphore is exactly the threads blocked on it, suspended ones included. |
| WaitQueues.LookNeverPanics | src/environment.rs:2510-2693 | In every state that keeps the queue invariants no unwrap or assertion of the scheduler's look at a thread can fail. |
| WaitQueues.StepQueues | src/environment.rs:2536-2640 | Every step keeps that the queues of a condition hold exactly the threads blocked on it, each once, that its mutex exists while anybody waits, and that a time-out is remembered until the thread has returned from its wait. |
| WaitQueues.LookConditionKeeps | src/environment.rs:2545-2615 | Waking from a condition, by signal or by time-out, keeps the queues of all conditions. |
| WaitQueues.CondWaitKeeps | src/libc/pthread/cond.rs:136-254 | Waiting for a condition unlocks the mutex and queues the thread once. |
| Scheduling.StepKeeps | src/environment.rs:1663-1879 | All invariants together are kept by every operation of a thread and every decision of the executor. |
| Scheduling.EveryReachableDecisionIsSafe | src/environment.rs:1663-1921 | After any run from the start, the next decision crashes nowhere, and a chosen thread is active, not blocked, and safe to switch to. |
| Scheduling.WokenThreadOwnsItsMutex | src/environment.rs:2522-2640 | Whether woken from a mutex, by a condition or by its time-out, the thread that is chosen found the mutex free and owns it. |
| Scheduling.HeldUntilReleased | src/environment/mutex.rs:134-300 | Over any run, a recursive or error-checking mutex stays with its owner, whatever other threads and the executor do, exactly as long as the owner has released it less often than it locked it; its depth is the difference. |
| Scheduling.HeldThroughStep | src/environment/mutex.rs:134-300 | One step changes how often a mutex is held by its owner's nested locks and releases only; at zero it is free. |
| Scheduling.LockingNests | src/environment/mutex.rs:167-242 | Locking a recursive mutex again deepens it by one, without blocking. |
| Scheduling.SemaphoresAreConserved | src/environment.rs:1506-1578 | Over any run, the value of a semaphore is its initial value plus the posts minus the acquisitions, at once or by being woken; a value that is not negative never becomes negative; and the waiting set is exactly the threads blocked on it. |
| Wakeups.DecisionFindsTheDue | src/environment.rs:2493-2724 | In every reachable world a decision chooses the first thread in cyclic order whose wait is over in the world before it, and nobody exactly if there is none. A wait is over: for a time once it is reached; for a mutex when it is free; for a semaphore when it is positive or gone; for a condition when the mutex is free and the thread is the next signalled one or its deadline is reached; for a thread when it is finished or missing; for a file when it is unlocked; when suspended, never. |
| Wakeups.ChosenIsFulfilled | src/environment.rs:2510-2693 | The chosen thread gets what it waited for out of the world before the decision: the joined thread's result, or 0, is stored where asked; one unit of its semaphore is taken; its file is locked once for it; it leaves its condition's queues, being remembered as timed out exactly if it was not signalled; nothing of these kinds happens to anything else. |
| Wakeups.PassFindsTheDue | src/environment.rs:2500-2693 | The same from any place of the pass on, though candidates looked at before may have moved from a condition to its mutex. |
| Wakeups.JoinDeliversResult | src/environment.rs:2641-2671 | However long after a thread has finished, a thread that joined it and is chosen finds the value it finished with in memory, if it asked for it. |
| Wakeups.FinishedStays | src/environment.rs:1663-1760 | Over any run a finished thread stays finished, with its result. |
| Wakeups.SuspendedUntilResumed | src/environment.rs:1432-1488 | Over any run a suspended thread does not run and keeps what it was blocked on, exactly until it has been resumed as often as it was suspended. |
| Wakeups.FileHeldUntilReleased | src/libc/stdio.rs:882-920 | Over any run a file stays locked by its owner exactly until the owner has unlocked it as often as it locked it, and its depth is that count. |
| Wakeups.LockFileOutcome | src/libc/stdio.rs:882-900 | Locking a file takes it, once more, if it is free or the thread's own, and blocks on it otherwise. |
| Wakeups.LockOutcome | src/environment/mutex.rs:167-242 | Locking takes a free mutex once, blocks on another thread's, whose owner and depth stay, and neither blocks nor changes hands on the thread's own. |
| Wakeups.UnlockOutcome | src/environment/mutex.rs:243-300 | Without self-locks left over, unlocking succeeds exactly for the owner and, on a normal mutex that is locked, for anyone; it takes one lock off, and the last one frees the mutex; a failure changes nothing. |
| Wakeups.UnlockUndoesLock | src/environment/mutex.rs:167-300 | For a thread that need not block, unlocking undoes locking exactly unless the mutex is error-checking and the thread's own, or was free while a self-lock of the thread was left over. |
| Wakeups.WaitOutcome | src/libc/pthread/cond.rs:136-254 | Waiting fails without effect exactly if unlocking the mutex does; otherwise the thread is last to arrive at the condition, blocked on it, with the mutex unlocked once. |
| Wakeups.SignalOutcome | src/libc/pthread/cond.rs:256-300 | A signal moves the first waiter to the end of the signalled, a broadcast moves all; the order of arrival stays, and nobody runs because of it. |
| Scheduling.ReadyThreadRunsSoon | src/environment.rs:2500-2505 | An active thread that stays unblocked is chosen within its cyclic distance from the current thread plus one decisions, the set of threads being fixed. |
| Scheduling.CandidateIsCyclic | src/environment.rs:2500-2505 | Threads are looked at in cyclic order, starting after the current one. |
| Scheduling.ChoiceComesFromLook | src/environment.rs:2500-2700 | The chosen thread was fulfilled by its own look, with the locks as they were when the pass began. |
| Scheduling.RegistersSurvive | src/environment.rs:1896-1921 | A thread that is switched away from and back sees the registers it left with, whatever ran in between. |
| Executor.Round | src/environment.rs:2493-2724 | A round over the threads chooses safely, or ends a timed wait, or reports an alarm that is not due. |
| Executor.FruitlessPass | src/environment.rs:2500-2700 | A pass that chooses nobody ends a timed wait if an alarm was due. |
| Executor.NoTimedWaitBegins | src/environment.rs:2500-2700 | A pass that chooses nobody starts no timed wait. |
| Executor.NoAlarmBefore | src/environment.rs:2501-2724 | The time a pass reports is not after the alarm of any thread left blocked, those that it moved included; so it is the first alarm, and there is none exactly if no wait ends by itself. |
| Executor.Environment.constructor | src/environment.rs:311-330 | The first thread runs, with no context stored. |
| Executor.Environment.NewThread | src/environment.rs:1312-1389 | A new thread is active and not blocked and has the given context, a coroutine and a stack of its own; everything else is unchanged. |
| Executor.Environment.YieldThread | src/environment.rs:2431-2460 | The current thread is blocked as asked and control goes to the executor. |
| Executor.Environment.SemDecrement | src/environment.rs:1506-1558 | Takes a unit at once exactly if there is one; otherwise queues and blocks if asked to, or fails without effect; and says which. |
| Executor.Environment.SemIncrement | src/environment.rs:1560-1578 | Adds one unit to a known semaphore. |
| Executor.Environment.SuspendOther | src/environment.rs:1432-1452 | The thread is suspended once more, keeping what it was blocked on; suspending oneself gives up control. |
| Executor.Environment.ResumeOther | src/environment.rs:1454-1488 | The last resume brings back what the thread was blocked on. |
| Executor.Environment.FinishCurrent | src/environment.rs:1663-1760 | A coroutine that has returned leaves its thread inactive, with its result; the stack that is given back is always there. |
| Executor.Environment.LookForThread | src/environment.rs:2500-2700 | One round in a valid world never crashes: it chooses the first thread in cyclic order whose wait is over, as described above, and gives it what it waited for; or nobody's is, and it reports the first alarm or that there is none. The loop over the threads is the pass that the invariants are proved about. |
| Executor.Environment.ScheduleNextThread | src/environment.rs:2493-2724 | The search ends: it returns the first thread whose wait was over in the world before its last round, fulfilled and safe to switch to, all rounds before having found nobody; or in that world nobody's wait was over and none ends by itself. The number of rounds is bounded by the timed waits. |
| Executor.Environment.SwitchThread | src/environment.rs:1896-1921 | CPU and coroutine are those the new thread had stored, and the old thread has stored the ones that ran. |
| LineBreak.BreakLines | src/font.rs:349-468 | The text is split, in the only possible way, into lines and their ends, each a line feed or a carriage return and a line feed, only a last line that is not empty having none. The pieces are those of the lines in order, each line broken well, or kept whole, one piece a line, if no width is given. Broken at characters, the pieces put together are the text without the ends of its lines; at words, all of that but spaces. The recursion from words to characters ends. |
| LineBreak.SplitIsUnique | src/font.rs:357 | There is one way to split a text into lines and ends. |
| LineBreak.BreakLine | src/font.rs:361-464 | The pieces of a line come from consecutive spans that cover it, each greedy and within the width, as far as that is possible. |
| LineBreak.BreakWord | src/font.rs:426-441 | A word too wide for a line is broken at characters and takes exactly its place in the line. |
| LineBreak.WrapPoints | src/font.rs:364-394 | The points are exactly the first letters of words after white space, or all character boundaries, and the end of the line. |
| LineBreak.ChooseBreak | src/font.rs:411-443 | The chosen point fits, and breaking later would not have fitted or not have been better than an exact fit; otherwise not even the next point fits. |
| LineBreak.BinarySearch | src/font.rs:415-421 | Any exact match, or the place where the width would go among sorted widths. |
| LineBreak.BreakingKeepsText | src/font.rs:403-462 | At characters, the pieces put together are the line; at words, they have the same visible characters in the same order. |
| LineBreak.PiecesFit | src/font.rs:423-462 | Every piece fits the width unless it is a single character, or the last piece overrun only by spaces at its end. |
| LineBreak.WrappedPieceText | src/font.rs:446-464 | A piece is its part of the line; where a line is wrapped between words, without the spaces it is wrapped at. |
| LineBreak.BreaksAreMaximal | src/font.rs:411-443 | If text never gets wider for nothing, no break could have come later. |
| ByteOffsets.CharWrapPoints | src/font.rs:385-395 | The loop over the bytes of a UTF-8 line finds exactly the byte offsets of the points between characters. |
| ByteOffsets.BoundaryStartsChar | src/font.rs:385-392 | A byte offset is a character boundary exactly if a character starts there or the line ends there. |
| ByteOffsets.ByteSlice | src/font.rs:416-447 | Cutting a line at the byte offsets of two characters gives the encoding of the characters between them, so breaking at byte offsets is breaking at characters. |
| ByteOffsets.EncodedBits | src/font.rs:385-392 | The encoding of a character has the form that its number requires, and the low bits of its bytes are the number. |
| PostTable.GlyphIdFromPostTable | src/font.rs:1220-1287 | The loops over the strings and the glyphs find the first glyph that has the name. |
| PostTable.GlyphNameFromPostTable | src/font.rs:1289-1352 | The walk to a single string finds the glyph's name, or none. |
| PostTable.CollectNames | src/font.rs:1250-1262 | All complete Pascal strings are collected, those that are not UTF-8 as empty. |
| PostTable.WalkTo | src/font.rs:1331-1347 | The string with a given number, if it exists and is UTF-8. |
| PostTable.LookupsAgree | src/font.rs:1220-1352 | For a name that is not empty, in formats 1.0 and 2.0: the lookup by name gives the least glyph whose name it is, and none exactly when no glyph has it. |
| PostTable.EmptyNameLookup | src/font.rs:1264-1281 | For the empty name the glyph found has that name exactly unless a nameless glyph comes before the first one that does. |
| PostTable.NamelessGlyphFound | src/font.rs:1264-1281 | A table whose first glyph has no name and whose second has the empty name: the first one is found. |
| PostTable.BuiltTableReadsBack | src/font.rs:1238-1352 | Any table of format 2.0, with any name indices and strings, reads back: a glyph has exactly the name its index stands for, standard below 258 and a string of the table from there on, or none; and a name leads back to the first glyph that has it. |
| PostTable.Format1Names | src/font.rs:1230-1237 | A table of format 1.0 gives the glyphs the standard names in order. |
| GuestMemory64.Mem64.AllocZeroed | src/mem64.rs:544-590 | Succeeds exactly if the size is within the limit and there is room, for the size rounded up to a multiple of 16 that is at least 16, where the search begins or at a multiple of 16 after it; the allocation is then the first such place, fresh and zeroed, and the next search begins at its end. A refused one changes nothing. |
| GuestMemory64.SearchNeverGoesBack | src/mem64.rs:562-588 | With nothing mapped at all, an allocation fails once the cursor is near the end: room below the cursor is not used. |
| GuestMemory64.Mem64.Free | src/mem64.rs:376-381 | Unmaps an allocation and nothing else. |
| GuestMemory64.Mem64.WriteBytes | src/mem64.rs:226-272 | Writes up to the first unmapped byte, and succeeds if there is none. |
| GuestMemory64.Mem64.MapZeroed | src/mem64.rs:123-159 | Maps a zeroed range exactly if nothing is mapped in it. |
| GuestMemory64.AllocatedOk | src/mem64.rs:544-590 | Allocations stay mapped and apart when a fresh one is added. |
| GuestMemory64.FreedOk | src/mem64.rs:376-381 | Allocations stay mapped and apart when one is freed. |
| CxxString.ReadsBack | src/arm64_runtime.rs:1182-1199 | A string object in either form reads back as the string it represents. |
| CxxString.ObjectLayout | src/arm64_runtime.rs:1182-1206 | The words of a long object in guest memory are the address of its buffer, which holds the bytes and a terminator, the length, and the capacity with the top bit set; a short object holds the bytes, a terminator, and in its last byte the length. |
| CxxString.CxxStringWrite | src/arm64_runtime.rs:1207-1250 | On a live string, succeeds exactly if there are at most 22 bytes, or at most MAX_CSTRING and room for a buffer of one more than the capacity, the least power of two not below their number but at least 23. Then the object represents the bytes, with one owned buffer of that capacity in the long form and none in the short form, the old one freed and nothing else changed; otherwise nothing changed at all. |
| CxxString.NewCapacityIs | src/arm64_runtime.rs:1234-1234 | The capacity of a new buffer is the least power of two not below the length, but at least 23. |
| CxxString.CxxStringReserve | src/arm64_runtime.rs:1251-1290 | Succeeds exactly if at most 22 are requested, or at most MAX_CSTRING and the buffer is large enough or there is room for a new one. The string is unchanged and, for a request above 22, owns a buffer of at least the requested capacity; a request of at most 22 changes nothing at all; a failure changes nothing. |
| CxxString.CxxStringSource | src/arm64_runtime.rs:1292-1304 | Bytes of a given length, or up to a terminator, within the limit. |
| CxxString.CxxStringDestroy | src/arm64_runtime.rs:1306-1315 | The buffer is freed and the object is empty and short. |
| CxxString.CxxStringReplaceRange | src/arm64_runtime.rs:1317-1341 | Refines replacing a range, both ends clamped; covers erasing. Fails exactly if there is no place for the result, as writing does. |
| CxxString.SplicedParts | src/arm64_runtime.rs:1325-1340 | What is before the range and what is after it stay, around the replacement. |
| CxxString.InsertThenErase | src/arm64_runtime.rs:1317-1384 | Erasing what was inserted gives the string back. |
| CxxString.CxxStringAssign | src/arm64_runtime.rs:1343-1351 | Refines assignment, even from the string's own buffer; an unreadable source changes nothing. Fails otherwise exactly if there is no place for the result. |
| CxxString.CxxStringAppend | src/arm64_runtime.rs:1353-1362 | Refines concatenation. |
| CxxString.CxxStringPushByte | src/arm64_runtime.rs:1364-1368 | Refines adding one byte. |
| CxxString.CxxStringInsert | src/arm64_runtime.rs:1370-1384 | Refines insertion at a clamped position. |
| CxxString.CxxStringResize | src/arm64_runtime.rs:1386-1394 | Refines cutting, or filling up with a byte. |
| CxxString.LongObjectOk | src/arm64_runtime.rs:1239-1244 | The three words of a long object read back as pointer, length and capacity, and the byte at 23, the top of the capacity word, marks the long form. |
| CxxString.ShortEffect | src/arm64_runtime.rs:1223-1234 | Going to the short form frees the old buffer, if there was one, and touches only the object. |
| CxxString.LongEffect | src/arm64_runtime.rs:1235-1249 | Going to a new buffer frees the old one, if there was one, and touches only the object and the new buffer. |
| CxxStrings.OthersKept | src/arm64_runtime.rs:1207-1250 | An operation on one string changes neither the content nor the buffer of any other. |
| CxxStrings.EffectKeepsWorld | src/arm64_runtime.rs:1182-1394 | The heap stays exactly the others' allocations and one buffer for each string in the long form. |
| CxxStrings.Perform | src/arm64_runtime.rs:4520-4682 | Each operation by its name: destroying, assigning, appending, erasing, replacing, inserting, resizing, reserving, adding a byte, copying a string or a part of one has its result on byte sequences exactly if there is one and a place for it, and fails without effect otherwise. |
| CxxStrings.SubstringParts | src/arm64_runtime.rs:4520-4682 | A part of a string: the bytes from the position on, as many as asked for or as there are. |
| CxxStrings.PerformedIsStep | src/arm64_runtime.rs:4520-4682 | Performing an operation on a live string is a step of a run, with the content that the operation has on byte sequences. |
| CxxStrings.StringAsSource | src/arm64_runtime.rs:1292-1304 | A string in memory is a source of its own content, by length or, without NULs, by terminator. |
| CxxStrings.RunKeepsWorld | src/arm64_runtime.rs:1182-1394 | The same over any run of named operations on any of the strings, failed ones included, of strings beginning and ending, and of others allocating, freeing and storing in between. |
| CxxStrings.NothingLeaks | src/arm64_runtime.rs:1182-1394 | After any such run, once no string has a buffer, the allocations are exactly those of others. |
| CxxStrings.ContentIsTracked | src/arm64_runtime.rs:4520-4682 | The content of a string after a run is that of its own operations on byte sequences, one after the other; operations on other strings and what others do have no part in it. |
| CxxStrings.StringsReadBack | src/arm64_runtime.rs:1182-1394 | After any such run every string in memory reads back as its own sequence of operations on byte sequences says. |
| NextPrime.NextPrime | src/arm64_runtime.rs:1441-1478 | The result is the least prime not below the value exactly for values up to 2^30; above, it is 2. The search ends. |
| NextPrime.AnswerAboveTheLimit | src/arm64_runtime.rs:1441-1478 | 2^30 + 1 is answered with 2, although there is a prime above it within 64 bits. |
| NextPrime.TrialDivision | src/arm64_runtime.rs:1444-1460 | Odd trial division while the divisor is at most the quotient decides primality. |
| NextPrime.SmallDivisor | src/arm64_runtime.rs:1454-1459 | A composite number has a divisor whose square is not above it. |
| NextPrime.ProthIsPrime | src/arm64_runtime.rs:1473-1477 | A prime above every start of the search exists within 64 bits: 3 * 2^30 + 1. |
| NextPrime.NoSmallOrder | src/arm64_runtime.rs:1473-1477 | An element whose 2^n-th power is -1 has no order below 2^(n+1), for any modulus above 2. |
| Dictionary.ObjcDictionarySet | src/arm64_runtime.rs:1622-1672 | The arrays in memory become those of the dictionary with the entry set. A found key changes one value in place and no other byte; a new one succeeds exactly if two arrays with room for one more can be allocated one after the other, and moves both arrays there, the fields pointing at them, with nothing else changed and the old arrays left allocated; a failure keeps the dictionary and all memory. |
| Dictionary.DictionaryLayout | src/arm64_runtime.rs:1604-1632 | What lies in memory: the count at offset 56, and at 64 and 72 the addresses of the keys and of the values. |
| Dictionary.ObjcDictionaryValue | src/arm64_runtime.rs:1604-1620 | The loop over at most 4096 entries is the lookup. |
| Dictionary.SetThenGet | src/arm64_runtime.rs:1604-1672 | What was set is what is read exactly if the key was found before, or there were fewer than 4096 entries, or the value is 0. |
| Dictionary.FullDictionaryForgets | src/arm64_runtime.rs:1604-1672 | With the keys from 1 to 4096, key 0 set to 7 reads as 0, and setting it again appends it again. |
| Dictionary.OthersUnchanged | src/arm64_runtime.rs:1604-1672 | Setting a key changes the lookup of no other key, for any number of entries. |
| Dictionary.KeysStayDistinct | src/arm64_runtime.rs:1630-1671 | Up to 4096 entries the keys stay distinct and the count grows exactly for a new key. |
| Dictionary.SetIsMapUpdate | src/arm64_runtime.rs:1622-1672 | Up to 4096 entries setting is a map update. |
| Dictionary.DictionaryIsMap | src/arm64_runtime.rs:1604-1672 | Any list of settings from an empty dictionary that leaves at most 4096 entries is a finite map, read by the lookup. |
| StartupStack.PrepareStack | src/environment64.rs:522-582 | With nothing mapped just below the stack, it succeeds exactly if nothing was mapped in its place and everything fits. The stack is then complete: aligned stack pointer at the argument count, where the sizes of the strings put it, the lists in order above it, and the strings above those; no memory below the stack pointer changes. |
| StartupStack.FitsExactly | src/environment64.rs:537-558 | A stack that does not fit meets the unmapped bytes below it. |
| StartupStack.PointerIs | src/environment64.rs:537-558 | The stack pointer is the largest multiple of 16 that leaves room for the count, the lists and their NULLs below the largest multiple of 16 that leaves room for the strings. |
| StartupStack.ListsReadBack | src/environment64.rs:522-582 | Walking argv, envp and apple up to their NULLs reads back exactly the strings, if they contain no NUL. |
| StartupStack.PutString | src/environment64.rs:510-520 | A string and its terminator, just below the cursor; nothing else changes. |
| StartupStack.PutStrings | src/environment64.rs:537-548 | The strings of one list, in order and next to each other. |
| StartupStack.WriteLists | src/environment64.rs:559-580 | The count, the pointers and the NULLs, next to each other; nothing else changes. |
| StartupStack.StringsApart | src/environment64.rs:510-548 | Strings placed one after the other do not overlap and stay within their area. |
| Abi.ArgRoundTrip | src/abi.rs:486-590 | Every 32-bit, 64-bit, narrow signed or unsigned, Boolean or pointer argument survives the conversion to words and back. |
| Abi.Environment.WriteNextArg | src/abi.rs:416-440 | The words of an argument go to the next slots and to nothing else. The number that is then passed there, 4 or 8 little-endian bytes on the stack, a register, two registers with the low half first, or the low half in r3 and the high half on the stack, is the argument modulo 2^32 or 2^64. |
| Abi.Environment.ReadNextArg | src/abi.rs:368-397 | The argument read is the one of its kind that agrees with the number passed there in all bits of the kind; a Boolean tells whether the number is 0. |
| Abi.ResultInRegisters | src/abi.rs:690-760 | A result in registers has its low half in r0 and, for 64 bits, its high half in r1, modulo 2^32 or 2^64; nothing else changes. |
| Abi.ReadIsUnique | src/abi.rs:486-590 | At most one argument of a kind agrees with a number. |
| Abi.Environment.ExtendStackForArgs | src/abi.rs:399-414 | The stack pointer is lowered by the words beyond the fourth, and only it changes. |
| Abi.Environment.WriteArgs | src/abi.rs:253-258 | All arguments are written in order, also when one is split between r3 and the stack. |
| Abi.Environment.ReadArgs | src/abi.rs:132-134 | Arguments that were written are what is read. |
| Abi.SlotsSet | src/abi.rs:416-440 | Writing words to consecutive slots stores them all and keeps the earlier slots. |
| Abi.VaList.Next | src/abi.rs:456-468 | The next variable argument is the first of those stored at its place, and the others follow; whatever is there, it is the argument that agrees with the number passed there. |
| Abi.VariableArgsFollow | src/abi.rs:157-163 | The variable arguments are stored where the fixed ones end. |
| Abi.Environment.CallFromGuest | src/abi.rs:126-145 | The host function gets exactly the arguments in place and the machine as it is, and its result is written only after it has run. |
| Abi.Environment.CallVariadic | src/abi.rs:146-176 | A host function with variable arguments gets exactly the fixed ones, and the place where the variable ones are stored. |
| Abi.VariadicGetsItsArgs | src/abi.rs:456-468 | Reading the list from that place, whether it begins in registers or on the stack, gives exactly the variable arguments that were passed. |
| Abi.Environment.CallFromHost | src/abi.rs:234-272 | The arguments reach the host function, its result comes back in registers or in memory, SP is as before, and all other preserved registers and the rest of memory are as the function left them. |
| Abi.CallFrame | src/abi.rs:244-272 | A call changes memory only in its own part of the stack, apart from what the function itself changes. |
| Abi.CallerMemory | src/abi.rs:244-272 | No memory at or above the caller's SP changes unless the result is in memory, shorter than a word, and there are at least four argument words; then the last of those is written over the caller's memory. |
| Abi.CallerMemoryOverwritten | src/abi.rs:244-272 | Four words and a result of two bytes, at SP 0x100: a byte of the last word is written to 0x100. |
| Abi.Environment.CallGuestFunction | src/abi.rs:277-340 | The guest code starts with its arguments, the return routine and a linked frame, the other preserved registers and all memory outside the new frame being the caller's; SP, the frame pointer, LR and PC come back whatever it does, and the result is the one that agrees with the number in r0 and r1. |
| Adts.StreamRoundTrip | src/audio.rs:460-472 | Parsing the frames of any non-empty list of payloads recovers bytes, offsets, sampling rate and channels. |
| Adts.PackPackets | src/audio.rs:493-524 | Refused exactly if the rate has no index, the channels do not fit, or a packet exceeds 13 bits of frame length; otherwise the frames, which parse back to the same packets. |
| Adts.ParseAdtsAac | src/audio.rs:563-618 | The loop finds the frames of the stream, each of the length its header says, up to the first that is not complete. |
| Adts.AcceptedPackets | src/audio.rs:563-618 | The packets are a prefix of the input, tiled by the packet ranges, each a whole frame, with or without checksum, and what follows is no frame. |
| Adts.ParsingIsIdempotent | src/audio.rs:563-618 | Parsing what was accepted gives the same answer again. |
| Adts.UpperBoundIsLargest | src/audio.rs:56-76 | The upper bound holds for every packet and is reached by one. |
| Adts.LengthRoundTrip | src/audio.rs:460-472 | The frame length survives its three bytes exactly if it fits 13 bits. |
| Adts.HeaderLayout | src/audio.rs:460-475 | The 56 bits of a header are those of the standard: syncword, MPEG-4, layer 0, no checksum, profile AAC LC, rate index, channels, frame length, variable rate and one block. |
| Adts.FieldsRead | src/audio.rs:563-618 | Synchronisation, checksum, rate, channels and length are read from their bits of a header. |
| Adts.RateTable | src/audio.rs:454-456 | The 13 rates: three given ones, each later one half of the one three places before, and 7350. |
| Lifecycle.ApplicationReturnsToItsCaller | src/arm64_runtime.rs:3658-3737 | Every run from a UIApplicationMain that starts callbacks, once control is below them again, passed through awake, launch and active in this order, awake coming first if and only if there is a view controller and the guest implements it, and active if and only if the guest implements it, and goes on at the LR of the call. |
| Lifecycle.CallbackReturns | src/arm64_runtime.rs:3658-3737 | Each callback is followed by the next with its receiver, selector and application, launching with no options, or by the caller; becoming active is pending exactly while launching. It fails exactly when the launch method is missing after awakening or a selector cannot be made. |
| Lifecycle.MainKeeps | src/arm64_runtime.rs:4882-5037 | UIApplicationMain starts the first callback once, at its method, with its receiver, selector and argument and, for a launch, no options, remembering its caller, and otherwise returns 0 to it at once. |
| Lifecycle.MessagesNest | src/arm64_runtime.rs:3340-3385 | However deep messages nest, a method returns to where its message was sent from, with x0 unchanged, and the continuations are those from before. |
| Lifecycle.MethodReturns | src/arm64_runtime.rs:3643-3657 | A method's return pops the continuation of its own message. |
| Lifecycle.RunKeeps | src/environment64.rs:1525-1583 | Over any run the continuations are those of the methods that are active, in order, and at most one callback is active. |
| Lifecycle.RuntimeState.constructor | src/environment64.rs:913-927 | All stubs are set and no continuation is pending when the program starts. |
| Lifecycle.RuntimeState.TransferGuestMethod | src/arm64_runtime.rs:3340-3385 | The continuation is pushed and the method will return to the stub. |
| Lifecycle.RuntimeState.UIApplicationMain | src/arm64_runtime.rs:4882-5037 | Creates the objects and starts the first callback, once, exactly as the function says that the runs are proved about. |
| Lifecycle.RuntimeState.CallHostFunction | src/environment64.rs:1459-1583 | A host function runs, and execution goes on at a transfer if there is one and else at LR. |

## Left out

- The JIT, the A64 interpreter, graphics, sound output, windows and files: foreign calls.
- Dynamic linking: set-up happens before any trampoline exists and before any code is translated; binaries' stub and pointer sections are disjoint, 4-byte stubs reach their pointer within 12 bits, and fewer than 0x7ffffd functions are linked. For 4-byte stubs the slot that is written is the one that is loaded, two words past the one of the same index in the pointer section (`LazyLinker.StubOfEntry`).
- Dynamic linking: a host function is any code that gives PC and LR back; non-lazy binding, class registration, patches of bundled libraries, and clearing the stack after host calls are not modelled. A lazy-link trap outside every stub section, where the code panics, is a trap without effect.
- LoadOrder.GenerateBinaryLoadOrder: requires distinct names, because of two nodes with one name the later one hides the earlier.
- Threads: one abstract clock replaces real ones; debugger blocks, the grace counter before a deadlock is reported, panics and their unwinding are not modelled.
- Threads: mutexes, semaphores, conditions and file locks are created and then stay. A semaphore destroyed under a waiter still lets it through, and a mutex destroyed under a waiter for a condition makes the relock fail, so neither is covered by the invariants.
- Threads: code that sets what a thread is blocked on without the operations modelled here.
- Threads: thread-local storage, which is allocated and freed with the stack.
- Line breaking: in word mode, the offsets at which white space is found are taken to be those of characters; how wide text is drawn is any function that does not shrink when text is appended, over real numbers instead of floating point.
- PostTable: which bytes are UTF-8 and what the standard names are is left open, and every claim holds for all choices.
- Guest memory: mapped memory can be read and written; permissions, and the history of writes kept for diagnostics, are not modelled.
- C++ strings: objects start as valid strings; an operation applied to uninitialised memory, as a constructor may be, is not claimed to refine anything. Searching is not modelled, since searching backwards excludes matches that end after the starting place.
- Dictionary: its arrays are allocations of their own, as the runtime creates them.
- StartupStack.PrepareStack: says nothing about what a failure leaves behind, nor about success when something is mapped just below the stack; failures are not classified.
- Abi: floating-point arguments are their bit patterns; structures as arguments, a va_list that is written, and addresses that wrap around are not modelled. Host functions are functions of their arguments and of registers and memory.
- Adts: reading the container that packets come from is foreign; packets and their sizes are given.
- Lifecycle: display-link callbacks, static initializers and diagnostics are not modelled; which callbacks the guest implements does not change during a run, and guest functions return to the address in LR at their start.
