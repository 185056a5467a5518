# Verified models of the stack's algorithms

A Dafny model of the algorithms and state machines in this repository that are hard to get right, with machine-checked
proofs. `dafny verify dfyconfig.toml` checks all of it. Each `.dfy` file is one module.

| files | what they model |
|---|---|
| `Symbols`, `Instructions`, `TraceMachine`, `CallTree`, `Laminar`, `TraceFilter` | call-trace reconstruction from retired RISC-V instructions (`iminn-tools/src/iminnt/trace_gen.py`) |
| `SlotMapping` | context-parallel KV-cache slot mapping (`vllm_exploration/vllm_gpu_test/vllm_jetson_patch.py`) |
| `ChunkSizes`, `DeviceDriver`, `CumemAllocator`, `MemoryLifecycle`, `MemoryPool` | the chunked device-memory allocator, ROCm path (`vllm_exploration/vllm-src/csrc/cumem_allocator.cpp`) |
| `ArgInterpolation`, `ArgTidiness` | `${NAME}` interpolation of Dockerfile ARG defaults (`vllm_exploration/vllm-src/tools/generate_versions_json.py`) |
| `LlmRegistry` | lazy model loading under a lock, as interleaved calls (`speech_ai_exp/server/app/llm_registry.py`) |
| `VoiceActivity` | the browser's voice-activity state machine (`speech_ai_exp/server/static/app.js`) |
| `SessionStore` | the session cache over JSON files (`speech_ai_exp/server/app/session_store.py`, `main.py`) |
| `Benchmarks` | streaming-latency accounting and goodput (`vllm_exploration/vllm-src/benchmarks/`) |
| `Wrappers`, `Arithmetic` | result types and a few facts about products and quotients |

Code that changes state is a class or a method with loops, proved equal to a function of the old state; the results
over whole runs are lemmas about those functions. Exceptions and error returns are `Result` or `Option` values.

## How the models are set up

- **Traces** start from parsed instructions: mnemonics and registers are datatypes, and any other operand text is kept
  as text. `prev_instr` is read for its category only, so the state keeps that category. A call tree is a datatype with
  tail-call chains; `Flatten` gives the instructions it retires and `Events` the events it stands for.
- **Slots** are integers; a tensor slice assignment is a simultaneous assignment to an array range. `PAD_SLOT_ID` is -1.
- **The driver** is a class whose calls succeed or fail without reason; a call that succeeds obeys the driver's rules
  (new handles are not live, mappings do not overlap, reservations do not overlap). Ghost counters record failures, so
  that a contract can say "if no call failed" or "if no undo step failed". The driver must not refuse to undo a step
  for a rollback to be complete, and the contract of `CreateAndMap` says so. A handle stands for a piece of physical
  memory and carries the size it was created with, which the driver checks and the allocator never reads.
- **ARG values** are strings in the code and in the methods. The meaning of a value is a list of characters and
  references, which `Parse` reads from the text; text parses when no `$` in it could be turned into a new `${` by an
  insertion, and a dictionary is tidy when all its values parse.
- **The registry** is a state machine in which every read and write of a shared field is its own step.
- **Clocks, randomness, network and pipeline results** are inputs of the operations.

## What turned out false of the code, with the exact condition

- The trace machine inverts the flattening of a call tree if and only if no call or tail call stays within one symbol
  (`InvertsExactly`); direct recursion into straight-line code raises (`SelfCallRaises`).
- Without a target function and without the debug flag, the trace of a function body with no edge within one symbol is
  accepted if and only if its first instruction is a call (`UntargetedRun`).
- A run of the target function is traced from its first to its last instruction if and only if no return of the target
  comes earlier and no edge stays within one symbol (`TracedExactly`): only a return of the target switches tracing off.
  A target that re-enters itself loses its caller's event and leaves starts open, without an error
  (`ReentryLosesCaller`). A target whose tail-call chain ends in another function leaves tracing on: the code that called
  it is then traced as well (`LingeringRaises`), and when that code is left in turn the log is accepted if and only if
  the chain ended in the target, and raises an AssertionError otherwise (`ReturningExactly`).
- `c.jr x5` is a return by Table 2.1 of the RISC-V manual and a plain instruction to the code; it is the only
  indirect jump on which the two disagree (`ClassifyFollowsRasHints`).
- Filtering hides callees by the slash-free pieces of a caller's name, not by the name. It keeps the intended
  activations if and only if the two agree on every activation of the tree (`FilterExactly`). A slash in a name makes
  it hide too much or too little (`SlashHidesTooMuch`, `SlashHidesTooLittle`), any name on which they differ fails on a
  tree with one call (`MisalignedFails`), and an empty name in the skip list hides the root (`EmptySkipHidesRoot`). Every
  tree over a set of names is filtered as intended if and only if all of them are skipped, or each is cut exactly when it
  is skipped and the empty name is not skipped (`NamesFilteredExactly`).
- Local cache offsets stay inside a block if and only if there is one rank or the interleave size divides the block
  size (`LocalInRangeExactly`); otherwise rank 0 writes some position to the slot of
  the first position of the next block (`UnevenCollides`). The positions of a request have slots of their own on every
  rank if and only if one of the two holds (`CollisionExactly`).
- Rounding a size up is right if and only if the addition does not wrap (`RoundUpExactly`). The overflow guard of the
  chunk-size variable is not enough: some value rounds to zero if and only if the granularity exceeds one megabyte
  (`ZeroChunkExactly`), and `my_malloc` then divides by it (`Malloc`). The chunks add up to the size if and only if the
  chunk count does not wrap (`ChunksSumExactly`).
- `create_and_map` is all-or-nothing if no error code is set when its create loop starts. A stale code, or one that its
  own `ensure_context` sets, makes it create a handle and lose it. A failure to set access is not rolled back
  (`CreateAndMap`). `my_malloc` with a stale error code always returns null, and one that fails after the callback leaves
  a dead record with no memory behind it (`Malloc`), which breaks the invariant as soon as it counts as an allocation
  (`DeadIsNotLive`) and which neither `Sleep` nor `Free` accepts.
- An ARG value of a tidy dictionary is kept if and only if its references only climb the dictionary order
  (`ResolvedExactly`); a chain of two references in the usual order, definition before use, is dropped
  (`BackwardChainIsDropped`). In other text, insertion can form references that no default contains
  (`InsertionFormsReference`, `DollarBeforeReference`). Tidiness is exact: a text parses if and only if, wherever it
  stands among values that parse, an argument that nothing refers to makes no difference (`TidyExactly`).
- A saved turn is loaded unchanged if and only if its input mode is not empty (`TurnRoundTrip`), and a session if and only
  if that holds of all its turns (`SessionRoundTrip`).

## Model

| member | source | states |
|---|---|---|
| `Symbols.BisectRight` | iminn-tools/src/iminnt/trace_gen.py:220 | the bisection splits a sorted list into the entries at most the address and those above it |
| `Symbols.LookupIsScan` | iminn-tools/src/iminnt/trace_gen.py:218-225 | on every sorted table the bisecting lookup returns what a linear scan for the last symbol starting at or before the address returns |
| `Symbols.LookupFinds` | iminn-tools/src/iminnt/trace_gen.py:218-225 | a covering symbol is found when no later one also starts at or before the address |
| `Symbols.LookupDisjoint` | iminn-tools/src/iminnt/trace_gen.py:218-244 | for non-empty disjoint symbols the lookup returns the one covering symbol, or `nosym` when none covers |
| `Instructions.ClassifyRaises` | iminn-tools/src/iminnt/trace_gen.py:327-388 | classification raises exactly on instructions with too few operands, with an IndexError |
| `Instructions.ClassifyIsOrderFree` | iminn-tools/src/iminnt/trace_gen.py:537-566 | call, tail call and return exclude each other, so the order of the branches does not matter |
| `Instructions.DirectJumps` | iminn-tools/src/iminnt/trace_gen.py:327-352 | `jal` into x1 or x5 and every `c.jal` are calls; `jal x0` and `c.j` to the start of a symbol are tail calls; no direct jump is a return |
| `Instructions.IndirectJumps` | iminn-tools/src/iminnt/trace_gen.py:332-381 | every `jalr` by its two registers: call, return and tail call, including x6 with x28 when the lookup finds no symbol |
| `Instructions.Trampoline` | iminn-tools/src/iminnt/trace_gen.py:360-362 | on disjoint symbols, `jalr x6, x28` is a tail call if and only if no symbol covers its address, and plain otherwise |
| `Instructions.CompressedJumps` | iminn-tools/src/iminnt/trace_gen.py:327-388 | `c.jalr` without x5 is a call, `ret` and `c.jr x1` are returns, `c.jr` to an immediate start of a symbol is a tail call, and nothing else is one of the three |
| `Instructions.ClassifyFollowsRasHints` | iminn-tools/src/iminnt/trace_gen.py:331-388 | for every indirect jump, call is exactly push-only and return exactly pop-only in Table 2.1 (section 2.5 of the RISC-V Unprivileged ISA manual), except `c.jr x5`; a tail call never touches the stack |
| `Instructions.CompressedJumpThroughX5IsPlain` | iminn-tools/src/iminnt/trace_gen.py:386-388 | the exception: the table pops, the code sees a plain instruction |
| `TraceMachine.RunAppend` | iminn-tools/src/iminnt/trace_gen.py:619-636 | a run over two streams is the run over their concatenation, errors included |
| `TraceMachine.PlainAcceptedExactly` | iminn-tools/src/iminnt/trace_gen.py:594-610 | exactly after what a plain instruction is accepted, and that otherwise it raises a RuntimeError |
| `TraceMachine.TraceGen.constructor` | iminn-tools/src/iminnt/trace_gen.py:510-516 | the initial state: empty stacks, tracing on unless there is a target |
| `TraceMachine.TraceGen.ApplyCat` | iminn-tools/src/iminnt/trace_gen.py:534-612 | the branch for each category is the state function, errors included |
| `TraceMachine.TraceGen.ProcessInstr` | iminn-tools/src/iminnt/trace_gen.py:533-612 | one instruction changes the state as the state function says; an error leaves the events alone |
| `TraceMachine.TraceGen.RunTrace` | iminn-tools/src/iminnt/trace_gen.py:615-637 | the loop over the log computes the run, with target activation and the first error |
| `CallTree.RunBody` | iminn-tools/src/iminnt/trace_gen.py:533-612 | the body of an activation appends exactly the events of its callees and leaves both stacks as they were |
| `CallTree.RunActivation` | iminn-tools/src/iminnt/trace_gen.py:533-612 | for every call tree with tail-call chains and no edge within one symbol, in which at most the last return is one of the target: no error, one event per activation in completion order with its first cycle and duration, one call site popped, start stack unchanged, tracing off exactly after a return of the target |
| `CallTree.CountActivation` | iminn-tools/src/iminnt/trace_gen.py:534-535 | on any tree that does not raise, each edge within one symbol costs the start stack one entry |
| `CallTree.InvertsExactly` | iminn-tools/src/iminnt/trace_gen.py:533-612 | the machine inverts the flattening if and only if no edge stays within one symbol |
| `CallTree.SelfCallRaises` | iminn-tools/src/iminnt/trace_gen.py:606-607 | direct recursion into straight-line code raises |
| `CallTree.FallThroughRaises` | iminn-tools/src/iminnt/trace_gen.py:604-605 | running from one function into another without a jump raises a RuntimeError |
| `CallTree.EventsCountActivations` | iminn-tools/src/iminnt/trace_gen.py:548-584 | one event per activation |
| `CallTree.UntargetedRun` | iminn-tools/src/iminnt/trace_gen.py:533-612 | without a target the trace succeeds if and only if it opens with a call, and then holds the events of the whole tree |
| `CallTree.RunVisit` | iminn-tools/src/iminnt/trace_gen.py:615-637 | one visit of the target yields the events of its tree and empties both stacks; it leaves the machine idle if its tail-call chain ends in the target, and tracing otherwise |
| `CallTree.TargetedRun` | iminn-tools/src/iminnt/trace_gen.py:615-637 | any number of visits between other code yields exactly the events of the visited trees in order, and the machine is idle in the end if the last visit ends in the target, and still tracing otherwise |
| `CallTree.LingeringRaises` | iminn-tools/src/iminnt/trace_gen.py:564-590 | still tracing after a target that left by a tail call, the machine adds the events of the code that follows and raises an AssertionError when that code returns or tail-calls |
| `CallTree.ReturningExactly` | iminn-tools/src/iminnt/trace_gen.py:589-590 | a log up to the exit of the code that called the target is accepted if and only if the last visit ends in the target, and raises an AssertionError otherwise |
| `CallTree.TracedExactly` | iminn-tools/src/iminnt/trace_gen.py:615-637 | a run of the target is traced throughout without an error if and only if no return of the target precedes its last instruction and no edge stays within one symbol |
| `CallTree.ReentryLosesCaller` | iminn-tools/src/iminnt/trace_gen.py:589-590 | when the target calls a function that calls the target, two of three events are recorded, the outer one from its last instruction, and two starts stay open |
| `Laminar.TraceIsLaminar` | iminn-tools/src/iminnt/trace_gen.py:533-612 | on every stream with non-decreasing cycles that does not raise, durations are non-negative and any two events are nested or disjoint |
| `Laminar.CloseKeeps` | iminn-tools/src/iminnt/trace_gen.py:547-562 | closing the newest start keeps the family laminar and every open start outside each closed event |
| `TraceFilter.SplitJoin` | iminn-tools/src/iminnt/trace_gen.py:529-645 | splitting a joined call stack gives the slash-free pieces of its names, and one empty piece for an empty stack |
| `TraceFilter.FilterEvents` | iminn-tools/src/iminnt/trace_gen.py:640-650 | the loop keeps exactly the events whose name and stack pieces are not skipped, in order |
| `TraceFilter.FlagsAreShown` | iminn-tools/src/iminnt/trace_gen.py:640-650 | for every call tree and all names, the event of an activation is kept exactly when its name is not skipped and no slash-free piece of a calling function is, nor the empty name at the root |
| `TraceFilter.WantedIsCut` | iminn-tools/src/iminnt/trace_gen.py:652-654 | keeping the activations that are not skipped and have no skipped calling ancestor is cutting the skipped subtrees out of the tree |
| `TraceFilter.FilterExactly` | iminn-tools/src/iminnt/trace_gen.py:640-650 | the filter keeps exactly those activations if and only if every activation that is not skipped is hidden exactly when a calling ancestor is skipped; then the result is the tree with its skipped subtrees cut out |
| `TraceFilter.AlignedAgrees` | iminn-tools/src/iminnt/trace_gen.py:640-650 | names that cut their callees exactly when they are skipped, and no empty name in the skip list, meet that condition on every tree |
| `TraceFilter.FilteredTrace` | iminn-tools/src/iminnt/trace_gen.py:615-650 | a traced and filtered log with any number of target runs, of which the last may leave by a tail call, keeps exactly the wanted activations if and only if every visited tree meets the condition, and then is those trees with their skipped subtrees cut out |
| `TraceFilter.FilteredUntargetedTrace` | iminn-tools/src/iminnt/trace_gen.py:615-650 | the same for a trace without a target |
| `TraceFilter.SlashFreeIsAligned` | iminn-tools/src/iminnt/trace_gen.py:645-647 | slash-free symbol names are cut exactly when they are skipped |
| `TraceFilter.MisalignedFails` | iminn-tools/src/iminnt/trace_gen.py:645-647 | the converse: the trace of one call from a function to one that is not skipped is filtered as intended if and only if the caller's name cuts exactly when it is skipped |
| `TraceFilter.SlashHidesTooMuch` | iminn-tools/src/iminnt/trace_gen.py:645-647 | with "a" skipped, the filtered trace of "a/b" calling "g" lacks "g", although neither is skipped |
| `TraceFilter.SlashHidesTooLittle` | iminn-tools/src/iminnt/trace_gen.py:645-647 | with "a/b" skipped, the filtered trace of "a/b" calling "g" still holds "g" |
| `TraceFilter.EmptySkipHidesRoot` | iminn-tools/src/iminnt/trace_gen.py:645-647 | an empty name in the skip list hides a root that is not skipped |
| `TraceFilter.NamesFilteredExactly` | iminn-tools/src/iminnt/trace_gen.py:640-650 | all call trees over a set of names are filtered to their trees without skipped subtrees if and only if the names are all skipped, or each is cut exactly when skipped and the empty name is not skipped |
| `SlotMapping.OffsetRoundTrip` | vllm_exploration/vllm_gpu_test/vllm_jetson_patch.py:83-88 | owner and local offset of a virtual-block offset are in range and determine it |
| `SlotMapping.LocalRoundTrip` | vllm_exploration/vllm_gpu_test/vllm_jetson_patch.py:83-88 | every rank and local offset come from exactly one offset of the virtual block |
| `SlotMapping.LocalInRangeExactly` | vllm_exploration/vllm_gpu_test/vllm_jetson_patch.py:85-88 | local offsets stay inside the block if and only if there is one rank or the interleave divides the block size |
| `SlotMapping.RankIsMixedRadix` | vllm_exploration/vllm_gpu_test/vllm_jetson_patch.py:64-65 | the two parallel ranks number the world without gaps |
| `SlotMapping.SlotRoundTrip` | vllm_exploration/vllm_gpu_test/vllm_jetson_patch.py:81-94 | a written slot gives back its block number and, with the rank, its position |
| `SlotMapping.OneRankOwns` | vllm_exploration/vllm_gpu_test/vllm_jetson_patch.py:84-94 | for every position exactly one rank writes a slot and all others write PAD |
| `SlotMapping.ComputeSlotMapping` | vllm_exploration/vllm_gpu_test/vllm_jetson_patch.py:55-98 | after the loop every token entry is the slot of its position, the tail is PAD, and entries past the buffer limit are untouched |
| `SlotMapping.RequestOf` | vllm_exploration/vllm_gpu_test/vllm_jetson_patch.py:72-79 | the request boundaries leave no token out |
| `SlotMapping.NoCollision` | vllm_exploration/vllm_gpu_test/vllm_jetson_patch.py:75-95 | no two tokens share a slot when positions in a request and used blocks are distinct |
| `SlotMapping.UnevenCollides` | vllm_exploration/vllm_gpu_test/vllm_jetson_patch.py:81-94 | when the interleave does not divide the block size and there are several ranks, rank 0 writes two positions of a request with any two consecutive block numbers to one slot |
| `SlotMapping.CollisionExactly` | vllm_exploration/vllm_gpu_test/vllm_jetson_patch.py:81-94 | no rank writes two positions of a request to one slot if and only if virtual blocks split evenly |
| `SlotMapping.GlobalRoundRobin` | vllm_exploration/vllm_gpu_test/vllm_jetson_patch.py:81-84 | ownership is one round robin over all positions, across virtual blocks |
| `SlotMapping.SharesSumToPrefix` | vllm_exploration/vllm_gpu_test/vllm_jetson_patch.py:81-84 | over any prefix the ranks' shares add up to its length |
| `SlotMapping.OwnedIsShare` | vllm_exploration/vllm_gpu_test/vllm_jetson_patch.py:81-84 | the number of positions a rank owns has the closed form of full rounds plus its part of the last one |
| `SlotMapping.SharesAreBalanced` | vllm_exploration/vllm_gpu_test/vllm_jetson_patch.py:81-84 | the shares of any two ranks differ by at most the interleave size |
| `ChunkSizes.MemCreateChunkSize` | vllm_exploration/vllm-src/csrc/cumem_allocator.cpp:24-42 | the configured size is positive, below 2^64 and whole megabytes |
| `ChunkSizes.ConfiguredExactly` | vllm_exploration/vllm-src/csrc/cumem_allocator.cpp:24-42 | a positive number of megabytes that fits into 64 bits is the chunk size, and in every other case it is 256 megabytes |
| `ChunkSizes.RoundUpExactly` | vllm_exploration/vllm-src/csrc/cumem_allocator.cpp:341-368 | rounding up gives the least multiple not below the size if and only if the addition does not wrap, and zero otherwise |
| `ChunkSizes.ChunksSumExactly` | vllm_exploration/vllm-src/csrc/cumem_allocator.cpp:369-391 | the chunks add up to the size if and only if the chunk count does not wrap |
| `ChunkSizes.ChunkShape` | vllm_exploration/vllm-src/csrc/cumem_allocator.cpp:388-390 | every chunk is a positive multiple of the granularity, at most the chunk size |
| `ChunkSizes.FullChunks` | vllm_exploration/vllm-src/csrc/cumem_allocator.cpp:388-390 | all chunks but the last have the chunk size |
| `ChunkSizes.FillChunkSizes` | vllm_exploration/vllm-src/csrc/cumem_allocator.cpp:374-391 | the loop fills the array with those chunks, and no subtraction wraps |
| `ChunkSizes.LargestEnvRoundsToZero` | vllm_exploration/vllm-src/csrc/cumem_allocator.cpp:36-41 | the largest value that passes the overflow guard rounds to zero for every granularity above one megabyte |
| `ChunkSizes.ZeroChunkExactly` | vllm_exploration/vllm-src/csrc/cumem_allocator.cpp:24-42 | some setting of the variable gives a chunk size of zero if and only if the granularity exceeds one megabyte |
| `DeviceDriver.TilesPartition` | vllm_exploration/vllm-src/csrc/cumem_allocator.cpp:160-179 | the tiles of an allocation cover exactly its address range and no address twice |
| `CumemAllocator.Cumem.ReleaseChunks` | vllm_exploration/vllm-src/csrc/cumem_allocator.cpp:228-233 | all handles are tried, the first error is reported, and without errors exactly these handles are gone |
| `CumemAllocator.Cumem.UnmapChunks` | vllm_exploration/vllm-src/csrc/cumem_allocator.cpp:219-226 | all tiles are tried, the first error is reported, and without errors exactly these tiles are gone |
| `CumemAllocator.Cumem.CreateChunks` | vllm_exploration/vllm-src/csrc/cumem_allocator.cpp:150-159 | a handle of its own size for every chunk, or none, from a clear error code; one lost handle from a stale one |
| `CumemAllocator.Cumem.MapChunks` | vllm_exploration/vllm-src/csrc/cumem_allocator.cpp:160-179 | every chunk is mapped after the one before it, or tiles and handles are as they were |
| `CumemAllocator.Cumem.CreateAndMap` | vllm_exploration/vllm-src/csrc/cumem_allocator.cpp:95-193 | all-or-nothing for arbitrary create and map failures when the error code is clear at the start of the create loop; on success each chunk is mapped to a new handle of its size and every tile in the range is open to the device; one handle lost when the code is not clear, whether stale or set by the context call; full mapping kept when setting access fails; the error code is clear if and only if nothing failed |
| `CumemAllocator.Cumem.UnmapAndRelease` | vllm_exploration/vllm-src/csrc/cumem_allocator.cpp:195-261 | no failing call goes unreported; without one the allocation is unmapped, released and its range reserved again |
| `MemoryLifecycle.RunKeeps` | vllm_exploration/vllm-src/csrc/cumem_allocator.cpp:321-560 | over every run of allocate, sleep, wake and free: well-formed chunks, live handles and tiles exactly those of awake allocations, reserved ranges exactly those not freed |
| `MemoryLifecycle.WakeRestores` | vllm_exploration/vllm-src/csrc/cumem_allocator.cpp:686-751 | however often it sleeps and wakes, an allocation is mapped to the same address ranges |
| `MemoryLifecycle.CanUnmap` | vllm_exploration/vllm-src/csrc/cumem_allocator.cpp:195-261 | the invariant gives what unmapping an awake allocation needs |
| `MemoryLifecycle.NoWrapIsPlanned` | vllm_exploration/vllm-src/csrc/cumem_allocator.cpp:341-370 | when no addition wraps, aligned size and chunk size are usable multiples of the granularity |
| `MemoryLifecycle.PlannedIsWellChunked` | vllm_exploration/vllm-src/csrc/cumem_allocator.cpp:366-391 | planned chunks are positive granularity multiples that add up to the aligned size |
| `MemoryPool.Pool.Malloc` | vllm_exploration/vllm-src/csrc/cumem_allocator.cpp:321-449 | a pointer comes with a record of the least multiple of the granularity not below the requested size, in which every chunk but the last has the rounded configured chunk size; without failures and wrapping it is an allocate step at that address and all that is mapped is open to the device; when only setup calls fail the driver and all live records are as before, the invariant holds and at most one dead record comes in; with a stale error code it returns null, keeps the code and changes nothing; it divides by zero only if rounding the chunk size wraps, and always then when no call fails |
| `MemoryPool.Pool.MallocAligned` | vllm_exploration/vllm-src/csrc/cumem_allocator.cpp:343-449 | the same from the aligned sizes, which the record has exactly: it divides by zero only for a chunk size of zero, and always then when no call fails |
| `MemoryPool.Pool.Reserve` | vllm_exploration/vllm-src/csrc/cumem_allocator.cpp:343-353 | reserves a new range, or reports an error and reserves nothing |
| `MemoryPool.Pool.Setup` | vllm_exploration/vllm-src/csrc/cumem_allocator.cpp:322-340 | makes a context current and returns the driver's granularity, or reports an error |
| `MemoryPool.Pool.MapNew` | vllm_exploration/vllm-src/csrc/cumem_allocator.cpp:366-448 | plans and maps the chunks and records the allocation; fails if and only if a driver call fails; after failing creates or maps handles, tiles and reservation are gone and the record stays, dead |
| `MemoryPool.Pool.Sleep` | vllm_exploration/vllm-src/csrc/cumem_allocator.cpp:588-684 | a sleep step of a live allocation, reported as failed if and only if an error was pending or a driver call failed, with the error code cleared; a dead record is always reported |
| `MemoryPool.Pool.Wake` | vllm_exploration/vllm-src/csrc/cumem_allocator.cpp:686-751 | a wake step under new handles, with the same reporting; after failing creates or maps the allocation is still asleep and the invariant holds |
| `MemoryPool.Pool.Free` | vllm_exploration/vllm-src/csrc/cumem_allocator.cpp:452-560 | for any size: a free step takes away the mapping and the reservation of the allocation and nothing else; a size other than the recorded one, or a dead record, is reported as an error |
| `MemoryPool.DeadIsNotLive` | vllm_exploration/vllm-src/csrc/cumem_allocator.cpp:412-448 | a dead record has no reservation, so that counted as an allocation it breaks the invariant |
| `ArgInterpolation.Resolve` | vllm_exploration/vllm-src/tools/generate_versions_json.py:73-83 | the two loops keep exactly the arguments whose interpolated value has no `${` left |
| `ArgInterpolation.ParseIsClean` | vllm_exploration/vllm-src/tools/generate_versions_json.py:75-80 | text that parses is clean and is what its characters and references render to |
| `ArgInterpolation.ParseRender` | vllm_exploration/vllm-src/tools/generate_versions_json.py:75-80 | every clean list of characters and references is parsed back from its text |
| `ArgInterpolation.ResolvedExactly` | vllm_exploration/vllm-src/tools/generate_versions_json.py:73-83 | on the text of a tidy dictionary, for any order and any cycles: an argument is kept if and only if its references, followed through the dictionary, only climb its order, and its value is then the recursive expansion of its default |
| `ArgInterpolation.ExpandMore` | vllm_exploration/vllm-src/tools/generate_versions_json.py:72 | the expansion of a value is unique |
| `ArgInterpolation.EverythingResolved` | vllm_exploration/vllm-src/tools/generate_versions_json.py:74-81 | with references only to later names, or only to literals, every argument of a tidy dictionary is kept |
| `ArgInterpolation.BackwardChainIsDropped` | vllm_exploration/vllm-src/tools/generate_versions_json.py:74-81 | three arguments in definition-before-use order of which the loop drops the last although it has an expansion |
| `ArgInterpolation.InsertionFormsReference` | vllm_exploration/vllm-src/tools/generate_versions_json.py:75-80 | every default that ends in `$` fails to parse and forms, before `{B}`, a reference that the loop then replaces |
| `ArgInterpolation.DollarBeforeReference` | vllm_exploration/vllm-src/tools/generate_versions_json.py:75-80 | `$` before a reference does the same: the loop keeps a value that no expansion gives |
| `ArgTidiness.UnreferencedIsIgnored` | vllm_exploration/vllm-src/tools/generate_versions_json.py:73-81 | in a tidy dictionary the value of a last argument that nothing refers to makes no difference to any interpolated text |
| `ArgTidiness.FindFlaw` | vllm_exploration/vllm-src/tools/generate_versions_json.py:75-80 | a text that does not parse ends in `$`, has `$` before a reference, an unclosed `${`, or a `${` inside a reference |
| `ArgTidiness.UntidyBreaks` | vllm_exploration/vllm-src/tools/generate_versions_json.py:73-81 | every text that does not parse is part of a dictionary in which the loop's result depends on an argument that no value refers to |
| `ArgTidiness.TidyExactly` | vllm_exploration/vllm-src/tools/generate_versions_json.py:73-81 | a text parses if and only if, among values that parse, arguments that nothing refers to make no difference |
| `LlmRegistry.StepKeeps` | speech_ai_exp/server/app/llm_registry.py:61-86 | every atomic step of any call keeps the invariant |
| `LlmRegistry.BuiltAtMostOnce` | speech_ai_exp/server/app/llm_registry.py:68-84 | in every interleaving each model is built at most once and loaded implies that the instance is set |
| `LlmRegistry.MutualExclusion` | speech_ai_exp/server/app/llm_registry.py:68 | no two calls are inside the lock of one entry |
| `LlmRegistry.SameInstance` | speech_ai_exp/server/app/llm_registry.py:86 | all returning calls for a model get the same instance, marked as loaded |
| `LlmRegistry.InstanceIsStable` | speech_ai_exp/server/app/llm_registry.py:78 | once set, an instance never changes |
| `LlmRegistry.InstancesDiffer` | speech_ai_exp/server/app/llm_registry.py:77-78 | in every interleaving, different models have different instances |
| `LlmRegistry.ModelIdExactly` | speech_ai_exp/server/app/llm_registry.py:62 | a request of nothing but white space asks for the default model, any other one for the text between its white space, and that is the model looked up |
| `LlmRegistry.ServesWhatIsAsked` | speech_ai_exp/server/app/llm_registry.py:61-86 | over every run, a call waits for the model it asked for or raises when there is none; afterwards it raises only if its build fails, and it returns the instance of that model |
| `LlmRegistry.FailedBuildIsRetriable` | speech_ai_exp/server/app/llm_registry.py:68-79 | a failed build leaves the entry untouched, unlocked and ready for the next waiting call to build |
| `LlmRegistry.NoDeadlock` | speech_ai_exp/server/app/llm_registry.py:61-86 | while a call is unfinished some call can step |
| `VoiceActivity.AutoVoice.constructor` | speech_ai_exp/server/static/app.js:48-62 | the initial state |
| `VoiceActivity.AutoVoice.RunVadTick` | speech_ai_exp/server/static/app.js:320-354 | one tick, with the second clock reading of the function it calls |
| `VoiceActivity.AutoVoice.Handle` | speech_ai_exp/server/static/app.js:259-396 | every event of the page takes the object through one step of the state machine |
| `VoiceActivity.AutoVoice.Play` | speech_ai_exp/server/static/app.js:259-396 | whatever events arrive on a monotone clock, the object goes through a run, to which the run results apply, and keeps its invariant |
| `VoiceActivity.RunKeeps` | speech_ai_exp/server/static/app.js:48-62 | over every run: only an enabled microphone listens, a recording began in the past and its silence after it |
| `VoiceActivity.ArmedTick` | speech_ai_exp/server/static/app.js:320-334 | in every run, a tick while armed starts a recording if and only if the level exceeds both 0.012 and 2.8 times the noise floor, dated at its second clock reading; the noise floor moves to the level with weights 0.92 and 0.08 |
| `VoiceActivity.RecordingTick` | speech_ai_exp/server/static/app.js:336-354 | in every run, a tick while recording ends it if and only if the level is not above the threshold after 400 ms of speech and 1000 ms of silence, or after 30 s; otherwise it only notes or forgets the silence |
| `VoiceActivity.IdleTick` | speech_ai_exp/server/static/app.js:320-323 | ticks change nothing while off, processing or finishing |
| `VoiceActivity.Buttons` | speech_ai_exp/server/static/app.js:259-396 | what starting, stopping, the stop button and the end of a turn do |
| `VoiceActivity.SentExactly` | speech_ai_exp/server/static/app.js:299-315 | in every run, a stopped recording is sent if and only if at least 256 bytes were delivered since it began |
| `VoiceActivity.PhaseMoves` | speech_ai_exp/server/static/app.js:259-396 | every way in which the phase can change |
| `VoiceActivity.TickFinishIsNotRefused` | speech_ai_exp/server/static/app.js:284-354 | a finish asked for by a tick is never refused, ends the recording, and follows at least the minimum speech time |
| `VoiceActivity.PauseIsShort` | speech_ai_exp/server/static/app.js:338-353 | while a recording goes on, any two silent ticks of one pause are less than SILENCE_MS apart and the recording is younger than MAX_TURN_MS |
| `VoiceActivity.SpeechHasNoAgeLimit` | speech_ai_exp/server/static/app.js:338-341 | a tick that hears speech never ends the recording, whatever its age |
| `SessionStore.TurnRoundTrip` | speech_ai_exp/server/app/session_store.py:28-43 | decoding an encoded turn gives it back if and only if its input mode is not empty |
| `SessionStore.DecodeTurnExactly` | speech_ai_exp/server/app/session_store.py:31-43 | a turn is decoded if and only if its four required keys are there, and every other missing key has its default |
| `SessionStore.SessionRoundTrip` | speech_ai_exp/server/app/session_store.py:63-82 | saving and loading never fails and is the identity if and only if every turn carries an input mode |
| `SessionStore.SessionCache.GetSession` | speech_ai_exp/server/app/session_store.py:121-129 | the cached session, else the one on disk, which is then cached |
| `SessionStore.SessionCache.PostTurn` | speech_ai_exp/server/app/main.py:219-243 | appends the next turn, stamps the session and saves it on success; on failure only the cached memory changes |
| `SessionStore.SessionCache.DeleteSession` | speech_ai_exp/server/app/session_store.py:137-147 | removes cache entry, file and directory, and reports whether there was one |
| `SessionStore.SessionCache.Handle` | speech_ai_exp/server/app/session_store.py:112-147 | every request, and a restart, acts as on two plain maps, of the saved and of the live sessions, and keeps cache and disk consistent |
| `SessionStore.SessionCache.Serve` | speech_ai_exp/server/app/session_store.py:85-147 | the store object over any sequence of requests and restarts holds the sessions of the two plain maps |
| `SessionStore.NewTurnIsNumbered` | speech_ai_exp/server/app/main.py:291 | appending the handler's turn keeps turns numbered 1..n with a non-empty mode |
| `SessionStore.StepRefines` | speech_ai_exp/server/app/session_store.py:98-147 | every operation acts as on two plain maps of whole sessions: turns, stamps and memory, with unsaved memory in the live map only |
| `SessionStore.StoreRefinesMap` | speech_ai_exp/server/app/session_store.py:85-147 | after any sequence of operations, restarts included, the store holds the sessions of the two plain maps |
| `SessionStore.GetAnswersFromMap` | speech_ai_exp/server/app/session_store.py:121-147 | get answers with the live map's session, its turns numbered 1..n and as saved; a session that is not there has no cache entry, file or directory |
| `Benchmarks.TrtLlmTiming` | vllm_exploration/vllm-src/benchmarks/backend_request_func.py:159-189 | the parts are those of the tokens that arrived and add up to the latency on any clock; on a monotone clock none is negative |
| `Benchmarks.ChatTiming` | vllm_exploration/vllm-src/benchmarks/backend_request_func.py:418-462 | the same parts; latency exceeds them by exactly the time before the usage records behind the first token, or by all of it when no token counts as the first; on a monotone clock nothing is negative |
| `Benchmarks.MeasuresInFull` | vllm_exploration/vllm-src/benchmarks/backend_request_func.py:175-189 | the first-token time is that of the first token not at the start time, and every later token has one inter-token time, its time less that of the chunk before it; without such a token there are none |
| `Benchmarks.GapOfToken` | vllm_exploration/vllm-src/benchmarks/backend_request_func.py:184-187 | the k-th later token has the k-th inter-token time |
| `Benchmarks.TpotIsNonNegative` | vllm_exploration/vllm-src/benchmarks/benchmark_serving_structured_output.py:341-346 | a timing whose parts are non-negative and do not exceed its latency, which both loops ensure on a monotone clock, gives a non-negative time per output token |
| `Benchmarks.TpotScales` | vllm_exploration/vllm-src/benchmarks/benchmark_serving_structured_output.py:341-346 | time per output token times the tokens after the first is the latency after the first token |
| `Benchmarks.CheckGoodputArgs` | vllm_exploration/vllm-src/benchmarks/benchmark_serving_structured_output.py:733-751 | accepts exactly the configurations with known names and non-negative limits |
| `Benchmarks.CollectMetrics` | vllm_exploration/vllm-src/benchmarks/benchmark_serving_structured_output.py:330-354 | the per-request lists line up with the successful requests |
| `Benchmarks.CountRows` | vllm_exploration/vllm-src/benchmarks/benchmark_serving_structured_output.py:376-379 | counting rows of the configured columns counts the requests within every limit |
| `Benchmarks.GoodInMilliseconds` | vllm_exploration/vllm-src/benchmarks/benchmark_serving_structured_output.py:356-379 | a request is good if and only if it succeeded and its times in milliseconds are within the limits |
| `Benchmarks.Goodput` | vllm_exploration/vllm-src/benchmarks/benchmark_serving_structured_output.py:356-379 | for every accepted configuration the count is the number of successful requests that meet every limit, at most the completed ones |

## Left out

- Text parsing of trace lines, ELF and DWARF reading, and JSON writing: library input and output. `from_str` reads `a0` as a number and expands `jr` twice; nothing is claimed about parsed text.
- The events of a target that re-enters itself in general: `CallTree.TracedExactly` says exactly when it is not traced throughout, and only its smallest case is worked out.
- The Triton kernel, the sampler patch and tensor types: thin wrappers or not in the repository.
- ArgInterpolation.ResolvedExactly: is stated for tidy dictionaries, which a caller can check with `Parse`; the loss outside them is `ArgTidiness.TidyExactly`, text by text, and `Resolve` is stated for all text. Names that contain `}` or `${` are not covered.
- ArgInterpolation.EverythingResolved: is stated for tidy dictionaries, for the same reason.
- The first loop of `parse_dockerfile_args`, which collects defaults and strips quotes: it would only add easy members.
- CUDA path, allocation flags, Python object handling and host `malloc` failures: foreign calls.
- Interleavings inside `SessionStore.get` and `delete`, which release the lock between cache and disk: operations are modelled one after another, and sessions are values, so a handler's in-place change is written to the cache entry.
- Decoding of documents that no `to_dict` writes (numbers where strings belong): the model answers None.
- `list_sessions`, `history_messages`, HTTP status codes and audio files: they would only add easy members.
- `parse_llm_registry` and logging: configuration reading.
- DOM updates, recorder internals and network calls of the page: recorder data, recorder stop and the end of a turn are events.
- HTTP, SSE decoding and tokenizers of the benchmarks: chunks carry their time and outputs their length. The TGI and completions loops read the clock twice for the first token and are not modelled. Percentiles and means are NumPy calls.
- Floating point: times, noise levels and limits are real numbers.
- Build, deployment and launch scripts of the rest of the repository.
