# Models of the CVA6 repository's software algorithms

The repository is mostly hardware; this project models the self-contained algorithms in its C, C++ and Python software
and proves what they promise. Each group of modules follows one source file:

| files | source | subject |
|---|---|---|
| `Barrier.dfy` | `sw/app/common/util.h` | the sense-reversing barrier, as a transition system over arbitrary interleavings |
| `ListNodes.dfy`, `ListOrder.dfy`, `MergeSort.dfy`, `ListOps.dfy`, `BenchSearch.dfy`, `BenchList.dfy`, `ListPatterns.dfy`, `ListInit.dfy`, `ListSuite.dfy` | `sw/app/coremark/core_list_join.c`, `core_main.c` | the CoreMark list benchmark on heap nodes |
| `CacheChain.dfy`, `CacheMisses.dfy`, `CacheWidths.dfy`, `CacheTags.dfy`, `CacheVictims.dfy`, `CacheSim.dfy`, `CacheLoss.dfy`, `CacheShared.dfy` | `corev_apu/tb/riscv-isa-sim/riscv/cachesim.cc`, `cachesim.h` | the cache simulator: chains of caches, what their counters count, which bytes of a store they keep, tag words, the shift register, the two cache classes, runs that lose a byte, shared handlers |
| `ConvSpec.dfy`, `Conv.dfy`, `ConvLayers.dfy`, `Propagate.dfy` | `sw/app/mnist/NetworkPropagate.c`, `mem_info.h` | the quantised network in its overlapping arena |
| `StateGrammar.dfy`, `StateScan.dfy`, `StateBench.dfy` | `sw/app/coremark/core_state.c` | the number scanner, and a text that is corrupted and repaired |
| `Crc.dfy` | `sw/app/coremark/core_util.c` | the bitwise CRC-16 |
| `Isqrt.dfy` | `sw/app/mnist/utils.h` | the shift-only integer square root |
| `TraceLog.dfy` | `verif/sim/cva6_spike_log_to_trace_csv.py`, `verilator_log_to_trace_csv.py` | the streaming log readers |
| `Arith.dfy`, `Words.dfy` | | shared facts about numbers, sets, sequences and the bits of small words |

`dafny verify dfyconfig.toml` checks everything.

## How the source is modelled

- **Concurrency.** The barrier's shared accesses are one step each and interleave in any order. Sequential consistency
  is an assumption: the source has a full fence at either end of a call and an atomic fetch-and-add, but nothing that
  orders `count = 0` before `sense = threadsense` on a weakly ordered machine. Runs are arbitrary sequences of thread
  numbers; fairness is assumed only where a call is shown to return.
- **Heap.** List nodes, data records, caches, buffers and counters are objects or arrays that the methods change in
  place. Each loop of the source is a loop here, proved against a function or relation on snapshots of the heap, and
  the properties are lemmas about those.
- **Words.** 16-bit list items are their bit patterns, with masks and shifts written as `/` and `%`; cache tag words are
  naturals below 2^64 with bits handled the same way (shifts by `idx_shift` and masks with powers of two minus one
  become division and remainder); the CRC, the LFSR and the scanner's bytes are bit-vectors. 32-bit sums of the network
  and of the square root are integers that are proved to stay in range.
- **Unknown parts.** What `core_bench_state` and `core_bench_matrix` return inside `calc_func` is an arbitrary 16-bit
  value. Weights and biases are arbitrary tables. A log line is known by which regular expressions match it.
- **Constructor exits.** `help()` ends the process; `Construct` returns null instead.

## Where the source and its promises differ

- The comment of `core_bench_list` says the list ends in its original state. Every call keeps that promise if and only
  if the indices strictly increase (`BenchList.RestoredExactly`): for any other list, one search for index 0 already
  breaks it. `BenchList.CoreBenchList` also states what holds with ties: the same index stands at every place.
  `core_list_init` may produce equal numbers; `ListInit.CoreListInit` says exactly when it does not, and
  `ListSuite.Suite` is the benchmark on such a list. For up to 258 cells it depends on every eighth item only
  (`ListInit.NumbersDistinctExactly`); the numbers of the performance, validation and profiling runs are distinct
  (`ListInit.SuiteNumbersDistinct`).
- `convcellPropagate1` notes that wrapping cannot occur inside a line unless there is only one. For a single line whose
  pixels are further apart than their channels the wrap test can miss the end of the buffer
  (`ConvSpec.UnpackedLineMissesWrap`); `ConvSpec.RowAddressesExactly` says when the addresses are right.
- `cache_sim_t::access` never splits a request: it marks the line of the first byte, and what it writes back is the
  line of its own size at that line's base. A byte of a store therefore survives every run through two levels if and
  only if it lies in the upper line the store starts in, and the lower line of that line's base also holds the byte
  (`CacheWidths.BytesKeptExactly`). So no program loses a byte if and only if the lower line size is a multiple of the
  upper one and no store crosses an upper line end (`CacheWidths.LineSizesExactly`); aligned stores of 1, 2, 4 and 8
  bytes never do, and for the powers of two that `init` accepts the condition is that line sizes do not shrink
  downwards (`CacheWidths.AcceptedSizesExactly`). In the chain model, where the victims are free, this holds for some
  choice of victims; `CacheLoss` shows the losses for the objects themselves, with 64-bit addresses and the victims
  their shift registers draw, for first caches with sets * (ways + 1) * linesz up to 2^64.
- `help()` says the number of ways must be positive, but `init` does not look at it. An object with zero ways is
  constructed and is unusable: its first miss takes a remainder by zero. `CacheSim.Cache.Construct` says so.
- The scanned text survives corruption only under conditions. For one call, every seed is safe if and only if the step
  is at least 2 (`StateBench.StepTwoExactly`). Over several calls the steps may differ, since `calc_func` takes them
  from the items: given steps are safe for all texts of a length and all seeds if and only if they do not visit both
  final NULs (`StateBench.SafeStepsExactly`), and arbitrary steps from 2 on are safe if and only if the seed bytes
  agree and are not a comma, also when only built texts are considered (`StateBench.AnyStepsExactly`). The steps of
  `calc_func` are multiples of 17 and therefore always safe (`StateBench.CalcFuncCallsEnd`).
- A character that is illegal at the start is charged to two counters, and one after a complete scientific number to
  the `INVALID` counter rather than the `SCIENTIFIC` one; the model keeps both.
- One of the four patterns that `core_init_state` calls scientific, "-87e+832", has no dot; the scanner calls it invalid
  (`StateBench.PatternMeans`).
- The Spike reader drops the line that ends the trampoline, the Verilator reader processes it.

## Model

| member | source | states |
|---|---|---|
| Barrier.RunInv | sw/app/common/util.h:44-62 | one inductive invariant (phases, arrivals, senses, count) holds after every schedule of any number of threads |
| Barrier.NobodyLeavesEarly | sw/app/common/util.h:52-59 | no thread finishes its k-th call before every thread has started its k-th call; calls started by any two threads differ by at most one |
| Barrier.CountIsArrivals | sw/app/common/util.h:47-55 | `count` is exactly the number of threads that have arrived in the open round, up to the one step that zeroes it |
| Barrier.ResetIsUndisturbed | sw/app/common/util.h:53-57 | from the last arrival until `sense` is published every other thread is spinning, and its steps change nothing |
| Barrier.NeverDeadlocked | sw/app/common/util.h:53-59 | in every reachable state some thread's next step changes the state, so never are all threads spinning on a stale `sense` |
| Barrier.StepProgress | sw/app/common/util.h:52-59 | every step that is not an idle spin strictly reduces the work left in the round |
| Barrier.RoundCompletes | sw/app/common/util.h:53-59 | under every fair schedule each open round is eventually published |
| Barrier.EveryCallReturns | sw/app/common/util.h:44-62 | liveness: under every fair schedule each thread finishes any number of calls |
| ListNodes.CalcFunc | sw/app/coremark/core_list_join.c:69-114 | a cached item returns its 7-bit value and changes nothing; otherwise the low byte becomes bit 7 plus the value, the backup byte stays, the CRC is folded once, and the first non-zero benchmark results are latched |
| ListNodes.CmpComplex | sw/app/coremark/core_list_join.c:120-126 | compares by the 7-bit values, caching both; each value not cached before is computed once |
| ListNodes.CmpIdx | sw/app/coremark/core_list_join.c:133-142 | compares by index; without a result record both low bytes are rebuilt from their backups |
| ListOrder.EvolvesTrans | sw/app/coremark/core_list_join.c:69-142 | what comparisons do to the data composes: values are computed at most once over any number of comparisons |
| ListOrder.SortedUnique | sw/app/coremark/core_list_join.c:499-595 | a stable order of distinct nodes is unique, so the sort has exactly one correct result |
| ListOrder.AppendRun | sw/app/coremark/core_list_join.c:533-577 | merging two runs onto a list of full runs keeps it a list of full runs |
| MergeSort.Compare | sw/app/coremark/core_list_join.c:551-551 | the call through the function pointer rewrites only the two compared items, settles both, and answers by their keys |
| MergeSort.Merge | sw/app/coremark/core_list_join.c:533-577 | one in-place merge of two adjacent runs links a stable sorted run of exactly their nodes behind the tail |
| MergeSort.StepAlong | sw/app/coremark/core_list_join.c:518-527 | `q` ends `insize` places behind `p`, or at the end of the list, and `psize` counts the steps |
| MergeSort.Pass | sw/app/coremark/core_list_join.c:509-583 | one pass doubles the length of the sorted runs over the same nodes; one merge or none means the list was at most two runs |
| MergeSort.Mergesort | sw/app/coremark/core_list_join.c:499-595 | terminates on every non-empty acyclic list with a NULL-terminated stable permutation of the same nodes, ordered by the final keys; with two nodes or more every item has been compared |
| MergeSort.ValueSortMeans | sw/app/coremark/core_list_join.c:120-126 | the sort by value leaves every item cached with its backup byte, computes each missing value exactly once, and orders by the cached values, ties in old order |
| MergeSort.IndexSortMeans | sw/app/coremark/core_list_join.c:133-142 | the sort by index is stable, leaves indices alone and, without a result record, rebuilds every data item from its backup |
| ListOps.Find | sw/app/coremark/core_list_join.c:434-449 | returns the first node with the index (or, for a negative index, the low data byte), or NULL exactly when there is none |
| ListOps.FindMeans | sw/app/coremark/core_list_join.c:434-449 | the first match is the first node whose record has the index, or for a negative index the low data byte |
| ListOps.Reverse | sw/app/coremark/core_list_join.c:464-476 | relinks the same nodes in reverse order, touching no data |
| ListOps.Splice | sw/app/coremark/core_list_join.c:189-195 | moves the node after the found one behind the head and leaves the rest in order |
| ListOps.Remove | sw/app/coremark/core_list_join.c:376-389 | unlinks the next node after exchanging the two data pointers |
| ListOps.UndoRemove | sw/app/coremark/core_list_join.c:407-419 | links a removed node behind another and exchanges their data pointers |
| ListOps.SwappedTwice | sw/app/coremark/core_list_join.c:376-419 | exchanging two data pointers twice restores the contents |
| ListOps.InsertedWithout | sw/app/coremark/core_list_join.c:376-419 | inserting a removed node at its place gives back the sequence |
| BenchSearch.SearchTurn | sw/app/coremark/core_list_join.c:173-202 | one turn of the search loop (find, reverse, splice, counters) is one step of the specification on the node sequence |
| BenchSearch.SearchLoop | sw/app/coremark/core_list_join.c:173-203 | after n searches the nodes stand as n times "reverse, and put the node behind the first match second" leaves them, the contents are untouched, and `retval` + n is, modulo 2^16, five times the hits plus the bits added: bit 9 of an odd item found, bit 8 of the last but one node on a miss |
| BenchSearch.StepMeans | sw/app/coremark/core_list_join.c:173-203 | each step hits if and only if some node matches, and then counts one hit, adds at most the one bit, and moves the successor of the first match; otherwise it counts one miss |
| BenchSearch.HitsMean | sw/app/coremark/core_list_join.c:173-203 | the hits and bits are the numbers of turns in which some node matches, or in which the bit added is set |
| BenchList.CrcLoop | sw/app/coremark/core_list_join.c:213-217 | the CRC loop folds the head's data once per remaining node, whatever the finder points to |
| BenchList.CrcTimesMeans | sw/app/coremark/core_list_join.c:213-217 | the loop's CRC is that of a message of as many copies of the item as nodes were visited |
| BenchList.CopiesMean | sw/app/coremark/core_list_join.c:213-217 | the bits of that message are those of the item, the lowest first, over and over |
| BenchList.TailMeans | sw/app/coremark/core_list_join.c:210-212 | the nodes visited are those from the first match on, or all but the head when nothing matches |
| BenchList.RemoveCrcUndo | sw/app/coremark/core_list_join.c:207-221 | remove, CRC and undo leave sequence and contents as they were and add exactly the specified CRC |
| BenchList.ContentsRestored | sw/app/coremark/core_list_join.c:205-223 | value sort then index sort gives every node its own record back, with the data its backup byte prescribes |
| BenchList.OrderRestored | sw/app/coremark/core_list_join.c:223-223 | for strictly increasing indices the index sort of any permutation is the original sequence |
| BenchList.RebuiltIntact | sw/app/coremark/core_list_join.c:136-140 | rebuilding leaves contents unchanged if and only if every low byte equals its backup |
| BenchList.IndicesRestored | sw/app/coremark/core_list_join.c:223-223 | two orders of the same nodes by index show the same index at every place |
| BenchList.TieIsSwapped | sw/app/coremark/core_list_join.c:173-202 | one search for index 0 puts the later of two tied neighbours before the earlier |
| BenchList.TiesExactly | sw/app/coremark/core_list_join.c:158-235 | an ordered list comes back from that call if and only if its indices are distinct |
| BenchList.OthersDoNotReturn | sw/app/coremark/core_list_join.c:158-235 | every list that is not strictly ordered has a call that does not bring it back |
| BenchList.RestoredExactly | sw/app/coremark/core_list_join.c:151-235 | every call restores the sequence if and only if the indices strictly increase |
| BenchList.CoreBenchList | sw/app/coremark/core_list_join.c:158-235 | the whole benchmark: contents rebuilt (unchanged if and only if all low bytes equalled their backups), list in index order with the same index at every place, original sequence and head for distinct indices; the return value is the CRC of the head's data, once per node visited in each of the two loops, started from the value of the searches |
| ListInit.CellsApart | sw/app/coremark/core_list_join.c:254-260 | header and data cells of the block never overlap and none sticks out of it |
| ListInit.CoreListInsertNew | sw/app/coremark/core_list_join.c:335-360 | the bump allocator refuses exactly when one of the regions is used up, and otherwise links a fresh cell behind the insertion point |
| ListInit.BuildAll | sw/app/coremark/core_list_join.c:266-288 | links exactly size - 1 nodes, the items carrying the specified pattern in both bytes and the specified numbers |
| ListInit.Number | sw/app/coremark/core_list_join.c:289-305 | gives the i-th node its number (its place in the first 20%, a mixed one below 0x7fff after that) and leaves links and data alone |
| ListPatterns.NumberMeans | sw/app/coremark/core_list_join.c:289-305 | bit by bit, a mixed number is the place exclusive-or the seed, with the low three bits of the next place on bits 8 to 10 and bits 14 and 15 clear |
| ListPatterns.DataMeans | sw/app/coremark/core_list_join.c:279-285 | bit by bit, both bytes of an item hold the low three bits of its number, four bits in which number and seed differ, and a zero |
| ListInit.SuiteDataMeans | sw/app/coremark/core_list_join.c:266-288 | which data the item of each header cell has, bit by bit, and what the two dummies hold |
| ListInit.SuiteNumberMeans | sw/app/coremark/core_list_join.c:289-305 | which number the item of each header cell has: its place in the first 20%, after that bit by bit the mixed number of its place |
| ListInit.SuiteStrictExactly | sw/app/coremark/core_list_join.c:289-306 | the built list is strictly ordered if and only if no two numbers agree and none is the head's |
| ListInit.NumbersDistinctExactly | sw/app/coremark/core_list_join.c:289-305 | for up to 258 cells the numbers are distinct if and only if no mixed number of an item at a place 7 modulo 8 falls among those given in order, or is the head's |
| ListInit.SuiteNumbersDistinct | sw/app/coremark/core_main.c:294-315 | for the block sizes and seeds of the known runs (2000, 666 and 400 bytes; 0, 0x3415 and 8) the numbers are distinct |
| ListInit.CoreListInit | sw/app/coremark/core_list_join.c:250-319 | for size >= 3 and size/5 <= 0x7fff: size - 1 nodes from the block with the specified numbers and patterns, sorted by index, dummy head first and 0x7fff dummy last, strictly ordered if and only if the numbers are distinct |
| ListSuite.Iterate | sw/app/coremark/core_main.c:51-73 | any number of turns of two calls each leaves a strictly ordered, intact list as it was |
| ListSuite.Suite | sw/app/coremark/core_list_join.c:250-319 | with distinct numbers the list `core_list_init` builds is there, node for node and datum for datum, after any number of turns |
| CacheChain.AccessKeeps | corev_apu/tb/riscv-isa-sim/riscv/cachesim.cc:124-160 | one access, with everything it triggers further down, keeps the invariant of every level of the chain over the event log |
| CacheChain.RunInv | corev_apu/tb/riscv-isa-sim/riscv/cachesim.cc:124-160 | the invariant holds at every level after every run from fresh caches, for every chain length and every choice of victims |
| CacheChain.DirtyExactly | corev_apu/tb/riscv-isa-sim/riscv/cachesim.cc:124-160 | a line is resident and dirty if and only if some store to it was followed by no request for it to the handler |
| CacheChain.SentIsJustified | corev_apu/tb/riscv-isa-sim/riscv/cachesim.cc:147-156 | every request a level sends is one whole line, and is a store if and only if the line was stored to since the last request for it |
| CacheChain.DirtyOrWrittenBack | corev_apu/tb/riscv-isa-sim/riscv/cachesim.cc:124-160 | every line ever stored to is resident and dirty, or its base was written to the handler after that store |
| CacheChain.ByteNeverLost | corev_apu/tb/riscv-isa-sim/riscv/cachesim.cc:124-160 | across a chain of any length, a byte in the line its store starts in, which the line bases carry down, is dirty at some level after every run, or memory was written over it after the store |
| CacheChain.StoreNeverLost | corev_apu/tb/riscv-isa-sim/riscv/cachesim.cc:124-160 | when each line size is a multiple of the one above, that holds of every byte in the line a store starts in, and so of every byte of a store that does not cross its end |
| CacheChain.AlignedStays | corev_apu/tb/riscv-isa-sim/riscv/cachesim.cc:44-45 | an aligned store whose size divides the line size does not cross a line end |
| CacheWidths.Answer | corev_apu/tb/riscv-isa-sim/riscv/cachesim.cc:124-160 | every chain can answer every request |
| CacheWidths.BytesKeptExactly | corev_apu/tb/riscv-isa-sim/riscv/cachesim.cc:124-160 | for any set of accesses a program may use that includes single-byte loads of the first ways + 1 lines of every set: no run through two fresh levels, with any victims, loses a byte of a store if and only if every byte of every store in the set lies in the upper line the store starts in and in the lower line of that line's base |
| CacheWidths.LineSizesExactly | corev_apu/tb/riscv-isa-sim/riscv/cachesim.cc:124-160 | with a single-byte store to the second lower line in the set: if and only if the lower line size is a multiple of the upper one and no store in the set crosses an upper line end |
| CacheWidths.AcceptedSizesExactly | corev_apu/tb/riscv-isa-sim/riscv/cachesim.cc:42-45 | for the powers of two that `init` accepts, aligned accesses of 1, 2, 4 or 8 bytes to 64-bit addresses and a first cache with sets * (ways + 1) * linesz up to 2^64: if and only if lines do not shrink downwards |
| CacheWidths.PastLineEndLost | corev_apu/tb/riscv-isa-sim/riscv/cachesim.cc:124-160 | the bytes of a store past the line end are lost as soon as it is done, whatever answered it |
| CacheLoss.LoseAByte | corev_apu/tb/riscv-isa-sim/riscv/cachesim.cc:115-185 | for all accepted sizes that shrink, either class of first cache and any of second: the objects take a run of one aligned store and aligned loads, all to 64-bit addresses, with the victims the shift register draws, after which the stored byte is kept nowhere |
| CacheLoss.LoseAcross | corev_apu/tb/riscv-isa-sim/riscv/cachesim.cc:124-160 | the objects lose every byte of a store past the line end at once |
| CacheLoss.DriveOut | corev_apu/tb/riscv-isa-sim/riscv/cachesim.cc:115-122 | loads of other lines of its set drive a line out of the tag array at the latest when the shift register is back in the state that placed it |
| CacheLoss.FillAround | corev_apu/tb/riscv-isa-sim/riscv/cachesim.cc:172-185 | lines on both sides of a line give it the rank in the tag map that the first draw erases |
| CacheChain.Conservation | corev_apu/tb/riscv-isa-sim/riscv/cachesim.cc:126-156 | what a level misses its handler reads, what it writes back its handler is asked to store, and the bytes are line sizes times these counts |
| CacheChain.DirtyBookkeeping | corev_apu/tb/riscv-isa-sim/riscv/cachesim.cc:132-152 | misses equal fills sent, writebacks equal stores sent, and clean-to-dirty turns equal writebacks plus dirty lines |
| CacheMisses.RunCounted | corev_apu/tb/riscv-isa-sim/riscv/cachesim.cc:124-160 | over every run, at every level, the access counters grow by the loads and the stores the level receives, the miss counters by the loads and the stores among them that are not hits |
| CacheMisses.MissSplit | corev_apu/tb/riscv-isa-sim/riscv/cachesim.cc:126-137 | from fresh caches `write_misses` is the number of stores a level received and did not hit, `read_misses` that of such loads; neither exceeds its access counter |
| CacheMisses.SentIsRun | corev_apu/tb/riscv-isa-sim/riscv/cachesim.cc:145-156 | the requests one access sends down are a run of the levels below |
| CacheMisses.CountMeans | corev_apu/tb/riscv-isa-sim/riscv/cachesim.cc:126-127 | the counts the invariant compares the counters with are numbers of events of the log |
| CacheMisses.TurnsMean | corev_apu/tb/riscv-isa-sim/riscv/cachesim.cc:132-133 | clean-to-dirty turns are the stores to lines in which no earlier store was unsaved |
| CacheChain.NeverTooMany | corev_apu/tb/riscv-isa-sim/riscv/cachesim.cc:115-122 | no set ever holds more lines than ways, no cache more than sets times ways |
| CacheTags.MatchesMeans | corev_apu/tb/riscv-isa-sim/riscv/cachesim.cc:105-110 | the masked comparison accepts a word exactly when it is valid and holds the line |
| CacheTags.FoundAgainExactly | corev_apu/tb/riscv-isa-sim/riscv/cachesim.cc:158-159 | the line just installed is found by the last `check_tag` if and only if bit 62 of its number is clear |
| CacheTags.LineNumbersFit | corev_apu/tb/riscv-isa-sim/riscv/cachesim.cc:44-45 | line sizes of 8 or more keep line numbers of 64-bit addresses clear of VALID and DIRTY |
| CacheTags.SlotMeans | corev_apu/tb/riscv-isa-sim/riscv/cachesim.cc:117-120 | the slot `victimize` takes is in the set of the line, in the way the random number selects |
| CacheTags.DirtyWord | corev_apu/tb/riscv-isa-sim/riscv/cachesim.h:37-38 | setting DIRTY changes neither validity nor line number |
| CacheTags.Install | corev_apu/tb/riscv-isa-sim/riscv/cachesim.cc:115-122 | writing a tag into a way of the right set keeps every line in its set and in one way, and exchanges exactly the victim for the new line |
| CacheTags.Mark | corev_apu/tb/riscv-isa-sim/riscv/cachesim.cc:132-133 | setting DIRTY in a way marks exactly its line |
| CacheTags.FreeWayMeansRoom | corev_apu/tb/riscv-isa-sim/riscv/cachesim.cc:115-122 | an invalid victim means its set was not full |
| CacheVictims.NeverZero | corev_apu/tb/riscv-isa-sim/riscv/cachesim.h:17-17 | the LFSR never reaches its fixed point zero |
| CacheVictims.NextRegInjective | corev_apu/tb/riscv-isa-sim/riscv/cachesim.h:17-17 | no LFSR state has two predecessors |
| CacheVictims.EveryStateReturns | corev_apu/tb/riscv-isa-sim/riscv/cachesim.h:17-17 | every LFSR state comes back after some number of draws |
| CacheVictims.DrawMeans | corev_apu/tb/riscv-isa-sim/riscv/cachesim.h:17-17 | a draw shifts the register down by one and flips bits 31, 30, 28 and 0 if a one fell out |
| CacheSim.ShiftIsDivision | corev_apu/tb/riscv-isa-sim/riscv/cachesim.cc:47-49 | shifting right by `idx_shift` divides by the line size |
| CacheSim.IdxShift | corev_apu/tb/riscv-isa-sim/riscv/cachesim.cc:47-49 | the loop of `init` finds the exponent of the line size |
| CacheSim.Advance | corev_apu/tb/riscv-isa-sim/riscv/cachesim.cc:178-179 | stepping n places from the first key finds the key with exactly n smaller ones |
| CacheSim.Cache.Construct | corev_apu/tb/riscv-isa-sim/riscv/cachesim.cc:24-61 | refuses exactly the geometries `init` rejects; otherwise a new empty cache of the class the sizes select, usable if and only if it has ways |
| CacheSim.Cache.Grows | corev_apu/tb/riscv-isa-sim/riscv/cachesim.cc:44-45 | between accepted caches, line sizes that do not shrink are multiples of each other |
| CacheSim.Cache.SetMissHandler | corev_apu/tb/riscv-isa-sim/riscv/cachesim.h:31-31 | the chain becomes this level over the new handler's chain, whatever handler there was before |
| CacheSim.Cache.CheckTag | corev_apu/tb/riscv-isa-sim/riscv/cachesim.cc:103-113 | finds the slot of the address's line, or nothing exactly when the line is not resident |
| CacheSim.Cache.Victimize | corev_apu/tb/riscv-isa-sim/riscv/cachesim.cc:115-185 | both classes replace a line of the right set (chosen by the LFSR) by the new clean line, or use free room, and return the old word |
| CacheSim.Cache.SetDirty | corev_apu/tb/riscv-isa-sim/riscv/cachesim.cc:132-133 | marks exactly the line in the slot, in either tag store |
| CacheSim.Cache.Access | corev_apu/tb/riscv-isa-sim/riscv/cachesim.cc:124-160 | every access of either class, through all its handlers, is one step of the chain model: the tags, counters and forwarded requests are those of the trace it returns; lines move only as the shift register draws |
| CacheSim.TraceAll | corev_apu/tb/riscv-isa-sim/riscv/cachesim.h:124-127 | tracing any accesses through the objects is a run of the chain model with these requests; every level's access and miss counters grow by the loads and stores it received and missed; a fresh hierarchy whose line sizes do not shrink keeps every byte in the line its store starts in, hence all bytes of stores that cross no line end |
| CacheShared.HubRunInv | corev_apu/tb/riscv-isa-sim/riscv/cachesim.cc:124-160 | with several clients over one handler, each client's invariant holds over its own events and the handler's over all of them |
| CacheShared.SharedConservation | corev_apu/tb/riscv-isa-sim/riscv/cachesim.cc:126-156 | a shared level is read as often as its clients together miss, and asked to store as often as they write back |
| CacheShared.SharedMissSplit | corev_apu/tb/riscv-isa-sim/riscv/cachesim.cc:126-137 | the split of the misses, for each client's own accesses and for everything the shared levels receive |
| CacheShared.SharedStoreNeverLost | corev_apu/tb/riscv-isa-sim/riscv/cachesim.cc:124-160 | a byte in the line a store by any client starts in is dirty in that client's cache, or kept from the shared level on; so are all bytes of a store that crosses no line end |
| CacheShared.Share | corev_apu/tb/riscv-isa-sim/riscv/cachesim.h:31-31 | two caches can be given the same handler, instead of those they had |
| CacheShared.TraceShared | corev_apu/tb/riscv-isa-sim/riscv/cachesim.h:116-127 | any interleaving of accesses through two caches over one handler is a run of that model; the access and miss counters of both and of the shared levels grow by what each received and missed; from fresh caches the shared level's counters are the clients' sums, and no store of either is lost when line sizes do not shrink |
| ConvSpec.RectifierIsRedundant | sw/app/mnist/NetworkPropagate.c:41-65 | the stored byte is the clamp to 0..255 of the floored quotient, rectified or not |
| ConvSpec.SatMeans | sw/app/mnist/NetworkPropagate.c:41-65 | the stored byte is the number of whole steps of 2^shift in the sum, 0 for negative sums and 255 for large ones |
| ConvSpec.KernelAdds | sw/app/mnist/NetworkPropagate.c:129-201 | the convolution sum is additive in the feature map |
| ConvSpec.KernelOfImpulse | sw/app/mnist/NetworkPropagate.c:95-201 | for a map that is v in one place and 0 elsewhere it is the one product of v and the weight at the source's offset when the kernel, placed by stride and padding, meets that place, and 0 otherwise |
| ConvSpec.LayerOfImpulse | sw/app/mnist/NetworkPropagate.c:67-208 | the output byte of the layer on such a map, from bias, product and shift |
| ConvSpec.FlatTakesOut | sw/app/mnist/NetworkPropagate.c:31-39 | any one product can be taken out of a multiply-accumulate over flat memory |
| ConvSpec.SweepIsTaps | sw/app/mnist/NetworkPropagate.c:164-173 | one sweep over adjacent pixels adds up the same as pixel by pixel |
| ConvSpec.TapsAreRow | sw/app/mnist/NetworkPropagate.c:131-200 | the kernel positions the loop visits give the whole padded row |
| ConvSpec.WeightBounds | sw/app/mnist/NetworkPropagate.c:161-162 | weight offsets stay inside the table |
| ConvSpec.TwoPieces | sw/app/mnist/NetworkPropagate.c:143-151 | a wrapping buffer lies in two pieces, at its two offsets |
| ConvSpec.RowAddressesExactly | sw/app/mnist/NetworkPropagate.c:139-192 | the address arithmetic of a row is right if and only if the row does not cross the end of the continuous part unnoticed |
| ConvSpec.RowAddresses | sw/app/mnist/NetworkPropagate.c:143-159 | layouts that wrap at line ends, or a single packed line, are always addressed right |
| ConvSpec.UnpackedLineMissesWrap | sw/app/mnist/NetworkPropagate.c:153-159 | a single line with gaps between its pixels can be read past the end |
| Conv.MacsOnRange | sw/app/mnist/NetworkPropagate.c:31-39 | adds exactly the sum of the products of the two ranges (`ConvSpec.FlatTakesOut`), with no 32-bit overflow while the budget lasts |
| Conv.Span | sw/app/mnist/NetworkPropagate.c:100-118 | the kernel positions between the two computed bounds are exactly those inside the input |
| Conv.MacRow | sw/app/mnist/NetworkPropagate.c:139-200 | one kernel row adds the same on the fast and on the slow path |
| Conv.Weigh | sw/app/mnist/NetworkPropagate.c:129-201 | the weighted sum of an output is bias plus the direct padded convolution, without 32-bit overflow |
| ConvLayers.ConvcellPropagate | sw/app/mnist/NetworkPropagate.c:67-208 | every output cell holds the layer function of the input map, in place or not, and no other byte changes |
| ConvLayers.FcWeigh | sw/app/mnist/NetworkPropagate.c:239-288 | a fully connected sum is the convolution whose kernel is the whole input |
| ConvLayers.FccellPropagate | sw/app/mnist/NetworkPropagate.c:210-292 | the fully connected layer stores the layer function of its input map and changes nothing else |
| Propagate.Overlap | sw/app/mnist/mem_info.h:17-32 | a conv2 cell can overlap the conv1 output only in row 0, and only from output row 2 on |
| Propagate.BuffersDoOverlap | sw/app/mnist/mem_info.h:17-32 | the two buffers do overlap |
| Propagate.Conv2NoHazard | sw/app/mnist/mem_info.h:17-32 | no conv2 cell is written over a pixel that conv2 still has to read |
| Propagate.Handover | sw/app/mnist/NetworkPropagate.c:437-474 | what one layer stored is what the next one reads |
| Propagate.Propagate | sw/app/mnist/NetworkPropagate.c:423-539 | the four layers on the shared arena compute the composition of the four layer functions; conv2 and fc1 outputs survive to the end |
| StateGrammar.MachineIsGrammar | sw/app/coremark/core_state.c:230-326 | a word ends in a state if and only if it has that state's grammatical form, INVALID included |
| StateScan.Transition | sw/app/coremark/core_state.c:230-326 | the switch takes the specified step and charges the state it leaves, except SCIENTIFIC, and INVALID when it is entered from START or SCIENTIFIC |
| StateScan.CoreStateTransition | sw/app/coremark/core_state.c:216-330 | one call returns a token as the grammar has it, and adds to each counter what the grammar says: the number of places where the token's word stops to have the state's form; for INVALID one exactly when the illegal character comes first or follows a complete scientific number; for SCIENTIFIC nothing |
| StateScan.ChargedMeans | sw/app/coremark/core_state.c:230-326 | the charges of a scan, counted step by step, are these numbers |
| StateScan.ScanMeans | sw/app/coremark/core_state.c:216-330 | a token is a word without comma or NUL, legal up to its last character, ended by its comma, a NUL, or its first illegal character, and classified by the grammar |
| StateScan.TokensCutUpText | sw/app/coremark/core_state.c:65-76 | repeated calls cut the text up to the first NUL into non-empty consecutive tokens |
| StateScan.FinalsAddUp | sw/app/coremark/core_state.c:65-76 | the final counters add up to the number of tokens |
| StateScan.FinalsMean | sw/app/coremark/core_state.c:65-76 | the final counter of a state is the number of tokens that end in it |
| StateScan.ScanAll | sw/app/coremark/core_state.c:65-76 | the scanning loop adds exactly the tokens' final states, and what the grammar charges for each token, to the counters |
| StateBench.Corrupt | sw/app/coremark/core_state.c:77-83 | flips exactly every step-th byte that is not a comma |
| StateBench.RestoredExactly | sw/app/coremark/core_state.c:77-103 | both passes restore the text if and only if every visited byte is a comma, or the seed bytes agree and it does not turn into one |
| StateBench.EndSurvives | sw/app/coremark/core_state.c:77-103 | a text ending in two NULs keeps a NUL inside the block through both passes for every step from 2 on |
| StateBench.StepTwoExactly | sw/app/coremark/core_state.c:77-92 | for every built text, the scan after corruption ends inside the block for all seeds if and only if the step is at least 2 |
| StateBench.SafeStepsExactly | sw/app/coremark/core_state.c:45-111 | calls with given steps keep all scans of all texts of a length inside the block, for all seeds, if and only if the steps do not visit both final NULs |
| StateBench.EveryCallEnds | sw/app/coremark/core_state.c:45-111 | every scan of every call finds a NUL inside the block when the steps have a common divisor of 2 or more |
| StateBench.CalcFuncCallsEnd | sw/app/coremark/core_list_join.c:80-98 | every scan of the calls that `calc_func` makes, with the step of each item, finds a NUL inside the block |
| StateBench.AnyStepsExactly | sw/app/coremark/core_state.c:45-111 | with arbitrary steps from 2 on, all scans of all texts end inside the block if and only if the seed bytes agree and are not a comma; the same holds of the texts `core_init_state` builds |
| StateBench.RestoredForever | sw/app/coremark/core_state.c:45-111 | every one of a sequence of calls, each with its own step, leaves the text as it was if and only if every byte any of them visits survives |
| StateBench.CoreBenchState | sw/app/coremark/core_state.c:45-111 | the text after the call and the counters of both scans are as specified, and the result is the CRC of the counters, continued from the argument |
| StateBench.CountsMessageMeans | sw/app/coremark/core_state.c:105-109 | what that CRC is taken of, bit by bit: for each state in order the 32 bits of its final count, then those of its transition count |
| StateBench.CoreInitState | sw/app/coremark/core_state.c:139-195 | the block holds patterns chosen by the running seed, each with its comma, as long as they fit, then NULs |
| StateBench.TextMeans | sw/app/coremark/core_state.c:148-191 | the text is made of the patterns of the next n seeds, each with its comma, and NULs, where n is as large as the block allows |
| StateBench.PatternMeans | sw/app/coremark/core_state.c:113-181 | of eight seeds in a row three give integers, two floats, two scientific numbers and one an invalid word, by the scanner's own grammar, but for the one "scientific" pattern without a dot |
| StateBench.InitEndsInTwoNuls | sw/app/coremark/core_state.c:148-191 | every block of two bytes or more ends in two NULs |
| StateBench.SuiteSeedsRestore | sw/app/coremark/core_main.c:147-303 | with the seed bytes 0, 0x15 or 0x08 the text built by `core_init_state` is restored by every call, whatever the steps |
| Crc.Crcu8 | sw/app/coremark/core_util.c:164-188 | the loop is eight steps of the reflected CRC with polynomial 0xA001, low bit first |
| Crc.Crcu16 | sw/app/coremark/core_util.c:189-207 | the result is the CRC of the word's two bytes, which are its 16 bits from the lowest on (`Crc.Bytes16Mean`) |
| Crc.Crcu32 | sw/app/coremark/core_util.c:196-202 | the result is the CRC of the word's four bytes, which are its 32 bits from the lowest on (`Crc.Bytes32Mean`) |
| Crc.Bytes16Mean | sw/app/coremark/core_util.c:192-193 | the i-th message bit of a 16-bit word is bit i of its value |
| Crc.Bytes32Mean | sw/app/coremark/core_util.c:199-200 | the i-th message bit of a 32-bit word is bit i of its value |
| Crc.CrcBytesConcat | sw/app/coremark/core_util.c:189-202 | the CRC of a concatenation is the CRC of the second part started from that of the first |
| Crc.FeedRegOf | sw/app/coremark/core_util.c:164-188 | the bit-vector steps are the shift register over GF(2) |
| Crc.BitMeans | sw/app/coremark/core_util.c:164-188 | the separate bits of the register are those of the number it holds |
| Crc.CrcIsRemainder | sw/app/coremark/core_util.c:164-202 | the register after a message is the remainder, and the only one, of the message's polynomial times x^16 on division by x^16 + x^15 + x^2 + 1 over GF(2), with the start register added at the front |
| Crc.CrcLinear | sw/app/coremark/core_util.c:164-202 | the CRC is linear over GF(2) in message and start value |
| Crc.BurstDetected | sw/app/coremark/core_util.c:164-202 | two messages of equal length that differ only inside 16 consecutive bits have different CRCs |
| Isqrt.Choose | sw/app/mnist/utils.h:499-503 | the conditional subtraction keeps the root bracketed and no intermediate sum overflows 32 bits |
| Isqrt.RootIsUnique | sw/app/mnist/utils.h:480-509 | only one number is the floor of the square root |
| Isqrt.Isqrt | sw/app/mnist/utils.h:480-509 | for every 32-bit x the result r satisfies r*r <= x < (r+1)*(r+1) |
| TraceLog.Step | verif/sim/cva6_spike_log_to_trace_csv.py:137-178 | the loop body in states INSTR and EFFECT keeps the sum of what was yielded and what the rest of the log should yield |
| TraceLog.ReadSpikeTrace | verif/sim/cva6_spike_log_to_trace_csv.py:91-182 | what is yielded is the reading of the lines behind the first one that ends the trampoline, nothing if there is none |
| TraceLog.ReadVerilatorTrace | verif/sim/verilator_log_to_trace_csv.py:84-189 | the same, with that line kept and debug regions dropped |
| TraceLog.ReadingMeans | verif/sim/cva6_spike_log_to_trace_csv.py:137-182 | a reading has one row for each instruction line up to the first ecall, in order: the row of that line and the lines up to the next one |
| TraceLog.EveryInstructionOnce | verif/sim/cva6_spike_log_to_trace_csv.py:91-182 | each instruction up to the first ecall is yielded exactly once, in order |
| TraceLog.EcallIsLast | verif/sim/cva6_spike_log_to_trace_csv.py:146-161 | an ecall that is yielded is the last instruction |
| TraceLog.RowMeans | verif/sim/cva6_spike_log_to_trace_csv.py:164-182 | a row is illegal exactly when its segment has a trap line, and carries the register updates committed before that line, each in its place, and the mode of the last of them |
| TraceLog.DebugStep | verif/sim/verilator_log_to_trace_csv.py:134-142 | the debug flag implements dropping the regions between start and stop lines |
| TraceLog.DebugMeans | verif/sim/verilator_log_to_trace_csv.py:134-142 | exactly the lines that start no debug region and lie in none are kept, in order; a region runs from a start line outside of all regions to the next stop line |

## Left out

- Propagate.Propagate: `maxPropagate1`, image reading and output saving are not modelled; `fccellPropagateDATA_T` stores the same byte into a signed cell, so values from 128 on read back negative and no claim is made about the largest logit.
- ConvLayers.ConvcellPropagate: index arithmetic in `int` is not checked for overflow; `__restrict` is ignored and the code treated as sequential.
- CacheSim.Cache.Access: the counters are naturals and do not wrap; logging, statistics, the copy constructor and the parsing of configuration strings are not modelled; the two classes are one class with a kind flag, because the virtual calls have no other effect.
- CacheSim.Cache.SetMissHandler: a cache that would become its own handler, directly or further down, is excluded: an access to it would not end.
- CacheWidths.BytesKeptExactly: two levels; for longer chains `CacheChain.ByteNeverLost` gives the condition that is enough. First caches so large that no set can be filled from 64-bit addresses are not covered by `CacheLoss.LoseAByte`.
- CacheShared.TraceShared: two clients share the handler; `CacheShared.SharedStoreNeverLost` is about any number.
- ListNodes.CalcFunc: the state and matrix benchmarks called from here return arbitrary values and are not connected to `StateBench`; the CRC they fold is therefore arbitrary too.
- ListInit.CoreListInit: cells are objects taken from two tables in order; that the addresses behind them do not overlap is stated separately by `ListInit.CellsApart`.
- TraceLog.ReadSpikeTrace: entries are values, not shared objects; regular expressions, operand reformatting and CSV writing are not modelled; `RiscvInstructionTraceEntry` is not part of this model beyond the fields the readers set.
- StateBench.CoreInitState: a size of 0 is excluded: `size--` wraps around, the bound becomes 2^32 - 1, and the 32-bit sum it is compared with wraps before reaching it, so the source writes past every block without end.
- `core_matrix.c`: plain matrix loops would only add easier members.
- CoreMark's `main`, timing, printing and known-CRC tables: platform input and output and constants.
- `verify`, `verifyDouble`, `lfsr` and `insn_len` in `util.h`, and the swaps and min/max helpers in `utils.h`: simple loops and expressions.
- `clint.cc`, `devices.cc`, `plic.h`, `cva6.py`, ELF loaders, DPI, JTAG, UART and build scripts: input and output plumbing.
- FFT: only its tables are in the repository.
