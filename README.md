# Nested-section compute-unit profiler, in Dafny

This project models `ProfilingState`, the engine behind the profiling syscalls of the
program runtime. A program opens a named section with `start`, and closes it with `end`
under the same id. When the instruction finishes, `post_process` works out each section's
net consumption: its own total minus the totals of every section that ran strictly inside
it. This is done for compute units (CU) and, when heap tracking was on at both ends,
for heap usage.

The engine is the Dafny class `Profiling.ProfilingState`. Its three fields are those of
the Rust struct:

- `activeStack`: the open sections, a stack;
- `completed`: the closed sections, in closing order;
- `nextSequence`: the counter that stamps every start and end event.

The methods update these fields in place. Each method's postcondition states the whole
new state. `post_process` is a nested loop, and it keeps that form here. The inner loop
is the method `ContainedTotals`, proved against the pure sums `ChildrenCu` and
`ChildrenHeap`. The outer loop is `PostProcess`, proved against the pure function
`PostProcessed`. The properties proved about those functions are:

- what the net of each entry is;
- that nothing else changes;
- that running it twice is the same as running it once;
- that siblings keep net equal to total;
- that grandchildren are deducted too.

The sequence-number invariant `ProfilingEntries.Wellformed` has four parts:

- the stack is ordered by opening;
- the completed list is ordered by closing;
- every closed section opened before it closed;
- the numbers held by all entries are exactly 0 … next − 1, once each.

Lemmas prove that the fresh engine, `start`, `end`, `post_process` and `clear` all keep
it. Further lemmas prove what it gives: every issued number is below `next_sequence`,
and no number is used twice.

Files:

- `entries.dfy` (module `ProfilingEntries`): the records, saturating subtraction, the heap
  metrics at close, and the invariant with its preservation lemmas;
- `net.dfy` (module `ProfilingNet`): containment sums, the post-processing specification
  and its lemmas;
- `profiling_state.dfy` (module `Profiling`): the LIFO-by-id lookup and the class;
- `scenarios.dfy` (module `ProfilingScenarios`): the unit tests of `profiling_state.rs`,
  written as client methods. Each drives a fresh engine, and its postcondition is what the
  test asserts.

Numbering and types:

- Sequence numbers are `nat`.
- Compute-unit and heap values are the subset type `u64`.
- Rust's `saturating_sub` is `SatSub`.
- The heap capacity constant is `HEAP_CAPACITY` = 32000, as in `32_000u64` at
  `program-runtime/src/profiling_state.rs:84`.

Two places in the repository disagree with each other. The heap test asserts
`remaining_heap == 1400` and `== 1600` (`program-runtime/src/profiling_state.rs:396` and
`:402`). Those are the end heap values. The code, and its comment at line 83, compute
`32000 ⊖ start_heap`, which is 30800 and 31000. The model follows the code:
`HeapEnabledScenario` proves 30800 and 31000, and "## Findings" records the test's
expectation.

A section's "children" are every entry that started after it and ended before it (the
comment at line 127). So the loop at lines 128-137 deducts every strictly contained entry,
grandchildren included, and the test at line 311 asserts 500 − 300 − 100.
`GrandchildDeducted` and `ComplexNestedScenario` state it.

## Model

| member | source | states |
|---|---|---|
| ProfilingEntries.SatSub | program-runtime/src/profiling_state.rs:74 | Saturating subtraction: never above the minuend; exact difference when it fits, zero otherwise. |
| ProfilingEntries.HeapAtClose | program-runtime/src/profiling_state.rs:77-99 | Heap metrics exist iff heap tracking was on at start and at end. When they exist: start and end heap are recorded, total = end ⊖ start, remaining = 32000 ⊖ start, net = 0. |
| ProfilingEntries.SameExceptNet | program-runtime/src/profiling_state.rs:18-29 | Two completed entries with the same skeleton agree on every field except the net fields. |
| ProfilingEntries.EmptyWellformed | program-runtime/src/profiling_state.rs:44-46 | The fresh engine (both lists empty, counter 0) satisfies the sequence-number invariant. |
| ProfilingEntries.StartKeepsWellformed | program-runtime/src/profiling_state.rs:49-59 | Pushing an entry stamped with the old counter and adding 1 to the counter keeps the invariant. |
| ProfilingEntries.EndKeepsWellformed | program-runtime/src/profiling_state.rs:71-115 | Removing any open entry, appending its completed entry (start copied, end = old counter) and adding 1 to the counter keeps the invariant. |
| ProfilingEntries.SameSkeletonKeepsWellformed | program-runtime/src/profiling_state.rs:139-145 | Rewriting only the net fields of the completed entries keeps the invariant. |
| ProfilingEntries.HeldOnce | program-runtime/src/profiling_state.rs:53-58 | Under the invariant, a number is held exactly once across open starts, closed starts and closed ends if it is below the counter, and not at all otherwise. |
| ProfilingEntries.RecordedBelowNext | program-runtime/src/profiling_state.rs:53-58 | Under the invariant, every start and end number already issued is below the counter. |
| ProfilingEntries.OpenNumbersNotClosed | program-runtime/src/profiling_state.rs:105-107 | Under the invariant, no open section shares a sequence number with a closed one. |
| ProfilingEntries.ClosedStartsDistinct | program-runtime/src/profiling_state.rs:106 | Under the invariant, two different closed sections never have the same start number. |
| ProfilingEntries.ClosedStartsNotEnds | program-runtime/src/profiling_state.rs:106-107 | Under the invariant, no closed section starts at a number at which any closed section ended. |
| ProfilingEntries.SequenceNumbersDistinct | program-runtime/src/profiling_state.rs:53-58 | Under the invariant, sequence numbers are pairwise distinct across all open and closed entries: open/open, open/closed, closed start/start, closed start/end and closed end/end. |
| ProfilingNet.ChildrenCu | program-runtime/src/profiling_state.rs:128-132 | The contained-CU sum is at least the total of each single entry strictly inside the interval. |
| ProfilingNet.ChildrenHeap | program-runtime/src/profiling_state.rs:128-136 | The contained-heap sum is at least the heap total of each single entry strictly inside the interval; entries without heap metrics add nothing. |
| ProfilingNet.NetOf | program-runtime/src/profiling_state.rs:139-145 | Computing the net fields of one entry changes nothing but those fields. Net CU is at most total CU, and net heap is at most total heap. |
| ProfilingNet.PostProcessed | program-runtime/src/profiling_state.rs:121-147 | Post-processing keeps the length and the order of the list, and keeps every non-net field of every entry. |
| ProfilingNet.PostProcessedEntry | program-runtime/src/profiling_state.rs:121-147 | Each entry's net CU becomes total ⊖ (sum of totals of entries strictly inside it). Net heap is computed the same way over the contained heap totals. Heap presence is unchanged. |
| ProfilingNet.ChildrenIgnoreNet | program-runtime/src/profiling_state.rs:128-137 | The contained sums read only sequence numbers and totals, so they are the same whatever the net fields hold. |
| ProfilingNet.NetOfIgnoresNet | program-runtime/src/profiling_state.rs:139-145 | The result of computing an entry's net fields does not depend on their previous values. |
| ProfilingNet.PostProcessIdempotent | program-runtime/src/profiling_state.rs:121-147 | Post-processing an already post-processed list gives the same list. |
| ProfilingNet.NothingInsideSumsToZero | program-runtime/src/profiling_state.rs:128-137 | With no entry strictly inside the interval, both contained sums are zero. |
| ProfilingNet.SiblingNetIsTotal | program-runtime/src/profiling_state.rs:129-130 | An entry that contains no other entry, such as one of two interleaved sections, keeps net CU = total CU and net heap = total heap. |
| ProfilingNet.TwoInsideBothCounted | program-runtime/src/profiling_state.rs:128-137 | Two different contained entries are both part of the contained sums. |
| ProfilingNet.GrandchildDeducted | program-runtime/src/profiling_state.rs:128-140 | When k is inside j and j is inside i, the net CU of i is at most total(i) ⊖ (total(j) + total(k)): grandchildren are deducted as well. |
| ProfilingNet.NetPlusChildrenIsTotal | program-runtime/src/profiling_state.rs:140 | When the contained total does not exceed the total, net + contained = total: no compute units are lost. |
| ProfilingNet.PostProcessKeepsWellformed | program-runtime/src/profiling_state.rs:121-147 | Post-processing keeps the sequence-number invariant. |
| Profiling.LastIndexOf | program-runtime/src/profiling_state.rs:64-68 | rposition by id. A found index matches the id and no entry above it does. Nothing is found iff no entry has the id. |
| Profiling.LatestOpenedClosesFirst | program-runtime/src/profiling_state.rs:61-71 | On a stack ordered by opening, the entry end picks is the one opened last among those with that id (same-id re-entry closes the innermost first). |
| Profiling.ProfilingState.constructor | program-runtime/src/profiling_state.rs:44-46 | A new engine has an empty stack, an empty completed list and counter 0, and satisfies the sequence-number invariant. |
| Profiling.ProfilingState.Start | program-runtime/src/profiling_state.rs:49-59 | Exactly one entry is pushed: the given id, start CU = current CU, start number = old counter, start heap = Some(heap value) iff with_heap. The counter goes up by 1 and completed is unchanged. |
| Profiling.ProfilingState.End | program-runtime/src/profiling_state.rs:62-118 | With no open entry of that id: the error carrying the id, and all three fields unchanged. Otherwise: only the top-most matching entry is removed, the others keep their order, and one completed entry is appended with total = start ⊖ current, end CU = current, remaining = start CU, start number copied, end number = old counter, net 0 and the heap metrics of HeapAtClose. The counter goes up by 1. |
| Profiling.ProfilingState.ContainedTotals | program-runtime/src/profiling_state.rs:123-137 | The inner loop's two accumulators end equal to ChildrenCu and ChildrenHeap over the entries strictly inside the given interval. |
| Profiling.ProfilingState.PostProcess | program-runtime/src/profiling_state.rs:121-147 | The completed list becomes PostProcessed of its old value, written entry by entry in place. Stack and counter are unchanged. |
| Profiling.ProfilingState.GetCompleted | program-runtime/src/profiling_state.rs:149-152 | Returns the completed list; under the invariant it is ordered by end number. |
| Profiling.ProfilingState.GetActive | program-runtime/src/profiling_state.rs:154-157 | Returns the open stack; under the invariant it is ordered by start number. |
| Profiling.ProfilingState.Clear | program-runtime/src/profiling_state.rs:159-164 | Both lists become empty and the counter 0; afterwards has_active is false, completed_count is 0, and the state satisfies the invariant. |
| Profiling.ProfilingState.HasActive | program-runtime/src/profiling_state.rs:166-169 | True iff some id has an open section, that is, iff some end call would succeed. |
| Profiling.ProfilingState.CompletedCount | program-runtime/src/profiling_state.rs:171-174 | The number of completed entries; under the invariant, twice it plus the stack height equals the counter. |
| ProfilingScenarios.PostProcessedOne | program-runtime/src/profiling_state.rs:195-199 | A lone completed entry keeps net CU = total CU, and net heap = total heap. |
| ProfilingScenarios.PostProcessedTwo | program-runtime/src/profiling_state.rs:121-147 | For two entries, each deducts the other exactly when the other is strictly inside it, for CU and heap. |
| ProfilingScenarios.PostProcessedThree | program-runtime/src/profiling_state.rs:121-147 | For three entries, each deducts the totals of those among the other entries that lie strictly inside it. |
| ProfilingScenarios.BasicScenario | program-runtime/src/profiling_state.rs:182-201 | One start/end pair. After start: one open entry and none completed. After end: none open and one completed. After post-processing: the completed entry is "test" with total 200, net 200 and no heap metrics. |
| ProfilingScenarios.NestedScenario | program-runtime/src/profiling_state.rs:204-228 | inner inside outer: two completed entries; inner total 100 and net 100; outer total 300 and net 200. |
| ProfilingScenarios.InterleavedScenario | program-runtime/src/profiling_state.rs:231-252 | A and B overlap without containment: two completed entries, both have total 200 and net 200. |
| ProfilingScenarios.SameIdScenario | program-runtime/src/profiling_state.rs:255-281 | Two sections with one id, giving two completed entries: the first end closes the later open (numbers 1–2, total 100, net 100). The outer one spans 0–3 with total 300 and net 200. |
| ProfilingScenarios.ComplexNestedScenario | program-runtime/src/profiling_state.rs:284-312 | Three levels, giving three completed entries: inner total 100 and net 100; middle total 300 and net 200; outer total 500 and net 100 (both middle and inner deducted). |
| ProfilingScenarios.EndUnknownIdScenario | program-runtime/src/profiling_state.rs:315-330 | end of an unknown id fails with the id, and leaves one active and no completed entry. |
| ProfilingScenarios.ClearScenario | program-runtime/src/profiling_state.rs:333-347 | One completed entry before clear. Afterwards: no active entries, no completed ones, counter 0, nothing active, and the next start gets number 0. |
| ProfilingScenarios.HasActiveScenario | program-runtime/src/profiling_state.rs:350-363 | has_active and completed_count are (false, 0), then (true, 0), then (false, 1). |
| ProfilingScenarios.HeapEnabledScenario | program-runtime/src/profiling_state.rs:365-403 | Heap tracking on throughout. Two completed entries "inner" and "outer": CU totals 500/1500 and nets 500/1000. Heap start/end 1200/1400 and 1000/1600, totals 200/600, nets 200/400. Remaining heap 30800/31000, from the code at lines 83-84. |
| ProfilingScenarios.RemainingHeapIsNotEndHeap | program-runtime/src/profiling_state.rs:396-402 | For the heap test's two sections (start heap 1200 and 1000, end heap 1400 and 1600) the remaining heap the code computes at line 84 differs from the 1400 and 1600 the test expects. |
| ProfilingScenarios.HeapFlagsScenario | program-runtime/src/profiling_state.rs:405-431 | For every choice of the start and end heap flags, a closed section has heap metrics iff both flags are on. So off at both ends, on only at start, and on only at end all give none. With both on, total and net heap are 600 ⊖ 500 = 100. |

## Left out

- `programs/bpf_loader/src/syscalls/logging.rs` (the syscalls that call the engine) is not
  part of this model: it is guest-memory translation, compute metering and logging. The
  boolean `withHeap` stands for `with_heap != 0` as derived at
  `programs/bpf_loader/src/syscalls/logging.rs:182` and `:217`. The current CU value,
  which those syscalls read from the runtime (`get_remaining()` at
  `programs/bpf_loader/src/syscalls/logging.rs:172` and `:207`), is a parameter. So is the
  heap value, which the guest program supplies as a syscall argument (lines 164 and 199)
  and the syscalls pass on unchanged (lines 182 and 217).
- The error message text built with `format!` at `program-runtime/src/profiling_state.rs:68`:
  the error is `NoActiveSection(id)`, carrying the id.
- Overflow of `next_sequence` (a `usize`): sequence numbers are unbounded `nat`.
- Overflow of the child sums `children_cu += other.total_cu` and
  `children_heap += other_heap.total_heap` (lines 132 and 134). These are plain `u64`
  additions, which panic or wrap on overflow. Here they are sums over unbounded `nat`.
- `Debug`/`Clone` derives, `Default`, and the contents of ids beyond equality.
- HeapFlagsScenario: the heap-disabled test runs its three start/end pairs one after another
  on one engine. The scenario runs each pair on a fresh engine, because a closed entry's heap
  metrics depend only on its own start and end calls.
- The unit tests' lookups by id (`iter().find`) and the sort by start number: the scenarios
  read the completed list by position and state the ids and sequence numbers found there.
- Start, End and PostProcess do not carry the invariant in their contracts, not even as
  `old(Valid()) ==> Valid()`. That clause verifies for the methods themselves. But it brings
  the invariant into every intermediate state of the multi-step scenarios, and the nested,
  interleaved, same-id and three-level scenarios then run out of verifier resources. Their
  preservation is stated separately, for exactly the state changes those methods make, by
  StartKeepsWellformed, EndKeepsWellformed and PostProcessKeepsWellformed. The constructor
  and Clear do ensure `Valid()`.

## Findings

| source | as written | input that shows it | evidently intended | confidence | as-written member | corrected member |
|---|---|---|---|---|---|---|
| program-runtime/src/profiling_state.rs:396, :402 | the heap test expects `remaining_heap` to equal the end heap (1400, 1600) | sections opened with heap 1200 and 1000 and closed with 1400 and 1600: line 84 gives 30800 and 31000 | remaining heap is 32000 ⊖ start heap, as the comment at line 83 says | high; not executed | ProfilingScenarios.RemainingHeapIsNotEndHeap | ProfilingScenarios.HeapEnabledScenario |
