# repx verification model

repx runs a build under kernel tracing and turns the raw event stream into a deterministic set of operations that is
committed to by hash. This project models that pipeline in Dafny, stage by stage, and proves what each stage promises:

1. **Kernel handlers** (`Kernel`, `KernelDrops`, `KernelCounts`, `KernelStamps`, `KernelPairs`, `KernelLosses`,
   `KernelOrigins`, `KernelWitness`). Enter and exit handlers of rename and unlink as interleaved atomic steps over
   shared maps, with the non-atomic drop counter and the clock readings that name operations; exactly which calls
   reach the ring, and exactly which records tell their own call.
2. **Event collector** (`Records`, `Collector`, `CollectorPass`, `CollectorReplay`, `CollectorProcesses`,
   `CollectorCalls`, `CollectorCounts`, `Lifetimes`, `Saturation`, `CollectorRenames`, `ZeroLoss`, `ZeroLossUnlinks`,
   `ZeroLossWitness`). The mutable collector as a class whose methods are proved against functions on its value; the
   descriptor table as a function of the trace; processes, the whole list of traced calls and the malformed count as
   functions of the records; lifetimes, exec epochs, two-phase renames; and the end-to-end claim that no rename or
   unlink is lost silently.
3. **Canonicalizer** (`Operations`, `Canonicalizer`, `CanonicalPass`, `CanonicalInvariants`, `CanonicalFacts`,
   `CanonicalProvenance`, `PidIndependence`, `Worlds`, `Interleaving`, `Schedules`, `FreeSchedules`, `Preimages`,
   `CanonicalShapes`). The event loop as a class, its invariants over every run, the events that each recorded operation
   comes from, two simulation proofs (process identifiers leave no trace; what each process sees determines the result,
   and exactly which neighbours may be swapped), and what a hash preimage says about its operation.
4. **Output slicer** (`SliceScan`, `SlicePaths`, `SliceOpeners`, `SliceFacts`, `SliceWalk`, `OutputSlice`,
   `SliceContents`, `SliceCompleteness`, `SliceDeterminism`, `UniqueDecoding`, `OrphanChoice`). Scan, rename fixup,
   worklist walk, emission and orphan fallback; what the scan knows and what a slice contains, told by the trace alone.
5. **Commitments** (`Merkle`, `Commitment`, `Attestation`, `Dsse`). The Merkle loop, the binary commitment encoding,
   construction and validation of attestations, and the pre-authentication encoding ("Signature Definition" section of
   the DSSE v1.0.0 protocol specification).
6. **Identity normalizers** (`Paths`, `GoWorkPaths`, `GoImportConfig`, `GoCacheEntry`).

`Sequences`, `Sorting`, `Text`, `Utf8`, `Trace` and `Descriptors` are shared vocabulary.

## Modelling decisions

- Text is a `string` with one `char` for each byte; `Records.ValidUtf8` states well-formedness where the code decodes.
- SHA-256 is an arbitrary function to printed digests. Binding statements say "equal inputs, or these two inputs
  collide"; the two inputs are computed by walking the compared structures. Injectivity is never assumed.
- File observations, resolved paths, system-call results and clock readings are data carried by records or choices of
  the environment. Sets and maps are iterated in an arbitrary order wherever the code uses hash collections.
- A kernel step does at most one operation on a shared map, on the ring buffer or on the drop counter. A thread's
  clock readings strictly increase. What the other handlers do is an arbitrary mixture of foreign records, drops and
  changes to the set of tracked thread groups.
- The timestamp sort is unstable, so the collector's contract only says that the processed order is some rearrangement
  that is sorted by time; both halves of a rename carry one timestamp and may come out swapped.

## Where the code does less than it seems

- Two closes of an inherited descriptor by different processes fill in the same write; the last one decides
  (`Interleaving.LastCloseWins`). Swapping two neighbours with disjoint footprints changes the recorded operations
  exactly when they are such a pair with different identities (`Schedules.SwapIsHarmlessIff`). The leaves may agree
  nevertheless, because another operation can have the same hash; `Schedules.CollidingLeavesAgreeIff` says exactly when.
- A path longer than 255 bytes is captured cut, and nothing counts that: its rename is traced under another path with
  all counters at zero (`ZeroLossWitness.LongRenameIsCut`). A traced rename of absolute paths names its own paths
  exactly when both have at most 255 bytes (`ZeroLoss.TracedPathsAreOwnIff`).
- The drop counter is read and written in two steps. It equals the number of increments written exactly when no
  increment is written between the read and the write of another one (`KernelCounts.CountIsExactIff`,
  `KernelDrops.SimultaneousDropsCountOnce`).
- The result of the counter's own update is ignored. When ring and counter refuse at once, a rename vanishes with all
  counters at zero (`ZeroLossWitness.RefusedRenameIsLost`). At count zero a rename or unlink of the build is submitted,
  and then traced, exactly when no update of the counter was refused in its own handlers
  (`KernelLosses.SubmittedAtZeroIff`, `ZeroLoss.NoRenameIsLost`, `ZeroLossUnlinks.NoUnlinkIsLost`).
- A thread that dies in a rename leaves its stash behind. When its key is reused by an untracked process outside watch
  mode, the next rename or unlink of that process submits the dead rename (`ZeroLossWitness.DeadRenameIsTraced`). A
  record tells its own call exactly when the exit handler took up a stash which that call had left
  (`KernelOrigins.RecordsAreOwnIff`).
- Generations and epochs saturate: after 2^32 - 1 forks of one PID two children are one process, after 2^32 - 2 execs
  two images one instance (`Saturation.ChildrenCollideIff`, `Saturation.ImagesCollideIff`).
- The orphan fallback of the slicer takes any writer of the content. For a trace the leaves are independent of that
  choice exactly when all candidates run the same tool, unless two operations collide
  (`OrphanChoice.LeavesIgnoreChoiceIff`); `OrphanChoice.ChoiceShows` gives traces in which they are not.
- A write that is never closed, by a process with a known tool, has the preimage of a write by an unknown tool whose
  output is that tool; two traces with these operations have equal leaves (`CanonicalShapes.UnclosedWriteIsAmbiguous`).
  Apart from this pair a preimage determines its operation (`Preimages.PreimageDeterminesIff`).
- The commitment encoding truncates lengths to 32 bits, so it stops being injective beyond them
  (`Commitment.LongRootCollides`).
- Validation believes a stored list of tree nodes: behind the right first node a version 0.1.0 attestation passes with
  any leaves (`Attestation.StoredNodesAreBelieved`). The root hash commits to the leaves when only these are stored
  (`Attestation.OldRootCommits`, `Attestation.LegacyRootCommits`).
- A list of leaves and the list of its own root have one Merkle root (`Merkle.WidthIsNotBound`); across widths a root
  binds a level of the wider tree (`Merkle.RootBindsAcrossWidths`).
- Exchanging nested paths is not undone by exchanging them again (`Paths.NestedExchangeIsNotUndone`).
- Normalizing a Go cache entry panics on some text with a multi-byte character across a field boundary
  (`GoCacheEntry.PanicHappens`, `GoCacheEntry.PanicsIff`), where the comment only speaks of entries and non-entries.
- A comment in `repx/src/dsse.rs` describes the separators of the encoding as three characters with one digit. The code
  writes lengths of any number of digits, and that is what is modelled.

## Model

| member | source | states |
|---|---|---|
| KernelDrops.RunKeepsDropInv | repx-ebpf/src/main.rs:126-130 | In every run, a stored count and every count that some CPU has read and not yet written back is at most the number of steps |
| KernelDrops.NextKeepsCounted | repx-ebpf/src/main.rs:126-130 | A drop that is counted, refused or under way stays so across any step of any thread, and a positive counter stays positive |
| KernelDrops.DropsStayPositive | repx-ebpf/src/main.rs:126-130 | From any moment of any run at which the counter is positive it is positive at the end, although it is read and written in two steps |
| KernelDrops.SimultaneousDropsCountOnce | repx-ebpf/src/main.rs:126-130 | The counter is not exact: a run in which two handlers record a drop and the counter ends at one |
| KernelCounts.CountIsExactIff | repx-ebpf/src/main.rs:126-130 | In every run the counter is at most the number of increments written, and equal to it exactly when no increment is written after another thread wrote one since this thread read |
| KernelStamps.RunKeepsStamps | repx-ebpf/src/main.rs:620-700 | In every run the completed renames of one thread carry strictly ascending operation ids, none later than its clock, and one in progress a later one |
| KernelPairs.ActOwn | repx-ebpf/src/main.rs:237-298 | One step of any handler keeps a thread that raised no drop on the way to all records of its call, or on the way out if the call is not to be recorded, puts it off that way by raising a drop, and never brings it back; a call completes with its own records exactly when it is to be recorded and its thread raised none |
| KernelPairs.ActForeign | repx-ebpf/src/main.rs:190-234 | A handler step leaves the stash, both captured paths and the clock of every other thread as they are |
| KernelPairs.SubmitOwn | repx-ebpf/src/main.rs:350-382 | A refused record raises a drop and stays missing under its operation id; an accepted one keeps each id used for one source followed by one destination at most |
| KernelLosses.EffectKeepsExact | repx-ebpf/src/main.rs:620-700 | Every step of the interleaved machine keeps, of all threads and completed renames and unlinks, which of them have their own records and which have lost one |
| KernelLosses.SubmittedIff | repx-ebpf/src/main.rs:620-700 | For every interleaving and whatever became of the counter: a completed rename or unlink has an operation id and all of its own records in the ring exactly when it is to be recorded (by a tracked thread, or in watch mode on a path that may be watched) and no drop was raised in its own handlers; the ids of one thread ascend |
| KernelLosses.SubmittedAtZeroIff | repx-ebpf/src/main.rs:126-130 | At count zero that is so exactly when it is to be recorded and no update of the counter was refused in its own handlers, whatever other handlers met with |
| KernelLosses.EveryCallIsSubmitted | repx-ebpf/src/main.rs:620-700 | At count zero and with no update refused, each completed rename or unlink that is to be recorded has all of its own records in the ring, and no two calls of a thread share an id |
| KernelOrigins.RecordsAreOwnIff | repx-ebpf/src/main.rs:620-700 | The rename and unlink records in the ring are, in order, those submitted by exit handlers of calls that succeeded; each carries the thread's own ids, the call's own descriptor (old for a source or unlink, new for a destination), its flags, an external mark exactly for an untracked process, and the captured path, exactly when the handler took up a stash that the call itself left, which it always did in watch mode and for tracked processes |
| KernelWitness.DeadRenameIsSubmitted | repx-ebpf/src/main.rs:620-700 | The exception is real: after a thread died in a rename and an untracked process reused its key outside watch mode, both records of the dead rename are in the ring, with no drop |
| KernelPairs.OwnPathsIff | repx-ebpf/src/main.rs:190-227 | The two submitted records carry the paths of the call exactly when both have at most 255 bytes |
| KernelWitness.UndisturbedRenameCompletes | repx-ebpf/src/main.rs:620-700 | The invariant is not met vacuously: every rename of a tracked thread with two readable paths has a run in which it completes with both records and without a drop |
| KernelWitness.RefusedRenameVanishes | repx-ebpf/src/main.rs:126-130 | For every such rename a run in which it completes, ring and counter refuse, and neither a record nor a count is left |
| CollectorRenames.RecordIsHandled | repx/src/tracer.rs:986-1061 | What any record does to the renames waiting for their second half: a well-formed source adds its own, keyed by thread and operation id, a destination leaves none of its key and is malformed without its source, and all other halves stay as they are |
| CollectorRenames.HalfIsFromSource | repx/src/tracer.rs:986-1003 | In a run without malformed records a waiting half is the one that the only source record of its key left, with the process current at that moment |
| CollectorRenames.FinishKeepsEvents | repx/src/tracer.rs:1303-1334 | Finishing gives the last exit of the root its code, or adds one, and leaves every other event as it is, other exits included; a final malformed count of zero means that no record was malformed and no half is left |
| CollectorRenames.DestinationsArePaired | repx/src/tracer.rs:1004-1061 | If nothing is malformed in the end, a destination record comes after its only source, its step adds exactly the forward rename of the two and the reverse one for an exchange, or nothing for an external one on unwatched paths, and the finished trace still holds that block |
| ZeroLoss.NoRenameIsLost | repx/src/tracer.rs:735-754 | Kernel and collector together, any interleaving and any drained order: if drops plus malformed records are zero, a completed rename of a tracked thread is in the trace exactly when no update of the counter was refused in its own handlers, then with exactly one source and one destination record and its own block of events, no two renames sharing a record or a position |
| ZeroLossUnlinks.NoUnlinkIsLost | repx/src/tracer.rs:735-754 | Under the same hypotheses a completed unlink of a tracked thread is in the trace exactly when no update of the counter was refused in its own handlers, then from its only record: by the process that the records before stand for, on the captured path, with what that record observed |
| ZeroLoss.TracedPathsAreOwnIff | repx-ebpf/src/main.rs:190-227 | A traced rename of absolute paths names the paths of its call exactly when both have at most 255 bytes |
| ZeroLossWitness.HypothesesMeet | repx/src/tracer.rs:735-754 | All hypotheses of that theorem hold together for every rename with two readable paths that runs undisturbed and is drained in any time |
| ZeroLossWitness.LongRenameIsCut | repx-ebpf/src/main.rs:190-227 | Every such rename with a path over 255 bytes is traced under other paths, with all counters at zero |
| ZeroLossWitness.RefusedRenameIsLost | repx-ebpf/src/main.rs:126-130 | For every rename with two readable paths a run in which ring and counter refuse: all hypotheses hold, and the rename is nowhere in the trace |
| ZeroLossWitness.DeadRenameIsTraced | repx/src/tracer.rs:735-754 | A rename that never returned is in the trace with all counters at zero |
| ZeroLoss.OneRecordOfAHalf | repx-ebpf/src/main.rs:635-674 | Among the drained records no other one of the same kind has the thread id and operation id of a submitted one |
| CollectorPass.EventCollector.constructor | repx/src/tracer.rs:1372-1392 | The initial collector: root lifetime of generation zero, its exec still pending, empty tables |
| CollectorPass.EventCollector.StartProcess | repx/src/tracer.rs:1401-1413 | New state and result are those of the specification: the next generation of the PID, saturating |
| CollectorPass.EventCollector.CurrentProcess | repx/src/tracer.rs:1394-1399 | The current instance of the PID, started when there is none |
| CollectorPass.EventCollector.ForkProcess | repx/src/tracer.rs:1415-1435 | A new lifetime for the child and a copy of every descriptor of the parent, in whatever order the table is iterated |
| CollectorPass.EventCollector.ExecProcess | repx/src/tracer.rs:1437-1447 | The first exec of the root is swallowed; every other one advances the epoch, saturating |
| CollectorPass.EventCollector.RewriteOpenFilePaths | repx/src/tracer.rs:1548-1567 | Every open path is rewritten by the rename, or its reverse for an exchange, independently of iteration order |
| CollectorPass.EventCollector.OnRenameSource | repx/src/tracer.rs:986-1003 | State after the first half of a rename, malformed when its path is not text |
| CollectorPass.EventCollector.OnRenameDestination | repx/src/tracer.rs:1004-1061 | State after the second half: pairing, watch filter, moved descriptors, one or two events, or malformed |
| CollectorPass.EventCollector.ProcessEvent | repx/src/tracer.rs:823-1179 | Any record takes the collector to the state of the specification, with the same verdict on well-formedness |
| CollectorPass.EventCollector.ProcessBuffered | repx/src/tracer.rs:1199-1215 | The loop over all records folds the single step and counts malformed ones, saturating |
| CollectorPass.EventCollector.SynthesizeExit | repx/src/tracer.rs:1303-1323 | The backward search corrects the last exit of the root, or adds one |
| CollectorPass.EventCollector.FinishWithSort | repx/src/tracer.rs:1273-1337 | The result is that of some time-sorted rearrangement of the drained records, with unpaired renames counted |
| CollectorReplay.TableIsReplayed | repx/src/tracer.rs:835-985 | In every reachable state the descriptor table is what a replay of the trace alone yields: opens with a valid descriptor, closes, forks and renames |
| CollectorReplay.TraceExplainsItself | repx/src/tracer.rs:835-1095 | Every event of the finished trace agrees with the replay of the trace before it: a truncating open reports empty content, a mapping the path and content of its descriptor, a close its path and an observation exactly if it was writable, and external events concern watched paths or replayed descriptors |
| CollectorReplay.MappingsReportTheOpen | repx/src/tracer.rs:1499-1536 | From its open to its close a descriptor reports one content: every mapping in between carries the observation of the open, and the close observes exactly if the open could write |
| CollectorReplay.ClosedSlotIsFree | repx/src/tracer.rs:919-950 | After a close, until the descriptor is opened or inherited again, its mappings and closes name no file and are not external |
| CollectorProcesses.ProcessesAreCounted | repx/src/tracer.rs:1394-1447 | The instance that a PID stands for is told by the records alone: its generation counts the earlier processes of the PID, its epoch the images since the last fork without the first one of the root, both up to the 32-bit bound |
| CollectorCalls.PendingIsLatestSource | repx/src/tracer.rs:986-1013 | In every reachable state a waiting half is that of the latest readable source record of its key which no destination has used up, with the process that the records before it stand for |
| CollectorCalls.CollectedCalls | repx/src/tracer.rs:835-1179 | While records are handled the trace tells exactly the recorded calls that pass, one event each in the order of the records: opens, closes, mappings, renames, unlinks, execs, forks and exits, with process, path, flags and descriptor; an open reports its own record's observation (or empty content after truncation), a close that of its own record if its descriptor was writable, an unlink and an exec their own, and the two events of an exchange the two of their destination record |
| CollectorCalls.CallsAreConserved | repx/src/tracer.rs:835-1334 | The finished trace tells the same calls, but for the code of the last exit of the root, or with one exit added when there is none |
| CollectorCounts.MalformedAreCounted | repx/src/tracer.rs:1199-1215 | The count is, up to the 64-bit bound, the number of records that tell nothing: of no known kind, a rename or unlink without a readable path, or a destination for which no source waits |
| CollectorCounts.NothingMalformedIff | repx/src/tracer.rs:1325-1334 | The final count is zero exactly when no record is of that sort and no source is left waiting |
| Lifetimes.RunKeepsIssued | repx/src/tracer.rs:1394-1435 | In every reachable state all lifetimes in the trace and in all tables were issued before, and generation counters only grow |
| Lifetimes.StartedLifetimeIsFresh | repx/src/tracer.rs:1401-1413 | Below the 32-bit bound a started process gets a lifetime that occurs nowhere now and occurred nowhere earlier in the run |
| Lifetimes.StartsCollideIff | repx/src/tracer.rs:1401-1413 | Two starts in a row get one lifetime exactly when the generation counter is saturated |
| Saturation.ChildrenCollideIff | repx/src/tracer.rs:1401-1435 | In a trace that forks one PID again and again two children are one process exactly when the first is not among the first 2^32 - 1 |
| Lifetimes.ForkCopiesDescriptors | repx/src/tracer.rs:1415-1435 | Right after a fork the child's descriptors are exactly the parent's, nothing is left from an earlier use of the PID, and other lifetimes are untouched |
| Lifetimes.ExecInstancesAreUnique | repx/src/tracer.rs:724-733 | No two exec events of the finished trace, the synthetic root exec included, carry one instance, and epochs strictly increase within a lifetime, while no counter saturates |
| Lifetimes.ExecsCollideIff | repx/src/tracer.rs:1437-1447 | Two execs in a row carry one instance exactly when the epoch is within one of the bound |
| Saturation.ImagesCollideIff | repx/src/tracer.rs:1437-1447 | In a trace in which one process executes again and again two images are one instance exactly when the first is not among the first 2^32 - 2 |
| Lifetimes.ShortRunsAreUnsaturated | repx/src/tracer.rs:1401-1447 | No counter saturates in a run of fewer than 2^31 - 1 records |
| Paths.RenameIsUndoneIff | repx/src/tracer.rs:1548-1579 | A rename moves its subtree to the same places below the new path and nothing else; renaming back restores a path exactly when it was moved or was not already below the new path |
| Paths.ExchangeSwapsSubtrees | repx/src/tracer.rs:1548-1579 | When neither path lies within the other, an exchange swaps the two subtrees and leaves every other path alone |
| Paths.ExchangeUndoesItself | repx/src/tracer.rs:1548-1579 | When neither path lies within the other, exchanging twice restores every path |
| Paths.ExchangeIsInvolutionIff | repx/src/tracer.rs:1548-1579 | An exchange is its own inverse exactly when the paths are equal or neither lies within the other |
| Paths.NestedExchangeIsNotUndone | repx/src/tracer.rs:1548-1579 | For strictly nested paths, a path that exchanging twice does not restore |
| Paths.SharedPathMeansNested | repx/src/tracer.rs:1569-1579 | Two subtrees that share a path are nested: prefixes are compared at directory boundaries |
| Paths.WithinIsUnderTrimmed | repx/src/file_identity.rs:166-169 | Being within a prefix means being under the prefix without its trailing slashes, at a directory boundary |
| Operations.FinalizeOps | repx/src/canonicalize.rs:107-120 | The three in-place passes compute field sorting, stable sorting by hash and removal of repeated hashes |
| Operations.LeavesAreTheSortedSet | repx/src/canonicalize.rs:107-120 | The committed leaves are strictly ascending and are the set of hashes of the field-sorted operations |
| Operations.LeavesIgnoreOrderAndCount | repx/src/canonicalize.rs:107-120 | Permuting or repeating operations, renumbering processes or permuting fields never changes the leaves |
| Operations.FinalizedIsIdempotent | repx/src/canonicalize.rs:107-120 | Finalizing a finalized list changes nothing |
| Descriptors.InheritWrites | repx/src/canonicalize.rs:197-205 | Copying the parent's entries to the child gives the same table for every iteration order |
| CanonicalPass.Pass.OnOpen | repx/src/canonicalize.rs:208-301 | An open takes the pass to the state of the specification: watch filter, external fallback, system state, read and write operations |
| CanonicalPass.Pass.OnMmap | repx/src/canonicalize.rs:303-405 | A mapping takes the pass to the state of the specification; a shared writable one starts a write unless one is pending |
| CanonicalPass.Pass.OnClose | repx/src/canonicalize.rs:407-439 | A close takes the pass to the state of the specification: it completes the pending write of its own vector |
| CanonicalPass.Pass.OnRename | repx/src/canonicalize.rs:441-482 | A rename takes the pass to the state of the specification, external or not |
| CanonicalPass.Pass.OnUnlink | repx/src/canonicalize.rs:484-522 | An unlink takes the pass to the state of the specification, external or not |
| CanonicalPass.Pass.OnExit | repx/src/canonicalize.rs:524-546 | An exit takes the pass to the state of the specification: only known processes, exit code only for the root lifetime |
| CanonicalPass.CanonicalizeEvents | repx/src/canonicalize.rs:134-553 | The imperative pass over growing vectors and index maps computes the canonical operations of the trace |
| CanonicalInvariants.RunKeepsInv | repx/src/canonicalize.rs:139-159 | In every run each pending index is in range and points at a write of its vector, and process indices are injective and dense with the root at zero |
| CanonicalInvariants.EmittedOpsAreFinal | repx/src/canonicalize.rs:415-438 | From any point of a run on, emitted operations stay in place and change at most in the outputs of a write; external marks are never lost |
| CanonicalInvariants.ExternalIsSticky | repx/src/canonicalize.rs:226-258 | Once a non-root lifetime is marked external, no later event of it on a watched path adds or completes a fork-tree operation |
| CanonicalFacts.RunKnowsProcesses | repx/src/canonicalize.rs:141-160 | After any trace the tool of an instance is the last image that it executed or inherited at a fork, the lifetimes that count as external are those with an access that did, and process indices number the instances in the order in which they became known |
| CanonicalProvenance.RecordedIffTold | repx/src/canonicalize.rs:161-552 | An operation is recorded if and only if some event of the trace tells it: an exec; a readable open without arguments or an observed mapping with "mmap", by the build and off system state, as a read of what it observed; one on system state as the sentinel; an open or shared mapping for writing as a write; a rename, an unlink, the exit of a known instance, with the exit code only for the root; and the external kinds of accesses that count as external. The tool is the process's last image, none for external operations |
| CanonicalProvenance.OneOperationPerOrigin | repx/src/canonicalize.rs:161-552 | Each such event has exactly one operation for its access and one for the write it starts, if any (a mapping starts none while one is open at its descriptor), in the order of the events |
| CanonicalProvenance.OutputIsLastSeen | repx/src/canonicalize.rs:407-440 | The output of a write is what the last observing close that completed it saw, and there is none exactly without such a close; forks hand the build's own open writes on |
| PidIndependence.CanonicalIgnoresPids | repx/src/canonicalize.rs:134-553 | Renaming the process lifetimes of trace and root in any way that keeps them apart leaves the whole result identical |
| Worlds.RunTracks | repx/src/canonicalize.rs:134-553 | Along every trace the scan is simulated by a machine that keeps everything per lifetime, up to a bijection between positions in the common vectors and positions in the per-lifetime ones |
| Worlds.SameWorldSameLeaves | repx/src/canonicalize.rs:134-553 | Runs that end in the same per-lifetime state commit to the same leaves |
| Interleaving.InterleavingIndependence | repx/src/canonicalize.rs:161-552 | Swapping two neighbours with disjoint footprints leaves the leaves unchanged, unless both complete the same write with different identities |
| Interleaving.ReschedulingKeepsLeaves | repx/src/canonicalize.rs:161-552 | Every schedule reachable by such swaps commits to the same leaves |
| FreeSchedules.ViewsDetermineLeaves | repx/src/canonicalize.rs:161-552 | Two traces in which every process lifetime sees the same events in the same order record the same operations and commit to the same leaves, if in one of them no two closes by unrelated lifetimes complete one write with different identities |
| Interleaving.LastCloseWins | repx/src/canonicalize.rs:432-436 | The exception is real: two traces that differ in the order of two closes of an inherited descriptor and end with different outputs |
| Schedules.SwapIsHarmlessIff | repx/src/canonicalize.rs:161-552 | Swapping two neighbours with disjoint footprints, after any trace, leaves the recorded operations unchanged exactly when they are not closes that complete one write with different identities |
| Schedules.CollidingLeavesAgreeIff | repx/src/canonicalize.rs:432-436 | After two such closes the leaves of both orders agree exactly when the two outcomes of the write hash alike or other operations have both hashes |
| Preimages.TokensArePrefixFree | repx/src/file_identity.rs:37-44 | Two texts that start with identities and are equal start with the same identity |
| Preimages.PreimageDeterminesIff | repx/src/canonicalize.rs:62-104 | Two operations of the emitted shapes have one hash preimage exactly when they agree in type, tool, arguments, inputs and outputs, or one is a write without output by a tool and the other a write by no tool that outputs that identity |
| CanonicalShapes.RunIsShaped | repx/src/canonicalize.rs:161-552 | Every operation of every run, fork-tree and external, has one of these shapes when observations carry digests |
| CanonicalShapes.LeavesDetermineRun | repx/src/canonicalize.rs:107-120 | Two traces have equal leaves exactly when each operation of one has its like in the other, unless two of their operations collide |
| CanonicalShapes.UnclosedWriteIsAmbiguous | repx/src/canonicalize.rs:86-101 | For every tool identity two traces with different operations whose leaves agree under every hash function |
| SliceScan.AliasWriters | repx/src/slice.rs:173-182 | Collecting and entering the aliases of a rename credits exactly the writers of the source path of each image, whatever the iteration order |
| SliceScan.ScanEvents | repx/src/slice.rs:29-212 | The imperative scan with its inner loops over hash maps computes the fold of the single-event specification |
| SliceScan.ReapplyRenames | repx/src/slice.rs:214-232 | The loop after the scan computes the fixup function |
| SlicePaths.FixupIsRenameClosure | repx/src/slice.rs:221-232 | The fixup credits a path with exactly those recorded at some path that a subsequence of the renames, in order, turns into it |
| SlicePaths.LateWritersReachFinalPath | repx/src/slice.rs:165-195 | A writer recorded by any close is credited with that path after all renames of the trace, also those before the close, and with every path in between; no writer is lost |
| SlicePaths.RenamersReachFinalPath | repx/src/slice.rs:184-195 | A renamer is credited with the destination and with what later renames make of it |
| SliceOpeners.PendingIsOwner | repx/src/slice.rs:48-59 | The table of open writes equals a recursive function of the trace prefix |
| SliceOpeners.OpenWriteBelongsToOpener | repx/src/slice.rs:86-88 | An instance owns the open write at a descriptor exactly when a write it started was handed on to it through forks, undisturbed by other opens, mappings or closes |
| SliceOpeners.NonOpenerOwnsNothing | repx/src/slice.rs:114-117 | Whoever owns an open write has itself opened or mapped for writing in the trace; an exec or close makes no owner |
| SliceOpeners.CloseCreditsOpener | repx/src/slice.rs:132-150 | A close credits the instance whose write was handed on to the closed descriptor |
| SliceFacts.ReadIffEvent | repx/src/slice.rs:60-203 | An instance has read a content exactly when an event of it that is not external did: a readable open or an observed mapping of that content, of the sentinel on a system-state path, or a rename of it |
| SliceFacts.WrittenIffEvent | repx/src/slice.rs:120-152 | It has written a content exactly when a close observed that content at the end of a write which the instance started, directly or through forks |
| SliceFacts.RenamedIffEvent | repx/src/slice.rs:153-204 | It has renamed a content exactly when a rename of it that is not external observed that content |
| SliceFacts.ToolIsLastImage | repx/src/slice.rs:39-59 | Its tool is the last image that it executed, or that its parent had at a later fork of it, and an own exec is remembered exactly if there was one |
| SliceFacts.RootExitIsLast | repx/src/slice.rs:206-212 | The remembered exit is the last one of the root's lifetime in the trace |
| SliceFacts.FinalWritersIff | repx/src/slice.rs:120-232 | The writers by path from which the walk starts are exactly those whose close or rename recorded a path that renames after it, and then any of the whole trace once more, turn into the path |
| SliceWalk.Walk | repx/src/slice.rs:238-268 | The worklist terminates with exactly the least process set closed under the two rules, and relevant hashes are the selected ones plus all reads of members, for every iteration order |
| SliceWalk.LeastIsUnique | repx/src/slice.rs:238-268 | There is only one such set |
| OutputSlice.EmitMembers | repx/src/slice.rs:285-347 | The emission loops produce, as a set, what the members did with relevant content, and leave exactly the unproduced selected hashes |
| OutputSlice.EmitOrphans | repx/src/slice.rs:349-386 | Each orphan gets one operation, of some recorded producer if there is any and the sentinel otherwise |
| OutputSlice.CanonicalizeOutputSlice | repx/src/slice.rs:24-400 | The whole slicer: empty without outputs, otherwise the finalized operations of a slice with least members and some valid choice for the orphans |
| SliceContents.MembersIff | repx/src/slice.rs:238-268 | The members are the least set of instances with everyone who left a selected path and everyone who produced what a member read and is not itself selected, as the trace tells it |
| SliceContents.SliceTellsTrace | repx/src/slice.rs:285-397 | An operation is emitted if and only if it tells, with the tool of the process, that a member executed, read a content, wrote a relevant content or renamed one; or an orphan, written by the chosen producer or by nobody; or the last exit of the root with its code. Exactly the orphans that somebody produced have a chosen producer, who produced them |
| SliceCompleteness.ScanIsIndexed | repx/src/slice.rs:132-150 | After any trace an instance is in the writers of a hash exactly when the hash is among its writes or renames |
| SliceCompleteness.ProducedIffEvent | repx/src/slice.rs:197-203 | An instance has produced a hash exactly when some close or rename of the trace booked it for the instance |
| SliceCompleteness.SelectedHashIsOutput | repx/src/slice.rs:285-386 | Each selected hash is the output of an emitted operation |
| SliceCompleteness.EmittedHashesAreRelevant | repx/src/slice.rs:303-347 | Every hash that is read, written or renamed in an emitted operation is relevant |
| SliceCompleteness.SentinelIffNobodyProduced | repx/src/slice.rs:375-386 | The unattributed operation is emitted for a hash exactly when it is selected and nobody wrote or renamed that content |
| SliceCompleteness.SliceAccountsForOutputs | repx/src/slice.rs:285-386 | The same for a slice of a trace: every selected hash is an output, with the exact condition for the sentinel |
| SliceDeterminism.SliceIgnoresPidsAndIterationOrder | repx/src/slice.rs:270-400 | A trace and a copy whose lifetimes are renamed but kept apart have the same slice leaves when the candidates for each orphan agree on the tool, in particular when there is at most one |
| SliceDeterminism.SliceIgnoresIterationOrder | repx/src/slice.rs:349-373 | Two slices of one trace have the same leaves under the same condition |
| SliceDeterminism.ChoiceIsImmaterialIff | repx/src/slice.rs:349-373 | The emitted set is the same for every choice of orphan writers exactly when the candidates agree on the tool |
| OrphanChoice.LeavesIgnoreChoiceIff | repx/src/slice.rs:349-373 | The same for the leaves of the slices of a trace, unless operations of two slices collide |
| OrphanChoice.TwoProducersDisagree | repx/src/slice.rs:349-373 | After two processes with different tools wrote one content to two files and it is selected at a third path, no process is a member, the content is an orphan and its candidates disagree |
| OrphanChoice.ChoiceShows | repx/src/slice.rs:349-373 | Such a trace has two slices with different operations, and with different leaves unless their operations collide |
| UniqueDecoding.SliceIsShaped | repx/src/slice.rs:291-397 | Every operation of a slice has one of the shapes, and every write an output, when observations and selected outputs carry digests |
| UniqueDecoding.LeavesDetermineSlice | repx/src/slice.rs:291-399 | Two slices with the same leaves consist of the same operations up to process indices, or two of their operations collide |
| Merkle.RootFromLeaves | repx/src/merkle.rs:89-107 | The padding and pairing loops terminate with one value, the root of the balanced tree that splits the padded leaves in half |
| Merkle.LeafLeadsToRoot | repx/src/merkle.rs:73-107 | Hashing a leaf, or the padding beyond the leaves, with its neighbour on each level, the left one first, ends in the root |
| Merkle.RoundKeepsTree | repx/src/merkle.rs:100-105 | One round of pairing halves the level and leaves the root of the balanced tree as it is |
| Merkle.NextPowerOfTwoIsLeast | repx/src/merkle.rs:94-98 | The padded width is the least power of two that holds the leaves |
| Merkle.RootBinds | repx/src/merkle.rs:73-78 | Two lists of digests with equal padded width and equal roots agree after padding, and before it when neither holds the padding, or the walk down both trees returns a collision |
| Merkle.RootBindsAcrossWidths | repx/src/merkle.rs:89-107 | Two roots are equal when the wider padded leaves reduce by rounds of pairing to the narrower ones, and only then, or the walk down both returns a collision |
| Merkle.WidthIsNotBound | repx/src/merkle.rs:94-98 | So the leaves are not bound across widths: a list and the list of its own root have the same root |
| Merkle.OldTreesAgree | repx/src/merkle.rs:48-70 | A stored tree with all nodes in level order and one with only its leaves yield the same leaves and root |
| Commitment.EncodeCommitment | repx/src/attestation.rs:217-261 | The appending loops write the specified encoding, lengths truncated to 32 bits |
| Commitment.RoundTripIff | repx/src/attestation.rs:217-261 | The decoder recovers root, command, selection and outputs with nothing left over exactly when all lengths and counts fit in 32 bits |
| Commitment.EncodingIsInjective | repx/src/attestation.rs:217-261 | Contents that fit and have equal encodings are equal |
| Commitment.LongRootCollides | repx/src/attestation.rs:254-261 | Beyond 32 bits two different contents have one encoding |
| Attestation.Attestation.NewWithOutputs | repx/src/attestation.rs:72-96 | The constructed object: derived process root, sorted lists, version and commitment |
| Attestation.Attestation.Validate | repx/src/attestation.rs:113-159 | Validation returns the failure of the specification for each version and fills in a missing process root also when it fails |
| Attestation.ConstructedValidates | repx/src/attestation.rs:72-159 | What is constructed passes validation unchanged |
| Attestation.ConstructionForgetsOrder | repx/src/attestation.rs:78-84 | Two constructions are equal exactly when mode and the multisets of artifacts, roots and outputs are |
| Attestation.RootHashCommits | repx/src/attestation.rs:263-272 | Valid attestations with one root hash and one padded width have equal command, selection, outputs and padded leaves (so equal leaves where none is the padding), or comparing them returns a collision |
| Attestation.AcceptedIff | repx/src/attestation.rs:113-159 | Validation accepts exactly the attestations of a known version whose root hash fits: the root of the tree (0.1.0), or the commitment of their content with the process root of the tree, which may be absent and is then filled in |
| Attestation.RejectedIff | repx/src/attestation.rs:113-159 | Exactly which failure is reported for any other, an unknown version among them, and what it leaves unchanged |
| Attestation.OldRootCommits | repx/src/attestation.rs:113-121 | Two accepted attestations of version 0.1.0 with one root hash and one padded width have equal padded leaves, or the walk returns a collision |
| Attestation.LegacyRootCommits | repx/src/attestation.rs:122-137 | Two accepted ones of versions 0.2.x with one root hash have equal content, process root included, and so equal padded leaves, or contents on which the frozen commitment collides |
| Attestation.StoredNodesAreBelieved | repx/src/merkle.rs:48-52 | The condition on stored nodes is needed: with a stored list of nodes any leaves pass behind the right root |
| Dsse.EncodePae | repx/src/dsse.rs:56-69 | The buffer after all pushes is the specified encoding |
| Dsse.UnpaeIff | repx/src/dsse.rs:56-69 | A decoder by decimal lengths accepts exactly the encodings and returns type and payload |
| Dsse.Verify | repx/src/dsse.rs:98-135 | Accepts exactly when some signature is good, returns the decoded payload, and otherwise reports the last signature's error |
| Dsse.SignedIsGood | repx/src/dsse.rs:76-88 | What is signed verifies and gives back its payload, when base64 decodes what it encodes and the keys belong together |
| Dsse.GoodMeansSigned | repx/src/dsse.rs:98-135 | If the key only verifies encodings of certain pairs, an accepted envelope carries the type and payload of such a pair |
| GoWorkPaths.WorkPathOf | repx/src/file_identity.rs:350-363 | A path that ends in its last `/go-build<digits>` and a rest has that rest as its normal form, whatever precedes it |
| GoWorkPaths.WorkPathInverts | repx/src/file_identity.rs:350-363 | Only such paths have a normal form |
| GoImportConfig.NormalizeGoImportConfig | repx/src/file_identity.rs:257-294 | The loop with its early exits and change flag computes the normal form of all lines, if all are accepted and any changed |
| GoImportConfig.WorkDirIsForgotten | repx/src/file_identity.rs:257-294 | Configurations whose lines differ only before the rest after the last work directory of a package value have the same outcome |
| GoImportConfig.SameNormalFormIff | repx/src/file_identity.rs:257-294 | Changed configurations have one normal form exactly when their lines pairwise are equal, differ in the work directory, or one is the other's normal form |
| GoImportConfig.NormalFormIsStable | repx/src/file_identity.rs:257-294 | A normal form is well-formed UTF-8, and normalizing it accepts every line and reports no change |
| GoCacheEntry.NormalizedIff | repx/src/file_identity.rs:321-348 | Exactly the well-formed entries have a normal form, namely the entry with timestamp zero |
| GoCacheEntry.SameNormalFormIff | repx/src/file_identity.rs:321-348 | Two entries have one normal form exactly when action id, output id and size agree |
| GoCacheEntry.NormalFormIsStable | repx/src/file_identity.rs:321-348 | A normal form is an entry and its own normal form |
| GoCacheEntry.PanicsIff | repx/src/file_identity.rs:328-334 | Exactly which texts make the field split panic |
| GoCacheEntry.PanicHappens | repx/src/file_identity.rs:328-334 | Such a text exists |

## Left out

- Loading and attaching the kernel programs, discovering offsets, polling the ring, waiting for the child: foreign calls. Offsets count as populated, so reading a tracepoint field does not fail.
- Kernel handlers other than those of rename and unlink: they appear only as foreign records, drops and changes of the tracked set.
- ZeroLoss.NoRenameIsLost: supposes that no two thread groups use one thread id in the same nanosecond, and runs of fewer than 2^64 steps, so that the counter does not wrap around.
- ZeroLossUnlinks.NoUnlinkIsLost: supposes the same.
- Reading and hashing files, `/proc` lookups, symlinks and working directories: observations and resolved paths are data of the records.
- Cached file handles in the open-file table: only path, flags and the cached observation of an entry are modelled.
- Process indices of the canonicalizer and the slicer are unbounded naturals; the overflow of a 32-bit index is not modelled. They are not part of any hash.
- The JSON commitment of versions 0.2.x depends on a serializer and is an arbitrary function in `Attestation`.
- Ed25519, base64, hex and key files: functions passed to `Dsse.Verify`.
- Substitution of session, compiler and work-directory names in unavailable paths (`repx/src/file_identity.rs:182-234`) and the selection of control files by path: component-wise replacement that would only add easy members.
- Comparison of leaf sets (`repx/src/merkle.rs:80-87`), stability ratios, workspace walks and the command line: easy members or user interface.
