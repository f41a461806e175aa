# Verified models of the runtime's shared-state core

This project models the parts of the Foundation runtime whose guarantees span whole runs: the
generational GPU slot registry, the process-pool exchange protocol, the cuckoo maplet, the shared
arena with its columnar batches, the dispatch lane table, the tenant projection store, and three
codecs and indexes (native frames, receipts, the edge region table). Each model follows the code,
branch by branch, and each main result is stated over every input, every run or every interleaving.

`dafny verify dfyconfig.toml` checks the whole project.

## How the models are built

- **Concurrent protocols** (`SlotRegistry*`, `ExchangePool*`, `DispatchRuns`, `LaneStats`) are step
  machines. A step is one atomic operation, lock operation, channel operation or select branch; a run
  is any list of steps by any threads. History fields record what happened; a step reads them only to
  update history, never to decide what it does. Further histories (which step wrote a log entry, which
  reply a request got, where a call began) are functions of the run itself. The proofs give each thread position an invariant,
  show that every step of one thread keeps the shared invariant, and show that the positions of all
  others survive it.
- **In-place code** (`Maplet`, `ArenaStore`, `Columnar`, `DispatchTable`, `ProjectionStore`,
  `Receipt.Writer`, the frame fillers) is a class or a method over an array, proved against a value
  that the raw state stands for.
- **Pure code** is functions and lemmas.

Where a promised property is false of the code, the exact condition under which it holds is proved,
with a concrete run or input that breaks it:

- A success on a slot handle hits the registration issued with it exactly when issue and swap are fewer
  than 2^32 retirements apart (`SuccessHitsItsRegistration`). Two runs show why: a call that sleeps
  (`WrappedGenerationDefeatsTheHandle`) and a handle that is kept (`KeptHandleHitsALaterRegistration`).
- A fence signal finds the registration it checked live exactly when the slot was not retired since
  (`SignalLandsOnItsOwner`, `LateSignalCompletesAnothersFence`).
- In a pool of stdio and shared-memory workers with nothing expired and nothing failed, a caller's
  attempt turns to tearing its worker down exactly when the call's first attempt finds its context
  already ended (`TeardownExactlyAtTheFirstCheck`, `CancellationAloneNeverKills`). From that guard some
  continuation kills the child (`EndedContextKills`, `EarlyCancellationRestartsTheWorker`), though the
  comment says that termination never keys on the caller's context.
- A supervisor past its timer can still be answered unless its request was left in the queue of a
  finished loop, and then never (`AnsweredUnlessStranded`, `SupervisorIsStranded`).
- A maplet lookup returns a key's value exactly when the last write of its class carried it and no
  exhausted chain has lost the class since (`InsertsThenLookup`); the header comment promises it for
  every inserted key. Under every hash function two keys share a class (`EveryHashCollides`), and the
  second then answers for the first (`CollidingKeysOverwrite`). Nine keys of one pair of buckets make a
  chain lose a class (`OverfullPairLoses`, `ChainLosesAClass`).
- The sizing loop of the maplet ends exactly when at most 2^31 slots are asked for (`SizingEnds`).
- An arena slab lies inside its extent exactly for lengths up to 2^32 - 4096, because the page rounding
  is done in 32 bits (`SlabsAreSeparate`, `PanicsExactlyPastTheLimit`, `WrappedLengthOverlaps`).
- A descriptor from before a reset is refused unless the resets since are a multiple of 2^32
  (`StaleDescriptorRefused`, `StaleDescriptorCommits`).
- A lane-table scan is whole when at most one publish overlaps it; the comment on publishing promises
  it for every reader (`ReaderSeesOneTable`, `OverlapsTear`).
- Arrival orders of mutations agree exactly when mutations tied at an id's highest version have the
  same outcome (`OrderIndependentIff`).
- The in-place dispatch path writes the bytes of the allocating one exactly for outputs below 2^32
  bytes (`DispatchFrameInto`).

## Model

| member | source | states |
|---|---|---|
| SlotRegistry.PackedWordIsThePair | runtime-native/rust/src/native_gpu.rs:179-185 | packing generation and count into one 64-bit word is a bijection, so a swap of the word is a swap of the pair |
| SlotRegistryProofs.StepKeeps | runtime-native/rust/src/native_gpu.rs:322-570 | every atomic step of every thread keeps the registry invariant |
| SlotRegistryProofs.RunKeeps | runtime-native/rust/src/native_gpu.rs:229-243 | the invariant holds after any run from an empty registry |
| SlotRegistryTheorems.SuccessHitsItsRegistration | runtime-native/rust/src/native_gpu.rs:322-404 | a successful acquire, release or removal acts on the registration issued with its handle exactly when issue and swap are fewer than 2^32 retirements apart, and then by its owner if the check came after the issue |
| SlotRegistryTheorems.HandleNamesItsRegistration | runtime-native/rust/src/native_gpu.rs:695-728 | the handle a registration records carries the generation of the registration issued with the call's id, owner and required value |
| SlotRegistryTheorems.RecordedHandleIsIssued | runtime-native/rust/src/native_gpu.rs:310-320 | with no writer, the handle read from a record is the one its slot's live registration was issued with, to the record's owner |
| SlotRegistryTheorems.EverySuccessWasIssued | runtime-native/rust/src/native_gpu.rs:322-334 | every success used a handle that some registration was issued with, and a removal is by the owner of what it retires |
| SlotRegistryTheorems.CountIsTheBalance | runtime-native/rust/src/native_gpu.rs:336-404 | a live count is one plus acquires less releases; a retired registration reported removed exactly once |
| SlotRegistryHistory.EntriesKept | runtime-native/rust/src/native_gpu.rs:336-404 | a call has written exactly the log entry its thread carries, over every run |
| SlotRegistryAnswers.AnswerIsItsOwnEntry | runtime-native/rust/src/native_gpu.rs:336-404 | a call answers acquired or released exactly when it wrote a log entry, and names that one: its own kind, owner and handle; the count answered is one plus acquires less releases of that registration up to the entry; removed, with zero, exactly for a removal |
| SlotRegistryAnswers.RemovedIsToldOnce | runtime-native/rust/src/native_gpu.rs:488-525 | two answers, at any two moments of a run, that report one registration removed are the answer of one call |
| SlotRegistryAnswers.SignalAnswer | runtime-native/rust/src/native_gpu.rs:408-429 | a signal answers the maximum of its value and the signalled one as its own fetch-max left it, and the required value it then read |
| SlotRegistryAnswers.FailureIsJustified | runtime-native/rust/src/native_gpu.rs:310-404 | a call fails only for a reason that held in front of one of its own steps, on the handle it was given or looked up |
| SlotRegistryAnswers.NoLockOutlivesItsCall | runtime-native/rust/src/native_gpu.rs:452-728 | a thread holds the read or write lock exactly in the part of a call that needs it |
| SlotRegistryTheorems.NothingSucceedsAfterRemoval | runtime-native/rust/src/native_gpu.rs:491-505 | nothing succeeds on a handle after the release that reported it removed, up to generation wrap-around |
| SlotRegistryTheorems.RecordsAndFreeSlotsPartition | runtime-native/rust/src/native_gpu.rs:662-728 | with no writer, record slots and free slots partition the slots, each record's slot is live with its generation, owner and id, and a slot is free exactly when it has no references |
| SlotRegistryTheorems.NoSpuriousFailure | runtime-native/rust/src/native_gpu.rs:527-543 | the free-list pop after the limit check never fails, and acquire by id on a record with the right owner fails only on count overflow |
| SlotRegistryTheorems.RetiredOnlyAfterTheFence | runtime-native/rust/src/native_gpu.rs:452-525 | no registration is retired before its signalled value reached the value required when it was issued |
| SlotRegistryTheorems.FenceIsMonotone | runtime-native/rust/src/native_gpu.rs:408-429 | over any further run, while a registration is live its required value is constant and its signalled value only grows |
| SlotRegistryTheorems.SignalLandsOnItsOwner | runtime-native/rust/src/native_gpu.rs:408-429 | the unguarded fetch-max finds the registration checked live, and by its owner, exactly when the slot was not retired since; otherwise that registration was removed once |
| SlotRegistryLimits.WrappedGenerationDefeatsTheHandle | runtime-native/rust/src/native_gpu.rs:496-500 | a run with 2^32 retirements in which an acquire by one owner succeeds on another owner's registration |
| SlotRegistryLimits.KeptHandleHitsALaterRegistration | runtime-native/rust/src/native_gpu.rs:322-334 | a run in which a handle kept through 2^32 retirements acquires a later registration with no retirement between check and swap |
| SlotRegistryLimits.LateSignalCompletesAnothersFence | runtime-native/rust/src/native_gpu.rs:408-429 | a run in which a late signal completes the fence of the next registration, whose owner never signalled |
| ExchangePoolProofs.StepKeeps | runtime-sdk/go/runtimehost/process_pool.go:777-1079 | every step of callers, loops, supervisors and closers keeps the ownership invariant |
| ExchangePoolProofs.RunKeeps | runtime-sdk/go/runtimehost/process_pool.go:366-530 | the invariant holds after any interleaving with any environment |
| ExchangePoolTheorems.PooledChannelIsQuiet | runtime-sdk/go/runtimehost/process_pool.go:248-278 | a pooled completion channel is pooled once and empty, no request still to be serviced answers into it and nobody waits on it |
| ExchangePoolTheorems.NobodyGetsAnothersResult | runtime-sdk/go/runtimehost/process_pool.go:845-911 | what a waiting caller or supervisor finds in its channel is the result of its own request, and no two wait on one channel; what a call then returns is ReturnedMeans |
| ExchangePoolHistory.HistoryKept | runtime-sdk/go/runtimehost/process_pool.go:1050-1060 | a request still to be sent or still out has no answer, a channel holds the answer of its own request, and the failed requests are those answered with an error |
| ExchangePoolHistory.AnsweredOnce | runtime-sdk/go/runtimehost/process_pool.go:1050-1060 | no request is ever answered twice |
| ExchangePoolHistory.ReplyIsGiven | runtime-sdk/go/runtimehost/process_pool.go:1050-1060 | a loop replies what its child responded to the request in service |
| ExchangePoolAnswers.ReturnedMeans | runtime-sdk/go/runtimehost/process_pool.go:801-911 | each outcome of execute is tied to the reply of the last request the call handed over, its own deadline, its own context, or a failure it met; failures of the exchange come only after a teardown; the call puts its buffer back unless abandoned |
| ExchangePoolAnswers.FailedFirstAttemptTearsDown | runtime-sdk/go/runtimehost/process_pool.go:806-820 | a first attempt whose request was answered with an error turns to tearing its worker down |
| ExchangePoolRetry.FailedAttemptIsTriedAgain | runtime-sdk/go/runtimehost/process_pool.go:812-827 | after any failed first attempt with a live context, some continuation kills the child that had it for that failure and reaches the second attempt |
| ExchangePoolHoldings.NothingOutlivesItsCall | runtime-sdk/go/runtimehost/process_pool.go:786-974 | a goroutine has a worker lock exactly while at work on that worker, and a completion channel exactly while using it; an idle or returned one has neither |
| ExchangePoolTheorems.PooledBufferIsQuiet | runtime-sdk/go/runtimehost/process_pool.go:380-412 | a pooled control buffer is pooled once and no queued or in-service request refers to it |
| ExchangePoolTheorems.WaitingCallerIsServed | runtime-sdk/go/runtimehost/process_pool.go:1037-1060 | while a caller waits, its request is queued or in service at a running loop, or already answered |
| ExchangePoolTheorems.EveryKillIsExplained | runtime-sdk/go/runtimehost/process_pool.go:640-974 | a deadline kill hits the process captured at submission after that request's deadline; a teardown follows Close, an unready epoch child killed by its own start, or a failed attempt, and then hits the process that had the failed request, for a named cause on that request |
| ExchangePoolTheorems.CancellationAloneNeverKills | runtime-sdk/go/runtimehost/process_pool.go:834-844 | in a pool without epoch workers, with no deadline passed and no exchange failed, any kill is Close or a context that ended before anything was handed over |
| ExchangePoolTheorems.ModesFixed | runtime-sdk/go/runtimehost/process_pool.go:299-330 | over any run the workers and their transport modes are those of the pool |
| ExchangePoolTheorems.TeardownExactlyAtTheFirstCheck | runtime-sdk/go/runtimehost/process_pool.go:801-851 | in such a pool a step of an attempt turns to teardown exactly when the first attempt of a call finds its context ended |
| ExchangePoolEarlyPath.AttemptHasChild | runtime-sdk/go/runtimehost/process_pool.go:801-806 | an attempt is made only with a child running |
| ExchangePoolEarlyPath.EndedContextKills | runtime-sdk/go/runtimehost/process_pool.go:708-851 | after any run of any pool that reaches that guard, some continuation kills the running child for the ended context alone |
| ExchangePoolTheorems.EarlyCancellationRestartsTheWorker | runtime-sdk/go/runtimehost/process_pool.go:845-851 | a run in which a context that ends before the first check gets a healthy child killed with nothing handed over |
| ExchangePoolStranded.StrandedForever | runtime-sdk/go/runtimehost/process_pool.go:1050-1060 | a request left in the queue of a finished loop keeps its settling supervisor waiting over every continuation |
| ExchangePoolStranded.AnsweredUnlessStranded | runtime-sdk/go/runtimehost/process_pool.go:953-961 | a supervisor past its timer can still be answered exactly when its request is not in the queue of a finished loop |
| ExchangePoolStranded.SupervisorIsStranded | runtime-sdk/go/runtimehost/process_pool.go:936-961 | a run in which the caller leaves and the pool closes before the loop takes the request, stranding the supervisor |
| Bits.XorCancels | tooling/math_lab/maplet.go:85-87 | exclusive-or with the same value twice is the identity |
| MapletSpec.AltInvolution | tooling/math_lab/maplet.go:77-88 | the alternate bucket of the alternate bucket is the bucket itself |
| MapletSpec.ClassFixesPair | tooling/math_lab/maplet.go:77-88 | a class is seen from exactly the two buckets of its pair |
| MapletSpec.DecomposedByBits | tooling/math_lab/maplet.go:77-83 | the first bucket is the low bits of the hash, and the fingerprint its 28 bits from bit 32 on unless they are all zero |
| MapletSpec.StandingWriteShows | tooling/math_lab/maplet.go:107-180 | after any inserts a class is present exactly when some write of it was neither overwritten nor lost since, with that value |
| MapletSpec.EveryHashCollides | tooling/math_lab/maplet.go:62-97 | for every pair of hash functions and every table size two different keys share a class |
| MapletSpec.SizingEnds | tooling/math_lab/maplet.go:44-52 | the doubling loop, in 32 bits, ends exactly when at most 2^31 slots are asked for |
| MapletTable.Maplet.constructor | tooling/math_lab/maplet.go:44-60 | an empty table with the least power-of-two bucket count, at least 8, that holds the keys at 85% load, and 90% of its slots as the count limit |
| MapletTable.Maplet.Lookup | tooling/math_lab/maplet.go:182-208 | returns the map's value of the key's class, and not found exactly when the class is absent |
| MapletTable.Maplet.Insert | tooling/math_lab/maplet.go:107-180 | success updates exactly the key's class and count; refusals change nothing; the chain is exhausted exactly when both buckets of a new class are full and none of the 500 buckets the displacement walk reaches has an empty slot, and then exactly one class is lost |
| MapletTable.Maplet.Kick | tooling/math_lab/maplet.go:154-179 | the displacement loop fails exactly when none of the 500 buckets of its walk has room, and either completes the insert or leaves all but the carried class as if it had |
| MapletTable.Maplet.Swap | tooling/math_lab/maplet.go:158-167 | one kick exchanges exactly one slot and keeps every class but the victim's, whose other bucket comes next |
| MapletTable.InsertsThenLookup | tooling/math_lab/maplet.go:8-16 | after any inserts, refused and exhausted ones included, a key is found exactly when a write of its class stands, with the value of that write; what a chain loses was in the table |
| MapletTable.CollidingKeysOverwrite | tooling/math_lab/maplet.go:120-134 | of two accepted keys of one class the first answers with the value of the second |
| MapletSpec.NineDoNotFit | tooling/math_lab/maplet.go:34-41 | of nine classes of one pair of buckets some class is not in the table |
| MapletTable.OverfullPairLoses | tooling/math_lab/maplet.go:154-179 | inserting more than eight classes of one pair exhausts a chain, and one of them ends up absent |
| MapletTable.ChainLosesAClass | tooling/math_lab/maplet.go:154-179 | a new table and nine keys on which that happens |
| ArenaSpec.AlignCovers | runtime-sdk/go/runtimehost/arena.go:170-176 | the rounded extent covers the slab exactly up to 2^32 - 4096 bytes; past that it is empty |
| ArenaSpec.SlabsAreSeparate | runtime-sdk/go/runtimehost/arena.go:183-224 | after any run, slabs are page-aligned and clear of header, epochs and table; each ends inside the region, and before every later slab, exactly for lengths within the limit |
| ArenaSpec.PanicsExactlyPastTheLimit | runtime-sdk/go/runtimehost/arena.go:195-223 | exactly the accepted lengths past the limit write a row and then fail to slice |
| ArenaSpec.AllocationMeans | runtime-sdk/go/runtimehost/arena.go:183-224 | each refusal has its exact condition; an allocated slab has the next id, the live generation, the type asked for, no flags, ALLOCATED, the old head as offset and the least page-rounded capacity |
| ArenaSpec.RunPacked | runtime-sdk/go/runtimehost/arena.go:195-223 | over any run no page is skipped between slabs |
| ArenaSpec.WrappedLengthOverlaps | runtime-sdk/go/runtimehost/arena.go:170-176 | a run in which two slabs start at one offset |
| ArenaSpec.SlabsPersist | runtime-sdk/go/runtimehost/arena.go:234-252 | until a reset a slab keeps offset, length, capacity and type, and READY stays READY |
| ArenaSpec.CommitsOnce | runtime-sdk/go/runtimehost/arena.go:228-252 | an accepted commit is never accepted again before a reset |
| ArenaSpec.StaleDescriptorRefused | runtime-sdk/go/runtimehost/arena.go:234-239 | a descriptor from before resets is refused unless their number is a multiple of 2^32 |
| ArenaSpec.StaleDescriptorCommits | runtime-sdk/go/runtimehost/arena.go:126-146 | a run with 2^32 resets after which a descriptor from before them is accepted |
| ArenaStore.RowRoundTrip | runtime-sdk/go/runtimehost/arena.go:254-297 | a table row read back is the descriptor written |
| ArenaStore.RowEpochs | runtime-sdk/go/runtimehost/arena.go:254-268 | a row is stamped with its id plus one as producer epoch and zero as consumer epoch |
| ArenaStore.RowWritten | runtime-sdk/go/runtimehost/arena.go:254-268 | writing one row changes that row alone and no slab bytes |
| ArenaStore.NewArenaOver | runtime-sdk/go/runtimehost/arena.go:107-123 | only a region between the size bounds becomes an arena, and a refused one is untouched |
| ArenaStore.Arena.Reset | runtime-sdk/go/runtimehost/arena.go:126-157 | the bytes encode the next generation's empty arena with every row cleared |
| ArenaStore.Arena.Allocate | runtime-sdk/go/runtimehost/arena.go:183-224 | refines the abstract allocation in result and state; earlier slabs keep their bytes |
| ArenaStore.Arena.Commit | runtime-sdk/go/runtimehost/arena.go:234-252 | accepted exactly on a live ALLOCATED row of this generation with the same bounds and type; no slab bytes change |
| ArenaStore.Arena.Slab | runtime-sdk/go/runtimehost/arena.go:304-318 | the bytes of a row allocated in this generation, refused for any other |
| Columnar.Filled | runtime-sdk/go/runtimehost/arena_columnar.go:93-95 | writing inside one slab leaves table, header and every other slab as they were |
| Columnar.WriteColumn | runtime-sdk/go/runtimehost/arena_columnar.go:78-138 | success exactly when the allocation succeeds; the field then carries the id, type, length and width asked for, the slab reads back as the values and earlier slabs are unchanged |
| Columnar.WriteFloat32Matrix | runtime-sdk/go/runtimehost/arena_columnar.go:57-70 | a shape that does not match the values touches nothing; otherwise the matrix reads back whole |
| Columnar.WriteColumnarBatch | runtime-sdk/go/runtimehost/arena_columnar.go:143-203 | the batch slab reads back as the row count and fields written, with the fixed words of a dense batch everywhere else; earlier slabs are unchanged |
| Columnar.ReadColumnarBatch | runtime-sdk/go/runtimehost/arena_columnar.go:210-258 | reads the batch a slab holds, refusing an absent, short, unmarked, over-declared or truncated one |
| Columnar.ReadColumn | runtime-sdk/go/runtimehost/arena_columnar.go:265-296 | reads the words of a column, refusing a slab shorter than the declared length |
| Columnar.RunLater | runtime-sdk/go/runtimehost/arena_columnar.go:78-203 | over any list of allocations, commits, columns and batches without a reset, every earlier batch and column reads as before |
| Columnar.ColumnRoundTrip | runtime-sdk/go/runtimehost/arena_columnar.go:286-296 | words laid out little-endian read back as the same words |
| Dispatch.BlendIsTheMean | runtime-sdk/go/runtimehost/dispatch.go:121-139 | the 128-bit blend is the floor of (sample + 7 previous) / 8, never saturates, lies between its inputs, and is fixed exactly for samples 0 to 7 above |
| Dispatch.EwmaSettles | runtime-sdk/go/runtimehost/dispatch.go:121-139 | under a constant sample the estimate moves monotonically, never crosses, and settles within 7 below or exactly from above |
| Dispatch.EwmaDecays | runtime-sdk/go/runtimehost/dispatch.go:121-139 | over the settled band of 7 the distance to a constant sample shrinks by 7/8 with every completion |
| Dispatch.ExpectedLatency | runtime-sdk/go/runtimehost/dispatch.go:99-112 | the saturating product is min(2^64 - 1, the true product); none when unsampled |
| Dispatch.ScoreMeans | runtime-sdk/go/runtimehost/dispatch.go:67-112 | the score is the mean times one plus the full rounds queued at the larger limit, at least one, less the bonus when bit key mod 64 of the bloom set is one |
| Dispatch.Consider | runtime-sdk/go/runtimehost/dispatch.go:160-187 | a lane gets a score exactly when it covers every required bit, matches jurisdiction, is within its heartbeat window, is sampled and meets the deadline |
| Dispatch.Decide | runtime-sdk/go/runtimehost/dispatch.go:150-194 | succeeds exactly when some lane is eligible and returns the id at the first index of the least score, never a retired row |
| Bits.AndSubset | runtime-sdk/go/runtimehost/dispatch.go:54-57 | masking keeps the required mask exactly when each of its bits is held |
| Dispatch.RowRoundTrip | runtime-sdk/go/runtimehost/dispatch.go:221-245 | a lane row read back is the row written |
| DispatchTable.TableRoundTrip | runtime-sdk/go/runtimehost/dispatch_unix.go:387-410 | a buffer that holds a table decodes to it |
| DispatchTable.PositionalRows | runtime-sdk/go/runtimehost/dispatch_unix.go:362-375 | every published row keeps its fields and gets its own slot and the generation of the publish; the rest are retired |
| DispatchTable.Block.PublishDescriptors | runtime-sdk/go/runtimehost/dispatch_unix.go:351-381 | fills the idle buffer with the positional table, then flips, other buffer and statistics untouched; too many rows are refused and a flip word that names no buffer fails, both before anything is written |
| DispatchTable.Block.SnapshotDescriptors | runtime-sdk/go/runtimehost/dispatch_unix.go:387-410 | decodes the buffer the flip word selects, refusing a flip word that selects none |
| DispatchTable.PublishThenSnapshot | runtime-sdk/go/runtimehost/dispatch_unix.go:351-410 | a published table reads back row by row |
| DispatchRuns.RunKeeps | runtime-sdk/go/runtimehost/dispatch_unix.go:351-410 | the publication invariant holds after any interleaving of stores, flips and reads |
| DispatchRuns.ReaderSeesOneTable | runtime-sdk/go/runtimehost/dispatch_unix.go:383-410 | a scan that at most one publish overlaps decodes one wholly published table, or the initial one |
| DispatchRuns.OverlapsTear | runtime-sdk/go/runtimehost/dispatch_unix.go:345-350 | for every n from two on, a run with exactly n overlapping publishes whose reader decodes a table never published |
| LaneStats.Row.RecordCompletion | runtime-sdk/go/runtimehost/dispatch_unix.go:226-239 | the mean becomes the exact blend and the heartbeat is stamped |
| LaneStats.Row.RecordRun | runtime-sdk/go/runtimehost/dispatch_unix.go:226-239 | a run of equal completions leaves the settled estimate |
| LaneStats.InflightIsTheBalance | runtime-sdk/go/runtimehost/dispatch_unix.go:163-224 | in every interleaving the count is claims less releases modulo 2^32 and releases never outnumber claims |
| LaneStats.ContendedMeansEightOthers | runtime-sdk/go/runtimehost/dispatch_unix.go:172-224 | a release that gives up as contended was passed by at least eight changes made by other threads |
| LaneStats.AnswersAreTrue | runtime-sdk/go/runtimehost/dispatch_unix.go:183-224 | a release answers released exactly in the step that takes one off the word, nothing only at zero, and changes nothing when contended |
| LaneStats.ReleasesAreAnswered | runtime-sdk/go/runtimehost/dispatch_unix.go:183-224 | over every run as many calls are told they released as the word was taken down |
| Projection.HighestVersionWins | frontend-kit/ts/src/runtimeWorkbench.ts:569-603 | after any sequence of upserts and deletes each id holds the outcome of its last highest in-scope version |
| Projection.AcceptedMeans | frontend-kit/ts/src/runtimeWorkbench.ts:569-603 | a mutation is accepted in scope at no lower version; an accepted patch keeps the fields it does not name, takes those it names and the mutation's id, an upsert without a record is its fields and id, a delete removes |
| Projection.FieldIsTheLastSaid | frontend-kit/ts/src/runtimeWorkbench.ts:569-603 | after any upserts, patches and deletes each field is what the last accepted mutation that settles it said |
| Projection.OrderIndependentIff | frontend-kit/ts/src/runtimeWorkbench.ts:569-603 | all arrival orders leave the same records exactly when ties at an id's highest version agree |
| Projection.DistinctVersionsConverge | frontend-kit/ts/src/runtimeWorkbench.ts:569-603 | versions distinct per id make all arrival orders agree, versions included |
| ProjectionStore.DomainStore.constructor | frontend-kit/ts/src/runtimeWorkbench.ts:476-516 | a store of the initial records at version 1 |
| ProjectionStore.DomainStore.Emit | frontend-kit/ts/src/runtimeWorkbench.ts:494-502 | publishes at once outside a batch and is held back inside one |
| ProjectionStore.DomainStore.Replace | frontend-kit/ts/src/runtimeWorkbench.ts:512-515 | the live records become the given ones, later records winning; nothing handed out changes |
| ProjectionStore.DomainStore.Upsert | frontend-kit/ts/src/runtimeWorkbench.ts:536-539 | stores the record under its id in place; snapshots handed out never change |
| ProjectionStore.DomainStore.Remove | frontend-kit/ts/src/runtimeWorkbench.ts:540-544 | removes the record in place; an absent one publishes nothing |
| ProjectionStore.DomainStore.EndBatch | frontend-kit/ts/src/runtimeWorkbench.ts:504-560 | closing the outermost batch publishes exactly once if anything was emitted in it |
| ProjectionStore.DomainStore.GetSnapshot | frontend-kit/ts/src/runtimeWorkbench.ts:488-522 | the snapshot holds the live records; between batches equal versions mean equal records |
| ProjectionStore.RunOps | frontend-kit/ts/src/runtimeWorkbench.ts:476-560 | over any list of store operations, nested batches and snapshots included, the live records are their result, every snapshot handed out keeps what it held, and an unchanged version outside a batch means unchanged records |
| ProjectionStore.TenantProjectionStore.ApplyOne | frontend-kit/ts/src/runtimeWorkbench.ts:569-603 | accepts and applies one mutation as the fold does, field by field, publishing only when records were touched; a refused one changes nothing |
| ProjectionStore.TenantProjectionStore.ApplyMany | frontend-kit/ts/src/runtimeWorkbench.ts:606-626 | equals folding apply, whose records FieldIsTheLastSaid describes, with one version bump outside a batch if anything was touched and none otherwise, and a tally with highest accepted version and latest accepted watermark |
| ProjectionStore.TenantProjectionStore.Reset | frontend-kit/ts/src/runtimeWorkbench.ts:628-631 | empties records and versions; nothing handed out changes |
| ProjectionStore.TallyVersions | frontend-kit/ts/src/runtimeWorkbench.ts:610-624 | every mutation is counted once and the last version is the maximum over the accepted ones |
| ProjectionStore.TallyMarks | frontend-kit/ts/src/runtimeWorkbench.ts:610-624 | the watermark is the last one given by an accepted mutation |
| NativeFrame.EncodeRust | runtime-native/rust/src/lib.rs:352-392 | succeeds exactly within the length fields, with the frame of the request |
| NativeFrame.EncodeTs | runtime-native/ts/src/index.ts:176-217 | trims, then succeeds exactly within the length fields and 2 MiB, with the frame of the trimmed request |
| NativeFrame.EncodeBoth | runtime-native/ts/src/index.ts:176-217 | both encoders give the same bytes on trimmed fields; only the size limit is TypeScript's own |
| NativeFrame.DecodeView | runtime-native/rust/src/lib.rs:394-450 | the cursor walk computes the decoding, errors included |
| NativeFrame.DecodesExactlyItsFrames | runtime-native/rust/src/lib.rs:394-464 | a frame decodes to a request exactly when it is that request's frame up to the reserved bytes and the request is acceptable |
| NativeFrame.RequestRoundTrips | runtime-native/rust/src/lib.rs:352-464 | an encodable request round-trips exactly with a non-blank unit id, schema "1.0" and a size within the limit |
| NativeFrame.ResponseDecodersAgree | runtime-native/ts/src/index.ts:219-245 | at 2 MiB both response decoders accept the same frames with the same contents |
| NativeFrame.ResponseRoundTrips | runtime-native/rust/src/lib.rs:466-533 | an encodable response round-trips exactly when its frame fits the limit |
| NativeFrame.DispatchFrameMeans | runtime-native/rust/src/lib.rs:214-231 | the allocating path refuses what does not decode, then an unlisted unit, then passes on a unit failure; otherwise its bytes decode to status 0, the output and no diagnostics |
| NativeFrame.DispatchFrameInto | runtime-native/rust/src/lib.rs:214-269 | fails like the allocating path, untouched before the unit is called and cleared past the header on a unit error, and given the same unit output writes its bytes exactly for outputs below 2^32 bytes |
| Receipt.Writer.WriteLengthPrefixed | runtime-sdk/go/resultauth/resultauth.go:200-205 | appends the eight-byte length and the field |
| Receipt.Writer.WriteCanonical | runtime-sdk/go/resultauth/resultauth.go:185-198 | appends exactly the canonical bytes |
| Receipt.PrefixedSplits | runtime-sdk/go/resultauth/resultauth.go:200-205 | a length-prefixed field ends where its prefix says, whatever follows |
| Receipt.CanonicalIsInjective | runtime-sdk/go/resultauth/resultauth.go:185-205 | receipts whose canonical bytes begin one stream are equal in all eight fields and end together |
| Receipt.FieldsInOrder | runtime-sdk/go/resultauth/resultauth.go:185-205 | the canonical bytes read by position: domain text, job, tenant, unit, worker and result hash, each behind its length, then status and the two times |
| EdgeTable.MaskingKeepsContains | config-contracts/go/runtimeconfig/edgetable.go:74-79 | clearing host bits does not change what a prefix contains |
| EdgeTable.ContainsByBits | config-contracts/go/runtimeconfig/edgetable.go:108-119 | a prefix contains exactly the unzoned addresses of its family that share its leading bits |
| EdgeTable.UnmapMeans | config-contracts/go/runtimeconfig/edgetable.go:112-112 | ::ffff:w.x.y.z stands for w.x.y.z without a zone, any other address for itself |
| EdgeTable.LongestIsUnique | config-contracts/go/runtimeconfig/edgetable.go:103-119 | a longest declared prefix that contains an address is the only one of its length |
| EdgeTable.SortEntries | config-contracts/go/runtimeconfig/edgetable.go:94-99 | the entries in order of length then region id, none lost |
| EdgeTable.ParseEdgeRegionTable | config-contracts/go/runtimeconfig/edgetable.go:55-101 | succeeds exactly on a non-empty list of named distinct regions whose prefixes all parse and differ, and indexes all of them |
| EdgeTable.Lookup | config-contracts/go/runtimeconfig/edgetable.go:108-119 | returns the region of the unique longest declared prefix whose leading bits the unmapped address has, and none exactly when there is no such prefix |
| EdgeTable.LookupMapped | config-contracts/go/runtimeconfig/edgetable.go:108-119 | an IPv4-mapped address, zoned or not, gets what the IPv4 address gets |
| EdgeTable.WinnerSurvivesReordering | config-contracts/go/runtimeconfig/edgetable.go:92-119 | the winner keeps its region id and jurisdiction under any reordering of regions and CIDRs |
| EdgeTable.GoodIsOrderFree | config-contracts/go/runtimeconfig/edgetable.go:55-101 | whether a configuration is accepted does not depend on declaration order |
| EdgeTable.LookupBothWays | config-contracts/go/runtimeconfig/edgetable.go:55-119 | two orders of one configuration are accepted together and give every address the same region id and jurisdiction |

## Left out

- MapletTable.Maplet.constructor: asks for at most 2^31 slots, which SizingEnds shows is exactly when the source's sizing loop ends; the 85% and 90% loads are exact reals rather than floats.
- Projection.OrderIndependentIff: is about upserts and deletes only, because a late lower-version patch is rejected by design; FieldIsTheLastSaid covers patches in one order.
- ExchangePoolTheorems.CancellationAloneNeverKills: is about pools without epoch-transport workers, whose exchange watches the caller's context; EveryKillIsExplained covers those.
- DispatchRuns.ReaderSeesOneTable: takes plain reads and writes as single bytes in one global order, and one publisher.
- ExchangePoolAnswers.ReturnedMeans: is about `execute`; the error that `Close` may give back is not modelled.
- Projection.FieldIsTheLastSaid: is about mutations stored under their own record id; AcceptedMeans says what any other one does.
- SlotRegistryTheorems.NothingSucceedsAfterRemoval: allows for the 32-bit generation, which wraps.
- The slot registry, the exchange pool, lane publication and the in-flight count are step machines over values, not classes; memory orders weaker than sequential consistency are not modelled.
- Lock poisoning, platform handles, descriptor validation, fence ids and snapshots of the GPU registry.
- The starts made by NewProcessPool itself: every worker here starts at its first call.
- The epoch doorbell exchange, test exchanges, worker selection, warm-up statistics and diagnostics of the process pool.
- mmap, unsafe pointers, child processes, pipes and timers: only their effect appears, as steps or parameters.
- Hash functions of the maplet and its collision probabilities: the hashes are arbitrary functions.
- Arena flush and read hooks for consumers without the mapping, and SumFloat32Column: floating-point addition.
- Float32 columns are their 32-bit patterns; one WriteColumn stands for the float and the integer writer.
- Statistics rows of the dispatch region are fields of a row, not bytes; mirroring and heartbeats would only add easy members.
- Listeners, React hooks and the lazily built record array of a store snapshot; record fields hold strings.
- UTF-8 validation, trimming and CIDR syntax: arbitrary functions or already parsed values.
- The HMAC over a receipt: the canonical bytes are its input.
- Affinity keys and other configuration validators.
- The stable sort of the edge table is a library call; SortEntries inserts in order with the same comparison.
