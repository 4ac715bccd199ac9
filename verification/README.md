# ProviaVM preprocessing, verified in Dafny

ProviaVM proves program executions under three-party replicated secret sharing.
Its preprocessing engine generates correlated randomness (edaBits, daBits, wrap
masks), streams it between the parties in messages, segments and parallel lanes,
keeps it in seeds and files, and hands it out through cursors, cached windows,
reservations and extensions.  This project models that engine, and four smaller
components with a hard invariant of their own, and proves that everything lazy,
cached, streamed, forked or stored agrees with a simple eager definition: item
`i` is a fixed function of the three pairwise random streams.

The modules:

- `Field`, `Bytes`, `RngStream`, `Arith`, `FlatRows`, `Positions`,
  `Polynomials`: residues modulo an arbitrary `P`, little-endian words, seekable
  streams, tables stored flat, places in a store, coefficient lists.
- `EdaBitsSpec`, `EdaBits`, `EdaBitsPool`, `EdaBitsRuns`, `EdaBitsCrash`: the
  eager meaning of edaBits, their regeneration, the stateful pool of one party,
  whole runs, and a machine that can crash between any two steps of a take.
- `DaBitsSpec`, `DaBits`, `DaBitsRuns`, `DaBitsCrash`: the same for daBits.  Both
  run modules count, beside total and cursor, which item each row of a store
  belongs to.
- `Framing`, `Streaming`, `Segments`: how sender and receiver cut the same
  items into messages, and lanes whose writes interleave in every order.
- `Processes`, `Generation`, `GenerationRuns`, `GeneratedStores`,
  `GeneratedEdaBits`: the three-party generation protocol.  `Processes` shows for
  any straight-line processes over bounded FIFO channels that one schedule in
  which every send finds its channel empty rules out deadlock in all schedules
  and makes all of them end alike; `Generation` writes the parties' programs,
  with their lanes, and finds such a schedule; the others draw the conclusions,
  down to the contents of the stores.
- `BackingStore`, `MetaFile`: the byte-level file store and the meta file.
- `WrapMask`, `WrapMaskPool`, `Sumcheck`, `SumcheckProver`, `OpeningReduction`,
  `OpeningAccumulator`, `OpeningRuns`, `Checkpoints`, `Forks`, `BulkChannel`:
  wrap masks, the coordinator's batched sumcheck and opening reduction, the
  tracer's checkpoints, the fork combinators and the bulk channel.

A file of field elements is one row per item in the pool model; `FlatRows`,
`BackingStore` and `GeneratedStores` relate rows to flat offsets and bytes.  The
quantifiers in `Source.Faithful` and `Items.Faithful` tie the components of an
item to the streams; the components are function values so that stream
arithmetic stays out of proofs about state.

Where a promise of the code turns out to have an exception, the model keeps the
code and states the exact condition:

- A reload goes back to the saved total but keeps P2's file, and an extension
  appends to the file's end.  So an extension that was never saved shifts the
  items of the next one (`EdaBitsRuns.ReloadShiftsItems`,
  `DaBitsRuns.ReloadShiftsItems`).  `RunsCorrelate` and `RunsRecombine` say that
  the parties' shares fit together if and only if no shifted row is handed out,
  `AlignedDecides` that the operations alone decide this, and
  `FlushRunsAreAligned` that it never happens to a file without surplus rows.
- An extension at P2 keeps the pool usable if and only if its store is the file
  (`ExtendAuthoritative`).
- P1 persists its daBit cursor only when it saves or is dropped: after a crash it
  is in step with the others if and only if its cursor was on disk
  (`CrashKeepsStep`, `CrashRepeatsAtP1`).
- A forked batch fails if and only if a view starts past the end of the cached
  window, or forks or scratch buffers are missing (`FillView`, `TakeForked`,
  `ForkedBatchMissesWindow`).
- In initial generation sender and receiver may frame a segment differently;
  `InitialFramingAgreesIff` gives the condition, which the default sizes meet.
- Appending to a file store is correct if and only if the append offset is at
  the end (`Extend`).
- A sumcheck round aborts if and only if its polynomial is constant, because
  compression slices past a single coefficient (`Round`, `Prove`).
- The daBit crash guarantee needs exactly that cursor writes succeed
  (`PersistIsNeeded`).  An edaBit take zeroes before it persists: a crash during
  it is harmless if and only if it has not zeroed a row that was not zero
  (`CrashSafeIff`, `CrashLosesRow`).
- Registering an opening id again keeps the accumulator sound if and only if
  `MayRegister` holds (`RegisterSoundIff`); otherwise an alias can read back
  another claim or following aliases can run forever
  (`SecondRegistrationBreaks`, `SecondRegistrationCycles`).
- The transcript gets opening claims in the order of their registration if and
  only if no flush comes after a younger claim was sent (`SentInOrderIff`).
- A bulk frame is read back if and only if the message is shorter than 2^40
  bytes (`FrameReadBackIff`); the meta file is read back if and only if the
  field size fits 32 bits (`RoundTripIff`).
- The tracer's iterator returns `None` not only when the program has completed,
  as its comment says, but also at a tick without a cycle; it yields the whole
  trace if and only if no cycle comes after such a tick (`WholeTrace`,
  `SilentTickHides`).
- Wrap masks are neither repeated nor skipped as long as cursor writes succeed
  (`Session`); `ReloadStale` says exactly what a lost write does.
- The chunked parallel map, whose comment promises a plain map, aborts if and
  only if it may fork but has no inputs, or needs more forks than the pool has
  (`ParIter`); the latter takes a limit above the pool (`LimitCanExceedPool`).

Parameters of the model: the expansion of a seed to a byte stream, the
transcript's challenges, the emulator's tick, exact interpolation by
`UniPoly::from_evals`, the conversion of bits to additive shares, and the
function mapped over forks.

## Model

| member | source | states |
|---|---|---|
| `RngStream.SeekAndGenerate` | mpc-core/src/preprocessing/dabits.rs:506-523 | the bytes regenerated by seeking to a word and dropping up to three bytes are the exact slice of the stream, at every byte offset, aligned or not |
| `EdaBitsSpec.SharesSpell` | mpc-core/src/preprocessing/pool.rs:944-993 | for every item, the opened sums of the shares in the stream of P0 and P1 and those P0 computes for P2 are zeros and ones that spell, in binary, gamma modulo 2^k |
| `EdaBitsSpec.GammaFits` | mpc-core/src/preprocessing/pool.rs:960-983 | with k = 8 * t_bytes gamma is below 2^k, so the shares spell all of it |
| `EdaBitsSpec.GammaIsXor` | mpc-core/src/preprocessing/pool.rs:972-979 | every bit of gamma is the sum modulo two of the bits the two streams say |
| `EdaBitsSpec.RowIsRead` | mpc-core/src/preprocessing/pool.rs:962-982 | the first shares of item i are the k field elements read one after the other behind its ring element, all earlier items having been read completely |
| `EdaBitsSpec.FieldOfIs` | mpc-core/src/preprocessing/dabits.rs:526-530 | a field element is sixteen bytes read as one little-endian number, reduced |
| `RngStream.WordSignIs` | mpc-core/src/protocols/rep3_ring/ring/bit.rs:365-370 | a random bit is the top bit of the next little-endian word |
| `EdaBitsSpec.AlphaInRow` | mpc-core/src/preprocessing/edabits.rs:399-484 | bit j of row i of a buffer regenerated from item c is the share of item c + i, for every stride and element size of at least 16 bytes |
| `EdaBits.Regenerate` | mpc-core/src/preprocessing/edabits.rs:399-484 | regenerating items c to c + n gives exactly the eager ring elements and shares of those items, at P0 and at P1 |
| `EdaBits.Alpha2Chunk` | mpc-core/src/preprocessing/pool.rs:1728-1764 | the rows P0 computes for any slice of items are the second shares of exactly those items, and with the first shares they spell gamma |
| `EdaBitsPool.LazyEdaBits.New` | mpc-core/src/preprocessing/edabits.rs:535-562 | a new pool satisfies the invariant that couples every store to the eager definition, with every item in its place |
| `EdaBitsPool.LazyEdaBits.FillP2Store` | mpc-core/src/preprocessing/edabits.rs:786-815 | P2 reads the rows of the items its store holds in the positions and zeroes exactly the rows read; the rest of the file stays intact |
| `EdaBitsPool.LazyEdaBits.FillPrecache` | mpc-core/src/preprocessing/edabits.rs:817-856 | the part of a request that the cached window covers is read from it, is eager, and is zeroed in the window; nothing else changes |
| `EdaBitsPool.LazyEdaBits.FillP01` | mpc-core/src/preprocessing/edabits.rs:919-930 | window part and regenerated part together are the eager batch |
| `EdaBitsPool.LazyEdaBits.TakeBatch` | mpc-core/src/preprocessing/edabits.rs:884-935 | a take succeeds iff enough positions are left, hands out their items (at P2: the items its store holds there), advances the cursor by n, and zeroes exactly what was handed out; a failing take changes nothing |
| `EdaBitsPool.LazyEdaBits.GenerateWindow` | mpc-core/src/preprocessing/edabits.rs:1079-1099 | the window written chunk by chunk is the eager batch, for every chunk length |
| `EdaBitsPool.LazyEdaBits.PreparePrecache` | mpc-core/src/preprocessing/edabits.rs:1035-1108 | fails iff P0 or P1 asks for more than is left; afterwards the window starts at the cursor and holds eager items; P2 is untouched |
| `EdaBitsPool.LazyEdaBits.ClearPrecacheFiles` | mpc-core/src/preprocessing/edabits.rs:756-776 | drops window and sidecar at P0 and P1, does nothing at P2 |
| `EdaBitsPool.LazyEdaBits.ApplyExtension` | mpc-core/src/preprocessing/edabits.rs:1220-1231 | P0 and P1 only grow the total and drop the window, keeping the invariant |
| `EdaBitsPool.LazyEdaBits.ExtendAuthoritative` | mpc-core/src/preprocessing/pool.rs:1922-1982 | the invariant survives an extension at P2 if and only if its store is the file, otherwise the total grows and nothing is stored; the rows go to the end of the file, so the new items are in their places if and only if the file ended at the total |
| `EdaBitsPool.LazyEdaBits.Save` | mpc-core/src/preprocessing/edabits.rs:1124-1153 | the meta file records the total, an in-memory store is written out, and the pool stays valid |
| `EdaBitsPool.LazyEdaBits.Load` | mpc-core/src/preprocessing/edabits.rs:1158-1204 | a loaded pool is valid with the saved total and the persisted cursor; P2 keeps every row of its file, also those of an extension that was never saved; a window is attached only if it belongs to the pool and starts at the cursor |
| `EdaBitsPool.LazyEdaBits.ReserveRange` | mpc-core/src/preprocessing/edabits.rs:937-1015 | a reservation exists iff enough items are left, and describes the range at the cursor |
| `EdaBitsPool.LazyEdaBits.FillView` | mpc-core/src/preprocessing/edabits.rs:188-261 | a view yields its eager items if and only if it is empty or does not start past the end of the cached window (the subtraction wraps there) |
| `EdaBitsPool.LazyEdaBits.FinalizeReservedRange` | mpc-core/src/preprocessing/edabits.rs:1017-1027 | cursor and zeroed ranges are those a plain take of the same length leaves |
| `EdaBitsPool.LazyEdaBits.TakeForked` | mpc-core/src/network.rs:742-794 | filling the views of one reservation and finalizing gives exactly the plain take, with the same cursor and consumed ranges, if and only if there are forks and scratch buffers for the chunks and the last view does not start past the window |
| `EdaBitsPool.ForkedBatchMissesWindow` | mpc-core/src/preprocessing/edabits.rs:201-205 | on every pool of P0 or P1 with eight items left, caching four and taking eight in chunks of three fails where the plain take succeeds |
| `EdaBitsPool.DefaultChunksFit` | mpc-core/src/network.rs:764-779 | with the default chunk size one scratch buffer per fork is always enough |
| `EdaBitsRuns.Run` | mpc-core/src/preprocessing/edabits.rs:884-935 | any list of takes, cached windows, extensions, saves and loads on the real pool, P2 included, hands out what counters and the places of the items say |
| `EdaBitsRuns.PrecacheIsInvisible` | mpc-core/src/preprocessing/edabits.rs:706-784 | two real pools in the same state, one caching windows during a run and one never: they hand out the same batches |
| `EdaBitsRuns.EveryItemOnce` | mpc-core/src/preprocessing/edabits.rs:910-935 | over a whole aligned run the batches join to one gapless stretch of the eager sequence: no index twice, none skipped |
| `EdaBitsRuns.RunsCorrelate` | mpc-core/src/preprocessing/pool.rs:944-993 | in every common run everything handed out is correctly shared (P0 and P1 hold the same shares, and opened with those of P2 they are zeros and ones that spell gamma modulo 2^k) if and only if P2 handed out only rows in place |
| `EdaBitsRuns.RunsAgree` | mpc-core/src/preprocessing/edabits.rs:884-892 | in every common run a take succeeds at all parties or at none |
| `EdaBitsRuns.AlignedDecides` | mpc-core/src/preprocessing/edabits.rs:786-797 | among distinct rows the operations alone decide: P2 hands out only rows in place if and only if every position handed out holds its own item |
| `EdaBitsRuns.FlushRunsAreAligned` | mpc-core/src/preprocessing/pool.rs:1922-1982 | P0 and P1 are always aligned, and P2 is if its file has no rows behind the total whenever it is extended |
| `EdaBitsRuns.ReloadShiftsItems` | mpc-core/src/preprocessing/edabits.rs:1166-1181 | save, extend by a, load, extend by b > a: for all sizes P2 hands out item i - a in every position i from the saved total plus a on |
| `EdaBitsRuns.CommonRun` | mpc-core/src/preprocessing/edabits.rs:884-935 | the three real pools run the same operations: takes succeed at all or none, and everything is correctly shared if and only if P2's rows were in place; with k = 8 * t_bytes every gamma handed out is spelled completely |
| `EdaBitsCrash.NothingTwice` | mpc-core/src/preprocessing/edabits.rs:786-797 | in every run of takes, wherever it crashes, no position reaches the caller twice |
| `EdaBitsCrash.CrashSafeIff` | mpc-core/src/preprocessing/edabits.rs:909-916 | a crash during a take brings back an intact pool if and only if no row zeroed before the cursor write differs from zero |
| `EdaBitsCrash.RunSafe` | mpc-core/src/preprocessing/edabits.rs:786-797 | as long as no crash comes between zeroing and persisting, every batch returned is genuine and everything from the persisted cursor on is intact |
| `EdaBitsCrash.CrashLosesRow` | mpc-core/src/preprocessing/edabits.rs:909-916 | on every pool with a row left that is not zero, a crash in between makes the next take return zeros |
| `EdaBitsCrash.UndisturbedTake` | mpc-core/src/preprocessing/edabits.rs:909-916 | an undisturbed run of the steps has the effect of the take on file, cursor and caller |
| `Framing.BatchSize` | mpc-core/src/preprocessing/pool.rs:1449-1468 | a store batch is the largest number of whole items that fits, or one message's items if that is more |
| `Framing.InitialFramingAgreesIff` | mpc-core/src/preprocessing/pool.rs:1449-1468 | in initial generation sender and receiver cut a segment into the same messages if and only if an explicit condition on items, width, message limit and store batch holds |
| `Framing.DefaultSizesAgree` | mpc-core/src/preprocessing/pool.rs:535-579 | the default sizes satisfy the condition for 32-byte elements, every width and every number of items |
| `Framing.FramingCanDisagree` | mpc-core/src/preprocessing/pool.rs:1231-1256 | concrete sizes for which the message lengths differ |
| `Streaming.SendSuperchunk` | mpc-core/src/preprocessing/pool.rs:680-709 | the messages join to the data and have exactly the lengths of cutting at the limit |
| `Streaming.RecvMessages` | mpc-core/src/preprocessing/pool.rs:822-868 | receiving succeeds iff the queue starts with messages of the expected lengths, and then has written each at the running offset |
| `Streaming.SendPlan` | mpc-core/src/preprocessing/pool.rs:1091-1154 | the messages of a segment join to the eager second shares and have the sender's framing |
| `Streaming.RecvPlan` | mpc-core/src/preprocessing/pool.rs:1484-1503 | P2 accepts a segment iff it is framed in its own steps, and then has written its messages in order from the given element on |
| `Streaming.PlanFramedIff` | mpc-core/src/preprocessing/pool.rs:1490-1503 | a queue that starts with a segment, whatever follows, passes for the segment in other steps if and only if the framing is the same |
| `Streaming.StreamPlan` | mpc-core/src/preprocessing/pool.rs:1473-1525 | a segment of the initial generation lands in P2's store as the eager shares if and only if the sizes agree |
| `Streaming.StreamExtensionPlan` | mpc-core/src/preprocessing/pool.rs:1795-1833 | a segment of an extension always does, for every width and every limit of at least one |
| `Segments.BuildSegmentPlans` | mpc-core/src/preprocessing/pool.rs:587-600 | the plans are the items cut at every segment size: they tile the items, none is empty, and all but the last have the segment size |
| `Segments.ParSegmentPlans` | mpc-core/src/preprocessing/pool.rs:602-636 | every plan goes to exactly one lane, in order; there are as many lanes as forks but no more than plans, with shares that differ by at most one; without forks nothing is processed |
| `Segments.TilesTouchOnce` | mpc-core/src/preprocessing/pool.rs:1484-1503 | the writes of tiling plans are eager and touch every cell of the store exactly once |
| `Segments.SomeScheduleFinishes` | mpc-core/src/preprocessing/pool.rs:621-634 | no lane is held up by another: some schedule completes all writes |
| `Segments.LanesRefineEager` | mpc-core/src/preprocessing/pool.rs:1473-1525 | for every dealing of the plans and every interleaving of the lanes' writes, the finished store is the eager vector |
| `Streaming.PlanWritesAreOne` | mpc-core/src/preprocessing/pool.rs:846-866 | the writes P2 makes message by message at a running offset are the one write of the whole segment |
| `Segments.RecvLane` | mpc-core/src/preprocessing/pool.rs:1473-1525 | P2 takes the plans of a lane off one queue: it accepts if and only if each is framed alike at both ends, and then its writes are exactly those of the lane |
| `Segments.StreamLanes` | mpc-core/src/preprocessing/pool.rs:1473-1525 | for every dealing of tiling plans to lanes: accepted iff framed alike, and then P2's own writes fill the store with the eager second shares under every schedule |
| `Segments.StreamInLanes` | mpc-core/src/preprocessing/pool.rs:1076-1154 | the same for every segment size, lane count, limit and step |
| `Segments.InitialAllFramedIff` | mpc-core/src/preprocessing/pool.rs:1482-1484 | for initial generation that is the condition on the configured sizes, plan by plan |
| `DaBitsSpec.ItemRecombines` | mpc-core/src/preprocessing/dabits.rs:141-244 | the three summands of every item add up to 0, 1 or -1: 0 unless gamma, then -1 if theta; each party's second component is its predecessor's first |
| `DaBitsSpec.LowBits` | mpc-core/src/preprocessing/dabits.rs:189-224 | gamma is the sum modulo two of the low bits of its two bytes, theta the low bit of its byte |
| `DaBitsSpec.ItemIsRead` | mpc-core/src/preprocessing/dabits.rs:226-238 | the two field elements of an item follow its byte in the stream, item after item |
| `DaBitsSpec.BatchesRecombine` | mpc-core/src/preprocessing/dabits.rs:132-246 | the same for whole batches as the three parties see them |
| `DaBits.Alpha2SeedChunk` | mpc-core/src/preprocessing/pool.rs:995-1021 | P0's message for any range is the second shares of those items |
| `DaBits.S12SeedChunk` | mpc-core/src/preprocessing/pool.rs:1023-1051 | P1's message for any range is its summands of those items: unmasked, the first shares, negated exactly where theta is set |
| `DaBits.S20FromThetaSeed` | mpc-core/src/preprocessing/pool.rs:1053-1074 | P2's answer negates what it received exactly where theta is set |
| `DaBits.ZeroRangeIs` | mpc-core/src/preprocessing/dabits.rs:173-217 | a consumed range holds only zeros and the rest is unchanged |
| `DaBits.ReplyIsS20` | mpc-core/src/preprocessing/pool.rs:1053-1074 | the answer to an honest message is P2's summands |
| `DaBits.LazyDaBits.New` | mpc-core/src/preprocessing/dabits.rs:95-116 | a pool over what generation delivers, in memory or on file, satisfies the invariant with every item in its place |
| `DaBits.LazyDaBits.TakeBatch` | mpc-core/src/preprocessing/dabits.rs:132-246 | a take succeeds iff enough positions are left and hands out their shares, the stored parts from the items the store holds there; a file is zeroed exactly there, a store in memory is left alone; P0 and P2 persist the cursor, P1 does not |
| `DaBits.LazyDaBits.ApplyExtension` | mpc-core/src/preprocessing/dabits.rs:334-342 | the rows go to the end of the store, in memory or on file, so the new items are in their places if and only if the store ended at the total |
| `DaBits.LazyDaBits.Save` | mpc-core/src/preprocessing/dabits.rs:255-279 | total and cursor are recorded and rows in memory are written out |
| `DaBits.LazyDaBits.Load` | mpc-core/src/preprocessing/dabits.rs:284-310 | a loaded pool is valid with the recorded total and cursor over the file as it is |
| `DaBitsRuns.Run` | mpc-core/src/preprocessing/dabits.rs:132-246 | any list of takes, extensions, saves and reloads, clean or after a crash, on the real pool hands out what counters and the places of the items say |
| `DaBitsRuns.RunsRecombine` | mpc-core/src/preprocessing/dabits.rs:141-244 | in every common run in which no crash finds P1's cursor unsaved, takes succeed at all parties or none and everything recombines if and only if P0 and P2 handed out only rows in place |
| `DaBitsRuns.EveryItemOnce` | mpc-core/src/preprocessing/dabits.rs:171-172 | over an aligned run the batches join to one gapless stretch: no item twice |
| `DaBitsRuns.CommonRun` | mpc-core/src/preprocessing/dabits.rs:132-246 | the same for the three real pools running the same operations |
| `DaBitsRuns.FlushRunsAreAligned` | mpc-core/src/preprocessing/dabits.rs:334-342 | a run is aligned if no store has rows behind the total whenever it is extended |
| `DaBitsRuns.ReloadShiftsItems` | mpc-core/src/preprocessing/dabits.rs:291-296 | save, extend by a, load, extend by b > a: for all sizes the rows handed out from there on are those of items a places back |
| `DaBitsRuns.CrashKeepsStep` | mpc-core/src/preprocessing/dabits.rs:345-350 | after a crash P1 is in step with the others if and only if it had its cursor on disk |
| `DaBitsRuns.CrashRepeatsAtP1` | mpc-core/src/preprocessing/dabits.rs:242-243 | save, take, crash, take: P1 hands out the first item again while the others are at the second |
| `DaBitsCrash.StepSafe` | mpc-core/src/preprocessing/dabits.rs:163-174 | every step of a take, an extension, a save, and a crash at any point, keeps the safety invariant |
| `DaBitsCrash.RunSafe` | mpc-core/src/preprocessing/dabits.rs:207-218 | over all runs with crashes anywhere: the persisted cursor covers every position returned, everything stored from it on is intact, every returned batch holds the rows of its positions |
| `DaBitsCrash.NothingTwice` | mpc-core/src/preprocessing/dabits.rs:163-174 | no position is returned twice, across crashes and reloads |
| `DaBitsCrash.ReturnedInPlace` | mpc-core/src/preprocessing/dabits.rs:334-342 | if no crash loses an extension before the next one, every batch returned holds the rows of its own items |
| `DaBitsCrash.LostExtensionShifts` | mpc-core/src/preprocessing/dabits.rs:291-296 | an extension lost in a crash shifts the items of the next one by its length |
| `DaBitsCrash.PersistIsNeeded` | mpc-core/src/preprocessing/dabits.rs:313-317 | an undisturbed run of the steps reads, advances, zeroes and returns as the take does; the persisted cursor then covers the returned items if and only if the cursor write succeeded |
| `Generation.RoundOps` | mpc-core/src/preprocessing/pool.rs:1280-1327 | the exchanges of a round, direct or forked to lanes and joined, give each process of each party exactly its program |
| `Generation.SyncProjects` | mpc-core/src/network.rs:845-849 | the ring schedule gives each main process its send to the next and its receive from the previous party |
| `Generation.ScheduleOrderly` | mpc-core/src/preprocessing/pool.rs:1526-1629 | edaBit rounds, ring and daBit rounds have one orderly schedule that delivers everything and leaves all channels empty |
| `GenerationRuns.NeverStuck` | mpc-core/src/preprocessing/pool.rs:1266-1328 | no reachable state of the three parties and their lanes deadlocks, for channels of capacity at least one message |
| `GenerationRuns.AlwaysEnds` | mpc-core/src/preprocessing/pool.rs:1526-1629 | every run of the protocol ends, after the same number of steps |
| `GenerationRuns.WritesEager` | mpc-core/src/preprocessing/pool.rs:1351-1398 | in every finished run each process has written exactly the eager values of its work, in order |
| `GenerationRuns.DrainedBeforeDaBits` | mpc-core/src/network.rs:845-849 | once P0 is past the ring, P2 has received every edaBit message, in its main process and in all its lanes |
| `GeneratedStores.DaBitStoresEager` | mpc-core/src/preprocessing/pool.rs:1280-1308 | in every finished run with lanes the daBit files of P0 and P2 are the eager vectors, in whatever order the lanes' writes reach them |
| `GeneratedStores.DirectDaBitStoresEager` | mpc-core/src/preprocessing/pool.rs:1310-1327 | the same without lanes |
| `GeneratedEdaBits.EdaBitStoresEager` | mpc-core/src/preprocessing/pool.rs:1439-1525 | in every finished run of rounds that generate the types, direct, in segments or on a fork per type, and whatever daBit rounds follow, P2's store of each type is the eager vector and no other process writes there |
| `GeneratedEdaBits.SelectLog` | mpc-core/src/preprocessing/pool.rs:1439-1525 | for any rounds at all, what each process of P2 logs for a store is what the rounds write into it |
| `GeneratedEdaBits.EdaBitRounds` | mpc-core/src/preprocessing/pool.rs:1219-1262 | the rounds the code makes, pipelined with enough forks and type by type otherwise, generate all types; P2 accepts if and only if every plan of every type, whole or segment, is framed alike at both ends |
| `GeneratedEdaBits.DefaultsAccepted` | mpc-core/src/preprocessing/pool.rs:535-579 | with the default sizes it accepts every plan of every supported width |
| `GeneratedEdaBits.TypeRound` | mpc-core/src/preprocessing/pool.rs:1079-1218 | a type in a round of its own, in segments over the lanes or by the main processes, is written as it is divided up and no other type is touched |
| `GeneratedEdaBits.ForkPerType` | mpc-core/src/preprocessing/pool.rs:1224-1256 | one round in which each type that has items is sent whole on its own fork generates all types |
| `GeneratedStores.P2Lane` | mpc-core/src/preprocessing/pool.rs:1547-1598 | P2's buffered pair writes leave the store as if each pair had been written at once, and its answers are what P0 has to store |
| `GeneratedStores.AnswersAreStored` | mpc-core/src/preprocessing/pool.rs:1560-1586 | the answers are the elements P0 stores for the same chunks |
| `BackingStore.WriteRefines` | mpc-core/src/preprocessing/backing_store.rs:159-164 | a positioned write of whole elements into the bytes is the write into the sequence of elements |
| `BackingStore.BackingStore.CreateFileBackedSized` | mpc-core/src/preprocessing/backing_store.rs:437-448 | a sized file holds zero elements and its append offset is not at its end unless it is empty |
| `BackingStore.BackingStore.ReadConsume` | mpc-core/src/preprocessing/backing_store.rs:363-385 | reads exactly the elements of a valid range and fails on any other |
| `BackingStore.BackingStore.Extend` | mpc-core/src/preprocessing/backing_store.rs:540-565 | appends correctly if and only if the append offset is at the end |
| `BackingStore.BackingStore.WriteAt` | mpc-core/src/preprocessing/backing_store.rs:571-617 | overwrites exactly the range; a write that ends at the end moves the append offset there; out-of-range file writes fail and change nothing |
| `BackingStore.BackingStore.WriteBytesAt` | mpc-core/src/preprocessing/backing_store.rs:619-676 | the same for raw bytes, with the same effect on the append offset, failing on a partial element |
| `BackingStore.BackingStore.WriteInterleavedAt` | mpc-core/src/preprocessing/backing_store.rs:679-702 | the pairs stand alternately from twice the pair offset on, left before right |
| `BackingStore.BackingStore.PreExtendedWriter` | mpc-core/src/preprocessing/backing_store.rs:462-475 | grows the file by zero elements, keeps the others and puts the append offset at the end |
| `BackingStore.BackingStore.WriterWriteBytesAt` | mpc-core/src/preprocessing/backing_store.rs:948-974 | a writer overwrites exactly its range and fails outside its length |
| `BackingStore.BackingStore.Consume` | mpc-core/src/preprocessing/backing_store.rs:709-844 | zeroes exactly the elements of the range in a file, by hole or by pieces, and ignores invalid ranges |
| `BackingStore.BackingStore.ZeroInPieces` | mpc-core/src/preprocessing/backing_store.rs:807-831 | writing zeros buffer by buffer zeroes exactly the byte range |
| `BackingStore.BackingStore.LoadFromFile` | mpc-core/src/preprocessing/backing_store.rs:504-535 | loads any file of whole elements, and no other, with the append offset at the end |
| `MetaFile.WriteMeta` | mpc-core/src/preprocessing/backing_store.rs:1062-1076 | every field is at its place in the 117-byte header |
| `MetaFile.ReadMeta` | mpc-core/src/preprocessing/backing_store.rs:1079-1102 | succeeds exactly on files at least as long as the header and returns its fields |
| `MetaFile.RoundTripIff` | mpc-core/src/preprocessing/backing_store.rs:1062-1102 | reading back what was written gives it back if and only if the field size fits 32 bits |
| `MetaFile.UpdateCursor` | mpc-core/src/preprocessing/backing_store.rs:1107-1116 | on every readable file it changes the cursor and no other field |
| `WrapMask.TwoBitAddCombines` | mpc-core/src/preprocessing/wrap_mask.rs:334-354 | the parties' local results are consistent shares of the sum modulo four |
| `WrapMask.MaskValue` | mpc-core/src/preprocessing/wrap_mask.rs:277-288 | the combined mask is the two-bit number in the top two bits, for every width of at least two |
| `WrapMask.ExtractCorrect` | mpc-core/src/preprocessing/wrap_mask.rs:299-327 | for every width of at least two, every m below four and every mask, opening the difference and adding its top bits gives consistent XOR shares of the bits of m |
| `WrapMaskPool.GenerateBits` | mpc-core/src/preprocessing/wrap_mask.rs:259-269 | the bits drawn in one go are the eager low and then the eager high bits |
| `WrapMaskPool.GeneratePools` | mpc-core/src/preprocessing/wrap_mask.rs:246-291 | from common seeds and a conversion that keeps values, the three pools share their snapshots, every mask is replicated and is the two-bit number of its bits (Fit) |
| `WrapMaskPool.OpenAlike` | mpc-core/src/protocols/rep3_ring/arithmetic.rs:196-208 | each party adds its two summands and the one it received; all three get the value of a replicated sharing |
| `WrapMaskPool.LazyWrapMasks.TakeBatch` | mpc-core/src/preprocessing/wrap_mask.rs:98-178 | a take succeeds iff enough masks are left and replays exactly the generated bits and masks of its range; meta and data file change as stated, whether or not the cursor write succeeds |
| `WrapMaskPool.LazyWrapMasks.Save` | mpc-core/src/preprocessing/wrap_mask.rs:180-204 | writes the masks held in memory and a meta file with the current cursor |
| `WrapMaskPool.Load` | mpc-core/src/preprocessing/wrap_mask.rs:206-230 | empty without a meta file, an error iff the party differs or the data file is missing; the pool hands out the generated masks iff the directory still holds them from the cursor on |
| `WrapMaskPool.Session` | mpc-core/src/preprocessing/wrap_mask.rs:98-236 | over any run of takes, saves and restarts the batches concatenate to the generated vectors: no mask twice, none skipped |
| `WrapMaskPool.ReloadStale` | mpc-core/src/preprocessing/wrap_mask.rs:173-175 | a lost cursor write and a restart: a pool served from memory repeats the masks, one served from the file is sound iff the masks taken were all zero |
| `WrapMaskPool.Extract` | mpc-core/src/preprocessing/wrap_mask.rs:299-327 | three parties take masks from their pools, open the masked differences and add the top bits: it fails iff the pools are short, and otherwise they hold consistent shares of the two bits of every count |
| `WrapMaskPool.Unmask` | mpc-core/src/preprocessing/wrap_mask.rs:309-326 | the same from given batches: for every vector of counts, opening at each party and the local loop give shares of all of them |
| `WrapMaskPool.GenerateAndExtract` | mpc-core/src/preprocessing/wrap_mask.rs:240-327 | end to end from the seeds, with any common run in between: the extraction fails iff too few masks are left and is correct otherwise |
| `Sumcheck.PaddedSum` | provia-coordinator/src/subprotocols/sumcheck.rs:305-312 | summing a padded instance over the cube is its own sum times two for every ignored variable |
| `Sumcheck.MulPow2` | jolt/jolt-core/src/field/mod.rs:247-257 | the product with a power of two, computed in steps of 63 bits; aborts exactly above 255 |
| `Sumcheck.InitialClaim` | provia-coordinator/src/subprotocols/sumcheck.rs:305-315 | the scaled, weighted claims add up to the sum of the batch over the whole cube |
| `Sumcheck.RoundPolyIs` | provia-coordinator/src/subprotocols/sumcheck.rs:320-345 | the honest round polynomial at x is the sum over the remaining cube with the next variable fixed to x |
| `Sumcheck.RoundSplits` | provia-coordinator/src/subprotocols/sumcheck.rs:328-331 | the remaining sum is the round polynomial at zero plus at one |
| `Sumcheck.FullEvals` | provia-coordinator/src/subprotocols/sumcheck.rs:328-331 | the value at one recovered from the claim completes the evaluation vector |
| `Sumcheck.Round` | provia-coordinator/src/subprotocols/sumcheck.rs:328-343 | a round ends with the round polynomial at the challenge and a compressed polynomial that carries its values, and aborts if and only if the round polynomial is constant |
| `Polynomials.Evaluate` | jolt/jolt-core/src/poly/unipoly.rs:160-176 | the running-power loop is Horner evaluation |
| `Polynomials.Trim` | provia-coordinator/src/subprotocols/sumcheck.rs:334-336 | trimming keeps every value and leaves more than one coefficient iff the polynomial is not constant |
| `Polynomials.Decompress` | jolt/jolt-core/src/poly/unipoly.rs:366-376 | the recovered polynomial has the compressed coefficients and the hinted sum of values at zero and one |
| `Polynomials.DecompressUnique` | jolt/jolt-core/src/poly/unipoly.rs:239-243 | compression and the hint determine the polynomial |
| `Polynomials.EvalFromHint` | jolt/jolt-core/src/poly/unipoly.rs:380-394 | the evaluation without building the polynomial is the value of the decompressed one |
| `SumcheckProver.ReceiveRoundEvals` | provia-coordinator/src/subprotocols/sumcheck.rs:490-528 | the total is the sum over subnets of the three shares and the first party's public values; it fails if and only if some subnet has not three parties, vectors of different lengths or public values of the wrong length |
| `SumcheckProver.InitialBatchedClaim` | provia-coordinator/src/subprotocols/sumcheck.rs:305-315 | the loop computes the weighted sum of scaled claims, aborting iff one needs more than 255 bits |
| `SumcheckProver.RunCoherent` | provia-coordinator/src/subprotocols/sumcheck.rs:320-345 | the remaining sums and round polynomials of a batch fit together round by round |
| `SumcheckProver.Rounds` | provia-coordinator/src/subprotocols/sumcheck.rs:320-345 | after any number of rounds the running claim is the remaining sum and the proof carries the round polynomials in order; they complete iff none of their polynomials is constant |
| `SumcheckProver.Prove` | provia-coordinator/src/subprotocols/sumcheck.rs:299-345 | after every round the claim is the weighted sum of the front-padded instances over the remaining cube, at the end the weighted values at the challenges; every compressed polynomial, decompressed against the remaining sum before its round, has at every x the sum that remains with x as the next challenge; with the exact condition for completing |
| `SumcheckProver.Verify` | jolt/jolt-core/src/subprotocols/sumcheck.rs:215-240 | fails iff the number of rounds is wrong or a polynomial is empty or above the degree bound, and otherwise replays the proof |
| `SumcheckProver.ReplayHonest` | jolt/jolt-core/src/subprotocols/sumcheck.rs:222-239 | replaying the proof of an honest run leads from its first to its last remaining sum |
| `SumcheckProver.ProveAndVerify` | jolt/jolt-core/src/subprotocols/sumcheck.rs:121-146 | the verifier accepts the returned proof and ends with the weighted values of the instances at the challenges |
| `SumcheckProver.ConstantInstanceAborts` | provia-coordinator/src/subprotocols/sumcheck.rs:334-337 | a constant polynomial in one variable is a valid batch on which the prover aborts |
| `OpeningReduction.ReductionSumcheck.Prepare` | provia-coordinator/src/poly/opening_proof.rs:431-442 | the reduced claim is the combination of the claims by the coefficients, for one polynomial and for several |
| `OpeningReduction.GammaPowers` | provia-coordinator/src/poly/opening_proof.rs:300-303 | the first entry is one, every further one the previous times the challenge |
| `OpeningReduction.FlatIsEval` | provia-coordinator/src/poly/opening_proof.rs:305-312 | the weighted double sum is the value at the challenge of the polynomial whose coefficients are the single combinations |
| `OpeningReduction.BatchOpening` | provia-coordinator/src/poly/opening_proof.rs:300-334 | powers, merged map and joint claim composed: both are values at the challenge of the per-reduction combinations and padded claims, and for honest claims the joint claim is the value of the merged padded combination |
| `OpeningReduction.MleAtCorner` | provia-coordinator/src/poly/opening_proof.rs:330-331 | at the corners of the cube the multilinear extension has the values of its table, the first variable being the highest digit |
| `OpeningReduction.Merge` | provia-coordinator/src/poly/opening_proof.rs:305-311 | the merged map is ordered without repetition and has, under every linear functional, the value of the flat double sum |
| `OpeningReduction.ZeroPadValue` | provia-coordinator/src/poly/opening_proof.rs:330-331 | zero-padding the leading variables multiplies the multilinear value by the product of 1 - r |
| `OpeningReduction.JointClaim` | provia-coordinator/src/poly/opening_proof.rs:325-334 | the loop computes the weighted claims times their padding factors |
| `OpeningReduction.JointClaimMeans` | provia-coordinator/src/poly/opening_proof.rs:325-334 | the joint claim is the value at the challenges of the merged combination with every polynomial zero-padded |
| `OpeningAccumulator.RegisterSoundIff` | provia-coordinator/src/poly/opening_proof.rs:109-124 | a registration that does not abort keeps index and aliases sound if and only if an explicit condition on the tables holds: the id has no place yet, is an alias moving to an indexed point, or stays at its point without contradicting its aliases |
| `OpeningAccumulator.ReadsBack` | provia-coordinator/src/poly/opening_proof.rs:75-80 | the aliased id is no alias itself and holds the same point and claim |
| `OpeningAccumulator.SecondRegistrationBreaks` | provia-coordinator/src/poly/opening_proof.rs:113-118 | a registration outside the condition after which an alias reads back the claim of another point |
| `OpeningAccumulator.SecondRegistrationCycles` | provia-coordinator/src/poly/opening_proof.rs:75-80 | registrations outside the condition after which two ids are aliases of each other, so that following them never ends |
| `OpeningAccumulator.Accumulator.ResolveAlias` | provia-coordinator/src/poly/opening_proof.rs:75-80 | on sound tables it ends after at most one hop |
| `OpeningAccumulator.Accumulator.GetOpening` | provia-coordinator/src/poly/opening_proof.rs:232-237 | on sound tables every registered id reads back its claim, every other id is an error |
| `OpeningAccumulator.Accumulator.Append` | provia-coordinator/src/poly/opening_proof.rs:187-204 | for every id, new or not: a new claim goes to the transcript or, with its id, to the pending lists, a repeated one to neither; on sound tables it aborts iff another id on record clashes and is new iff its polynomial was not opened there, and the tables stay sound iff the id may be registered there |
| `OpeningAccumulator.SamePolynomial` | provia-coordinator/src/poly/opening_proof.rs:23-31 | two ids stand for one polynomial iff they are equal, or both committed, or both virtual, with the same polynomial |
| `OpeningAccumulator.RegisterIff` | provia-coordinator/src/poly/opening_proof.rs:109-125 | on sound tables a registration aborts iff another id, no alias, has a different claim for the same polynomial at the point, and is new iff no id of that polynomial is opened there |
| `OpeningAccumulator.Accumulator.FlushToTranscript` | provia-coordinator/src/poly/opening_proof.rs:206-211 | the pending claims go to the transcript in order |
| `OpeningAccumulator.Accumulator.TakePending` | provia-coordinator/src/poly/opening_proof.rs:213-219 | claims and ids are handed over aligned |
| `OpeningRuns.Run` | provia-coordinator/src/poly/opening_proof.rs:109-219 | any registrations, mode switches, flushes and hand-overs, starting in either mode: the run goes through iff no registration contradicts the record, and transcript, handed-over and pending claims and ids are those the log says |
| `OpeningRuns.Conserved` | provia-coordinator/src/poly/opening_proof.rs:187-219 | in every run the first claim for each polynomial and point, and no other, is sent, handed over or pending, exactly once |
| `OpeningRuns.HandedInOrder` | provia-coordinator/src/poly/opening_proof.rs:213-219 | claims are handed over in the order of their registration, before those still pending |
| `OpeningRuns.SentInOrderIff` | provia-coordinator/src/poly/opening_proof.rs:206-211 | the transcript gets the claims in the order of their registration if and only if no flush comes after a younger claim was sent directly |
| `OpeningRuns.SettledIsInTime` | provia-coordinator/src/poly/opening_proof.rs:71-73 | that holds if nothing is registered outside the zero-knowledge mode while claims are pending |
| `OpeningRuns.FlushCanComeTooLate` | provia-coordinator/src/poly/opening_proof.rs:206-211 | a run with a mode switch whose transcript is out of order |
| `OpeningRuns.AbortsIff` | provia-coordinator/src/poly/opening_proof.rs:113-116 | in every run a registration aborts iff its claim differs from the one on record for the other id that first opened its polynomial at its point |
| `OpeningRuns.NewIff` | provia-coordinator/src/poly/opening_proof.rs:92-101 | in every run a registration is new iff it is the first of its polynomial at its point, or the point is empty |
| `OpeningRuns.ContradictsIff` | provia-coordinator/src/poly/opening_proof.rs:113-116 | a run that registers each id once goes through iff all its claims for one polynomial at one non-empty point agree |
| `OpeningRuns.AdmissibleIsSound` | provia-coordinator/src/poly/opening_proof.rs:109-124 | in every run whose registrations all meet the condition the tables stay sound, so every id reads back its claim |
| `Checkpoints.LazyTraceIterator.StepEmulator` | jolt/jolt-tracer/src/lib.rs:173-183 | ticks unless the program counter has stopped |
| `Checkpoints.LazyTraceIterator.Next` | jolt/jolt-tracer/src/lib.rs:297-323 | from any state: a buffered cycle, or the first of the next tick in order, or none when the counter has stopped or the tick emits nothing |
| `Checkpoints.NextFollows` | jolt/jolt-tracer/src/lib.rs:297-323 | requests yield the trace up to the first None cycle by cycle; the iterator becomes finished exactly when asked past its end |
| `Checkpoints.LazyTraceIterator.Dropping` | jolt/jolt-tracer/src/lib.rs:164-168 | skips up to n cycles and is finished iff fewer were left |
| `Checkpoints.TraceCheckpoints` | jolt/jolt-tracer/src/lib.rs:149-170 | for a trace of length L and interval n there are L / n + 1 checkpoints, the i-th at cycle i * n |
| `Checkpoints.Replay` | jolt/jolt-tracer/src/lib.rs:162-163 | the i-th checkpoint yields the cycles from i * n to the next checkpoint or the end |
| `Checkpoints.WholeTrace` | jolt/jolt-tracer/src/lib.rs:281-323 | the iterator yields a prefix of the program's cycles, and all of them iff no cycle comes after a tick that emits none |
| `Checkpoints.SilentTickHides` | jolt/jolt-tracer/src/emulator/cpu.rs:372-380 | a program whose second tick emits nothing: None is returned although a cycle follows |
| `Forks.ForksWithinLimit` | mpc-core/src/network.rs:578-580 | the number of chunks never exceeds the fork limit |
| `Forks.ChunksFlatten` | mpc-core/src/network.rs:582-587 | the chunks join to the input |
| `Forks.ParIter` | mpc-core/src/network.rs:551-589 | agrees with the sequential map in order, one fork per chunk; aborts iff it may fork but has no inputs or needs more forks than the pool has, and the latter cannot happen without an explicit limit |
| `Forks.LimitCanExceedPool` | mpc-core/src/network.rs:521-523 | four inputs with a limit of four on a pool of two forks |
| `Forks.ParIterCyclic` | mpc-core/src/network.rs:598-634 | every cell is set exactly once, by the fork that owns its index, and order is kept |
| `BulkChannel.LengthPrefix` | mpc-net/src/channel.rs:701-709 | byte i of the prefix is the digit of weight 256^(4 - i) of the length |
| `BulkChannel.Send` | mpc-net/src/channel.rs:698-741 | for every chunk size the loop ends and the stream grows by exactly the frame |
| `BulkChannel.RecvBytes` | mpc-net/src/channel.rs:772-791 | takes the announced number of bytes or fails |
| `BulkChannel.RecvInto` | mpc-net/src/channel.rs:743-766 | succeeds exactly on a frame of the buffer's size |
| `BulkChannel.FrameReadBackIff` | mpc-net/src/channel.rs:698-741 | a frame is read back, whatever follows, if and only if the message is shorter than 2^40 bytes |
| `BulkChannel.SendAll` | mpc-net/src/channel.rs:698-741 | a sequence of messages puts the concatenation of their frames on the stream |
| `BulkChannel.RecvAll` | mpc-net/src/channel.rs:772-791 | messages shorter than 2^40 bytes are recovered in order with nothing left over |

## Left out

- EdaBitsPool.LazyEdaBits.Load: the directory was left by a valid pool, so the check that P2's file is long enough cannot fail.
- EdaBitsRuns.Run: P2's store is its file whenever the run extends it; any other store loses the new items, as `ExtendAuthoritative` says.
- EdaBitsPool.LazyEdaBits.TakeForked: one reservation per width at a time, as the session enforces by finalizing once; an abort for missing forks is a failure like the others.
- EdaBitsRuns.CommonRun: all parties save or none does; a party whose save alone fails is not modelled.
- Generation.RoundOps: every lane is a process of its own; a thread pool smaller than the number of lanes is not modelled.
- DaBitsCrash.RunSafe: P0 and P2 with the store on file; an extension and a save are one step each, and P1, which has no file, is in `DaBitsRuns`.
- DaBits.LazyDaBits.TakeBatch: stored elements are rows of one or two; the flat file is related to them in `GeneratedStores`.
- DaBits.LazyDaBits.Load: the directory was left by a valid pool.
- SumcheckProver.Prove: the degree is at least one; with degree zero the first round indexes an empty vector.
- OpeningAccumulator.Accumulator.TakePending: takes claims and ids in one step, as the caller does in two.
- Checkpoints.TraceCheckpoints: the interval is at least one; with zero the loop never ends.
- Checkpoints.LazyTraceIterator.Next: the final memory state and the panic report are not modelled.
- WrapMaskPool.LazyWrapMasks.TakeBatch: a stored element is a pair of summands; the reads do not fail, and a re-save goes to the same directory.
- WrapMaskPool.GeneratePools: the conversion of bits to additive shares is a parameter that keeps values and yields replicated shares.
- SumcheckProver.Verify: the challenges are parameters; the transcript that yields them is not modelled.
- WrapMaskPool.Extract: the parties' pools stand at the same mask, as `CommonSession` keeps them.
- BackingStore.BackingStore.Consume: a punched hole reads as zeros; the platform calls are not modelled.
- BulkChannel.Send: the byte budget and the yield to the scheduler have no effect on the stream.
- EdaBitsCrash.RunSafe: takes from the file of P2; a window of P0 or P1 is zeroed in the same order, and extensions and saves are in `EdaBitsRuns`.
- The reuse mode that keeps consumed elements, and resetting cursors for it.
- Random one-hot vectors, ring-valued edaBits and the experimental pool: the same ideas in another domain.
- The opening claims that follow the sumcheck rounds, and the zero-knowledge variants with commitments.
- Commitments, curves, pairings, hashing of the transcript and the stream cipher: taken as parameters or absent.
- Transports, attestation, configuration, the client and the guest macros: no logic of their own to prove.
