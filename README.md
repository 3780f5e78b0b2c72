# numap in Dafny

numap is a C library over Linux `perf_event_open` that measures memory
traffic per NUMA node and per thread. It resolves the CPU's (family, model)
pair to an architecture descriptor holding hardware event names. It has two
measurement modes:

- *counting*: one read and one write counter per NUMA node;
- *sampling*: one perf ring buffer per monitored thread, each mapped into
  the process and registered by file descriptor so that the overflow
  signal handler can find its measure.

Its analysis side classifies the `data_src` word of each sample by the
memory tier that served the access. It also walks a thread's ring buffer
record by record and counts the samples of each tier. An example program
adds an overflow handler that copies the unread part of a ring buffer into
a list of snapshots, and a report over those snapshots.

The model has eight modules:

- `Bytes`: bytes and little-endian fields.
- `Seqs`: first and last index searches, used as the specifications of the
  library's linear searches.
- `Archi`: `CPU_MODEL`, `get_family`, `get_model`, the `get_archi` table
  and the `*_supported` tests.
- `DataSrc`: the `mem_op` and `mem_lvl` bitfields, the `is_served_by_*`
  predicates and the level and opcode strings.
- `Records`: the perf record layout and the record walk.
- `Numap`: the library globals and the counting and sampling lifecycles.
  `Numap.Library` holds the globals, including the fd registry.
  `Numap.CountingMeasure` and `Numap.SamplingMeasure` are classes over
  arrays. `Numap.MetadataPage` is one mapped ring buffer.
- `Analyse`: `get_index` and the read and write reports.
- `Example2`: the snapshot list, `handler`, `free_mem_sampling_backed` and
  `numap_sampling_print_backed`.

Kernel calls are not executed. What `perf_event_open`, `mmap` and `read`
return is an argument with one entry per slot or node. What the
perf-encoding library accepts is a predicate argument. A call that ends the
process (`exit`, `abort`) yields the outcome `Exited`.

Where C behaviour is undefined, the outcome is `Crashed` or `Faulted`:

- dereferencing a slot that has no mapping;
- reading a record past the end of its buffer;
- taking a remainder modulo zero.

Facts about the code that a reader might not expect:

- Not every table entry carries a supported event. The Xeon Phi, Netburst,
  Core and Atom entries carry only a name (`Archi.NameOnlyArchitectures`).
- Write sampling requests the same four sample fields as read sampling.
- `numap_counting_stop` loops up to the library's node count, not the
  measure's.
- The tier predicates are not mutually exclusive over all `data_src`
  words. A word with HIT, L1 and LOC_RAM set is served both by the local
  cache and by local memory, so a report can count such a sample in both
  counters (`DataSrc.CacheAndMemoryOverlap`).

## Model

| member | source | states |
|---|---|---|
| Bytes.DecodeEncode | src/numap_analyse.c:189-190 | reading back the little-endian encoding of a value that fits in n bytes gives the value |
| Bytes.EncodeDecode | src/numap_analyse.c:189-190 | encoding the value read from n bytes gives back the same bytes |
| Seqs.FirstIndexOf | src/numap_analyse.c:157-167 | the result is -1 exactly when x is absent; otherwise it is an index holding x with no earlier occurrence |
| Seqs.FirstIndexOfAt | src/numap_analyse.c:157-167 | a scan that finds no x before i, and x at i (or reaches the end), has found the first index of x (or -1) |
| Seqs.LastIndexOf | examples/example2.c:59-65 | the result is -1 exactly when x is absent; otherwise it is an index holding x with no later occurrence |
| Seqs.LastIndexOfAt | examples/example2.c:59-65 | a scan that ends with x at i (or -1) and no x after i has found the last index of x (or -1) |
| Archi.CpuModel | src/numap.c:42 | the family is the id modulo 256 and the model the id divided by 256: the two bytes do not overlap |
| Archi.GetFamily | src/numap.c:256-258 | the family of an id is one byte |
| Archi.GetModel | src/numap.c:260-262 | the model of an id is one byte |
| Archi.CpuModelIsBitwise | src/numap.c:42 | on byte operands, `family \| model << 8` equals family + 256 * model |
| Archi.FamilyModelRoundTrip | src/numap.c:42-262 | `get_family` and `get_model` recover the family and the model packed by `CPU_MODEL` |
| Archi.CpuModelInjective | src/numap.c:42 | different (family, model) byte pairs give different ids |
| Archi.MatchesLabel | src/numap.c:42-262 | an id equals `CPU_MODEL(f, m)` exactly when it is below 2^16 and its family and model are f and m |
| Archi.GetArchi | src/numap.c:44-254 | the descriptor keeps the id it was asked for |
| Archi.EventsByEntry | src/numap.c:44-254 | an entry has a read sampling event exactly when it is a read/write or a read-only entry, and a write event exactly when it is a read/write entry |
| Archi.ClassifyGroups | src/numap.c:44-254 | the case labels select exactly the ids in the read/write, read-only and known-id groups; every other id selects no entry |
| Archi.UnknownArchitecture | src/numap.c:44-254 | an id outside the table gets "Unknown architecture" with every event unsupported |
| Archi.CountingNeverSupported | src/numap.c:44-254 | no entry sets a counting read or write event |
| Archi.ReadSupportedIff | src/numap.c:698-704 | read sampling is supported exactly on the read/write and read-only ids |
| Archi.SamplingReadSupported | src/numap.c:698-704 | the read event differs from NOT_SUPPORTED; by `Archi.ReadSupportedIff`, true exactly on the read/write and read-only ids |
| Archi.SamplingWriteSupported | src/numap.c:769-775 | the write event differs from NOT_SUPPORTED; by `Archi.WriteSupportedIff`, true exactly on the read/write ids |
| Archi.WriteSupportedIff | src/numap.c:769-775 | write sampling is supported exactly on the read/write ids |
| Archi.UnknownNameOnlyForUnknown | src/numap.c:44-254 | only the default entry is named "Unknown architecture" |
| Archi.KnownIdsAreNamed | src/numap.c:44-254 | every id of the table gets a name other than "Unknown architecture" |
| Archi.ReadOnlyArchitectures | src/numap.c:44-254 | the Nehalem and Westmere ids support read sampling and not write sampling |
| Archi.NameOnlyArchitectures | src/numap.c:44-254 | the Xeon Phi, Netburst, Core and Atom ids are named but support neither read nor write sampling |
| DataSrc.MemOp | src/numap_analyse.c:61-90 | the `mem_op` field has 5 bits |
| DataSrc.MemLvl | src/numap_analyse.c:6-59 | the `mem_lvl` field has 14 bits |
| DataSrc.LevelBits | src/numap_analyse.c:6-59 | the level bits of a word are bit positions of the 14-bit field |
| DataSrc.LevelFlagIsBit | src/numap_analyse.c:6-59 | each `PERF_MEM_LVL_*` test holds exactly when its own bit of the word is set |
| DataSrc.TiersByLevelBits | src/numap_analyse.c:6-59 | each `is_served_by_*` predicate, both directions, as a condition on the set of level bits |
| DataSrc.IsServedByLocalCache | src/numap_analyse.c:6-22 | HIT with L1, LFB, L2 or L3; as level bits in `DataSrc.TiersByLevelBits` |
| DataSrc.IsServedByLocalMemory | src/numap_analyse.c:24-31 | HIT with LOC_RAM; as level bits in `DataSrc.TiersByLevelBits` |
| DataSrc.IsServedByRemoteCacheOrLocalMemory | src/numap_analyse.c:33-38 | HIT with REM_CCE1; as level bits in `DataSrc.TiersByLevelBits` |
| DataSrc.IsServedByRemoteMemory | src/numap_analyse.c:40-50 | HIT with REM_RAM1 or REM_RAM2; as level bits in `DataSrc.TiersByLevelBits` |
| DataSrc.IsServedByLocalNAMiss | src/numap_analyse.c:51-59 | NA, or MISS with L3, whatever HIT; as level bits in `DataSrc.TiersByLevelBits` and `DataSrc.NAMissIgnoresHit` |
| DataSrc.ToggleHit | src/numap_analyse.c:6-59 | flipping HIT flips the HIT test and keeps every other level bit and the opcode |
| DataSrc.NoHitNoTier | src/numap_analyse.c:6-49 | without HIT, no cache, local memory, remote cache or remote memory tier applies |
| DataSrc.NAMissIgnoresHit | src/numap_analyse.c:51-59 | the NA/miss tier does not depend on the HIT bit |
| DataSrc.GetDataSrcLevel | src/numap_analyse.c:92-155 | "NA" when NA is set, at most one level name, then " Hit" or " Miss"; its meaning is stated by `DataSrc.LevelNameFromTable`, `DataSrc.LevelStartsWithNAIff`, `DataSrc.LevelEndsWithHitIff` and `DataSrc.LevelEndsWithMissIff` |
| DataSrc.LevelNameIsFirstSet | src/numap_analyse.c:92-155 | the level name is that of the first level, in the chain's priority order, whose flag is set |
| DataSrc.LevelNameFromTable | src/numap_analyse.c:100-144 | the level name is empty exactly when no level flag is set, and otherwise is the name of one set flag of the table |
| DataSrc.CacheAndMemoryOverlap | src/numap_analyse.c:6-29 | a word with HIT, L1 and LOC_RAM set satisfies both the local-cache and the local-memory predicate |
| DataSrc.LevelNameEmpty | src/numap_analyse.c:92-155 | with no level flag set, no level name is written |
| DataSrc.LevelNameEnds | src/numap_analyse.c:92-155 | a helper fact for the three prefix and suffix lemmas, not a promise of the code: every level name has at least two characters, none starts with 'N' or ends with 't', and none has 's' as its last but one character |
| DataSrc.LevelStartsWithNAIff | src/numap_analyse.c:92-155 | the level string starts with "NA" exactly when the NA bit is set |
| DataSrc.LevelEndsWithHitIff | src/numap_analyse.c:92-155 | the level string ends with " Hit" exactly when the HIT bit is set |
| DataSrc.LevelEndsWithMissIff | src/numap_analyse.c:145-153 | the level string ends with " Miss" exactly when the MISS bit is set and the HIT bit is not |
| DataSrc.GetDataSrcOpcode | src/numap_analyse.c:61-90 | the names of the set `mem_op` flags; stated by `DataSrc.OpcodeByTable` and `DataSrc.OpcodeEmptyIff` |
| DataSrc.OpcodeByTable | src/numap_analyse.c:61-90 | the same five names, in the same order, folded over a table of (flag, name) pairs |
| DataSrc.OpcodeEmptyIff | src/numap_analyse.c:61-90 | the opcode string is empty exactly when no `mem_op` bit is set |
| Records.EncodeHeader | src/numap_analyse.c:184-212 | an encoded `perf_event_header` has 8 bytes |
| Records.EncodeRecord | src/numap_analyse.c:184-212 | an encoded record is as long as the size its header announces |
| Records.EncodeAll | src/numap_analyse.c:184-212 | the encoding of a record list is as long as their sizes summed |
| Records.SampleSrcs | src/numap_analyse.c:189-190 | a record list has at most one `data_src` word per record |
| Records.HeaderFields | src/numap_analyse.c:185-189 | the type and size of a header read back as written |
| Records.HeaderOfEncoded | src/numap_analyse.c:185-211 | a well-formed record written anywhere reads back with its own size, type and `data_src` |
| Records.EncodingPlaced | src/numap_analyse.c:184-212 | the encoding of well-formed records places each header where the previous record ends |
| Records.WalkFrom | src/numap_analyse.c:184-212 | the record walk from an offset: stop below the limit, on a size-0 header or past the buffer; its meaning is stated by `Records.WalkPlaced` and `Records.WalkStopsAtZeroSize` |
| Records.Walk | src/numap_analyse.c:184-212 | the walk from offset 0; by `Records.WalkEncoded`, over an encoding of well-formed records it returns their samples' words in order |
| Records.WalkPlaced | src/numap_analyse.c:184-212 | walking placed records collects their `data_src` words, in order, and ends just past them |
| Records.WalkEncodedPrefix | src/numap_analyse.c:184-212 | a walk up to the end of the encoded records a buffer starts with completes and yields their samples' words in order |
| Records.WalkEncoded | src/numap_analyse.c:184-212 | walking a whole buffer of encoded records yields exactly their samples' `data_src` words (the round trip) |
| Records.WalkStopsAtZeroSize | src/numap_analyse.c:185-188 | a size-0 header before the limit ends the walk with the error, whatever precedes it |
| Records.CountOne | src/numap_analyse.c:189-206 | one more sample adds one to the total |
| Records.CountAll | src/numap_analyse.c:189-206 | counting a sequence of samples adds its length to the total |
| Records.Matching | src/numap_analyse.c:189-206 | the samples of a tier are at most all the samples |
| Records.CountAllCounts | src/numap_analyse.c:189-206 | each counter ends as its start plus the number of samples its `is_served_by_*` predicate accepts |
| Records.CountAllAppend | src/numap_analyse.c:184-212 | counting two runs one after the other counts their concatenation |
| Records.CountAllSnoc | src/numap_analyse.c:184-212 | counting one more sample after the others is counting all of them |
| Records.WalkRecords | src/numap_analyse.c:184-212 | the loop completes, stops at a size-0 header or reads out of bounds exactly as the walk specification says; when it completes, the counters are those of the walked samples |
| Numap.Fds | src/numap.c:275-282 | the registry's fds, entry by entry |
| Numap.Library.constructor | src/numap.c:288-357 | the descriptor of the CPU's (family, model), the node count, the first CPU of each node and an empty registry |
| Numap.Library.NumapInit | src/numap.c:420-439 | ERROR_NUMAP_NOT_NUMA without NUMA support, ERROR_PFM when the encoder fails, otherwise 0 and an empty registry |
| Numap.Library.FindLink | src/numap.c:458-461 | the first registry entry with the fd, or -1 exactly when no entry has it |
| Numap.Library.RefreshWrapper | src/numap.c:451-477 | only on POLL_HUP: no matching entry aborts; otherwise the first matching measure is refreshed, its total grows by its refresh count and no other measure changes |
| Numap.FirstOpenFailure | src/numap.c:511-521 | every valid node before the result opened both counters; the node at the result is valid and one of its opens failed |
| Numap.FirstReadFailure | src/numap.c:572-584 | every valid node before the result read both counts; the node at the result is valid and one of its reads failed |
| Numap.CountingMeasure.constructor | src/numap.c:441-449 | a zero-filled measure that is not started |
| Numap.CountingMeasure.Init | src/numap.c:441-449 | the node count is the library's and each node below it is valid exactly when it has a CPU; later nodes are untouched |
| Numap.CountingMeasure.Start | src/numap.c:499-563 | ERROR_PFM when the counting event cannot be encoded; ERROR_NUMAP_ALREADY_STARTED on a started measure; otherwise started, counters opened in node order up to the first failure (whose read fd is stored), and 0 or ERROR_PERF_EVENT_OPEN |
| Numap.CountingMeasure.Stop | src/numap.c:565-592 | ERROR_NUMAP_STOP_BEFORE_START when not started; otherwise not started, counts stored up to the first failed read (a read count is stored before the write count is read), and 0 or ERROR_READ |
| Numap.Unmapped | src/numap.c:662-665 | a slot needs opening exactly when it has no mapping |
| Numap.FirstSlotFailure | src/numap.c:661-690 | every unmapped slot before the result opened and mapped; the slot at the result is unmapped and its open or mmap failed |
| Numap.StoredAfterPointwise | src/numap.c:511-522 | after the loop has passed slot t, each slot below t that the loop stores into holds its value, and every other slot keeps its old value |
| Numap.CountsAfterPointwise | src/numap.c:574-588 | after the loop has passed node t, each valid node below t whose read succeeded holds the count read, and every other node keeps its old count |
| Numap.RegistryGrowsByUnmapped | src/numap.c:661-692 | for any mix of mapped and unmapped slots, the registry gains one entry per unmapped slot in front of the old registry, each for this measure and holding the fd opened for one of those slots |
| Numap.NewEntryOrigin | src/numap.c:684-690 | the k-th new registry entry is the link of this measure to the fd opened for some unmapped slot below t |
| Numap.NoLinksForMappedSlots | src/numap.c:662-665 | slots that all have a mapping add no registry entry |
| Numap.OneLinkPerOpenedSlot | src/numap.c:684-690 | t slots without a mapping prepend t entries, the latest slot first, in front of the old registry |
| Numap.SamplingMeasure.constructor | src/numap.c:594-613 | a zero-filled measure that is not started |
| Numap.SamplingMeasure.InitMeasure | src/numap.c:594-613 | the parameters recorded, the mapping length as one page plus the data pages modulo 2^64, the fd and mapping of every slot below the thread count cleared, later slots untouched, no handler, total 0 and refresh count 1000 |
| Numap.SamplingMeasure.SetMeasureHandler | src/numap.c:479-497 | a started measure is refused unchanged; otherwise the handler is installed, then a non-positive refresh count ends the process and a positive one is recorded |
| Numap.SamplingMeasure.StartSlots | src/numap.c:642-696 | a started measure is refused unchanged; otherwise started, and each unmapped slot in order gets its fd, a fresh empty ring buffer and a registry entry, up to the first failed open (ERROR_PERF_EVENT_OPEN) or mmap (the process ends) |
| Numap.SamplingMeasure.OpenSlots | src/numap.c:661-692 | the loop's effect: fds, mappings and registry entries as above, with mapped slots skipped |
| Numap.SamplingMeasure.OpenSlot | src/numap.c:667-690 | one unmapped slot: its fd stored, then a failed open, a failed mmap, or a fresh ring buffer and one registry entry prepended |
| Numap.SamplingMeasure.ReadStart | src/numap.c:706-752 | no read event gives ERROR_NUMAP_READ_SAMPLING_ARCH_NOT_SUPPORTED, an event the encoder refuses gives ERROR_PFM, both with nothing changed; otherwise the start effect |
| Numap.SamplingMeasure.WriteStart | src/numap.c:777-816 | the same with the write event and ERROR_NUMAP_WRITE_SAMPLING_ARCH_NOT_SUPPORTED |
| Numap.SamplingMeasure.Resume | src/numap.c:616-640 | ERROR_NUMAP_ALREADY_STARTED on a started measure, otherwise 0; the measure ends started |
| Numap.SamplingMeasure.ReadStop | src/numap.c:754-767 | ERROR_NUMAP_STOP_BEFORE_START when not started, otherwise 0; the measure ends stopped |
| Numap.SamplingMeasure.WriteStop | src/numap.c:818-820 | as read stop |
| Numap.SamplingMeasure.End | src/numap.c:822-837 | 0 and an empty registry |
| Analyse.U32 | src/numap_analyse.c:157-161 | a thread id as a 32-bit unsigned value, unchanged when it fits |
| Analyse.U32s | src/numap_analyse.c:157-161 | the thread ids, each as a 32-bit unsigned value |
| Analyse.GetIndex | src/numap_analyse.c:157-167 | the first slot below the thread count whose id equals the tid, or -1 when none does |
| Analyse.PageViews | src/numap_analyse.c:171-176 | one view per slot, in slot order |
| Analyse.Report | src/numap_analyse.c:169-225 | a report that prints every thread has one tally per thread; one that stops has fewer |
| Analyse.ReportStep | src/numap_analyse.c:171-221 | after threads that all printed, the next thread's report extends them |
| Analyse.ReportKeepsFirstFailure | src/numap_analyse.c:185-188 | once a thread's walk fails, later threads do not change the report |
| Analyse.EncodedTallies | src/numap_analyse.c:189-206 | one tally per thread, each counting that thread's samples |
| Analyse.ReportOfEncodedBuffers | src/numap_analyse.c:169-225 | when every buffer holds well-formed records up to its head, every thread prints the counters of its own samples |
| Analyse.ReportCountsEncodedSamples | src/numap_analyse.c:206 | so each thread's total is the number of its sample records |
| Analyse.ReadPrint | src/numap_analyse.c:169-225 | the report over every slot below the thread count, in order, stopping at the first size-0 header or fault |
| Analyse.PrintThread | src/numap_analyse.c:184-212 | one mapped thread: its buffer is walked up to its head and counted, and the walk's failure (size-0 header or read past the end) ends the report |
| Analyse.WritePrint | src/numap_analyse.c:227-283 | the same report as the read report |
| Example2.NormHead | examples/example2.c:74-77 | the handler's head lies within the data area, is unchanged when it already did and is below the size when reduced |
| Example2.Span | examples/example2.c:81-86 | the number of unread bytes is at most the ring size, and the whole ring when head meets tail |
| Example2.Window | examples/example2.c:110-115 | the copied bytes are as many as the unread span |
| Example2.WindowIsRingOrder | examples/example2.c:110-115 | the k-th copied byte is the ring byte at tail + k, wrapping past the end to the start |
| Example2.FlushSlot | examples/example2.c:59-65 | the slot found lies below the thread count, or is -1 |
| Example2.Backups.constructor | examples/example2.c:55 | the snapshot list starts empty |
| Example2.Backups.LastSlotWithFd | examples/example2.c:59-65 | the last slot below the thread count whose fd matches, or -1 |
| Example2.Backups.Handler | examples/example2.c:57-123 | no slot ends the process and a missing mapping or a modulo by zero faults, with the list unchanged; otherwise the unread bytes, in ring order, become a new snapshot at the head of the list, and head and tail both become the reduced head |
| Example2.Backups.Flush | examples/example2.c:72-122 | a head past an empty data area faults with nothing changed; otherwise the head is reduced into the data area, the bytes from the tail to it, in ring order, become a new snapshot at the head of the list, and the tail moves to the head |
| Example2.FreeMemSamplingBacked | examples/example2.c:125-135 | every node is released once, in list order |
| Example2.BackedCountsTiers | examples/example2.c:166-190 | each counter of the backed report counts the samples its tier's predicate accepts, and the total counts every sample |
| Example2.ThreadsBacked | examples/example2.c:137-215 | a report that prints every thread has one tally per thread; one that stops has fewer |
| Example2.OfFd | examples/example2.c:155-158 | the snapshots of one fd are snapshots of the list, each with that fd |
| Example2.OnlyOwnSnapshots | examples/example2.c:155-158 | a thread's counters depend only on the snapshots whose fd is its own |
| Example2.BackedCountsEncoded | examples/example2.c:155-199 | over snapshots of well-formed records, a thread counts every sample of every snapshot of its fd, in list order, across snapshots |
| Example2.EncodedBacked | examples/example2.c:155-199 | one backed tally per thread, each over all the samples of its fd's snapshots |
| Example2.PrintBackedOfEncoded | examples/example2.c:137-215 | over snapshots of well-formed records the report prints every thread: nothing for an empty list, otherwise each thread's backed counters over all the samples of its fd's snapshots |
| Example2.WalkSnapshots | examples/example2.c:155-199 | the inner loop: the walk over the list for one fd, accumulating across snapshots and stopping at a size-0 header or fault |
| Example2.PrintBacked | examples/example2.c:137-215 | an empty list returns 0 at once; otherwise the report over every slot below the thread count, in order |
| Example2.ThreadsBackedKeepsFirstFailure | examples/example2.c:159-163 | once a thread's walk fails, later threads do not change the report |

## Left out

- Reading `/proc/cpuinfo`, the NUMA bitmasks and `perf_event_mlock_kb` at load time: I/O. Their results are the `Library` constructor's arguments.
- `numa_node_to_cpu`: the model holds at most `MAX_NB_NUMA_NODES` nodes, so the overflow of a larger node count is not modelled.
- Signals, `sigaction` and the two mutexes: the model is sequential. The registry and the snapshot list are plain fields.
- `numap_error_message`, `concat`, `build_string` and every `printf`: text output. The reports return their counters and percentages are not computed.
- `ioctl`, `fcntl`, `munmap` and `close`: they change no modelled state. `__numap_sampling_resume` has no modelled effect beyond the `started` flag.
- `malloc` failures: the example's handler ends the process on one, and `__numap_sampling_start` does not check the registry node it allocates, so the C dereferences NULL there. The model assumes allocation succeeds. The two `memcpy` calls are slices of the data area.
- The `current_archi == NULL` test of `numap_init`: the load-time constructor always sets the descriptor, so that branch cannot be taken.
- `pe_attr_write` in `numap_counting_start` is never initialised. The model passes what each write open returns and does not model the attribute contents.
- `perf_event_attr` fields (period, sample type, flags): only their handling of the `perf_event_open` outcome is modelled.
- Numap.CountingMeasure.Init: requires a node count. Without NUMA support the C loop compares an `int` with the unsigned -1 and runs past the arrays.
- Numap.CountingMeasure.Stop: requires a node count, for the same reason.
- Numap.SamplingMeasure.InitMeasure: requires at most `MAX_NB_THREADS` threads. More would write past the slot arrays.
- Numap.SamplingMeasure.StartSlots: sets `started` after the slot loop. The C sets it before; the loop never reads it.
- Numap.Library.RefreshWrapper: the measure's handler is a flag, and the refresh returns whether to call it. When a handler is set, the C calls `measure->handler(measure, fd)` before the total grows by the refresh count, and that call can change any state. For example, `Example2.Backups.Handler` rewrites the snapshot list and the ring's head and tail. Its effect is not composed into the refresh, so "no other measure changes" holds only for a handler that touches no measure.
- Numap.SamplingMeasure.OpenSlot: a failed mmap leaves the slot unmapped in the model. The C stores `MAP_FAILED` and then ends the process.
- Analyse.ReadPrint: the optional per-sample lines are not modelled. Neither is `get_data_src_level`'s heap allocation.
- Analyse.WritePrint: write samples are read with the read samples' layout. `struct read_sample` is declared in no file of the library; the model places `data_src` after `ip`, `addr` and `weight`, as in `struct sample`.
- Example2.PrintBacked: the four cache-level counters are not modelled. Their predicates (`is_served_by_local_cache1/2/3/lfb`) are declared but defined in no file of the library.
- Example2.Backups.Handler: requires every mapped ring buffer to be valid, its tail within its data area, as the handler itself leaves it.
- Example2.Backups.Flush: requires the same of the one ring buffer it flushes.
- `main` of the example, the thread bodies and `to_be_profiled`: the program that drives the library.
