# Verification model of hsa-snoop

hsa-snoop watches GPU command queues from outside: it reads the write pointer, the read pointer and the raw bytes of
each ring and reports every packet it can make out. This project models its polling core and its sinks in Dafny and
proves what the reports mean.

The AQL and SDMA pollers are stated twice. As functions of a queue state and of what a poll reads (`AqlPoll`,
`SdmaPoll`), which is what the theorems are about; and as classes whose methods loop and assign as the C++ does
(`QueueStates`, `RingParsers`), each proved to compute those functions. The theorems come at two levels:

- arbitrary memory (`AqlRuns`, `SdmaRuns`): pointers and ring contents may be anything at every poll, and may change
  between the reads of one poll. Conservation, exactly-once, order, lag and timing hold here. The only assumption is
  that no AQL write pointer comes within a ring of 2^64; SDMA positions need none.
- protocol (`AqlProtocol`, `SdmaProtocol` over `SdmaStream`): producers and the packet processor take the steps the queue
  rules allow (sections 2.8 and 2.9 of the HSA Platform System Architecture Specification for AQL). Payload integrity
  and independence of the polling schedule hold here; `AqlInterleaved` lets those steps happen between the reads of one
  AQL poll.

What the SDMA decoder has to recognise is stated apart from its length table, as commands with fields and the dwords they
become (`SdmaCommands`); `SdmaReports` says what is reported of a stream of them.

`Scheduling`, `Iterations` and `EndToEnd` lift both pollers to the thread that polls many queues while others are being
registered. The sinks follow: the protobuf writer and its reader (`Wire`), the slice events (`SliceEvents`), the trace file
and what a reader of it is told (`TraceWriters`, `TraceReader`), the NDJSON log and its reader (`Json`, `LogReader`,
`DispatchLogs`), the kernel-name caches (`KernelSymbols`), the kernarg footprint (`Footprint`) and the rate window
(`RateWindows`).

Some results say where the code falls short of what its comments suggest:

- A producer may reserve ids ahead of the ring and wait for space. A poll then decodes the still unconsumed packet of
  `id - slots` and files it under `id`. This happens exactly when a reservation is a ring or more ahead and no
  unpublished slot stops the poll first (`AqlProtocol.MisfilesWhen`), and it is the only thing that breaks payload
  integrity over a behaviour (`AqlProtocol.IntegrityWhen`); `AqlProtocol.RunAheadReachable` is a run that gets there.
- A record synthesised after a header reset is typed as a kernel dispatch without a barrier. Its body is always right
  (`AqlProtocol.FreshCarries`); when its type and its barrier flag are not is stated exactly by
  `AqlProtocol.MistypesWhen` and `AqlProtocol.LosesBarrierWhen`, with a run in `AqlProtocol.MistypeReachable`.
- A poll reads the pointers first and the slots afterwards, and a slot may have been given to another id in between:
  `AqlInterleaved.TrustedReadWhen` says exactly which reads can be trusted, `AqlInterleaved.InterleavedIntegrity`
  what that means over a run, `AqlInterleaved.OvertakenReachable` is a run that reports a half-written packet.
- src/main.cpp:454-458 scans the kernarg buffer of vendor-specific records too, for GPUs that reset headers to that
  type; by `AqlRuns.RecordsNamed` such a record never carries a kernarg address to scan.
- Within one AQL poll the sink may see a newer id before an older one: `AqlRuns.SinkSortedWhen` says when,
  `AqlRuns.OutOfOrderRun` is a run.
- The overrun skip of the SDMA poller need not land on a packet boundary: `SdmaStream.ResumesOnStream` says when it
  still decodes the stream, `SdmaStream.OverrunMisreads` is an instance where it does not.
- The SDMA overrun guard compares with the write pointer only, and cannot see dwords written but not published:
  `SdmaProtocol.TrustedWhen` is the exact condition for what the poll decodes, `SdmaProtocol.OverwriteUnseen` a run.
- Slices on one track balance but need not nest: `SliceEvents.NestsWhen` says when, `SliceEvents.NotNested` is an instance.
- src/sdma.h says v7 reuses the v6 packet layout, and a comment at src/sdma.cpp:255 that only COPY_LINEAR differs. The
  code gives the v7 LINEAR and LINEAR_BC copies eight dwords, and the model follows the code.

`dafny verify dfyconfig.toml` verifies the project.

## Model

| member | source | states |
|---|---|---|
| Model.SkipOverrunExact | src/parser.cpp:224-229 | the 64-bit overrun guard and its two subtractions compute what is meant over unbounded integers exactly when `next_id + cap` does not wrap or the write pointer is at or below the wrapped sum |
| OrderedMap.EmplaceMember | src/parser.cpp:251-251 | `emplace` on an ordered map keeps every entry and adds the new one exactly when its key was free |
| OrderedMap.EmplaceAllAppends | src/parser.cpp:251-251 | emplacing entries whose keys continue the order appends them |
| OrderedMap.DueSplits | src/parser.cpp:264-273 | a begin()/erase() loop that stops at the first key not below the bound retires exactly the entries below it |
| AqlPackets.SlotsDistinct | src/parser.cpp:100-103 | inside any window of one ring of ids no two ids share a slot, and every slot read lies inside the ring |
| AqlPackets.SlotsTile | src/model.h:29-31 | each aligned 64-byte piece of the ring is the slot of exactly one id of every lap, and the smallest of them is the number of the piece |
| AqlPackets.SlotRead64 | src/parser.cpp:93-103 | a poll decodes an id from its own 64 bytes of the ring |
| AqlPackets.HeaderReads | src/aql.h:28-38 | the low eight bits of the header word are the type and bit 8 is the barrier flag |
| AqlPackets.DispatchReadsBack | src/parser.cpp:104-186 | the slot decoder inverts the packet layout: a slot filled in with a dispatch decodes to exactly that dispatch, before its header is reset and after |
| AqlPoll.FreshPartition | src/parser.cpp:239-258 | of the ids a poll finds already consumed, each is either sunk once, in increasing order, or counted as dropped |
| AqlPoll.FreshMember | src/parser.cpp:239-258 | the ids sunk on the fast path are exactly the decodable ids of the range |
| AqlPoll.PendingRange | src/parser.cpp:239-252 | the entries a poll puts in flight are exactly the contiguous ids up to the first unpublished one |
| AqlPoll.FromTo | src/parser.cpp:224-260 | where a poll resumes after the guard and where it stops: never backwards, never past the write pointer, and skipped ids are added to the drop counter |
| AqlPoll.PollShape | src/parser.cpp:190-276 | one poll leaves the old entries at or above the read pointer followed by the new ones, sinks the fresh records and then the retired old ones, and accounts for every id it passed |
| AqlRuns.PollBatches | src/parser.cpp:239-274 | each poll sinks two increasing batches with every retired id below every fresh id and below the read pointer, and keeps nothing below the read pointer, for arbitrary pointers and memory |
| AqlRuns.SinkSortedWhen | src/parser.cpp:245-274 | the ids sunk by one poll are sorted if and only if nothing in flight has been consumed yet or no consumed id still to be decoded can be decoded |
| AqlRuns.BatchesEmptyWhen | src/parser.cpp:239-274 | when each of the two batches of a poll is empty, in terms of the pointers, the in-flight map and the slots before the poll |
| AqlRuns.OutOfOrderRun | src/parser.cpp:245-274 | a concrete three-poll run that hands id 1 to the sink before id 0 |
| AqlRuns.PollConserves | src/parser.cpp:224-274 | sunk + in flight + dropped grows by exactly the distance `next_id` moves |
| AqlRuns.PollKeepsUp | src/parser.cpp:224-274 | after a poll the write pointer is at most one ring ahead, everything consumed has been passed, decoding stopped early only at an unpublished pending slot, and the map holds at most `next_id - rptr` entries, all in that range |
| AqlRuns.KeptEntry | src/parser.cpp:241-252 | an entry in flight after a poll is an old one or the decoding of its own slot, stamped by this poll while pending |
| AqlRuns.SunkRecord | src/parser.cpp:239-274 | a record sunk by a poll is below the read pointer and is either the decoding of its own slot in this poll or a completed old entry |
| AqlRuns.RunInvariant | src/parser.cpp:190-276 | over every run, before the first successful read nothing has happened; after it sunk ids are distinct, lie in [head, next_id) and below all in-flight ids, and next_id - head = sunk + in flight + dropped |
| AqlRuns.ExactlyOnce | src/parser.cpp:210-274 | every id of [head, next_id) is in exactly one of sunk, in flight or dropped: the first two are disjoint subsets without repetition, and the drop counter is the number of remaining ids |
| AqlRuns.SinkOrder | src/parser.cpp:239-274 | every id sunk by an earlier poll is below every id sunk by a later poll, with no assumption on the pointers |
| AqlRuns.Timing | src/parser.cpp:239-274 | with a clock that moves between polls, a sunk record was submitted in the poll that decoded it and completed in the poll that sank it; the stamps are equal if and only if its id was already consumed in the poll that decoded it |
| AqlRuns.InflightBounded | src/parser.cpp:239-274 | with a non-decreasing write pointer and at most one ring of unconsumed ids when the pointers were last read, the map never holds more than one ring of records, whatever reads failed since |
| AqlRuns.RecordsNamed | src/parser.cpp:150-188 | over every run and any memory, a kernel dispatch in flight or sunk goes by the name of the kernel object it carries; a record of any other type goes by the name of its type and carries no dispatch field, so never the kernarg address for which src/main.cpp:454-458 accepts the vendor-specific type |
| AqlProtocol.StepKeepsRing | src/parser.cpp:97-188 | reserve, write, publish, header reset, consume and poll in any order keep the ring discipline: a slot shows its owner's packet once published and an invalid header before, over the previous packet's body |
| AqlProtocol.InvariantsHold | src/parser.cpp:97-260 | ring discipline and poller bookkeeping hold in every state of every behaviour |
| AqlProtocol.FreshCarries | src/parser.cpp:126-155 | a record first seen after its header was reset carries the body published under its own id: the overrun guard leaves no id whose slot may have been written again |
| AqlProtocol.EntryCarriesOwner | src/parser.cpp:159-188 | a record put in flight carries the complete published packet of the id that owns its slot, which is its own id if and only if that is below rptr + slots |
| AqlProtocol.PollIntegrityWhen | src/parser.cpp:224-274 | from a state with payload integrity a poll keeps it if and only if reservations do not run ahead at that moment |
| AqlProtocol.IntegrityWhen | src/parser.cpp:97-274 | in every interleaving, at every point: each record in flight or sunk under id k has always carried what was published under k, never a half-written packet and never that of k ± slots, if and only if no poll was taken while reservations ran ahead |
| AqlProtocol.PayloadIntegrity | src/parser.cpp:97-274 | in particular whenever no poll sees more than one ring of unconsumed ids |
| AqlProtocol.MisfilesWhen | src/parser.cpp:224-260 | a poll files a record under an id nothing was published for if and only if a reservation is a whole ring ahead of the read pointer and no invalid header lies between where the poll resumes and that id |
| AqlProtocol.NeverMisfilesBounded | src/parser.cpp:224-260 | it never does so while reservations stay within one ring of the read pointer |
| AqlProtocol.RunAheadReachable | src/parser.cpp:224-260 | a concrete four-step behaviour of a one-slot ring reaches a state in which the next poll misfiles |
| AqlProtocol.FreshAre | src/parser.cpp:126-155 | the ids reported after a header reset are exactly those between where the poll resumes and the read pointer that were published with a non-zero word at the offset of a kernel handle |
| AqlProtocol.MistypesWhen | src/parser.cpp:126-155 | such a record has the wrong type if and only if one of those ids was published with a type other than kernel dispatch |
| AqlProtocol.LosesBarrierWhen | src/parser.cpp:126-155 | and the wrong barrier flag if and only if one of those ids was published with the flag set |
| AqlProtocol.MistypeReachable | src/parser.cpp:126-155 | a concrete behaviour with a consumed barrier packet after which the next poll reports a kernel dispatch without a barrier |
| AqlInterleaved.HolderIs | src/parser.cpp:159-188 | at any moment a slot that nobody is writing to holds the packet of one published id, which is the id asked for if and only if the pointers have not given the slot to another id |
| AqlInterleaved.ReadCarries | src/parser.cpp:97-188 | a slot read some time after the pointers yields the packet of that holder: as its header announces it, or its body alone once the header is reset and the poll takes the id for consumed, or nothing |
| AqlInterleaved.TrustedReadWhen | src/parser.cpp:97-188 | a slot read some time after the pointers is right now, and after whatever any producer writes or publishes next, if and only if the slot still is the id's own or the finished packet in it passes for the one published under the id |
| AqlInterleaved.PollRightWhen | src/parser.cpp:190-260 | when each read of a poll has its own moment, every record the poll hands on or puts in flight carried what was published under its id at the read of its slot if and only if every slot the poll passes was read right |
| AqlInterleaved.InterleavedIntegrity | src/parser.cpp:190-274 | over any run of polls with producers and the packet processor taking any steps between any two reads, everything in flight or sunk carries what was published under its id as long as no slot is read after the pointers have given it to another id |
| AqlInterleaved.RereadSuffices | src/parser.cpp:190-229 | a write pointer read once more after the last slot, within a ring of where the poll resumed and of the read pointer it saw, shows that no slot was read too late |
| AqlInterleaved.BehaviourKept | src/parser.cpp:97-188 | the slot discipline holds at every moment a poll can read at |
| AqlInterleaved.OvertakenReachable | src/parser.cpp:190-260 | a concrete seven-step behaviour in which a poll reads both pointers in time and the slot too late, and reports the first byte of a half-written packet under the consumed id |
| SdmaPackets.PacketLen | src/sdma.cpp:298-355 | a packet length never exceeds 0x100004 dwords |
| SdmaPackets.MaxPacketAttained | src/sdma.cpp:298-355 | that bound is attained exactly by a plain WRITE whose 20-bit count is all ones |
| SdmaPackets.LenStable | src/sdma.cpp:298-355 | a longer window never changes a decided length, and a window of four dwords decides every packet |
| SdmaPackets.UndecidedIsWrite | src/sdma.cpp:298-355 | a short window withholds a length if and only if the packet is a plain WRITE with fewer than four visible dwords |
| SdmaPackets.LinearCopySpansAddresses | src/sdma.cpp:192-262 | a linear copy is 7 to 9 dwords long in every generation, so a complete one always passes the seven-dword guard |
| SdmaPackets.CutPacket | src/sdma.cpp:298-355 | a cut packet is never taken for a complete one: below four dwords it may be undecided, otherwise its full length is announced |
| SdmaPackets.PrefixFree | src/sdma.cpp:298-355 | no packet is a proper prefix of another packet of the same generation |
| SdmaPackets.SplitBack | src/sdma.cpp:298-355 | concatenated packets are split back into exactly those packets, whatever follows |
| SdmaPackets.UniqueSplit | src/sdma.cpp:298-355 | a dword stream has at most one reading as packets |
| SdmaPackets.BatchParseSound | src/sdma.cpp:298-355 | everything split off a stream is a packet, and together they are a prefix of the stream |
| SdmaCommands.EncodedIsPacket | src/sdma.cpp:185-355 | every command of every generation, written from its fields, is one packet of exactly its own dwords, whatever the fields hold: NOP with its count, WRITE with its data, FENCE, TRAP, the polls, the fills, the page-table updates, the atomics, the version-specific opcodes and all plain, broadcast, tiled and sub-window copies |
| SdmaCommands.PacketIsEncoded | src/sdma.cpp:185-355 | conversely whatever dwords the length table takes for a packet are a command of that generation, field by field |
| SdmaCommands.PacketsAreCommands | src/sdma.cpp:185-355 | the packets of a generation are exactly the encodings of its commands |
| SdmaReports.CommandsSplit | src/sdma.cpp:298-355 | commands written one after the other are split back into exactly those commands |
| SdmaReports.NameTells | src/sdma.cpp:96-183 | a command is reported under the name of its kind, copies with their sub-kind and whether they broadcast |
| SdmaReports.RecordTells | src/parser.cpp:341-482 | the record read off a command tells its opcode, sub-opcode and name; for the linear copies also the bytes they move, both addresses and the direction: host to device exactly when only the source page is host-backed, device to host exactly when only the destination page is, and so on |
| SdmaReports.CommandsReported | src/parser.cpp:425-502 | over every pointer schedule that leaves the dwords still to be decoded in place, the decoded records are one for each command that ends at or before the write pointer and the sunk ones one for each that also ends at or before the read pointer, in order, each telling its command |
| PageCache.CacheTransparent | src/parser.cpp:336-358 | for any sequence of copies against a fixed page map the direction through the cache equals the direction without one, across clears, and the cache never exceeds 65536 pages |
| PageCache.QueryKeeps | src/parser.cpp:337-346 | the cache forgets nothing before it holds 65536 pages |
| SdmaPoll.CopyReadsBack | src/parser.cpp:461-482 | the decoder inverts the linear-copy layout: for every size the count field of the generation can hold, the record gives back the size and both addresses |
| SdmaRuns.WalkChain | src/parser.cpp:431-488 | the packets of one decode loop lie end to end from where it starts to where it stops |
| SdmaRuns.PollStep | src/parser.cpp:360-504 | one poll keeps the invariant of a run and sinks exactly the entries ending at or below the read pointer |
| SdmaRuns.RunInvariant | src/parser.cpp:360-504 | over every run: decoded packets are in order and apart, sequence numbers are dense, sunk records are the first decoded ones and in-flight entries the rest, and no dword is unaccounted for |
| SdmaRuns.SequenceGapFree | src/parser.cpp:461-502 | over a whole run the sunk sequence numbers are exactly 0, 1, ..., m-1 in this order and m, ..., sdma_seq-1 are in flight |
| SdmaRuns.DwordsConserved | src/parser.cpp:425-488 | next_id - head = decoded dwords + dropped dwords; in-flight keys are distinct, ascending and never exceed next_id |
| SdmaRuns.PollKeepsUp | src/parser.cpp:425-503 | after a poll the write pointer is at most one ring ahead, next_id never went back, decoding stopped early only at an unreadable or unpublished packet, and only packets ending above the read pointer are kept |
| SdmaRuns.Timing | src/parser.cpp:483-502 | a sunk record completes no earlier than it was submitted, in the same instant if and only if its last dword was already consumed in the poll that decoded it |
| SdmaRuns.BytePointersFit | src/parser.cpp:380-383 | dword positions derived from byte offsets stay below 2^62, so none of the run theorems needs a wrap-around assumption |
| SdmaStream.ReadRingWraps | src/parser.cpp:319-332 | a read of at most one ring, in one or two parts, stays inside the ring and yields the dwords at consecutive positions modulo the ring |
| SdmaStream.DwordsTile | src/model.h:34 | each aligned 4-byte piece of the ring is what a poll reads at its own number and at every whole lap above |
| SdmaStream.RingShows | src/parser.cpp:319-332 | so the window at any position not decoded yet shows the stream up to the write pointer, whatever lies elsewhere in the ring |
| SdmaStream.WindowIrrelevant | src/parser.cpp:461-482 | decoding from a window that extends past the packet yields the record of the packet alone |
| SdmaStream.BatchParseCut | src/sdma.cpp:298-355 | parsing a stream cut anywhere returns exactly the packets that end at or before the cut |
| SdmaStream.WalkMatches | src/parser.cpp:431-488 | one decode loop from a packet boundary takes exactly the packets ending at or before the write pointer and never resynchronises |
| SdmaStream.IncrementalIsBatch | src/parser.cpp:425-502 | from a packet boundary, for any non-decreasing pointer schedule that leaves the dwords still to be decoded in place, even one that cuts packets or fails reads, the decoded records are those of the stream cut at the write pointer and the sunk ones those of the stream cut at the smaller pointer, each determined by its packet alone; nothing is dropped |
| SdmaStream.ResumesOnStream | src/parser.cpp:425-488 | wherever a poll resumes, after an overrun or not, it decodes nothing but packets of the stream if and only if it resumes at a packet boundary or takes nothing |
| SdmaStream.OverrunMisreads | src/parser.cpp:425-429 | an overrun that resumes inside a packet and decodes its payload as packets that are not in the stream |
| SdmaProtocol.StepKeepsRing | src/parser.cpp:319-332 | writing ahead, publishing, consuming and polling in any order keep the ring showing everything published except where it has been written again |
| SdmaProtocol.IntactOnStream | src/parser.cpp:425-488 | a poll sees the stream from where it resumes as long as nothing has been written a ring or more above that |
| SdmaProtocol.ProtocolIsBatch | src/parser.cpp:425-502 | in every interleaving of writes ahead, publications, consumption and polls in which no poll finds a dword it has still to decode overwritten, the decoded records are exactly the packets published up to the write pointer last seen, and the sunk ones exactly those below the read pointer last seen as well |
| SdmaProtocol.InPlaceDecodes | src/parser.cpp:425-488 | a poll that resumes at a packet boundary with nothing written a ring or more above it decodes exactly the published packets that end at or before the write pointer |
| SdmaProtocol.TrustedWhen | src/parser.cpp:425-488 | when the guard lets a poll resume at a packet boundary, the poll decodes exactly the published packets, now and whatever dword the producer writes next over its unpublished ones, if and only if nothing has been written a ring or more above where it resumes; otherwise there is a next write after which the poll decodes something else |
| SdmaProtocol.AheadOfEngine | src/parser.cpp:425-429 | which always holds for a poller that has not fallen behind the read pointer |
| SdmaProtocol.OverwriteUnseen | src/parser.cpp:425-429 | a concrete behaviour in which the guard sees no overrun and the poll decodes a NOP where a TRAP was published |
| QueueStates.QueueState.GuardOverrun | src/parser.cpp:224-229 | the guard as it runs is the specified one and changes nothing else |
| QueueStates.QueueState.NotePtrFailure | src/parser.cpp:193-207 | a failed pointer read counts and evicts at the fiftieth in a row |
| QueueStates.QueueState.DecodeAql | src/parser.cpp:239-260 | the decode loop computes the specified state and sinks the specified fresh records in order, and terminates |
| QueueStates.QueueState.RetireAql | src/parser.cpp:264-274 | the retire loop erases and sinks exactly the due entries |
| QueueStates.QueueState.PollQueue | src/parser.cpp:190-276 | the whole method equals the poll function whose run properties are proved, for any pointer and memory outcome |
| QueueStates.QueueState.IsHostVA | src/parser.cpp:336-346 | the cached query equals the cache function, clearing at the maximum, and touches only the cache |
| QueueStates.QueueState.ClassifyDir | src/parser.cpp:348-358 | both addresses are queried in order and the direction follows |
| QueueStates.QueueState.ReadRingDwords | src/parser.cpp:319-332 | the two-part read equals the read function, failures included |
| QueueStates.QueueState.TakePacket | src/parser.cpp:461-488 | a decoded packet is numbered, classified and filed under its end |
| QueueStates.QueueState.DecodeSdma | src/parser.cpp:431-488 | the decode loop with its waits, resynchronisation and termination computes the specified state |
| QueueStates.QueueState.RetireSdma | src/parser.cpp:490-502 | the retire loop erases and sinks exactly the entries ending at or below the read pointer |
| QueueStates.QueueState.PollSdmaQueue | src/parser.cpp:360-504 | the whole method equals the poll function, including the empty ring and priming |
| Scheduling.EvictedExactly | src/parser.cpp:193-208 | a queue is evicted if and only if its process was found dead or its pointers were unreadable fifty times in a row; until then the failure count is the length of the current run of failures |
| Scheduling.TurnFrom | src/parser.cpp:104-186 | every record in flight or sunk by a queue's turn carries that queue's uid |
| Scheduling.LiveIs | src/parser.cpp:299-308 | the removal step keeps exactly the queues that are not evicted |
| Scheduling.Projection | src/parser.cpp:278-311 | polling many queues with registrations interleaved anywhere projects onto each queue run alone: same records in the same order, same state while kept, and a queue that is gone was evicted |
| Scheduling.NothingAfterEviction | src/parser.cpp:287-309 | after an eviction no later step sinks another record of that uid |
| Iterations.OneTurnPerPass | src/parser.cpp:278-311 | between passes a queue has had exactly one turn for every pass begun while it was in the vector, at the time of that pass, whatever was registered meanwhile |
| Iterations.EveryQueueOnce | src/parser.cpp:278-311 | from the beginning of a pass to its end every queue the vector held at the beginning has exactly one turn, stamped with the time the pass began, and no other queue has any |
| Iterations.FinishWhen | src/parser.cpp:287-308 | a pass can be finished if and only if every queue of its snapshot has had its turn; otherwise the next turn can be taken |
| RingParsers.RingParser.AddQueue | src/parser.cpp:69-85 | registration appends a fresh queue, or ignores an SDMA queue of an unsupported generation |
| RingParsers.RingParser.BeginIteration | src/parser.cpp:280-286 | an iteration polls the queues registered when it begins, at one time |
| RingParsers.RingParser.PollOne | src/parser.cpp:287-298 | one queue's turn: skipped once evicted, evicted when its process is gone, otherwise polled by its kind |
| RingParsers.RingParser.TakeNextTurn | src/parser.cpp:287-298 | a turn changes only its own queue and appends what that queue sinks |
| RingParsers.RingParser.FinishIteration | src/parser.cpp:299-308 | the iteration ends by removing exactly the evicted queues |
| RingParsers.RingParser.LiveQueues | src/parser.cpp:303-308 | filtering the objects in place keeps the unevicted ones in order |
| EndToEnd.SystemIsRun | src/parser.cpp:278-311 | what the running system logs of a queue is what that queue's poller alone logs on the samples it served |
| EndToEnd.SystemLogsOnce | src/parser.cpp:239-274 | in the running system no id of an AQL queue is logged twice |
| EndToEnd.SystemGapFree | src/parser.cpp:461-502 | in the running system the records logged of an SDMA queue are numbered 0, 1, 2, ... without a gap |
| EndToEnd.RunsAreClocked | src/parser.cpp:279-298 | with a clock that moves between iterations every single queue's polls have rising times, as no queue is polled twice in an iteration |
| EndToEnd.DurationIffPending | src/dispatch_log.cpp:176-180 | the log line of a sunk dispatch has a duration if and only if its id was still pending in the poll that decoded it |
| EndToEnd.SdmaDurationIffPending | src/dispatch_log.cpp:199-200 | the log line of a sunk SDMA packet has a duration if and only if its last dword was not consumed yet in the poll that decoded it |
| Wire.U64RoundTrip | src/trace_writer.cpp:32-38 | every 64-bit value is written as one to ten bytes and read back whatever follows |
| Wire.VarintPrefixFree | src/trace_writer.cpp:32-38 | no varint is a proper prefix of another |
| Wire.NextPayload | src/trace_writer.cpp:44-53 | a length-delimited record in front of anything is split off exactly |
| Wire.ParseEncoded | src/trace_writer.cpp:30-54 | any tree of varint, string and nested-message fields is recovered field by field by a generic wire-format reader |
| Wire.Pb.PutVarint | src/trace_writer.cpp:32-38 | the shifting loop appends the base-128 encoding |
| Wire.Pb.PutTag | src/trace_writer.cpp:39-39 | a tag is the varint of field number and wire type |
| Wire.Pb.VarintField | src/trace_writer.cpp:40-43 | the buffer stays the encoding of the fields written, now with one varint field more |
| Wire.Pb.StringField | src/trace_writer.cpp:44-48 | likewise with one string field more |
| Wire.Pb.MsgField | src/trace_writer.cpp:49-53 | likewise with the other writer's fields nested |
| SliceEvents.SortCorrect | src/trace_writer.cpp:305-309 | the sort yields a permutation in comparator order that keeps the input order of indistinguishable events |
| SliceEvents.EndAfterBegin | src/trace_writer.cpp:298-304 | the minimum width puts a slice's end on a later tick than its begin |
| SliceEvents.BeginPrecedesEnd | src/trace_writer.cpp:298-309 | in any ordered arrangement a record's begin precedes its own end |
| SliceEvents.EventsOnce | src/trace_writer.cpp:298-304 | every record contributes exactly one begin and one end |
| SliceEvents.Balanced | src/trace_writer.cpp:291-344 | on every track the depth is never negative in any prefix and ends at zero |
| SliceEvents.SortSequenced | src/trace_writer.cpp:305-309 | the written order of any two events, ties included: by time, ends before begins, then in record order |
| SliceEvents.CrossedWhen | src/trace_writer.cpp:291-309 | begin a, begin b, end a, end b are written in this order if and only if the ticks of a and b cross, ties resolved by record order |
| SliceEvents.NestsWhen | src/trace_writer.cpp:291-344 | a viewer that closes the slice opened last gets through a track if and only if no two slices on it cross |
| SliceEvents.NotNested | src/trace_writer.cpp:291-309 | two overlapping records of one track that do |
| TraceWriters.TraceReadsBack | src/trace_writer.cpp:259-389 | the whole file reads back as exactly the packets put into it, under the message schema |
| TraceWriters.TraceBalanced | src/trace_writer.cpp:290-389 | a reader going through the file front to back, using only track and type fields, never sees an end without an open slice and finds every slice closed at the end |
| TraceWriters.OneTrackPerProcess | src/trace_writer.cpp:263-289 | every process that owns a queue gets exactly one process track and no other process gets one |
| TraceWriters.TouchedFinds | src/trace_writer.cpp:333-335 | looking queues up while writing never changes what is found, and leaves the registry alone when every record's queue was registered |
| TraceReader.TraceTells | src/trace_writer.cpp:259-389 | a reader that knows the field numbers of the schema finds exactly one begin and one later end for every AQL record and then for every SDMA record, on the track of its queue, under its name, with its annotations, stamped with the nanoseconds of its submission and of its completion (or 100 ns after submission when that is later); in each part the stamps never fall |
| TraceReader.FileTells | src/trace_writer.cpp:259-389 | the same of what the bytes of the file parse to |
| TraceReader.TracksApart | src/trace_writer.cpp:259-289 | distinct queues have distinct tracks |
| TraceReader.TracksTold | src/trace_writer.cpp:264-289 | every registered queue has a track descriptor with its number, its label and its process for a parent, and the first queue of each process brings the process descriptor along |
| TraceWriters.TraceWriter.RegisterQueue | src/trace_writer.cpp:138-141 | registration replaces the queue's entry and no other |
| TraceWriters.TraceWriter.RingPhys | src/trace_writer.cpp:333-335 | the look-up creates an empty entry for an unknown queue and reports its zero address |
| TraceWriters.TraceWriter.SortedEvents | src/trace_writer.cpp:297-309 | the push loop and the sort give the timeline of the slices |
| TraceWriters.TraceWriter.WriteDescriptors | src/trace_writer.cpp:264-289 | process and queue descriptors in registry order, a process descriptor in front of its first queue only |
| TraceWriters.TraceWriter.WriteAqlEvent | src/trace_writer.cpp:311-344 | one packet per event with the annotations its type and queue call for |
| TraceWriters.TraceWriter.WriteSdmaEvent | src/trace_writer.cpp:365-389 | one packet per event, with the copy annotations for copies only |
| TraceWriters.TraceWriter.WriteAql | src/trace_writer.cpp:297-344 | all AQL events in timeline order |
| TraceWriters.TraceWriter.WriteSdma | src/trace_writer.cpp:352-389 | all SDMA events in timeline order |
| TraceWriters.TraceWriter.WritePerfetto | src/trace_writer.cpp:259-389 | the file is the encoding of the trace's packets, and writing it does not change what later look-ups find |
| Json.LastCharTells | src/dispatch_log.cpp:47-52 | deciding on the comma by the last character is correct: a line under construction ends in an opening brace if and only if it has no members |
| Json.EscapedReads | src/dispatch_log.cpp:14-45 | an escaped string reads back as the bytes in front of its first NUL |
| Json.CStrWhole | src/dispatch_log.cpp:14-16 | which is the whole string if and only if it has no NUL |
| Json.NumberReads | src/dispatch_log.cpp:59-70 | a printed integer or fixed-point number is a complete RFC 8259 number token wherever it ends |
| Json.ValueReads | src/dispatch_log.cpp:47-70 | every printed value is read back whatever follows it |
| Json.ObjectReads | src/dispatch_log.cpp:136-203 | every printed object is read back: its keys and values in order |
| Json.OpenOneLine | src/dispatch_log.cpp:14-45 | a printed object holds no byte below the space character, so no newline |
| Json.LogReadsBack | src/dispatch_log.cpp:130-134 | cut at the newlines the log has exactly one line per object, and each line reads as its object |
| Text.DecimalReadsBack | src/dispatch_log.cpp:59-62 | the decimal digits of a number denote that number |
| Text.HexReadsBack | src/dispatch_log.cpp:149-153 | so do the hexadecimal digits, without a leading zero |
| LogReader.ThousandthsDenotes | src/dispatch_log.cpp:64-70 | a fixed-point number with three decimals denotes that many thousandths |
| LogReader.LookupAt | src/dispatch_log.cpp:47-62 | the value found under a key is the one printed with it, and under a key that was not printed there is none |
| DispatchLogs.QueueReads | src/dispatch_log.cpp:136-156 | looked up by key in the parsed line, every member of a queue line is the field of the queue it must be, addresses as hexadecimal numbers |
| DispatchLogs.DispatchReads | src/dispatch_log.cpp:158-183 | every member of a dispatch line is the field of the record it must be; the duration is within half a thousandth of a microsecond of completion minus submission and present exactly for a packet that completed strictly later; nothing else is in the line |
| DispatchLogs.SdmaReads | src/dispatch_log.cpp:185-203 | likewise every member of an SDMA line, with direction and bytes exactly for copies |
| DispatchLogs.Line.AppendEscaped | src/dispatch_log.cpp:14-45 | the escaping loop stops at the first NUL and appends the quoted string |
| DispatchLogs.Line.AppendKey | src/dispatch_log.cpp:47-52 | a comma is written exactly when the object already has a member |
| DispatchLogs.Line.AppendStr | src/dispatch_log.cpp:54-57 | the line stays the text of its members, now with one string member more |
| DispatchLogs.Line.AppendNum | src/dispatch_log.cpp:59-62 | likewise with an integer member |
| DispatchLogs.Line.AppendFixed | src/dispatch_log.cpp:64-70 | likewise with a fixed-point member |
| DispatchLogs.Line.AppendDuration | src/dispatch_log.cpp:176-180 | a duration member is added exactly for a packet that completed strictly after it was submitted |
| DispatchLogs.DispatchLog.WriteLine | src/dispatch_log.cpp:130-134 | the file stays one line per logged object |
| DispatchLogs.DispatchLog.LogQueue | src/dispatch_log.cpp:136-156 | one line more, and a reader of the file finds the queue's fields in it |
| DispatchLogs.DispatchLog.LogDispatch | src/dispatch_log.cpp:158-183 | one line more, and a reader of the file finds the record's fields and its duration in it |
| DispatchLogs.DispatchLog.LogSdma | src/dispatch_log.cpp:185-203 | one line more, and a reader of the file finds the record's fields and its duration in it |
| DispatchLogs.DispatchDuration | src/dispatch_log.cpp:176-180 | a dispatch line has the duration key if and only if the packet completed strictly after it was submitted |
| DispatchLogs.DurationVisible | src/dispatch_log.cpp:176-180 | a reported duration prints as zero exactly when it is below half a nanosecond |
| KernelSymbols.OffsetsAlways | src/ksym.cpp:199-211 | scanning keeps the meaning of the fallback cache: absent without a symbol, the common name, or empty for two different names |
| KernelSymbols.LabelTells | src/ksym.cpp:262-266 | the label of an unknown kernel is kernel_0x and hexadecimal digits that denote its handle |
| KernelSymbols.OffsetsOfSet | src/ksym.cpp:199-211 | the fallback cache is a function of the set of scanned symbols: scan order and rescans do not matter |
| KernelSymbols.ScansBounded | src/ksym.cpp:229-269 | over any call history the process is scanned at most once per distinct handle |
| KernelSymbols.RunOffsets | src/ksym.cpp:215-269 | over any call history the fallback cache means everything scanned so far |
| KernelSymbols.CacheIs | src/ksym.cpp:229-269 | the primary cache holds the name last scanned at exactly that address, otherwise what the first request settled for, otherwise nothing |
| KernelSymbols.AnswerIs | src/ksym.cpp:229-269 | every answer is the name last scanned at that address, else the one name all symbols with those low 20 bits had at the first request, else the hexadecimal label |
| KernelSymbols.KernelSymbolResolver.ScanImage | src/ksym.cpp:186-212 | the symbol loop folds the image into both caches |
| KernelSymbols.KernelSymbolResolver.ScanCodeObjects | src/ksym.cpp:215-227 | a scan folds all images one after the other and counts one generation |
| KernelSymbols.KernelSymbolResolver.ResolveName | src/ksym.cpp:229-269 | the method answers as specified and scans only on a miss |
| Footprint.ReadVmas | src/proc_mem.cpp:131-143 | the listing without its empty regions |
| Footprint.ScanBytes | src/proc_mem.cpp:165-174 | the largest multiple of eight within both the size of the block and 4096 |
| Footprint.BlockReads | src/proc_mem.cpp:189-196 | a block of little-endian 64-bit words is scanned as exactly those words |
| Footprint.FindVma | src/proc_mem.cpp:146-155 | the early exit agrees with a full search over ascending disjoint regions, both when it finds a region and when it finds none |
| Footprint.BaseFound | src/proc_mem.cpp:224-226 | the region found starts at the word if and only if the word is the base of some region |
| Footprint.ScanWords | src/proc_mem.cpp:189-232 | the loop equals the set specification: words that are plausible region bases, and the total size of the distinct regions hit |
| Footprint.WordCounts | src/proc_mem.cpp:189-232 | a word counts exactly when it lies in [4 GB, 256 TB) and is the base of a mapping, whose size is added when the word occurs for the first time |
| Footprint.ScanKernargFootprint | src/proc_mem.cpp:159-234 | success with zero for nothing to scan, failure with zero when neither read works or nothing is mapped, otherwise the specified figures, bounded by everything mapped and 512 |
| Footprint.CountOfMultiset | src/proc_mem.cpp:189-232 | both figures are independent of the order of the words |
| Footprint.LargerWindow | src/proc_mem.cpp:168-174 | a larger window of the same memory never lowers either figure |
| Footprint.TotalFits | src/proc_mem.cpp:229-231 | disjoint regions fit into 64 bits, so the sum cannot wrap |
| RateWindows.OldDoNotCount | src/prometheus_exporter.cpp:879-883 | launches older than the cutoff do not count, wherever the queue is cut |
| RateWindows.RateWindow.Add | src/prometheus_exporter.cpp:516-625 | a launch is pushed exactly for a dispatch or fast-reset record of a registered queue, a duration observed exactly if it also completed strictly later |
| RateWindows.RateWindow.Prune | src/prometheus_exporter.cpp:879-881 | front pruning leaves only recent launches and removes only old ones |
| RateWindows.RateWindow.CountLeft | src/prometheus_exporter.cpp:882-883 | per-GPU counts of what is left, with an entry exactly for a positive count |
| RateWindows.RateWindow.Publish | src/prometheus_exporter.cpp:886-900 | known gauges are zeroed and counted GPUs set, in any order |
| RateWindows.RateWindow.UpdateRateGauges | src/prometheus_exporter.cpp:871-901 | every gauge is the number of launches in the last window of the whole history, per second; known GPUs without any show zero and no other GPU appears |

## Left out

- Discovery, the AIS and XNACK monitors, AIS slices and tracks in the trace file, and the main program: tracefs and child-process plumbing.
- System calls: reads of process memory, maps and the page map are parameters, one outcome per read; which of the two ways of reading succeeded is not visible.
- Ring addresses: `ring_base + offset` arithmetic is not modelled; reads are by offset from the ring base.
- A poll is one step of `AqlProtocol` and `SdmaProtocol`. `AqlInterleaved` gives every pointer and slot read of an AQL poll its own moment, but a slot's 64 bytes are read at once; for SDMA, memory that differs at every read is covered by the run theorems only.
- AqlProtocol.StepKeepsRing: the packet processor resets headers to Invalid only. GPUs whose fast reset leaves vendor-specific (src/main.cpp:454-458, src/prometheus_exporter.cpp:530-536) are not modelled as a step: there a consumed slot decodes by its header to a record without payload, and a reserved slot of the next lap does too before it is published.
- ELF headers, dynamic segments and demangling: a scan yields a list of addresses with non-empty names.
- Kernel-name resolution inside a poll is a function of the handle per poll; its caches are modelled separately.
- Floating point: times are exact reals, and rounding to a number of printed digits is to nearest with ties upward. Conversions of negative or too large times to 64-bit nanoseconds, undefined in C++, wrap.
- The timestamp text of a log line is a parameter: calendar conversion is not modelled.
- UTF-8 validity: bytes of 0x80 and above are copied and read back unchanged, so an invalid name stays invalid (RFC 8259, section 8.1).
- Process ids are unsigned: the sign extension of a negative id is not modelled.
- `std::stable_sort` and the ordered map are functions with proved properties, not their implementations.
- The Chrome JSON writer: it does not escape all control characters and is no inverse of a JSON reader.
- prometheus-cpp objects, labels and HTTP serving; only the launch queue, the rate gauges and the duration guard are kept.
- Debug dumps and version detection.
- SdmaCommands.EncodedIsPacket: the repository gives the fields of the linear copy and of WRITE only; the fields of the other commands follow the public AMD SDMA packet formats, and only their number and order matter here.
- Contents a log file had before the run: the model covers what the run appends.
- SdmaStream.IncrementalIsBatch: covers schedules that leave the dwords still to be decoded in place; a poll that skips or is overwritten falls under SdmaStream.ResumesOnStream and SdmaProtocol.TrustedWhen instead.
- SdmaProtocol.ProtocolIsBatch: polls find the ring memory readable; a poll whose pointer read fails is covered, one whose ring read fails waits and is covered by the run theorems only.
