# PacketQuapture protocol engine: a verified model

This project models the protocol engine of PacketQuapture, the part that turns captured packets into streams, flows and
handshakes, and proves what it promises over whole runs.

- **TCP reassembly** (`TcpTypes`, `StreamAssembly`, `StreamProperties`, `Provenance`, `OrderIndependence`, `TcpTable`,
  `TcpReassembler`, `TcpExpiry`, `TcpRuns`, `TcpHistory`, `ArrivalOrder`, `TcpSurvival`). `TcpTable` is the reassembler as
  a plain table of directions with real deadlines and totals recomputed when asked. `TcpReassembler` is the class with
  running totals, the sorted segment index and the lazy expiry queue; every method is proved to do to the table what the
  plain one does.
- **DNS over TCP** (`DnsFraming`, `Conversation`, `DnsOverTcp`, `ConversationEnd`): framing, and the end-to-end result from
  captured packets to reported messages, to the end of the capture or however the conversation ends before it.
- **Flow aggregation** (`FlowTypes`, `FlowRows`, `FlowHandshake`, `FlowTable`, `FlowAggregator`, `FlowRuns`,
  `FlowClocks`, `FlowRecords`, `FlowScan`).
  `FlowTable` keeps each session's packets and computes a row from them only when the session leaves; the class keeps
  running counters and a lazy queue and is proved to hand out the same rows.
- **TLS pairing and framing** (`TlsMerge`, `TlsTable`, `TlsAssembler`, `TlsRuns`, `TlsReports`, `TlsFraming`).
- **DNS names** (`DnsName`): decompression and the printed text.
- **Worker admission** (`ScanBudget`): the budget, registry and admission protocol as a state machine over its steps.
- **Capture files** (`CaptureReader`, `PcapReader`, `PcapWriter`, `PcapRoundTrip`, `PacketDecoder`, `PacketScan`, `PacketFile`):
  reads through cursor and windows, classic PCAP in and out, header decoding, and filters tried stage by stage.

`Basics`, `Order` and `MapSum` hold fixed-width integers, the ordering of ordered containers, and sums over tables.

Error texts, finalisation reasons and statuses are enumerations. Addresses, VLAN stacks and payloads are byte sequences with
their fixed or bounded lengths. Sequence arithmetic is modulo 2^32 and counters are bounded where the code bounds them. An
exception or failed assertion is an outcome; what an object holds after one is not described, because it is not used again.
Clocks, the file system, the output device and the database's memory manager appear as parameters or as choices left open.

A statement the code does not meet as it is commented: the comment at src/tls_handshake.cpp:1455-1457 says a held find's key
is always queued. It is not once the queue has been compacted, because compaction runs before the new find is in the table.
`TlsReports.CompactionLosesTheKey` gives the runs that reach it for any room, `TlsReports.LosingStreams` that there are such
streams, `TlsRuns.HoldQueued` says when the statement survives a step, and `TlsReports.StuckExactly` says exactly which calls
then stop on the assertion.

## Model

| member | source | states |
|---|---|---|
| `StreamAssembly.RelativeSequence` | src/tcp_reassembly.cpp:305-311 | the signed distance from the base, less than half the sequence space, that leads back to the sequence number mod 2^32 |
| `StreamAssembly.StreamBase` | src/tcp_reassembly.cpp:313-325 | the base sequence number: after the SYN, else the earliest segment |
| `StreamAssembly.Measure` | src/tcp_reassembly.cpp:327-356 | every segment gets its offset from the base, or the failure that stops the direction: data beyond the FIN, a span over the limit, a FIN outside it |
| `StreamAssembly.Overlay` | src/tcp_reassembly.cpp:358-374 | succeeds exactly when no two segments disagree at a position; each byte then comes from the first segment that supplies it |
| `StreamAssembly.Emit` | src/tcp_reassembly.cpp:378-413 | chunks and gaps equal the specification's maximal runs of supplied and missing bytes |
| `StreamAssembly.Finish` | src/tcp_reassembly.cpp:415-457 | the emitted streams of a direction equal the specification `Finished`, on which the stream properties are proved |
| `StreamAssembly.PlacedInside` | src/tcp_reassembly.cpp:327-374 | measured offsets put every captured byte inside the stream |
| `StreamProperties.FinishedReconstructs` | src/tcp_reassembly.cpp:415-457 | a stream that carries anything was rebuilt from the direction's own segments, with every segment placed |
| `StreamProperties.StreamPartition` | src/tcp_reassembly.cpp:378-413 | chunks and gaps alternate, are maximal, and exactly partition the expected bytes |
| `StreamProperties.StreamConservesLength` | src/tcp_reassembly.cpp:378-413 | captured bytes are the chunk sizes' sum, and with the gaps add up to the expected length |
| `StreamProperties.StreamOrigins` | src/tcp_reassembly.cpp:394-411 | each chunk's origins tile it with positive lengths, each naming the first segment to supply its bytes |
| `StreamProperties.StreamAgreesWithSegments` | src/tcp_reassembly.cpp:358-374 | a stream with bytes holds every captured byte of every segment at that segment's place |
| `StreamProperties.StreamInventsNothing` | src/tcp_reassembly.cpp:358-413 | every byte of every chunk was captured in some segment |
| `Provenance.Find` | src/tcp_reassembly.cpp:463-488 | the binary search finds the same smallest and largest packet stamps as a scan of all overlapping origins |
| `Provenance.PacketsBoundFirstSuppliers` | src/tcp_reassembly.cpp:463-488 | those two stamps are the smallest and largest packet numbers among the first segments to supply each byte of the range |
| `OrderIndependence.FinishIndependent` | src/tcp_reassembly.cpp:313-457 | directions that took the same segments in any order finish with the same bytes, gaps and status |
| `ArrivalOrder.SamePacketsSameCapture` | src/tcp_reassembly.cpp:182-303 | unfailed directions that took in packets of the same contents, in any order and with any repeats, hold the same segments and markers |
| `ArrivalOrder.OrderDoesNotMatter` | src/tcp_reassembly.cpp:182-457 | in any two runs, whatever else they saw, such directions finish as streams of the same content |
| `DnsFraming.FrameTcpDns` | src/dns_tcp_framer.cpp:39-96 | the framing loop equals the recursive specification, with its statuses for failed, gapped and cut streams |
| `DnsFraming.FramedEncoding` | src/dns_tcp_framer.cpp:39-96 | a stream that begins with a prefix of length-prefixed messages yields exactly the messages whole in it, numbered from 1, and a diagnostic only when it stops inside one |
| `TcpReassembler.OrderIndexes` | src/tcp_reassembly.cpp:294-299 | the segment index is a sorted permutation of the segment numbers |
| `TcpReassembler.FindRepeat` | src/tcp_reassembly.cpp:273-284 | the search in the index finds a repeat exactly when some held segment repeats the new one |
| `TcpReassembler.InsertPlace` | src/tcp_reassembly.cpp:295-299 | the new place goes where the sorted index has it |
| `TcpReassembler.Reassembler.constructor` | src/tcp_reassembly.cpp:28-34 | an empty reassembler stands for the empty table |
| `TcpReassembler.Reassembler.Unschedule` | src/tcp_reassembly.cpp:90-102 | takes out the direction's one queue entry, and the scope with its last one |
| `TcpReassembler.Reassembler.Remove` | src/tcp_reassembly.cpp:72-88 | finishes a direction and forgets its totals, queue entry and, with the last one, its interface clock |
| `TcpReassembler.Reassembler.Schedule` | src/tcp_reassembly.cpp:109-135 | the real deadline becomes the packet's time plus the timeout, never earlier, although the queue entry stays |
| `TcpReassembler.Reassembler.MoveEntry` | src/tcp_reassembly.cpp:171-176 | moving a stale entry changes nothing the table shows and leaves fewer stale entries |
| `TcpReassembler.Reassembler.Expire` | src/tcp_reassembly.cpp:139-180 | the lazy queue expires what the eager table expires, in the same order, after the same clock step |
| `TcpReassembler.Reassembler.ExpireScope` | src/tcp_reassembly.cpp:162-179 | the loop ends, by fewer directions or fewer stale entries, having expired exactly the idle directions |
| `TcpReassembler.Reassembler.Fail` | src/tcp_reassembly.cpp:60-70 | a failed direction keeps no bytes, and the totals shrink by what it held |
| `TcpReassembler.Reassembler.Buffer` | src/tcp_reassembly.cpp:267-303 | a segment is kept once, within every byte and segment limit, or fails the direction, with the running totals equal to the sums |
| `TcpReassembler.Reassembler.Track` | src/tcp_reassembly.cpp:244-265 | a new direction takes the next stream id, unless the table is full or ids are exhausted |
| `TcpReassembler.Reassembler.Absorb` | src/tcp_reassembly.cpp:205-240 | SYN, FIN and data of a packet change the direction as in the plain table |
| `TcpReassembler.Reassembler.Add` | src/tcp_reassembly.cpp:182-242 | one packet does to the class what it does to the plain table, and emits the same streams |
| `TcpReassembler.Reassembler.FinishNext` | src/tcp_reassembly.cpp:490-496 | removes the first direction in key order as the plain table does |
| `TcpReassembler.ExpireFirst` | src/tcp_reassembly.cpp:162-179 | once the front entry is not stale, its direction is the one the eager order removes next |
| `TcpReassembler.NothingLeft` | src/tcp_reassembly.cpp:490-496 | when no direction is tracked, no scope, queue entry, byte or segment is left over |
| `TcpExpiry.IdleOrderExact` | src/tcp_reassembly.cpp:139-180 | the expiry order lists each scheduled direction below the clock once, by deadline and then key |
| `TcpExpiry.ExpireAllExact` | src/tcp_reassembly.cpp:139-180 | expiry removes exactly those directions, emits their streams in that order, and changes nothing else |
| `TcpExpiry.ExpiredClocks` | src/tcp_reassembly.cpp:139-180 | after expiry no scheduled direction is past its deadline, even when the clock stepped back |
| `TcpExpiry.ScheduledClocks` | src/tcp_reassembly.cpp:109-135 | scheduling keeps every deadline at or above its interface's clock |
| `TcpRuns.RunClocks` | src/tcp_reassembly.cpp:90-242 | in every reachable state deadlines are at or above their clock, and only interfaces with something scheduled have one |
| `TcpRuns.DrainEmpties` | src/tcp_reassembly.cpp:490-496 | draining once per direction emits them all and leaves no direction and no clock |
| `TcpHistory.RunRight` | src/tcp_reassembly.cpp:182-265 | in every reachable state ids are fresh and each direction holds what its packets carried |
| `TcpHistory.IdsEmittedOnce` | src/tcp_reassembly.cpp:244-265 | no stream id is emitted twice in any run |
| `TcpHistory.EmittedAgrees` | src/tcp_reassembly.cpp:182-457 | in any run, every captured byte a direction took in appears at its place in the stream emitted for it, if that carries bytes |
| `TcpSurvival.ExpiredSpares` | src/tcp_reassembly.cpp:139-180 | a packet no later than a direction's deadline does not expire it |
| `Conversation.RowsAreMessages` | src/dns_tcp_framer.cpp:39-96 | a direction that saw all of a conversation is reported as exactly its messages |
| `Conversation.RowsArePrefix` | src/dns_tcp_framer.cpp:39-96 | with bytes missing, the complete messages reported are a prefix, then at most one diagnostic |
| `DnsOverTcp.TrackingAlways` | src/tcp_reassembly.cpp:182-303 | until a packet ends it, a conversation's direction stays tracked, unfailed and holding exactly its packets, whatever else is captured, as long as each finds room in the table when it comes |
| `DnsOverTcp.InTimeSpares` | src/tcp_reassembly.cpp:109-135 | a packet is past the direction's deadline exactly when it is later than the timeout after every packet of the conversation whose time still counts, and none with no time came; with the timeout 0 nothing is |
| `DnsOverTcp.AcceptsExactly` | src/tcp_reassembly.cpp:267-303 | taking in a packet fails a direction exactly when its data is over the limits by itself, or is new and would take the direction or the totals over them |
| `DnsOverTcp.RoomIsNeeded` | src/tcp_reassembly.cpp:182-303 | a packet of the conversation leaves it tracked and unfailed if and only if it finds that room |
| `DnsOverTcp.PlentyIsRoomy` | src/tcp_reassembly.cpp:182-303 | a capture that is within the limits as a whole always has room |
| `DnsOverTcp.DnsEndToEnd` | src/dns_tcp_framer.cpp:39-96 | any segmentation, order, overlap and retransmission, among any other traffic that does not end the conversation, reports exactly the messages, numbered 1..n, at sequence ISN+1+offset mod 2^32, with no diagnostic |
| `DnsOverTcp.DnsPrefix` | src/dns_tcp_framer.cpp:39-96 | with packets missing, the complete messages are a prefix of the conversation's, then at most one diagnostic |
| `ConversationEnd.AddSettles` | src/tcp_reassembly.cpp:182-265 | a packet on another tuple leaves a direction as it was, or ends it with exactly its own stream, emitted once |
| `ConversationEnd.SurvivesExactly` | src/tcp_reassembly.cpp:139-239 | a packet on another tuple leaves a conversation tracked if and only if it is in time and, if from the other direction, neither opens a new connection nor is a reset that is acted on |
| `ConversationEnd.DnsEnded` | src/tcp_reassembly.cpp:182-265 | a conversation captured whole, then ended by idleness, tuple reuse or the other direction's reset, is reported as its messages first on its tuple, whatever is captured afterwards |
| `ConversationEnd.DnsReset` | src/tcp_reassembly.cpp:235-238 | the same when its own side resets it, the reset perhaps carrying the last of it |
| `FlowTypes.KeyIgnoresDirection` | src/flow_aggregator.cpp:197-215 | both directions of a conversation have one key, and the low side is told apart exactly when the endpoints differ |
| `FlowTypes.SameSession` | src/flow_aggregator.cpp:197-215 | two packets share a session exactly when interface, version, transport, tags and the pair of endpoints agree |
| `FlowTypes.RankInjective` | src/flow_aggregator.cpp:16-20 | the comparison distinguishes different keys |
| `FlowRows.SpanIsRange` | src/flow_aggregator.cpp:156-167 | a row's times are the least and greatest timestamps of its packets, and absent exactly when none has one |
| `FlowRows.SidesAddUp` | src/flow_aggregator.cpp:145-154 | the two sides' counts and sums add up to the block's |
| `FlowRows.DeadlineMonotone` | src/flow_aggregator.cpp:70-90 | a further packet never moves a session's deadline back |
| `FlowRows.DeadlineNeverReturns` | src/flow_aggregator.cpp:74-80 | a timed session that lost its deadline never gets one again |
| `FlowHandshake.CompleteMeansThreeWay` | src/flow_aggregator.cpp:168-193 | a completed handshake means the block holds, in order, a SYN from one side, a SYN-ACK acknowledging its recorded sequence + 1, and an ACK of the SYN-ACK's sequence + 1 that itself starts at an opening's sequence + 1, mod 2^32 |
| `FlowHandshake.OrdinaryHandshakeCompletes` | src/flow_aggregator.cpp:168-193 | conversely the three segments complete it wherever they are in the block, with any packets but further SYNs before and between them and any packets after |
| `FlowTable.EvictableOpen` | src/flow_aggregator.cpp:111-135 | the session chosen for eviction is open |
| `FlowAggregator.FrontIsSoonest` | src/flow_aggregator.cpp:91-110 | once the front entry sits at its real deadline it is the first of all true (deadline, key) pairs of the interface |
| `FlowAggregator.QueueEmpty` | src/flow_aggregator.cpp:63-90 | an interface's queue is empty exactly when no session there has a deadline |
| `FlowAggregator.FrontIdle` | src/flow_aggregator.cpp:283-289 | the front alone decides whether any session is idle, and is then the first of them |
| `FlowAggregator.RescheduleSound` | src/flow_aggregator.cpp:70-90 | recording a deadline without moving the entry keeps every session scheduled exactly when it has a deadline, with one entry at or before it |
| `FlowAggregator.Aggregator.constructor` | src/flow_aggregator.cpp:27-31 | an empty aggregator stands for the empty table |
| `FlowAggregator.Aggregator.Push` | src/flow_aggregator.cpp:32-42 | a record is taken only when drained and numbered; otherwise nothing changes |
| `FlowAggregator.Aggregator.Finish` | src/flow_aggregator.cpp:43-49 | finishing is refused while a record is pending |
| `FlowAggregator.Aggregator.ActiveCount` | src/flow_aggregator.cpp:50-52 | the number of open sessions |
| `FlowAggregator.Aggregator.Unschedule` | src/flow_aggregator.cpp:63-69 | takes the session's one entry out of its interface's queue |
| `FlowAggregator.Aggregator.Schedule` | src/flow_aggregator.cpp:70-90 | a session is scheduled exactly when it has a timeout, no missing timestamp and a deadline that fits |
| `FlowAggregator.Aggregator.Refresh` | src/flow_aggregator.cpp:91-110 | ends, shows the same table, and leaves the front entry the true first deadline |
| `FlowAggregator.Aggregator.Evictable` | src/flow_aggregator.cpp:111-135 | finds the true minimum deadline on the interface, else over all, else the first key |
| `FlowAggregator.Aggregator.SoonestAnywhere` | src/flow_aggregator.cpp:121-128 | the loop over interfaces finds the first true deadline of all sessions |
| `FlowAggregator.Aggregator.Emit` | src/flow_aggregator.cpp:137-144 | the row handed out is the summary of exactly the session's packets, and the session is gone |
| `FlowAggregator.Aggregator.TrackHandshake` | src/flow_aggregator.cpp:168-193 | the in-place tracking equals the fold over the packets on which the handshake result is proved |
| `FlowAggregator.Aggregator.AccountRow` | src/flow_aggregator.cpp:145-175 | counts, sums, times and flags of one more packet, refused exactly when a 64-bit counter would overflow |
| `FlowAggregator.Aggregator.Account` | src/flow_aggregator.cpp:145-194 | the running row is the declarative row of the longer block, and fails exactly when that does not fit |
| `FlowAggregator.Aggregator.Open` | src/flow_aggregator.cpp:241-259 | a new session's row is that of an empty block opened by this packet, the originator taken from SYN or SYN-ACK |
| `FlowAggregator.Aggregator.Prepare` | src/flow_aggregator.cpp:216-230 | the interface clock is the latest timestamp, a packet behind it is late, and scopes stay within their limit or fail |
| `FlowAggregator.Aggregator.Place` | src/flow_aggregator.cpp:290-318 | tuple reuse, eviction and counting as in the plain table |
| `FlowAggregator.Aggregator.ExpireOrPlace` | src/flow_aggregator.cpp:283-318 | an idle session, if the true deadlines have one, goes first |
| `FlowAggregator.Aggregator.Next` | src/flow_aggregator.cpp:260-319 | each call hands out the row, or the end, or the failure of the plain table, and then shows its next state |
| `FlowRuns.NextShrinks` | src/flow_aggregator.cpp:260-319 | every row handed out takes a session or the pending record with it, so draining ends |
| `FlowRuns.RowsBounded` | src/flow_aggregator.cpp:260-319 | a pushed record yields at most one row more than the open sessions |
| `FlowRuns.IdleOrderExact` | src/flow_aggregator.cpp:283-289 | the idle order lists each session below the watermark once, in (deadline, key) order |
| `FlowRuns.ReadyIdleRows` | src/flow_aggregator.cpp:283-289 | once a record's clock is set, draining it first hands out exactly those sessions in that order, and no later row of it is an idle timeout |
| `FlowRecords.KeyOrderExact` | src/flow_aggregator.cpp:270-277 | the order of section-boundary rows lists each open session once, in key order |
| `FlowRecords.DrainRecord` | src/flow_aggregator.cpp:260-319 | the rows of any record, from its first call on, are exactly the sessions of a section it closes, then the idle ones, then at most one that makes way for it, then its own if it resets |
| `FlowRecords.RunRows` | src/flow_aggregator.cpp:260-319 | in every run, each record pushed adds exactly those rows |
| `FlowRecords.IdleRowsExact` | src/flow_aggregator.cpp:260-289 | for each record of every run: a new section first hands out every open session as a section boundary, in key order; the same section exactly the sessions whose deadline is before the latest time its interface has shown, in (deadline, key) order; at most two rows follow, neither for idleness |
| `FlowRuns.ReadyLimitRow` | src/flow_aggregator.cpp:302-309 | once a record's clock is set, a limit row leaves a full table for a packet with no open session, and is the true soonest session |
| `FlowRecords.LimitRowIsSoonest` | src/flow_aggregator.cpp:300-309 | in every run, any limit row of any record comes from a table still full once its idle sessions are gone, for a packet with no open session, and is its true soonest session |
| `FlowRecords.RunBounded` | src/flow_aggregator.cpp:300-309 | in every run the table never holds more sessions than its limit |
| `FlowRuns.NextProper` | src/flow_aggregator.cpp:260-319 | every reachable session and row holds only eligible packets of one section and key, none of which should have started another session |
| `FlowRuns.NextConserves` | src/flow_aggregator.cpp:260-319 | one call moves packets from the record and the sessions to the row and nowhere else |
| `FlowRuns.RunConserves` | src/flow_aggregator.cpp:260-319 | at any time, for each section and key, the packets of the rows in order followed by those held are exactly the eligible packets in capture order |
| `FlowRuns.FinishedConserves` | src/flow_aggregator.cpp:260-319 | after Finish every row covers eligible packets of one section and key, and the rows' blocks, joined, are exactly the eligible packets of each section and key |
| `FlowRuns.RunHandshakes` | src/flow_aggregator.cpp:168-240 | in every run, every row that claims a handshake, those of Finish included, covers its three segments in order |
| `FlowClocks.LatestIs` | src/flow_aggregator.cpp:216-230 | the reference clock is the latest time among the current section's records on the interface, eligible or not |
| `FlowClocks.RunClocks` | src/flow_aggregator.cpp:216-230 | at any time in a run every interface's clock is that latest time |
| `FlowClocks.LateExactly` | src/flow_aggregator.cpp:223-223 | a packet is late exactly when an earlier record of its section on its interface has a later time |
| `FlowScan.ScanFile` | src/packetquapture_extension.cpp:3934-3982 | the scan loop's rows are the summaries of the whole run's blocks, up to where it fails, and it fails exactly when that run does |
| `FlowScan.ScanHandshakes` | src/packetquapture_extension.cpp:3934-3982 | every row a scan hands out summarises packets of one section and key, and one that claims a handshake covers its three segments in order |
| `FlowScan.ScanConserves` | src/packetquapture_extension.cpp:3934-3982 | the rows of a completed scan are such summaries, and cover exactly the file's eligible packets of each section and key, in order |
| `TlsMerge.Merge` | src/tls_handshake.cpp:1272-1330 | the nth hellos of the two sides share the nth row |
| `TlsMerge.MergeAt` | src/tls_handshake.cpp:1275-1327 | a row's verdict comes from its hello, then its direction, then which sides were captured; resumption is decided only below TLS 1.3 with both sides |
| `TlsMerge.MergeCarriesAll` | src/tls_handshake.cpp:1272-1330 | a merge puts every hello of both directions on exactly one row, in its own place |
| `TlsAssembler.Assembler.Release` | src/tls_handshake.cpp:1381-1388 | the running count of finds stays exact |
| `TlsAssembler.Assembler.ReportAlone` | src/tls_handshake.cpp:1332-1343 | a direction that needs confirmation is never reported alone |
| `TlsAssembler.Assembler.Refute` | src/tls_handshake.cpp:1393-1408 | a plainly non-TLS stream drops the overlapping find on each other side or is remembered, within the room |
| `TlsAssembler.Assembler.Refuted` | src/tls_handshake.cpp:1410-1415 | finds a remembered stream of the find's tuple and side that overlaps it, exactly when there is one |
| `TlsAssembler.Assembler.EvictOldest` | src/tls_handshake.cpp:1430-1437 | the loop gives up the oldest queued find still held |
| `TlsAssembler.Assembler.Compact` | src/tls_handshake.cpp:1444-1453 | compaction keeps exactly the queued keys of finds in the table |
| `TlsAssembler.Assembler.Hold` | src/tls_handshake.cpp:1421-1463 | holds, refuses or stops on the assertion as the plain table does, with the count exact and every limit kept |
| `TlsAssembler.Assembler.Add` | src/tls_handshake.cpp:1468-1529 | one stream does to the class what it does to the plain table, and yields the rows of its merges |
| `TlsAssembler.Assembler.Finish` | src/tls_handshake.cpp:1531-1543 | every direction still waiting that stands on its own is reported, in key order, and nothing is kept |
| `TlsRuns.AddKeeps` | src/tls_handshake.cpp:1393-1529 | finds held are at most max(1, max_pending/4), the table at most max_pending, and no held find is refuted by a remembered stream, whichever arrived first |
| `TlsRuns.QueuedOrNot` | src/tls_handshake.cpp:1439-1454 | a new find's key is in the queue after Hold exactly when the queue was not compacted |
| `TlsRuns.HoldQueued` | src/tls_handshake.cpp:1421-1463 | holding keeps every find queued if and only if it does not compact the queue |
| `TlsRuns.HoldStuck` | src/tls_handshake.cpp:1426-1457 | Hold stops on its assertion if and only if the table is full, the newcomer stands on its own, finds are held and none of them is queued |
| `TlsRuns.QueuedNeverStuck` | src/tls_handshake.cpp:1426-1457 | while every find is queued, eviction always frees a place |
| `TlsReports.NeverStuckUncompacted` | src/tls_handshake.cpp:1421-1529 | until the queue is first compacted, every held find is queued and no call stops on the assertion |
| `TlsReports.StuckExactly` | src/tls_handshake.cpp:1455-1457 | which calls stop on the assertion, if and only if, in terms of the table before the call |
| `TlsReports.CompactionLosesTheKey` | src/tls_handshake.cpp:1422-1463 | for any room: once finds on one tuple overflow the queue, compaction leaves the last one held but not queued, and after others fill the table the next direction is the first to stop on the assertion |
| `TlsReports.LosingStreams` | src/tls_handshake.cpp:1422-1463 | such streams exist with distinct ids, one after the other in the capture, for every room up to 65535, the default 512 included |
| `TlsReports.AddConserves` | src/tls_handshake.cpp:1468-1529 | one call moves each hello that stands on its own from stream and table to merges and nowhere else, and repeats no hello |
| `TlsReports.RunSound` | src/tls_handshake.cpp:1375-1379 | in every run the two sides of a merge are a client and a server on one tuple, and a hello found by searching is reported only with one that overlaps it, parsed and was not itself searched for |
| `TlsReports.RunFrom` | src/tls_handshake.cpp:1468-1543 | in every run both sides of every merge, and every direction held, are directions of streams of the run |
| `TlsReports.EveryHelloReported` | src/tls_handshake.cpp:1468-1543 | in every run that does not stop, each hello that stands on its own is on as many rows as streams hold it |
| `TlsReports.EachHelloOnce` | src/tls_handshake.cpp:1468-1543 | with distinct stream ids, each such hello is on exactly one row, paired, alone or at Finish |
| `TlsReports.NoHelloRepeated` | src/tls_handshake.cpp:1468-1543 | in every run no hello, searched for or not, is on more rows than streams hold it |
| `TlsFraming.CollectHandshakeBytes` | src/tls_handshake.cpp:1015-1048 | the loop collects what the recursive reading of records collects, with the same spans and truncation |
| `TlsFraming.CollectRecovers` | src/tls_handshake.cpp:1015-1048 | any legal records, with others between and whatever ends the reading, give back exactly their handshake bytes and places |
| `TlsFraming.EndsReading` | src/tls_handshake.cpp:1021-1031 | reading ends if and only if there are too few bytes, a change-cipher-spec record, another version, or a length of 0 or over 18432 |
| `TlsFraming.ReadsOn` | src/tls_handshake.cpp:1021-1031 | it goes on exactly at the header of some record a peer may send, other than change-cipher-spec |
| `TlsFraming.CutRecord` | src/tls_handshake.cpp:1032-1035 | a record cut off after its header is reported as truncated and adds nothing |
| `TlsFraming.SpansTrue` | src/tls_handshake.cpp:1040-1044 | the noted spans are non-empty, in order, inside the chunk, and lead to each handshake byte itself |
| `TlsFraming.Locate` | src/tls_handshake.cpp:981-1005 | the binary search gives the range from the first byte's place to just past the last byte's, as a walk over the spans finds them, and it is never empty |
| `TlsFraming.ParseMessages` | src/tls_handshake.cpp:1082-1145 | the framing loop equals the recursive framing, with its stops at both limits and past the bytes |
| `TlsFraming.FramesRecovered` | src/tls_handshake.cpp:1082-1145 | messages within the limits are framed back exactly, at their own offsets |
| `TlsFraming.CutIndependent` | src/tls_handshake.cpp:1015-1145 | however a handshake stream is cut into legal records, the same types, offsets and bodies come back |
| `DnsName.Parser.Name` | src/dns_decoder.cpp:26-87 | within the work budget, succeeds exactly on names whose expansion takes at most 255 octets and 127 pointers, prints their labels, ends after the first pointer or the terminator, and never runs out of its 255 steps |
| `DnsName.Parser.AppendLabel` | src/dns_decoder.cpp:75-82 | a label's bytes are appended as their escaped text |
| `DnsName.TextInjective` | src/include/text_escape.hpp:12-17 | the printed text determines the list of labels |
| `DnsName.PlainNameReads` | src/dns_decoder.cpp:26-87 | an uncompressed name reads back as its labels |
| `DnsName.CompressedNameReads` | src/dns_decoder.cpp:36-53 | a name ending in a pointer stands for its labels followed by the earlier name's |
| `ScanBudget.QueryBudget.Acquire` | src/include/scan_budget.hpp:113-127 | takes one worker's bytes exactly when they are left and reserved, never past the limit |
| `ScanBudget.QueryBudget.Release` | src/include/scan_budget.hpp:128-133 | does to the budget what the release step of the state machine does, within the limit |
| `ScanBudget.ReleaseUndoesAcquire` | src/include/scan_budget.hpp:113-133 | releasing after a successful acquire restores the budget |
| `ScanBudget.ScanAdmission.Admit` | src/packetquapture_extension.cpp:2283-2300 | hands out the worker reserved at the start first, then what the budget grants, and gives a refused place back |
| `ScanBudget.StepExact` | src/include/scan_budget.hpp:68-161 | every step keeps the bytes in use equal to a worker's bytes times the live leases, within the limit, and every scan within its share |
| `ScanBudget.InitialFits` | src/packetquapture_extension.cpp:2261-2279 | in a fair query the first worker of a scan that has not started always fits |
| `ScanBudget.FairRun` | src/packetquapture_extension.cpp:2261-2300 | in a fair query no interleaving of starting, admitting, releasing and closing fails |
| `ScanBudget.RunExact` | src/include/scan_budget.hpp:68-161 | every query reached from an empty one, by any steps in any order, has bytes in use equal to leases times worker bytes |
| `ScanBudget.StartsExactly` | src/packetquapture_extension.cpp:2261-2279 | in every such query, late registrations included, a scan starts if and only if it has no files, or its reservation is granted and fewer leases are alive than slots |
| `ScanBudget.AdmitsExactly` | src/packetquapture_extension.cpp:2283-2300 | a worker is admitted if and only if its scan has a place left and its first worker is unused, or the reservation is granted and fewer leases are alive than slots |
| `ScanBudget.RegistersOne` | src/include/scan_budget.hpp:72-84 | a scan registered before any starts joins the plan of those before it |
| `ScanBudget.AdmissionGuarantee` | src/include/scan_budget.hpp:65-161 | with all scans registered first and a slot for each, every start succeeds, bytes equal leases times worker bytes, and no scan holds more than max(1, slots/N) leases |
| `ScanBudget.LateScanFails` | src/include/scan_budget.hpp:74-81 | for any worker size and any limit of at least one slot, a scan registered after another started is counted apart, and once that one holds every slot it cannot start |
| `ScanBudget.ScanRowId` | src/include/scan_budget.hpp:48-57 | an id exists exactly when the interleaved number fits in 64 bits |
| `ScanBudget.RowIdsDistinct` | src/include/scan_budget.hpp:48-57 | rows of different files or different local ids never share an id |
| `CaptureReader.Reader.constructor` | src/packetquapture_extension.cpp:268-298 | reading starts at the beginning with the cursor there |
| `CaptureReader.Reader.ReadRemoteWindow` | src/packetquapture_extension.cpp:368-384 | returns the file's bytes at the offset, none only at its end, from a window that mirrors its range |
| `CaptureReader.Reader.ReadLocalWindow` | src/packetquapture_extension.cpp:388-419 | the same through the cursor, the local window or a direct read, whichever the scan is using |
| `CaptureReader.Reader.ReadMaybe` | src/packetquapture_extension.cpp:903-931 | returns exactly the file's bytes at the logical position, or finds the file too short and says whether it stopped partway |
| `CaptureReader.Reader.Skip` | src/packetquapture_extension.cpp:983-1017 | moves the position exactly when the bytes are there, and restores the cursor whenever reads use it |
| `CaptureReader.Perform` | src/packetquapture_extension.cpp:368-419 | in every mode any interleaving of reads and skips returns what the file alone determines |
| `PcapReader.Initialize` | src/packetquapture_extension.cpp:421-462 | the header is accepted, or rejected for its exact reason, from the file alone |
| `PcapReader.PcapReader.Next` | src/packetquapture_extension.cpp:504-531 | the next record, or the exact way reading stops, as the file alone determines |
| `PcapReader.ScanFile` | src/packetquapture_extension.cpp:300-332 | in every mode the whole scan equals the recursive reading of the file |
| `PcapWriter.OpenWriter` | src/pcap_writer.cpp:17-31 | opens exactly when the link type fits 16 bits and a given snaplen is positive |
| `PcapWriter.Writer.constructor` | src/pcap_writer.cpp:17-31 | the output holds the file header |
| `PcapWriter.Writer.WriteAll` | src/pcap_writer.cpp:37-47 | under any schedule of short writes the output ends up with all the bytes in place |
| `PcapWriter.Writer.WritePacket` | src/pcap_writer.cpp:48-86 | on a working output succeeds exactly on acceptable packets and appends their record |
| `PcapWriter.Writer.Finish` | src/pcap_writer.cpp:87-102 | the finished file is the header with the snaplen given, or max(1, largest capture), then the records |
| `PcapRoundTrip.RoundTrip` | src/pcap_writer.cpp:17-102 | a written capture reads back as all its packets, to the end of the file, if and only if none is over 256 MiB |
| `PcapRoundTrip.RoundTripStops` | src/packetquapture_extension.cpp:504-531 | otherwise it reads as the packets before the first such, then stops as too long |
| `PcapRoundTrip.RecordsMatch` | src/pcap_writer.cpp:72-79 | each record read back has its packet's time, lengths, bytes and number |
| `PcapRoundTrip.ReadCountExact` | src/packetquapture_extension.cpp:504-531 | every length has exactly one count of packets that are read from it |
| `PcapRoundTrip.PrefixReads` | src/packetquapture_extension.cpp:504-531 | any prefix with the file header reads as exactly the records wholly inside, up to the first the reader refuses, ending cleanly, as too long, as a truncated tail, or as an unexpected end inside the first record |
| `PcapRoundTrip.ShortPrefix` | src/packetquapture_extension.cpp:421-462 | a shorter prefix is refused as empty, or as ending in the magic or the header |
| `PacketDecoder.StageStable` | src/packet_decoder.cpp:243-269 | the fields of a stage are the same at its depth and at any greater depth |
| `PacketDecoder.NetworkFails` | src/packet_decoder.cpp:181-198 | a header chain that does not validate leaves no network fields |
| `PacketDecoder.PayloadInside` | src/packet_decoder.cpp:200-239 | a located payload lies inside the packet and within its declared length, and is TCP or UDP but not both |
| `PacketDecoder.PacketPrefix.ReadPrefix` | src/packetquapture_extension.cpp:720-729 | the bytes read are the packet's, read no further than asked, and reading stops only when the file ends inside the record |
| `PacketDecoder.PacketPrefix.Ensure` | src/packet_decoder.cpp:27-33 | a header is readable exactly when it lies inside the packet |
| `PacketDecoder.DecodeEthernet` | src/packet_decoder.cpp:47-70 | the VLAN loop equals the recursive tag stack, and a rejected stack reports nothing |
| `PacketDecoder.DecodeLink` | src/packet_decoder.cpp:72-95 | each link type's next header, from the bytes of the whole packet |
| `PacketDecoder.DecodeIPv4` | src/packet_decoder.cpp:97-121 | the IPv4 header fields and datagram end of the whole packet |
| `PacketDecoder.DecodeIPv6Extension` | src/packet_decoder.cpp:124-150 | one extension header, a second fragment header and short authentication headers refused |
| `PacketDecoder.DecodeExtensions` | src/packet_decoder.cpp:165-178 | the loop equals the recursive chain of at most 16 extensions |
| `PacketDecoder.DecodeIPv6` | src/packet_decoder.cpp:152-179 | the fixed header's fields and the chain behind it |
| `PacketDecoder.DecodeNetwork` | src/packet_decoder.cpp:182-198 | IPv4 or IPv6 by the link layer's type, anything else refused with its outcome |
| `PacketDecoder.DecodeTransport` | src/packet_decoder.cpp:200-239 | ports, flags, numbers and the payload's place and lengths of the whole packet |
| `PacketDecoder.DecodePacket` | src/packet_decoder.cpp:243-269 | reading only a prefix decodes what the whole packet decodes to at that depth |
| `PacketScan.PlanDecodeStages` | src/packetquapture_extension.cpp:1553-1580 | the plan does the work of every stage whose column is read |
| `PacketScan.PlanCovers` | src/packetquapture_extension.cpp:1583-1605 | filters on columns the scan reads are covered by its plan |
| `PacketScan.Accept` | src/packetquapture_extension.cpp:745-753 | a record passes a stage exactly when every filter of the stage matches |
| `PacketScan.DecodeStages` | src/packetquapture_extension.cpp:789-800 | trying filters depth by depth rejects only packets the whole decode would reject |
| `PacketScan.TakeSegment` | src/packetquapture_extension.cpp:802-816 | scans that reassemble take exactly the payload of the wanted packets |
| `PacketScan.DnsStage` | src/packetquapture_extension.cpp:817-829 | only packets that carry DNS go on, with the payload the DNS columns need |
| `PacketScan.TlsStage` | src/packetquapture_extension.cpp:830-840 | the TLS columns see the TCP payload |
| `PacketScan.ReadPacketData` | src/packetquapture_extension.cpp:780-848 | the staged read selects exactly what decoding everything and then filtering would, shows the same values, and always consumes the record's captured length |
| `PacketFile.NextPacket` | src/packetquapture_extension.cpp:504-531 | one record of the file, faithful whatever the columns and filters |
| `PacketFile.ScanPackets` | src/packetquapture_extension.cpp:780-848 | in any mode, with any columns and filters, one record per packet of the file, selected exactly when it passes every filter decoded in full |
| `PacketFile.NumberingIndependent` | src/packetquapture_extension.cpp:504-531 | two scans of one file number and place its packets alike |

## Left out

- PCAPNG blocks, sections and timestamp resolutions: the capture reader is modelled for classic PCAP only.
- Nanosecond PCAP times: a record keeps both parts of its time, and only microsecond captures are given a single time.
- DNS questions and resource records: only names are modelled, not the record loop that reads them.
- ClientHello and ServerHello contents, certificates, tunnels and fingerprints: a hello is its verdict, version, session id, packets and one opaque value, and finding where TLS starts in a stream is taken as given.
- Warning codes of TLS rows: only the two that mark a direction found by searching are kept.
- TlsRuns.HoldStuck: states when the assertion fails; the state after it is not described.
- FlowAggregator.Aggregator.Next: after a failure the aggregator's state is not described.
- CaptureReader.Reader.ReadMaybe: after a read that meets the end, the cursor is not described, since nothing is read afterwards.
- PacketDecoder.DecodePacket: a file that ends inside a record is a flag checked after each header, where the source unwinds by an exception.
- Interrupts, progress reports, read-ahead hints and the memory manager behind reservations.
- Column types, SQL binding, Hive partitions, catalog pruning, analytics macros and copying to PCAP through SQL.
