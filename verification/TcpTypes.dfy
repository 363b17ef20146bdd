/** What the TCP reassembler reads and produces (src/include/tcp_reassembly.hpp). */
module TcpTypes {
  import opened Basics
  import Order

  type Address = s: seq<U8> | |s| == 16 witness seq(16, _ => 0)
  type ScopeKey = (U32, U32)

  datatype FlowKey = FlowKey(section: U32, interfaceId: U32, ipVersion: U8, srcIp: Address, dstIp: Address,
                             srcPort: U16, dstPort: U16, vlans: seq<U16>)
  {
    function Reverse(): FlowKey {
      this.(srcIp := dstIp, dstIp := srcIp, srcPort := dstPort, dstPort := srcPort)
    }

    function Scope(): ScopeKey {
      (section, interfaceId)
    }

    /** Fields in comparison order; every field but the last has a fixed width. */
    function Rank(): seq<int> {
      [section, interfaceId, ipVersion] + srcIp + dstIp + [srcPort, dstPort] + vlans
    }
  }

  function KeyRank(key: FlowKey): seq<int> {
    key.Rank()
  }

  /** An entry of an expiry queue: a time, then the direction queued at it. */
  type Entry = (int, FlowKey)

  function EntryRank(entry: Entry): seq<int> {
    [entry.0] + entry.1.Rank()
  }

  lemma RankInjective(a: FlowKey, b: FlowKey)
    requires a.Rank() == b.Rank()
    ensures a == b
  {
    var r, s := a.Rank(), b.Rank();
    assert a.srcIp == r[3..19] == s[3..19] == b.srcIp;
    assert a.dstIp == r[19..35] == s[19..35] == b.dstIp;
    assert r[..3] == [a.section, a.interfaceId, a.ipVersion] && s[..3] == [b.section, b.interfaceId, b.ipVersion];
    assert r[0] == s[0] && r[1] == s[1] && r[2] == s[2];
    assert a.srcPort == r[35] == s[35] == b.srcPort && a.dstPort == r[36] == s[36] == b.dstPort;
    assert a.vlans == r[37..] == s[37..] == b.vlans;
  }

  lemma EntryRankInjective(a: Entry, b: Entry)
    requires EntryRank(a) == EntryRank(b)
    ensures a == b
  {
    assert EntryRank(a)[0] == a.0 && EntryRank(b)[0] == b.0;
    assert EntryRank(a)[1..] == a.1.Rank() && EntryRank(b)[1..] == b.1.Rank();
    RankInjective(a.1, b.1);
  }

  lemma FirstKeyExists(keys: set<FlowKey>)
    requires keys != {}
    ensures exists first :: Order.IsFirst(first, keys, KeyRank)
  {
    forall a, b | a in keys && b in keys && KeyRank(a) == KeyRank(b)
      ensures a == b
    {
      RankInjective(a, b);
    }
    var first := Order.FirstExists(keys, KeyRank);
  }

  lemma FirstEntryExists(entries: set<Entry>)
    requires entries != {}
    ensures exists first :: Order.IsFirst(first, entries, EntryRank)
  {
    forall a, b | a in entries && b in entries && EntryRank(a) == EntryRank(b)
      ensures a == b
    {
      EntryRankInjective(a, b);
    }
    var first := Order.FirstExists(entries, EntryRank);
  }

  /** begin() of a nonempty ordered map of directions. */
  ghost function FirstKey(keys: set<FlowKey>): (first: FlowKey)
    requires keys != {}
    ensures Order.IsFirst(first, keys, KeyRank)
  {
    FirstKeyExists(keys);
    var first :| Order.IsFirst(first, keys, KeyRank);
    first
  }

  /** begin() of a nonempty expiry queue. */
  ghost function FirstEntry(entries: set<Entry>): (first: Entry)
    requires entries != {}
    ensures Order.IsFirst(first, entries, EntryRank)
  {
    FirstEntryExists(entries);
    var first :| Order.IsFirst(first, entries, EntryRank);
    first
  }

  datatype PacketStamp = PacketStamp(number: U64, hasTimestamp: bool, timestamp: I64)

  const NO_STAMP := PacketStamp(0, false, 0)

  /** The TCP header bits the reassembler tests. */
  datatype Flags = Flags(fin: bool, syn: bool, rst: bool, ack: bool)

  datatype CapturedSegment = Captured(sequence: U32, declared: U32, stamp: PacketStamp, bytes: seq<U8>)

  /** A buffered segment never holds more bytes than its packet declared. */
  type Segment = s: CapturedSegment | |s.bytes| <= s.declared witness Captured(0, 0, NO_STAMP, [])

  /** Segments are numbered in 32 bits, and the largest number marks a byte none of them supplied. */
  type Segments = s: seq<Segment> | |s| < U32_MAX

  datatype StreamStatus = Contiguous | Gapped | Unanchored | Conflict | Limit

  datatype StreamError =
    | NoError
    | SynNotCaptured
    | MissingBytes
    | SegmentsDisagree
    | DataBeyondFin
    | FinPositionsDisagree
    | CapturedExceedsDeclared
    | SpanExceedsWindow
    | FinExceedsWindow
    | SegmentExceedsLimits
    | BufferLimitReached
    | TooManyDirections

  datatype Finalizer = ByIdleTimeout | ByTupleReuse | ByReset | ByEof | ByLimit

  datatype Failure = Failure(status: StreamStatus, error: StreamError)

  datatype ByteOrigin = ByteOrigin(offset: nat, length: nat, stamp: PacketStamp)

  datatype Chunk = Chunk(offset: nat, sequence: U32, data: seq<U8>, origins: seq<ByteOrigin>)

  datatype Gap = Gap(offset: nat, length: nat)

  datatype Stream = Stream(key: FlowKey, streamId: nat, sequence: U32, expectedBytes: nat, capturedBytes: nat,
                           synSeen: bool, finSeen: bool, first: PacketStamp, last: PacketStamp,
                           status: StreamStatus, error: StreamError, finalizedBy: Finalizer,
                           chunks: seq<Chunk>, gaps: seq<Gap>)

  datatype ReassemblyLimits = ReassemblyLimits(maxFlows: nat, maxTotalBytes: nat, maxStreamBytes: nat,
                                               maxSegments: nat, maxTotalSegments: nat, tcpIdle: I64)

  /** What the reassembler's constructor asserts of its limits. */
  type Limits = l: ReassemblyLimits | l.maxStreamBytes <= U32_MAX && l.maxSegments < U32_MAX && l.tcpIdle >= 0
    witness ReassemblyLimits(0, 0, 0, 0, 0, 0)

  /** Everything one direction has been seen to carry. */
  datatype Direction = Direction(id: nat, hasSyn: bool, hasFin: bool, synSequence: U32, finSequence: U32,
                                 first: PacketStamp, last: PacketStamp, failure: Option<Failure>,
                                 segments: Segments)
}
