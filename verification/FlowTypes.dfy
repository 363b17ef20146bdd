/** What the flow aggregator reads and produces (src/include/flow_aggregator.hpp). */
module FlowTypes {
  import opened Basics
  import TcpTypes
  import Order

  type Address = TcpTypes.Address
  type PacketStamp = TcpTypes.PacketStamp

  /** The bits of the 16-bit TCP flags field, numbered from the lowest. */
  type Bit = b: int | 0 <= b < 16

  const FIN: Bit := 0
  const SYN: Bit := 1
  const RST: Bit := 2
  const ACK: Bit := 4

  type VlanStack = s: seq<U16> | |s| <= 8
  type VlanArray = s: seq<U16> | |s| == 8 witness seq(8, _ => 0)

  datatype Endpoint = Endpoint(ip: Address, port: U16)
  {
    function Rank(): seq<int> {
      ip + [port]
    }
  }

  /** A bidirectional session on one interface: its two endpoints in canonical order. */
  datatype SessionKey = SessionKey(interfaceId: U32, ipVersion: U8, protocol: U8, vlanCount: U8, vlans: VlanArray,
                                   low: Endpoint, high: Endpoint)
  {
    function Rank(): seq<int> {
      [interfaceId, ipVersion, protocol, vlanCount] + vlans + low.Rank() + high.Rank()
    }
  }

  /** The decoded fields the aggregator reads. */
  datatype Packet = Packet(transport: bool, tcp: bool, udp: bool, fragmentOffset: U32, moreFragments: bool,
                           ipVersion: U8, vlans: VlanStack, src: Endpoint, dst: Endpoint,
                           flags: set<Bit>, seqNumber: U32, ackNumber: U32, payloadLength: U32)
  {
    predicate Has(bit: Bit) {
      tcp && bit in flags
    }

    predicate PureSyn() {
      Has(SYN) && !Has(ACK)
    }

    predicate SynAck() {
      Has(SYN) && Has(ACK)
    }
  }

  datatype FlowInput = FlowInput(section: U32, interfaceId: U32, captured: U32, reported: U32, stamp: PacketStamp,
                                 packet: Packet)

  /** A packet a session counted, and whether its interface clock was already past it. */
  datatype Seen = Seen(input: FlowInput, late: bool)

  datatype Counters = Counters(packets: nat, captured: nat, reported: nat, payload: nat, flags: set<Bit>)

  datatype Basis = FirstPacket | FromSyn | FromSynAck

  datatype Reason = Eof | SectionBoundary | IdleTimeout | TupleReuse | Reset | Limit

  datatype Summary = Summary(key: SessionKey, section: U32, firstPacket: U64, lastPacket: U64, origIsLow: bool,
                             times: Option<(int, int)>, missing: nat, late: nat,
                             orig: Counters, resp: Counters,
                             handshakeComplete: bool, simultaneousOpen: bool, equalEndpoints: bool,
                             synSeen: bool, finSeen: bool, resetSeen: bool, basis: Basis)

  datatype AggregatorLimits = AggregatorLimits(tcpIdle: I64, udpIdle: I64, maxFlows: nat, maxScopes: nat)

  /** What the constructor demands; anything else is an invalid argument. */
  type Limits = l: AggregatorLimits | l.tcpIdle >= 0 && l.udpIdle >= 0 && l.maxFlows > 0 && l.maxScopes > 0
    witness AggregatorLimits(0, 0, 1, 1)

  // ---------------------------------------------------------------- keys

  /** Whether a packet travels from the low endpoint of its session. */
  predicate FromLow(input: FlowInput) {
    !Order.Less(input.packet.dst.Rank(), input.packet.src.Rank())
  }

  function Padded(vlans: VlanStack): VlanArray {
    vlans + seq(8 - |vlans|, _ => 0)
  }

  function KeyOf(input: FlowInput): SessionKey {
    var p := input.packet;
    SessionKey(input.interfaceId, p.ipVersion, if p.tcp then 6 else 17, |p.vlans|, Padded(p.vlans),
               if FromLow(input) then p.src else p.dst, if FromLow(input) then p.dst else p.src)
  }

  /** Only whole transport packets over TCP or UDP belong to a session. */
  predicate Eligible(input: FlowInput) {
    var p := input.packet;
    p.transport && (p.tcp || p.udp) && p.fragmentOffset == 0 && !p.moreFragments
  }

  /** The packet the other endpoint would send back, with both endpoints exchanged. */
  function Returned(input: FlowInput): FlowInput {
    input.(packet := input.packet.(src := input.packet.dst, dst := input.packet.src))
  }

  lemma EndpointRankInjective(a: Endpoint, b: Endpoint)
    requires a.Rank() == b.Rank()
    ensures a == b
  {
    assert a.ip == a.Rank()[..16] && b.ip == b.Rank()[..16];
    assert a.port == a.Rank()[16] && b.port == b.Rank()[16];
  }

  /** A session key does not depend on the direction of travel, and FromLow tells the two directions apart
      unless the endpoints are equal. */
  lemma KeyIgnoresDirection(input: FlowInput)
    ensures KeyOf(Returned(input)) == KeyOf(input)
    ensures FromLow(Returned(input)) == FromLow(input) <==> input.packet.src == input.packet.dst
  {
    var a, b := input.packet.src.Rank(), input.packet.dst.Rank();
    Order.LessTotal(a, b);
    Order.LessIrreflexive(a);
    if Order.Less(a, b) && Order.Less(b, a) {
      Order.LessTransitive(a, b, a);
    }
    if a == b {
      EndpointRankInjective(input.packet.src, input.packet.dst);
    }
  }

  /** Two packets share a session exactly when they agree on interface, IP version, transport and VLAN tags
      and travel between the same two endpoints. */
  lemma SameSession(a: FlowInput, b: FlowInput)
    ensures KeyOf(a) == KeyOf(b) <==>
      && a.interfaceId == b.interfaceId && a.packet.ipVersion == b.packet.ipVersion
      && a.packet.tcp == b.packet.tcp && a.packet.vlans == b.packet.vlans
      && ((a.packet.src == b.packet.src && a.packet.dst == b.packet.dst)
          || (a.packet.src == b.packet.dst && a.packet.dst == b.packet.src))
  {
    KeyIgnoresDirection(a);
    if a.packet.vlans != b.packet.vlans && |a.packet.vlans| == |b.packet.vlans| {
      assert Padded(a.packet.vlans)[..|a.packet.vlans|] == a.packet.vlans;
      assert Padded(b.packet.vlans)[..|b.packet.vlans|] == b.packet.vlans;
    }
  }

  function KeyRank(key: SessionKey): seq<int> {
    key.Rank()
  }

  /** An entry of an expiry queue: a time, then the session queued at it. */
  type Entry = (int, SessionKey)

  function EntryRank(entry: Entry): seq<int> {
    [entry.0] + entry.1.Rank()
  }

  lemma RankInjective(a: SessionKey, b: SessionKey)
    requires a.Rank() == b.Rank()
    ensures a == b
  {
    var r, s := a.Rank(), b.Rank();
    assert r[..4] == [a.interfaceId, a.ipVersion, a.protocol, a.vlanCount];
    assert s[..4] == [b.interfaceId, b.ipVersion, b.protocol, b.vlanCount];
    assert r[0] == s[0] && r[1] == s[1] && r[2] == s[2] && r[3] == s[3];
    assert a.vlans == r[4..12] == s[4..12] == b.vlans;
    assert a.low.Rank() == r[12..29] == s[12..29] == b.low.Rank();
    assert a.high.Rank() == r[29..46] == s[29..46] == b.high.Rank();
    EndpointRankInjective(a.low, b.low);
    EndpointRankInjective(a.high, b.high);
  }

  lemma EntryRankInjective(a: Entry, b: Entry)
    requires EntryRank(a) == EntryRank(b)
    ensures a == b
  {
    assert EntryRank(a)[0] == a.0 && EntryRank(b)[0] == b.0;
    assert EntryRank(a)[1..] == a.1.Rank() && EntryRank(b)[1..] == b.1.Rank();
    RankInjective(a.1, b.1);
  }

  lemma FirstKeyExists(keys: set<SessionKey>)
    requires keys != {}
    ensures exists first :: Order.IsFirst(first, keys, KeyRank)
  {
    forall a, b | a in keys && b in keys && KeyRank(a) == KeyRank(b)
      ensures a == b
    {
      RankInjective(a, b);
    }
    var first := Order.FirstExists(keys, KeyRank);
  }

  lemma FirstEntryExists(entries: set<Entry>)
    requires entries != {}
    ensures exists first :: Order.IsFirst(first, entries, EntryRank)
  {
    forall a, b | a in entries && b in entries && EntryRank(a) == EntryRank(b)
      ensures a == b
    {
      EntryRankInjective(a, b);
    }
    var first := Order.FirstExists(entries, EntryRank);
  }

  /** begin() of a nonempty ordered map of sessions. */
  ghost function FirstKey(keys: set<SessionKey>): (first: SessionKey)
    requires keys != {}
    ensures Order.IsFirst(first, keys, KeyRank)
  {
    FirstKeyExists(keys);
    var first :| Order.IsFirst(first, keys, KeyRank);
    first
  }

  /** begin() of a nonempty expiry queue. */
  ghost function FirstEntry(entries: set<Entry>): (first: Entry)
    requires entries != {}
    ensures Order.IsFirst(first, entries, EntryRank)
  {
    FirstEntryExists(entries);
    var first :| Order.IsFirst(first, entries, EntryRank);
    first
  }
}
