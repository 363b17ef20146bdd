/** Decoding a packet's link, network and transport headers to a chosen depth (src/packet_decoder.cpp).
    The functions say what the headers of a whole packet hold; the methods read only the prefix they need. */
module PacketDecoder {
  import opened Basics
  import opened CaptureReader

  datatype DecodeOutcome = NotRequested | Decoded | Malformed | Unsupported | Fragment

  /** How far to decode. */
  datatype Depth = Undecoded | Link | Network | Transport
  {
    function Level(): nat {
      match this case Undecoded => 0 case Link => 1 case Network => 2 case Transport => 3
    }
  }

  datatype LinkFields = LinkFields(ethernet: bool, srcMac: Bytes, dstMac: Bytes, etherType: U16, vlans: seq<U16>)

  datatype NetworkFields = NetworkFields(network: bool, version: U8, protocol: U8, ttl: U8, srcIp: Bytes, dstIp: Bytes,
                                         fragmentOffset: nat, moreFragments: bool, ipId: Option<nat>)

  datatype TransportFields = TransportFields(transport: bool, tcp: bool, udp: bool, srcPort: U16, dstPort: U16, flags: U8,
                                             seqNumber: nat, ackNumber: nat, headerLength: nat, udpLength: U16,
                                             payloadOffset: nat, payloadLength: nat, declaredLength: nat)

  datatype DecodedPacket = DecodedPacket(outcome: DecodeOutcome, link: LinkFields, net: NetworkFields, transport: TransportFields)

  const NO_LINK := LinkFields(false, [], [], 0, [])
  const NO_NETWORK := NetworkFields(false, 0, 0, 0, [], [], 0, false, None)
  const NO_TRANSPORT := TransportFields(false, false, false, 0, 0, 0, 0, 0, 0, 0, 0, 0, 0)
  const NOTHING := DecodedPacket(NotRequested, NO_LINK, NO_NETWORK, NO_TRANSPORT)

  const VLAN_CAPACITY := 8
  const MAX_EXTENSIONS := 16

  /** The position of the next header, the end of the IP datagram that holds it, and its type. */
  datatype Cursor = Cursor(offset: nat, end: nat, kind: U16)

  const START := Cursor(0, 0, 0)

  predicate Has(size: nat, offset: nat, length: nat) {
    offset + length <= size
  }

  function Word(p: Bytes, at: nat): U16
    requires at + 2 <= |p|
  {
    Big16(p[at], p[at + 1])
  }

  function DoubleWord(p: Bytes, at: nat): nat
    requires at + 4 <= |p|
  {
    65536 * Word(p, at) + Word(p, at + 2)
  }

  // ---------------------------------------------------------------- the link layer

  predicate IsVlan(kind: U16) {
    kind == 0x8100 || kind == 0x88A8
  }

  /** The tags from an offset on; a stack that is too deep or cut off reports nothing. */
  datatype Tags = Tags(vlans: seq<U16>, kind: U16, offset: nat) | BadTags(outcome: DecodeOutcome)

  function TagsFrom(p: Bytes, kind: U16, offset: nat, vlans: seq<U16>): Tags
    decreases |p| - offset
  {
    if !IsVlan(kind) then Tags(vlans, kind, offset)
    else if |vlans| == VLAN_CAPACITY then BadTags(Unsupported)
    else if !Has(|p|, offset, 4) then BadTags(Malformed)
    else TagsFrom(p, Word(p, offset + 2), offset + 4, vlans + [Word(p, offset) % 0x1000])
  }

  datatype LinkResult = LinkResult(outcome: DecodeOutcome, link: LinkFields, cursor: Cursor)

  function EthernetOf(p: Bytes): LinkResult {
    if !Has(|p|, 0, 14) then LinkResult(Malformed, NO_LINK, START)
    else
      match TagsFrom(p, Word(p, 12), 14, [])
      case BadTags(outcome) => LinkResult(outcome, NO_LINK, START)
      case Tags(vlans, kind, offset) =>
        LinkResult(Decoded, LinkFields(true, p[6..12], p[..6], kind, vlans), Cursor(offset, 0, kind))
  }

  function LinkOf(p: Bytes, linkType: U32): LinkResult {
    if linkType == 1 then EthernetOf(p)
    else if linkType == 101 then
      if !Has(|p|, 0, 1) then LinkResult(Malformed, NO_LINK, START)
      else LinkResult(Decoded, NO_LINK, START.(kind := if p[0] / 16 == 4 then 0x0800 else if p[0] / 16 == 6 then 0x86DD else 0))
    else if linkType == 228 then LinkResult(Decoded, NO_LINK, START.(kind := 0x0800))
    else if linkType == 229 then LinkResult(Decoded, NO_LINK, START.(kind := 0x86DD))
    else if linkType == 113 then
      if !Has(|p|, 0, 16) then LinkResult(Malformed, NO_LINK, START) else LinkResult(Decoded, NO_LINK, Cursor(16, 0, Word(p, 14)))
    else if linkType == 276 then
      if !Has(|p|, 0, 20) then LinkResult(Malformed, NO_LINK, START) else LinkResult(Decoded, NO_LINK, Cursor(20, 0, Word(p, 0)))
    else LinkResult(Unsupported, NO_LINK, START)
  }

  // ---------------------------------------------------------------- the network layer

  datatype NetworkResult = NetworkResult(outcome: DecodeOutcome, net: NetworkFields, cursor: Cursor)

  function NoNetwork(outcome: DecodeOutcome, cursor: Cursor): NetworkResult {
    NetworkResult(outcome, NO_NETWORK, cursor)
  }

  function IPv4Of(p: Bytes, cursor: Cursor): NetworkResult {
    var at := cursor.offset;
    if !Has(|p|, at, 20) || p[at] / 16 != 4 then NoNetwork(Malformed, cursor)
    else
      var header, total := p[at] % 16 * 4, Word(p, at + 2);
      if header < 20 || total < header || !Has(|p|, at, header) then NoNetwork(Malformed, cursor)
      else
        var fragment := Word(p, at + 6);
        NetworkResult(Decoded,
                      NetworkFields(true, 4, p[at + 9], p[at + 8], p[at + 12..at + 16], p[at + 16..at + 20],
                                    fragment % 0x2000 * 8, fragment / 0x2000 % 2 == 1, Some(Word(p, at + 4))),
                      cursor.(offset := at + header, end := at + total))
  }

  predicate IsExtension(protocol: U8) {
    protocol == 0 || protocol == 43 || protocol == 60 || protocol == 44 || protocol == 51
  }

  datatype Extended = Extended(net: NetworkFields, cursor: Cursor) | BadExtension

  /** One extension header, whose type the header before it gave; its first eight bytes are there. */
  function ExtensionOf(p: Bytes, net: NetworkFields, cursor: Cursor): Extended
    requires Has(|p|, cursor.offset, 8)
  {
    var at := cursor.offset;
    if net.protocol == 44 && net.ipId.Some? then BadExtension
    else
      var length := if net.protocol == 44 then 8
                    else if net.protocol == 51 then (p[at + 1] as int + 2) * 4
                    else (p[at + 1] as int + 1) * 8;
      if (net.protocol == 51 && length < 12) || !Has(cursor.end, at, length) || !Has(|p|, at, length) then BadExtension
      else
        var fragment := Word(p, at + 2);
        var marked := if net.protocol == 44
                      then net.(fragmentOffset := fragment - fragment % 8, moreFragments := fragment % 2 == 1,
                                ipId := Some(DoubleWord(p, at + 4)))
                      else net;
        Extended(marked.(protocol := p[at]), cursor.(offset := at + length))
  }

  /** The extension chain, when `seen` of its headers are behind; a later fragment ends it. */
  function ChainFrom(p: Bytes, net: NetworkFields, cursor: Cursor, seen: nat): NetworkResult
    decreases MAX_EXTENSIONS - seen
  {
    if !IsExtension(net.protocol) then NetworkResult(Decoded, net, cursor)
    else if seen >= MAX_EXTENSIONS then NoNetwork(Unsupported, cursor)
    else if !Has(cursor.end, cursor.offset, 8) || !Has(|p|, cursor.offset, 8) then NoNetwork(Malformed, cursor)
    else
      match ExtensionOf(p, net, cursor)
      case BadExtension => NoNetwork(Malformed, cursor)
      case Extended(after, next) =>
        if after.fragmentOffset != 0 then NetworkResult(Decoded, after, next)
        else ChainFrom(p, after, next, seen + 1)
  }

  function IPv6Of(p: Bytes, cursor: Cursor): NetworkResult {
    var at := cursor.offset;
    if !Has(|p|, at, 40) || p[at] / 16 != 6 then NoNetwork(Malformed, cursor)
    else
      ChainFrom(p, NetworkFields(true, 6, p[at + 6], p[at + 7], p[at + 8..at + 24], p[at + 24..at + 40], 0, false, None),
                cursor.(offset := at + 40, end := at + 40 + Word(p, at + 4)), 0)
  }

  function NetworkOf(p: Bytes, linkType: U32, cursor: Cursor): NetworkResult {
    if cursor.kind == 0x0800 then IPv4Of(p, cursor)
    else if cursor.kind == 0x86DD then IPv6Of(p, cursor)
    else NoNetwork(if linkType == 101 && cursor.kind == 0 then Malformed else Unsupported, cursor)
  }

  // ---------------------------------------------------------------- the transport layer

  datatype TransportResult = TransportResult(outcome: DecodeOutcome, transport: TransportFields)

  function TcpOf(p: Bytes, cursor: Cursor): TransportResult {
    var at := cursor.offset;
    if !Has(cursor.end, at, 20) || !Has(|p|, at, 20) then TransportResult(Malformed, NO_TRANSPORT)
    else
      var header := p[at + 12] / 16 * 4;
      if header < 20 || !Has(cursor.end, at, header) || !Has(|p|, at, header) then TransportResult(Malformed, NO_TRANSPORT)
      else
        TransportResult(Decoded,
                        TransportFields(true, true, false, Word(p, at), Word(p, at + 2), p[at + 13], DoubleWord(p, at + 4),
                                        DoubleWord(p, at + 8), header, 0, at + header,
                                        Min(cursor.end, |p|) - at - header, cursor.end - at - header))
  }

  function UdpOf(p: Bytes, cursor: Cursor): TransportResult {
    var at := cursor.offset;
    if !Has(cursor.end, at, 8) || !Has(|p|, at, 8) then TransportResult(Malformed, NO_TRANSPORT)
    else
      var length := Word(p, at + 4);
      if length < 8 || !Has(cursor.end, at, length) then TransportResult(Malformed, NO_TRANSPORT)
      else
        TransportResult(Decoded,
                        TransportFields(true, false, true, Word(p, at), Word(p, at + 2), 0, 0, 0, 0, length, at + 8,
                                        Min(at + length, |p|) - at - 8, length - 8))
  }

  function TransportOf(p: Bytes, protocol: U8, cursor: Cursor): TransportResult {
    if protocol == 6 then TcpOf(p, cursor)
    else if protocol == 17 then UdpOf(p, cursor)
    else TransportResult(Unsupported, NO_TRANSPORT)
  }

  // ---------------------------------------------------------------- the whole packet

  predicate IsFragment(net: NetworkFields) {
    net.fragmentOffset != 0 || net.moreFragments
  }

  function Decode(p: Bytes, linkType: U32, depth: Depth): DecodedPacket {
    if depth == Undecoded then NOTHING
    else if depth == Link && linkType != 1 then NOTHING.(outcome := Unsupported)
    else
      var l := LinkOf(p, linkType);
      var linked := NOTHING.(outcome := l.outcome, link := l.link);
      if l.outcome != Decoded || depth == Link then linked
      else
        var n := NetworkOf(p, linkType, l.cursor);
        var networked := linked.(outcome := n.outcome, net := n.net);
        if n.outcome != Decoded then networked
        else if IsFragment(n.net) then networked.(outcome := Fragment)
        else if depth == Network then networked
        else
          var t := TransportOf(p, n.net.protocol, n.cursor);
          networked.(outcome := t.outcome, transport := t.transport)
  }

  // ---------------------------------------------------------------- depth does not change what a stage says

  lemma {:induction false} ChainFails(p: Bytes, net: NetworkFields, cursor: Cursor, seen: nat)
    ensures ChainFrom(p, net, cursor, seen).outcome != Decoded ==> ChainFrom(p, net, cursor, seen).net == NO_NETWORK
    decreases MAX_EXTENSIONS - seen
  {
    hide ExtensionOf;
    if IsExtension(net.protocol) && seen < MAX_EXTENSIONS && Has(cursor.end, cursor.offset, 8) && Has(|p|, cursor.offset, 8) {
      var e := ExtensionOf(p, net, cursor);
      if e.Extended? && e.net.fragmentOffset == 0 {
        ChainFails(p, e.net, e.cursor, seen + 1);
      }
    }
  }

  /** A header chain that does not validate leaves no network fields. */
  lemma NetworkFails(p: Bytes, linkType: U32, cursor: Cursor)
    ensures NetworkOf(p, linkType, cursor).outcome != Decoded ==> NetworkOf(p, linkType, cursor).net == NO_NETWORK
  {
    hide ChainFrom;
    var at := cursor.offset;
    if cursor.kind == 0x86DD && Has(|p|, at, 40) && p[at] / 16 == 6 {
      ChainFails(p, NetworkFields(true, 6, p[at + 6], p[at + 7], p[at + 8..at + 24], p[at + 24..at + 40], 0, false, None),
                 cursor.(offset := at + 40, end := at + 40 + Word(p, at + 4)), 0);
    }
  }

  lemma PlainLink(p: Bytes, linkType: U32)
    requires linkType != 1
    ensures LinkOf(p, linkType).link == NO_LINK
  {
  }

  /** The fields of a stage are the same however much deeper the packet is decoded. */
  lemma StageStable(p: Bytes, linkType: U32, depth: Depth)
    ensures depth.Level() >= 1 ==> Decode(p, linkType, depth).link == Decode(p, linkType, Transport).link
    ensures depth.Level() >= 2 ==> Decode(p, linkType, depth).net == Decode(p, linkType, Transport).net
    ensures depth.Level() >= 3 ==> Decode(p, linkType, depth) == Decode(p, linkType, Transport)
  {
    hide LinkOf, NetworkOf, TransportOf;
    if linkType != 1 {
      PlainLink(p, linkType);
    }
  }

  /** A decoded transport header lies inside the packet, and so does the payload it locates. */
  lemma PayloadInside(p: Bytes, linkType: U32)
    ensures var t := Decode(p, linkType, Transport).transport;
      t.transport ==> t.payloadOffset + t.payloadLength <= |p| && t.payloadLength <= t.declaredLength && t.tcp != t.udp
  {
    hide LinkOf, NetworkOf;
  }

  // ---------------------------------------------------------------- decoding from a prefix

  const READ_STEP := 1024 * 1024

  /** The bytes of one packet record, read from the capture only as far as some decoder asks. `packet` stands for any
      packet of the record's length that begins with the bytes the file still has. */
  class PacketPrefix {
    const reader: Reader
    const length: nat
    const start: nat
    ghost const packet: Bytes
    var bytes: Bytes
    var ended: bool

    ghost predicate Valid()
      reads this, reader
    {
      && |packet| == length && start <= |reader.file|
      && (forall i | 0 <= i < length && start + i < |reader.file| :: packet[i] == reader.file[start + i])
      && |bytes| <= length && start + |bytes| <= |reader.file| && bytes == packet[..|bytes|]
      && (!ended ==> reader.Valid() && reader.position == start + |bytes| && !reader.truncatedTail)
      && (ended ==> start + length > |reader.file|)
    }

    constructor (reader: Reader, length: nat, ghost packet: Bytes)
      requires reader.Valid() && !reader.truncatedTail && |packet| == length
      requires forall i | 0 <= i < length && reader.position + i < |reader.file| :: packet[i] == reader.file[reader.position + i]
      ensures Valid() && !ended && bytes == [] && this.reader == reader && this.length == length && this.packet == packet
      ensures start == reader.position
    {
      this.reader, this.length, this.packet, start := reader, length, packet, reader.position;
      bytes, ended := [], false;
    }

    /** Reads up to `requested` bytes of the record, a step at a time; a file that ends first stops the record. */
    method ReadPrefix(requested: nat)
      requires Valid() && !ended && requested <= length
      modifies this, reader
      ensures Valid() && |bytes| >= |old(bytes)|
      ensures !ended ==> |bytes| >= requested
      ensures start + length <= |reader.file| ==> !ended
    {
      while |bytes| < requested
        invariant Valid() && !ended && |bytes| >= |old(bytes)|
        decreases requested - |bytes|
      {
        var step := Min(requested - |bytes|, READ_STEP);
        var data := reader.ReadMaybe(step);
        if data.None? {
          ended := true;
          return;
        }
        Appended(packet, reader.file, start, bytes, data.value);
        bytes := bytes + data.value;
      }
    }

    /** Makes a header readable, if it lies inside the packet. */
    method Ensure(at: nat, size: nat) returns (ok: bool)
      requires Valid() && !ended
      modifies this, reader
      ensures Valid() && (start + length <= |reader.file| ==> !ended)
      ensures !ended ==> ok == Has(length, at, size)
      ensures ok ==> !ended && at + size <= |bytes| && at + size <= |packet|
    {
      if !Has(length, at, size) {
        return false;
      }
      ReadPrefix(at + size);
      ok := !ended;
    }

    /** As Ensure, but the header must also lie within the IP datagram. */
    method EnsureWithin(end: nat, at: nat, size: nat) returns (ok: bool)
      requires Valid() && !ended
      modifies this, reader
      ensures Valid() && (start + length <= |reader.file| ==> !ended)
      ensures !ended ==> ok == (Has(end, at, size) && Has(length, at, size))
      ensures ok ==> !ended && at + size <= |bytes| && at + size <= |packet|
    {
      if !Has(end, at, size) {
        return false;
      }
      ok := Ensure(at, size);
    }

    function Unread(): (left: nat)
      requires Valid()
      reads this, reader
      ensures left + |bytes| == length
    {
      length - |bytes|
    }
  }

  lemma Appended(packet: Bytes, file: Bytes, start: nat, bytes: Bytes, data: Bytes)
    requires |bytes| + |data| <= |packet| && start + |bytes| + |data| <= |file|
    requires forall i | 0 <= i < |packet| && start + i < |file| :: packet[i] == file[start + i]
    requires bytes == packet[..|bytes|] && data == file[start + |bytes|..start + |bytes| + |data|]
    ensures bytes + data == packet[..|bytes| + |data|]
  {
    forall i | 0 <= i < |data|
      ensures data[i] == packet[|bytes| + i]
    {
      assert data[i] == file[start + |bytes| + i];
    }
  }

  /** The bytes read are the packet's. */
  lemma Same(source: PacketPrefix, at: nat)
    requires source.Valid() && at < |source.bytes|
    ensures source.bytes[at] == source.packet[at]
  {
  }

  lemma SameWord(source: PacketPrefix, at: nat)
    requires source.Valid() && at + 2 <= |source.bytes|
    ensures Word(source.bytes, at) == Word(source.packet, at)
  {
    Same(source, at);
    Same(source, at + 1);
  }

  lemma SameSlice(source: PacketPrefix, low: nat, high: nat)
    requires source.Valid() && low <= high <= |source.bytes|
    ensures source.bytes[low..high] == source.packet[low..high]
  {
  }

  method DecodeEthernet(source: PacketPrefix) returns (result: LinkResult)
    requires source.Valid() && !source.ended
    modifies source, source.reader
    ensures source.Valid() && (source.start + source.length <= |source.reader.file| ==> !source.ended)
    ensures !source.ended ==> result == EthernetOf(source.packet)
  {
    hide TagsFrom, Word;
    result := LinkResult(Malformed, NO_LINK, START);
    var ok := source.Ensure(0, 14);
    if !ok {
      return;
    }
    SameSlice(source, 0, 6);
    SameSlice(source, 6, 12);
    assert source.packet[0..6] == source.packet[..6];
    SameWord(source, 12);
    var dst, src := source.bytes[0..6], source.bytes[6..12];
    var kind, offset, vlans: seq<U16> := Word(source.bytes, 12), 14, [];
    while IsVlan(kind)
      invariant source.Valid() && !source.ended && |vlans| <= VLAN_CAPACITY
      invariant TagsFrom(source.packet, kind, offset, vlans) == TagsFrom(source.packet, Word(source.packet, 12), 14, [])
      decreases VLAN_CAPACITY - |vlans|
    {
      TagsStep(source.packet, kind, offset, vlans);
      if |vlans| == VLAN_CAPACITY {
        result := LinkResult(Unsupported, NO_LINK, START);
        return;
      }
      ok := source.Ensure(offset, 4);
      if !ok {
        return;
      }
      SameWord(source, offset);
      SameWord(source, offset + 2);
      vlans := vlans + [Word(source.bytes, offset) % 0x1000];
      kind := Word(source.bytes, offset + 2);
      offset := offset + 4;
    }
    TagsStep(source.packet, kind, offset, vlans);
    result := LinkResult(Decoded, LinkFields(true, src, dst, kind, vlans), Cursor(offset, 0, kind));
  }

  lemma TagsStep(p: Bytes, kind: U16, offset: nat, vlans: seq<U16>)
    ensures TagsFrom(p, kind, offset, vlans) ==
      if !IsVlan(kind) then Tags(vlans, kind, offset)
      else if |vlans| == VLAN_CAPACITY then BadTags(Unsupported)
      else if !Has(|p|, offset, 4) then BadTags(Malformed)
      else TagsFrom(p, Word(p, offset + 2), offset + 4, vlans + [Word(p, offset) % 0x1000])
  {
  }

  method DecodeLink(source: PacketPrefix, linkType: U32) returns (result: LinkResult)
    requires source.Valid() && !source.ended
    modifies source, source.reader
    ensures source.Valid() && (source.start + source.length <= |source.reader.file| ==> !source.ended)
    ensures !source.ended ==> result == LinkOf(source.packet, linkType)
  {
    hide EthernetOf, Word;
    if linkType == 1 {
      result := DecodeEthernet(source);
      return;
    }
    result := LinkResult(Malformed, NO_LINK, START);
    if linkType == 101 {
      var ok := source.Ensure(0, 1);
      if !ok {
        return;
      }
      Same(source, 0);
      var version := source.bytes[0] / 16;
      result := LinkResult(Decoded, NO_LINK, START.(kind := if version == 4 then 0x0800 else if version == 6 then 0x86DD else 0));
    } else if linkType == 228 || linkType == 229 {
      result := LinkResult(Decoded, NO_LINK, START.(kind := if linkType == 228 then 0x0800 else 0x86DD));
    } else if linkType == 113 || linkType == 276 {
      var length, at := if linkType == 113 then 16 else 20, if linkType == 113 then 14 else 0;
      var ok := source.Ensure(0, length);
      if !ok {
        return;
      }
      SameWord(source, at);
      result := LinkResult(Decoded, NO_LINK, Cursor(length, 0, Word(source.bytes, at)));
    } else {
      result := LinkResult(Unsupported, NO_LINK, START);
    }
  }

  method DecodeIPv4(source: PacketPrefix, cursor: Cursor) returns (result: NetworkResult)
    requires source.Valid() && !source.ended
    modifies source, source.reader
    ensures source.Valid() && (source.start + source.length <= |source.reader.file| ==> !source.ended)
    ensures !source.ended ==> result == IPv4Of(source.packet, cursor)
  {
    hide Word;
    result := NoNetwork(Malformed, cursor);
    var at := cursor.offset;
    var ok := source.Ensure(at, 20);
    if !ok {
      return;
    }
    Same(source, at);
    if source.bytes[at] / 16 != 4 {
      return;
    }
    var header, total := source.bytes[at] % 16 * 4, Word(source.bytes, at + 2);
    SameWord(source, at + 2);
    if header < 20 || total < header {
      return;
    }
    ok := source.Ensure(at, header);
    if !ok {
      return;
    }
    SameWord(source, at + 4);
    SameWord(source, at + 6);
    Same(source, at + 8);
    Same(source, at + 9);
    SameSlice(source, at + 12, at + 16);
    SameSlice(source, at + 16, at + 20);
    var data, fragment := source.bytes, Word(source.bytes, at + 6);
    result := NetworkResult(Decoded,
                            NetworkFields(true, 4, data[at + 9], data[at + 8], data[at + 12..at + 16], data[at + 16..at + 20],
                                          fragment % 0x2000 * 8, fragment / 0x2000 % 2 == 1, Some(Word(data, at + 4))),
                            cursor.(offset := at + header, end := at + total));
  }

  /** Consumes one extension header whose first eight bytes are read. */
  method DecodeIPv6Extension(source: PacketPrefix, net: NetworkFields, cursor: Cursor) returns (result: Extended)
    requires source.Valid() && !source.ended && Has(|source.bytes|, cursor.offset, 8)
    modifies source, source.reader
    ensures source.Valid() && (source.start + source.length <= |source.reader.file| ==> !source.ended)
    ensures !source.ended ==> result == ExtensionOf(source.packet, net, cursor)
  {
    hide Word;
    var at, after := cursor.offset, net;
    Same(source, at + 1);
    var length := (source.bytes[at + 1] as int + 1) * 8;
    if net.protocol == 44 {
      if net.ipId.Some? {
        return BadExtension;
      }
      length := 8;
      SameWord(source, at + 2);
      SameWord(source, at + 4);
      SameWord(source, at + 6);
      var fragment := Word(source.bytes, at + 2);
      after := after.(fragmentOffset := fragment - fragment % 8, moreFragments := fragment % 2 == 1,
                      ipId := Some(DoubleWord(source.bytes, at + 4)));
    } else if net.protocol == 51 {
      length := (source.bytes[at + 1] as int + 2) * 4;
      if length < 12 {
        return BadExtension;
      }
    }
    var ok := source.EnsureWithin(cursor.end, at, length);
    if !ok {
      return BadExtension;
    }
    Same(source, at);
    result := Extended(after.(protocol := source.bytes[at]), cursor.(offset := at + length));
  }

  /** Follows the extension headers to the transport header, or to the end of a later fragment's chain. */
  method DecodeExtensions(source: PacketPrefix, first: NetworkFields, begin: Cursor) returns (result: NetworkResult)
    requires source.Valid() && !source.ended
    modifies source, source.reader
    ensures source.Valid() && (source.start + source.length <= |source.reader.file| ==> !source.ended)
    ensures !source.ended ==> result.outcome == ChainFrom(source.packet, first, begin, 0).outcome
    ensures !source.ended ==> result.net == ChainFrom(source.packet, first, begin, 0).net
    ensures !source.ended && result.outcome == Decoded ==> result.cursor == ChainFrom(source.packet, first, begin, 0).cursor
  {
    hide ChainFrom, ExtensionOf;
    var net, cursor, extensions := first, begin, 0;
    while IsExtension(net.protocol)
      invariant source.Valid() && !source.ended && extensions <= MAX_EXTENSIONS
      invariant ChainFrom(source.packet, first, begin, 0) == ChainFrom(source.packet, net, cursor, extensions)
      decreases MAX_EXTENSIONS - extensions
    {
      ChainStep(source.packet, net, cursor, extensions);
      if extensions + 1 > MAX_EXTENSIONS {
        return NoNetwork(Unsupported, cursor);
      }
      var ok := source.EnsureWithin(cursor.end, cursor.offset, 8);
      if !ok {
        return NoNetwork(Malformed, cursor);
      }
      var extended := DecodeIPv6Extension(source, net, cursor);
      if source.ended || extended.BadExtension? {
        return NoNetwork(Malformed, cursor);
      }
      extensions, net, cursor := extensions + 1, extended.net, extended.cursor;
      if net.fragmentOffset != 0 {
        return NetworkResult(Decoded, net, cursor);
      }
    }
    ChainStep(source.packet, net, cursor, extensions);
    result := NetworkResult(Decoded, net, cursor);
  }

  lemma ChainStep(p: Bytes, net: NetworkFields, cursor: Cursor, seen: nat)
    ensures ChainFrom(p, net, cursor, seen) ==
      if !IsExtension(net.protocol) then NetworkResult(Decoded, net, cursor)
      else if seen >= MAX_EXTENSIONS then NoNetwork(Unsupported, cursor)
      else if !Has(cursor.end, cursor.offset, 8) || !Has(|p|, cursor.offset, 8) then NoNetwork(Malformed, cursor)
      else
        match ExtensionOf(p, net, cursor)
        case BadExtension => NoNetwork(Malformed, cursor)
        case Extended(after, next) =>
          if after.fragmentOffset != 0 then NetworkResult(Decoded, after, next) else ChainFrom(p, after, next, seen + 1)
  {
    hide ExtensionOf;
  }

  method DecodeIPv6(source: PacketPrefix, cursor: Cursor) returns (result: NetworkResult)
    requires source.Valid() && !source.ended
    modifies source, source.reader
    ensures source.Valid() && (source.start + source.length <= |source.reader.file| ==> !source.ended)
    ensures !source.ended ==> result.outcome == IPv6Of(source.packet, cursor).outcome
    ensures !source.ended ==> result.net == IPv6Of(source.packet, cursor).net
    ensures !source.ended && result.outcome == Decoded ==> result.cursor == IPv6Of(source.packet, cursor).cursor
  {
    hide Word, ChainFrom;
    var at := cursor.offset;
    var ok := source.Ensure(at, 40);
    if !ok {
      return NoNetwork(Malformed, cursor);
    }
    Same(source, at);
    if source.bytes[at] / 16 != 6 {
      return NoNetwork(Malformed, cursor);
    }
    SameWord(source, at + 4);
    Same(source, at + 6);
    Same(source, at + 7);
    SameSlice(source, at + 8, at + 24);
    SameSlice(source, at + 24, at + 40);
    var data := source.bytes;
    var net := NetworkFields(true, 6, data[at + 6], data[at + 7], data[at + 8..at + 24], data[at + 24..at + 40], 0, false, None);
    result := DecodeExtensions(source, net, cursor.(offset := at + 40, end := at + 40 + Word(data, at + 4)));
  }

  method DecodeNetwork(source: PacketPrefix, linkType: U32, cursor: Cursor) returns (result: NetworkResult)
    requires source.Valid() && !source.ended
    modifies source, source.reader
    ensures source.Valid() && (source.start + source.length <= |source.reader.file| ==> !source.ended)
    ensures !source.ended ==> result.outcome == NetworkOf(source.packet, linkType, cursor).outcome
    ensures !source.ended ==> result.net == NetworkOf(source.packet, linkType, cursor).net
    ensures !source.ended && result.outcome == Decoded ==> result.cursor == NetworkOf(source.packet, linkType, cursor).cursor
  {
    hide IPv4Of, IPv6Of;
    if cursor.kind == 0x0800 {
      result := DecodeIPv4(source, cursor);
    } else if cursor.kind == 0x86DD {
      result := DecodeIPv6(source, cursor);
    } else {
      result := NoNetwork(if linkType == 101 && cursor.kind == 0 then Malformed else Unsupported, cursor);
    }
  }

  method DecodeTransport(source: PacketPrefix, protocol: U8, cursor: Cursor) returns (result: TransportResult)
    requires source.Valid() && !source.ended
    modifies source, source.reader
    ensures source.Valid() && (source.start + source.length <= |source.reader.file| ==> !source.ended)
    ensures !source.ended ==> result == TransportOf(source.packet, protocol, cursor)
  {
    hide Word;
    var at, end, headerLength, fields := cursor.offset, cursor.end, 8, NO_TRANSPORT;
    result := TransportResult(Malformed, NO_TRANSPORT);
    if protocol == 6 {
      var ok := source.EnsureWithin(end, at, 20);
      if !ok {
        return;
      }
      Same(source, at + 12);
      headerLength := source.bytes[at + 12] / 16 * 4;
      if headerLength < 20 {
        return;
      }
      ok := source.EnsureWithin(end, at, headerLength);
      if !ok {
        return;
      }
      Same(source, at + 13);
      SameWord(source, at + 4);
      SameWord(source, at + 6);
      SameWord(source, at + 8);
      SameWord(source, at + 10);
      fields := fields.(tcp := true, flags := source.bytes[at + 13], seqNumber := DoubleWord(source.bytes, at + 4),
                        ackNumber := DoubleWord(source.bytes, at + 8), headerLength := headerLength);
    } else if protocol == 17 {
      var ok := source.EnsureWithin(end, at, 8);
      if !ok {
        return;
      }
      SameWord(source, at + 4);
      var length := Word(source.bytes, at + 4);
      if length < 8 || !Has(end, at, length) {
        return;
      }
      fields := fields.(udp := true, udpLength := length);
      end := at + length;
    } else {
      return TransportResult(Unsupported, NO_TRANSPORT);
    }
    SameWord(source, at);
    SameWord(source, at + 2);
    fields := fields.(transport := true, srcPort := Word(source.bytes, at), dstPort := Word(source.bytes, at + 2),
                      payloadOffset := at + headerLength, declaredLength := end - at - headerLength,
                      payloadLength := Min(end, source.length) - at - headerLength);
    result := TransportResult(Decoded, fields);
  }

  /** Decodes to a depth, reading no further than the headers reach. */
  method DecodePacket(source: PacketPrefix, linkType: U32, depth: Depth) returns (result: DecodedPacket)
    requires source.Valid() && !source.ended
    modifies source, source.reader
    ensures source.Valid() && (source.start + source.length <= |source.reader.file| ==> !source.ended)
    ensures !source.ended ==> result == Decode(source.packet, linkType, depth)
  {
    hide LinkOf, NetworkOf, TransportOf;
    result := NOTHING;
    if depth == Undecoded {
      return;
    }
    if depth == Link && linkType != 1 {
      return result.(outcome := Unsupported);
    }
    var link := DecodeLink(source, linkType);
    result := result.(outcome := link.outcome, link := link.link);
    if source.ended || link.outcome != Decoded || depth == Link {
      return;
    }
    var network := DecodeNetwork(source, linkType, link.cursor);
    result := result.(outcome := network.outcome, net := network.net);
    if source.ended || network.outcome != Decoded {
      return;
    }
    if depth == Network || IsFragment(network.net) {
      return result.(outcome := if IsFragment(network.net) then Fragment else Decoded);
    }
    var transport := DecodeTransport(source, network.net.protocol, network.cursor);
    result := result.(outcome := transport.outcome, transport := transport.transport);
  }
}
