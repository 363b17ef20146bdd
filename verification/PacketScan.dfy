/** Reading one packet record stage by stage: each filter is tried as soon as its fields are decoded, and a packet it
    rejects is skipped unread (src/packetquapture_extension.cpp). */
module PacketScan {
  import opened Basics
  import opened CaptureReader
  import opened PacketDecoder

  /** The stage a column belongs to: what a scan must do before the column can be produced. */
  const STAGE_PACKET := 0
  const STAGE_LINK := 1
  const STAGE_NETWORK := 2
  const STAGE_TRANSPORT := 3
  const STAGE_DNS := 4
  const STAGE_TLS := 5
  const STAGE_PACKET_DATA := 6
  const STAGE_COUNT := 7

  /** What the record header says. */
  datatype Meta = Meta(number: nat, offset: nat, seconds: U32, fraction: U32, captured: U32, original: U32, linkType: U32)

  /** The payload the DNS and TLS columns are computed from, with the transport header around it. */
  datatype Payload = Payload(transport: TransportFields, bytes: Bytes)

  datatype PacketRecord = PacketRecord(meta: Meta, decoded: DecodedPacket, dns: Option<Payload>, tls: Option<Payload>,
                                       data: Bytes, transportData: Bytes, selected: bool)

  /** A pushed-down filter: any test of the fields of one stage. */
  datatype Filter =
    | OnPacket(packetTest: Meta -> bool)
    | OnLink(linkTest: LinkFields -> bool)
    | OnNetwork(netTest: NetworkFields -> bool)
    | OnTransport(transportTest: TransportFields -> bool)
    | OnDns(dnsTest: Option<Payload> -> bool)
    | OnTls(tlsTest: Option<Payload> -> bool)
    | OnData(dataTest: Bytes -> bool)

  function StageOf(f: Filter): nat {
    match f
    case OnPacket(_) => STAGE_PACKET
    case OnLink(_) => STAGE_LINK
    case OnNetwork(_) => STAGE_NETWORK
    case OnTransport(_) => STAGE_TRANSPORT
    case OnDns(_) => STAGE_DNS
    case OnTls(_) => STAGE_TLS
    case OnData(_) => STAGE_PACKET_DATA
  }

  predicate Matches(f: Filter, r: PacketRecord) {
    match f
    case OnPacket(test) => test(r.meta)
    case OnLink(test) => test(r.decoded.link)
    case OnNetwork(test) => test(r.decoded.net)
    case OnTransport(test) => test(r.decoded.transport)
    case OnDns(test) => test(r.dns)
    case OnTls(test) => test(r.tls)
    case OnData(test) => test(r.data)
  }

  datatype Reassembly = NotReassembled | ReassembleDns | ReassembleTcp

  datatype ScanOptions = ScanOptions(depth: Depth, dnsScan: bool, decodeDns: bool, decodeTls: bool, materialize: bool,
                                     reassemble: Reassembly, filters: seq<Filter>)

  // ---------------------------------------------------------------- decoding everything first

  predicate OnPort53(t: TransportFields) {
    t.srcPort == 53 || t.dstPort == 53
  }

  predicate CarriesDns(t: TransportFields) {
    t.transport && OnPort53(t) && t.payloadLength > 0
  }

  predicate CarriesTls(t: TransportFields) {
    t.transport && t.tcp && t.payloadLength > 0
  }

  function PayloadOf(p: Bytes, t: TransportFields): Bytes {
    if t.payloadOffset + t.payloadLength <= |p| then p[t.payloadOffset..t.payloadOffset + t.payloadLength] else []
  }

  /** The packet with every stage decoded, whatever the scan wants. */
  function Full(options: ScanOptions, meta: Meta, p: Bytes): PacketRecord {
    var decoded := Decode(p, meta.linkType, Transport);
    var t := decoded.transport;
    PacketRecord(meta, decoded,
                 if options.dnsScan && CarriesDns(t) then Some(Payload(t, PayloadOf(p, t))) else None,
                 if CarriesTls(t) then Some(Payload(t, PayloadOf(p, t))) else None,
                 p, if t.transport then PayloadOf(p, t) else [], true)
  }

  predicate AllMatch(filters: seq<Filter>, r: PacketRecord, stage: nat) {
    forall i | 0 <= i < |filters| && StageOf(filters[i]) == stage :: Matches(filters[i], r)
  }

  /** A scan of packets that are reassembled takes TCP segments, or whatever is on the DNS port. */
  predicate Wanted(options: ScanOptions, t: TransportFields) {
    match options.reassemble
    case NotReassembled => options.dnsScan ==> CarriesDns(t)
    case ReassembleDns => t.transport && OnPort53(t)
    case ReassembleTcp => t.transport && t.tcp
  }

  /** The meaning of the scan: decode the whole packet, then apply every filter. */
  predicate Selected(options: ScanOptions, full: PacketRecord) {
    Wanted(options, full.decoded.transport) && forall stage | 0 <= stage < STAGE_COUNT :: AllMatch(options.filters, full, stage)
  }

  /** What planning guarantees: the scan decodes at least what its filters and kind need. */
  predicate Planned(options: ScanOptions) {
    && (options.dnsScan || options.decodeDns || options.decodeTls || options.reassemble != NotReassembled ==> options.depth == Transport)
    && (forall i | 0 <= i < |options.filters| :: Covered(options, StageOf(options.filters[i])))
  }

  predicate Covered(options: ScanOptions, stage: nat) {
    if stage <= STAGE_TRANSPORT then stage <= options.depth.Level()
    else
      && options.reassemble == NotReassembled
      && (stage == STAGE_DNS ==> options.dnsScan && options.decodeDns)
      && (stage == STAGE_TLS ==> options.decodeTls)
      && (stage == STAGE_PACKET_DATA ==> options.materialize)
  }

  /** The fields of one stage are those of the whole packet. */
  predicate Agrees(r: PacketRecord, full: PacketRecord, stage: nat) {
    && (stage == STAGE_PACKET ==> r.meta == full.meta)
    && (stage == STAGE_LINK ==> r.decoded.link == full.decoded.link)
    && (stage == STAGE_NETWORK ==> r.decoded.net == full.decoded.net)
    && (stage == STAGE_TRANSPORT ==> r.decoded.transport == full.decoded.transport)
    && (stage == STAGE_DNS ==> r.dns == full.dns)
    && (stage == STAGE_TLS ==> r.tls == full.tls)
    && (stage == STAGE_PACKET_DATA ==> r.data == full.data)
  }

  /** Every column the scan may produce holds the whole packet's value. */
  predicate Shown(options: ScanOptions, r: PacketRecord, full: PacketRecord) {
    && r.meta == full.meta
    && (forall stage | 0 < stage <= STAGE_TRANSPORT && stage <= options.depth.Level() :: Agrees(r, full, stage))
    && (options.reassemble == NotReassembled ==>
          && (options.decodeDns && options.dnsScan ==> r.dns == full.dns)
          && (options.decodeTls ==> r.tls == full.tls)
          && (options.materialize ==> r.data == full.data))
    && (options.reassemble != NotReassembled ==> r.transportData == full.transportData)
  }

  lemma MatchesAgree(f: Filter, r: PacketRecord, full: PacketRecord)
    requires Agrees(r, full, StageOf(f))
    ensures Matches(f, r) == Matches(f, full)
  {
  }

  lemma AllMatchAgree(filters: seq<Filter>, r: PacketRecord, full: PacketRecord, stage: nat)
    requires Agrees(r, full, stage)
    ensures AllMatch(filters, r, stage) == AllMatch(filters, full, stage)
  {
    hide Matches, Agrees;
    forall i | 0 <= i < |filters| && StageOf(filters[i]) == stage
      ensures Matches(filters[i], r) == Matches(filters[i], full)
    {
      MatchesAgree(filters[i], r, full);
    }
  }

  lemma RejectedEarly(options: ScanOptions, full: PacketRecord, stage: nat)
    requires stage < STAGE_COUNT && !AllMatch(options.filters, full, stage)
    ensures !Selected(options, full)
  {
  }

  // ---------------------------------------------------------------- planning

  /** The depth and extra stages a scan needs, from the stages of the columns it reads, filter-only columns included. */
  method PlanDecodeStages(stages: seq<nat>, dnsScan: bool) returns (options: ScanOptions)
    requires forall i | 0 <= i < |stages| :: stages[i] < STAGE_COUNT
    ensures options.filters == [] && options.dnsScan == dnsScan && options.reassemble == NotReassembled
    ensures forall i | 0 <= i < |stages| :: Reached(options, stages[i])
    ensures Planned(options)
  {
    options := ScanOptions(if dnsScan then Transport else Undecoded, dnsScan, false, false, false, NotReassembled, []);
    for k := 0 to |stages|
      invariant options.filters == [] && options.dnsScan == dnsScan && options.reassemble == NotReassembled
      invariant forall i | 0 <= i < k :: Reached(options, stages[i])
      invariant options.dnsScan || options.decodeDns || options.decodeTls ==> options.depth == Transport
    {
      var stage := stages[k];
      if stage == STAGE_PACKET_DATA {
        options := options.(materialize := true);
        continue;
      }
      if stage == STAGE_DNS {
        options := options.(decodeDns := true);
      }
      if stage == STAGE_TLS {
        options := options.(decodeTls := true);
      }
      if stage == STAGE_PACKET {
        continue;
      }
      var depth := DepthOf(Min(STAGE_TRANSPORT, stage));
      if depth.Level() > options.depth.Level() {
        options := options.(depth := depth);
      }
    }
  }

  function DepthOf(stage: nat): (depth: Depth)
    requires stage <= STAGE_TRANSPORT
    ensures depth.Level() == stage
  {
    if stage == 0 then Undecoded else if stage == 1 then Link else if stage == 2 then Network else Transport
  }

  /** The scan does the work of a stage. */
  predicate Reached(options: ScanOptions, stage: nat) {
    && (stage <= STAGE_TRANSPORT ==> stage <= options.depth.Level())
    && (stage == STAGE_DNS ==> options.decodeDns)
    && (stage == STAGE_TLS ==> options.decodeTls)
    && (stage == STAGE_PACKET_DATA ==> options.materialize)
  }

  /** Filters on columns the scan reads are covered by its plan; DNS columns exist only in a DNS scan. */
  lemma PlanCovers(options: ScanOptions, stages: seq<nat>, filters: seq<Filter>)
    requires Planned(options) && options.reassemble == NotReassembled
    requires forall i | 0 <= i < |stages| :: Reached(options, stages[i])
    requires forall i | 0 <= i < |filters| :: StageOf(filters[i]) in stages
    requires forall i | 0 <= i < |filters| :: filters[i].OnDns? ==> options.dnsScan
    ensures Planned(options.(filters := filters))
  {
  }

  // ---------------------------------------------------------------- reading a record

  /** Whether the record passes the filters of a stage. */
  method Accept(filters: seq<Filter>, record: PacketRecord, stage: nat) returns (ok: bool)
    ensures ok == AllMatch(filters, record, stage)
  {
    for i := 0 to |filters|
      invariant forall j | 0 <= j < i && StageOf(filters[j]) == stage :: Matches(filters[j], record)
    {
      if StageOf(filters[i]) == stage && !Matches(filters[i], record) {
        return false;
      }
    }
    return true;
  }

  /** The packet a record of this length at this place would hold; bytes past the end of the file do not matter. */
  function PacketAt(file: Bytes, start: nat, length: nat): Bytes {
    seq(length, i requires 0 <= i < length => if start + i < |file| then file[start + i] else 0)
  }

  datatype ReadResult = PacketRead(record: PacketRecord) | RecordEnded

  /** Passes over what no decoder read. */
  method SkipRest(source: PacketPrefix) returns (ok: bool)
    requires source.Valid() && !source.ended
    modifies source, source.reader
    ensures ok == (source.start + source.length <= |source.reader.file|)
    ensures ok ==> source.reader.Valid() && !source.reader.truncatedTail
    ensures ok ==> source.reader.position == source.start + source.length
  {
    var outcome := source.reader.Skip(source.Unread());
    ok := outcome == Done;
  }

  ghost predicate Consumed(source: PacketPrefix)
    reads source, source.reader
  {
    source.reader.Valid() && !source.reader.truncatedTail && source.reader.position == source.start + source.length
  }

  /** What reading the record must come to: it is read exactly when the file holds all of it, it is selected exactly
      when the whole packet would be, and then shows the whole packet's values. */
  ghost predicate Right(options: ScanOptions, source: PacketPrefix, full: PacketRecord, result: ReadResult)
    reads source, source.reader
  {
    && (result.RecordEnded? <==> source.start + source.length > |source.reader.file|)
    && (result.PacketRead? ==>
          && Consumed(source)
          && result.record.meta == full.meta
          && result.record.selected == Selected(options, full)
          && (result.record.selected ==> Shown(options, result.record, full)))
  }

  /** Gives up on a packet a filter rejects. */
  method Reject(options: ScanOptions, source: PacketPrefix, record: PacketRecord, ghost full: PacketRecord) returns (result: ReadResult)
    requires source.Valid() && !source.ended && !Selected(options, full) && record.meta == full.meta
    modifies source, source.reader
    ensures Right(options, source, full, result)
  {
    hide Selected, Shown;
    var ok := SkipRest(source);
    if ok {
      result := PacketRead(record.(selected := false));
    } else {
      result := RecordEnded;
    }
  }

  lemma DecodedAgrees(options: ScanOptions, r: PacketRecord, meta: Meta, p: Bytes, depth: Depth, stage: nat)
    requires r.decoded == Decode(p, meta.linkType, depth) && r.meta == meta && stage <= depth.Level()
    ensures Agrees(r, Full(options, meta, p), stage)
  {
    hide Decode;
    StageStable(p, meta.linkType, depth);
  }

  /** Every stage up to the depth was tried on the record and passed. */
  ghost predicate PassedTo(options: ScanOptions, full: PacketRecord, stage: nat) {
    forall s | 0 <= s < stage :: AllMatch(options.filters, full, s)
  }

  lemma NoFilters(filters: seq<Filter>, full: PacketRecord, stage: nat)
    requires forall i | 0 <= i < |filters| :: StageOf(filters[i]) != stage
    ensures AllMatch(filters, full, stage)
  {
  }

  /** Decodes depth by depth, only where something is filtered or the scan stops, and tries that stage's filters. */
  method DecodeStages(options: ScanOptions, source: PacketPrefix, start: PacketRecord, ghost full: PacketRecord)
    returns (record: PacketRecord, accepted: bool)
    requires source.Valid() && !source.ended && full == Full(options, start.meta, source.packet)
    requires start.decoded == NOTHING && PassedTo(options, full, 1)
    modifies source, source.reader
    ensures source.Valid()
    ensures !source.ended ==> record == start.(decoded := record.decoded)
    ensures !source.ended && accepted ==> record.decoded == Decode(source.packet, start.meta.linkType, options.depth)
    ensures !source.ended && accepted ==> PassedTo(options, full, options.depth.Level() + 1)
    ensures !source.ended && !accepted ==> !Selected(options, full)
  {
    hide Decode, Full, AllMatch, Selected, Agrees;
    record, accepted := start, true;
    NothingDecoded(source.packet, start.meta.linkType);
    for stage := 1 to options.depth.Level() + 1
      invariant source.Valid() && !source.ended && accepted
      invariant record == start.(decoded := record.decoded) && PassedTo(options, full, stage)
      invariant stage == 1 ==> record.decoded == NOTHING
      invariant stage == options.depth.Level() + 1 ==> record.decoded == Decode(source.packet, start.meta.linkType, options.depth)
    {
      var filtered := Filtered(options.filters, stage);
      if stage != options.depth.Level() && !filtered {
        NoFilters(options.filters, full, stage);
        continue;
      }
      LevelUnique(options.depth, stage);
      var decoded := DecodePacket(source, record.meta.linkType, DepthOf(stage));
      if source.ended {
        return;
      }
      record := record.(decoded := decoded);
      DecodedAgrees(options, record, start.meta, source.packet, DepthOf(stage), stage);
      AllMatchAgree(options.filters, record, full, stage);
      accepted := Accept(options.filters, record, stage);
      if !accepted {
        RejectedEarly(options, full, stage);
        return;
      }
    }
  }

  method Filtered(filters: seq<Filter>, stage: nat) returns (filtered: bool)
    ensures filtered == exists i | 0 <= i < |filters| :: StageOf(filters[i]) == stage
  {
    for i := 0 to |filters|
      invariant forall j | 0 <= j < i :: StageOf(filters[j]) != stage
    {
      if StageOf(filters[i]) == stage {
        return true;
      }
    }
    return false;
  }

  lemma LevelUnique(depth: Depth, stage: nat)
    requires stage <= STAGE_TRANSPORT
    ensures stage == depth.Level() ==> DepthOf(stage) == depth
  {
  }

  lemma NothingDecoded(p: Bytes, linkType: U32)
    ensures Decode(p, linkType, Undecoded) == NOTHING
  {
  }

  lemma AcceptedAll(options: ScanOptions, full: PacketRecord)
    requires Wanted(options, full.decoded.transport) && PassedTo(options, full, STAGE_COUNT)
    ensures Selected(options, full)
  {
    hide AllMatch;
  }

  /** Nothing is filtered at a stage the plan does not reach. */
  lemma UnreachedPass(options: ScanOptions, full: PacketRecord, stage: nat)
    requires Planned(options) && !Covered(options, stage)
    ensures AllMatch(options.filters, full, stage)
  {
    hide Covered;
    NoFilters(options.filters, full, stage);
  }

  lemma {:induction false} DeeperPass(options: ScanOptions, full: PacketRecord, stage: nat)
    requires Planned(options) && PassedTo(options, full, options.depth.Level() + 1)
    requires options.depth.Level() + 1 <= stage <= STAGE_TRANSPORT + 1
    ensures PassedTo(options, full, stage)
  {
    hide AllMatch, Planned;
    if stage > options.depth.Level() + 1 {
      DeeperPass(options, full, stage - 1);
      UnreachedPass(options, full, stage - 1);
    }
  }

  /** Reads the payload a decoded header locates. */
  method ReadPayload(source: PacketPrefix, t: TransportFields) returns (bytes: Bytes)
    requires source.Valid() && !source.ended && t.payloadOffset + t.payloadLength <= source.length
    modifies source, source.reader
    ensures source.Valid() && (!source.ended ==> bytes == PayloadOf(source.packet, t))
  {
    var end := t.payloadOffset + t.payloadLength;
    source.ReadPrefix(end);
    if source.ended {
      return [];
    }
    SameSlice(source, t.payloadOffset, end);
    bytes := source.bytes[t.payloadOffset..end];
  }

  /** The transport payload, for scans that reassemble. */
  method TakeSegment(options: ScanOptions, source: PacketPrefix, record: PacketRecord, ghost full: PacketRecord) returns (result: ReadResult)
    requires source.Valid() && !source.ended && options.reassemble != NotReassembled
    requires Planned(options) && record.selected && full == Full(options, record.meta, source.packet)
    requires record.decoded == full.decoded && record.transportData == [] && PassedTo(options, full, STAGE_TRANSPORT + 1)
    modifies source, source.reader
    ensures Right(options, source, full, result)
  {
    hide Decode, AllMatch, PassedTo, Selected;
    var t := record.decoded.transport;
    PayloadInside(source.packet, record.meta.linkType);
    SegmentSelected(options, full);
    if !t.transport || (if options.reassemble == ReassembleTcp then !t.tcp else !OnPort53(t)) {
      result := Reject(options, source, record, full);
      return;
    }
    var data := [];
    if t.payloadLength > 0 {
      data := ReadPayload(source, t);
      if source.ended {
        return RecordEnded;
      }
    }
    var ok := SkipRest(source);
    result := if ok then PacketRead(record.(transportData := data)) else RecordEnded;
  }

  lemma SegmentSelected(options: ScanOptions, full: PacketRecord)
    requires Planned(options) && options.reassemble != NotReassembled && PassedTo(options, full, STAGE_TRANSPORT + 1)
    ensures Selected(options, full) == Wanted(options, full.decoded.transport)
  {
    hide AllMatch;
    UnreachedPass(options, full, STAGE_DNS);
    UnreachedPass(options, full, STAGE_TLS);
    UnreachedPass(options, full, STAGE_PACKET_DATA);
    SixPassed(options, full);
  }

  /** The DNS stage: only packets that carry DNS go on. */
  method DnsStage(options: ScanOptions, source: PacketPrefix, start: PacketRecord, ghost full: PacketRecord)
    returns (record: PacketRecord, accepted: bool)
    requires source.Valid() && !source.ended && options.reassemble == NotReassembled && Planned(options)
    requires full == Full(options, start.meta, source.packet) && start.dns == None
    requires options.dnsScan ==> start.decoded == full.decoded
    modifies source, source.reader
    ensures source.Valid()
    ensures !source.ended ==> record == start.(dns := record.dns)
    ensures !source.ended && accepted ==> Wanted(options, full.decoded.transport) && AllMatch(options.filters, full, STAGE_DNS)
    ensures !source.ended && accepted && options.dnsScan && options.decodeDns ==> record.dns == full.dns
    ensures !source.ended && !accepted ==> !Selected(options, full)
  {
    hide Decode, AllMatch;
    record, accepted := start, true;
    if !options.dnsScan {
      UnreachedPass(options, full, STAGE_DNS);
      return;
    }
    var t := record.decoded.transport;
    if !CarriesDns(t) {
      accepted := false;
      return;
    }
    PayloadInside(source.packet, record.meta.linkType);
    if options.decodeDns {
      var bytes := ReadPayload(source, t);
      if source.ended {
        return;
      }
      record := record.(dns := Some(Payload(t, bytes)));
      AllMatchAgree(options.filters, record, full, STAGE_DNS);
    } else {
      UnreachedPass(options, full, STAGE_DNS);
      NoneOfStage(options, record, full, STAGE_DNS);
    }
    accepted := Accept(options.filters, record, STAGE_DNS);
    if !accepted {
      RejectedEarly(options, full, STAGE_DNS);
    }
  }

  lemma NoneOfStage(options: ScanOptions, r: PacketRecord, full: PacketRecord, stage: nat)
    requires Planned(options) && !Covered(options, stage)
    ensures AllMatch(options.filters, r, stage) && AllMatch(options.filters, full, stage)
  {
    UnreachedPass(options, full, stage);
    UnreachedPass(options, r, stage);
  }

  /** The TLS stage: a record header looked for in the TCP payload. */
  method TlsStage(options: ScanOptions, source: PacketPrefix, start: PacketRecord, ghost full: PacketRecord)
    returns (record: PacketRecord, accepted: bool)
    requires source.Valid() && !source.ended && options.reassemble == NotReassembled && Planned(options)
    requires full == Full(options, start.meta, source.packet) && start.tls == None
    requires options.decodeTls ==> start.decoded == full.decoded
    modifies source, source.reader
    ensures source.Valid()
    ensures !source.ended ==> record == start.(tls := record.tls)
    ensures !source.ended && accepted ==> AllMatch(options.filters, full, STAGE_TLS)
    ensures !source.ended && accepted && options.decodeTls ==> record.tls == full.tls
    ensures !source.ended && !accepted ==> !Selected(options, full)
  {
    hide Decode, AllMatch;
    record, accepted := start, true;
    if !options.decodeTls {
      UnreachedPass(options, full, STAGE_TLS);
      return;
    }
    var t := record.decoded.transport;
    PayloadInside(source.packet, record.meta.linkType);
    if CarriesTls(t) {
      var bytes := ReadPayload(source, t);
      if source.ended {
        return;
      }
      record := record.(tls := Some(Payload(t, bytes)));
    }
    AllMatchAgree(options.filters, record, full, STAGE_TLS);
    accepted := Accept(options.filters, record, STAGE_TLS);
    if !accepted {
      RejectedEarly(options, full, STAGE_TLS);
    }
  }

  /** The last stage: the packet's own bytes, when the scan wants them. */
  method DataStage(options: ScanOptions, source: PacketPrefix, record: PacketRecord, ghost full: PacketRecord) returns (result: ReadResult)
    requires source.Valid() && !source.ended && options.reassemble == NotReassembled && Planned(options)
    requires full == Full(options, record.meta, source.packet) && record.selected
    requires Wanted(options, full.decoded.transport) && PassedTo(options, full, STAGE_PACKET_DATA)
    requires Shown(options.(materialize := false), record, full)
    modifies source, source.reader
    ensures Right(options, source, full, result)
  {
    hide Decode, AllMatch, Wanted, Agrees;
    if !options.materialize {
      UnreachedPass(options, full, STAGE_PACKET_DATA);
      AcceptedAll(options, full);
      var ok := SkipRest(source);
      return if ok then PacketRead(record) else RecordEnded;
    }
    source.ReadPrefix(source.length);
    if source.ended {
      return RecordEnded;
    }
    assert source.bytes == source.packet;
    var whole := record.(data := source.bytes);
    WholeAgrees(whole, full);
    AllMatchAgree(options.filters, whole, full, STAGE_PACKET_DATA);
    var accepted := Accept(options.filters, whole, STAGE_PACKET_DATA);
    if accepted {
      AcceptedAll(options, full);
    } else {
      RejectedEarly(options, full, STAGE_PACKET_DATA);
    }
    ShownWhole(options, record, full);
    result := PacketRead(whole.(selected := accepted));
  }

  lemma WholeAgrees(r: PacketRecord, full: PacketRecord)
    requires r.data == full.data
    ensures Agrees(r, full, STAGE_PACKET_DATA)
  {
  }

  lemma ShownWhole(options: ScanOptions, r: PacketRecord, full: PacketRecord)
    requires Shown(options.(materialize := false), r, full)
    ensures Shown(options, r.(data := full.data), full)
  {
    forall stage | 0 < stage <= STAGE_TRANSPORT && stage <= options.depth.Level()
      ensures Agrees(r.(data := full.data), full, stage)
    {
      assert Agrees(r, full, stage);
    }
  }

  /** Reads one packet record. Whatever the columns and filters, the record is consumed as a whole, and it is selected
      exactly when decoding everything and then applying every filter would select it. */
  method ReadPacketData(reader: Reader, options: ScanOptions, meta: Meta) returns (result: ReadResult)
    requires reader.Valid() && !reader.truncatedTail && Planned(options)
    modifies reader
    ensures var full := Full(options, meta, PacketAt(reader.file, old(reader.position), meta.captured));
      && (result.RecordEnded? <==> old(reader.position) + meta.captured > |reader.file|)
      && (result.PacketRead? ==>
            && reader.Valid() && !reader.truncatedTail && reader.position == old(reader.position) + meta.captured
            && result.record.meta == meta
            && result.record.selected == Selected(options, full)
            && (result.record.selected ==> Shown(options, result.record, full)))
  {
    hide Full, Selected, Shown, Decode;
    MetaAgrees(options, PacketRecord(meta, NOTHING, None, None, [], [], true), PacketAt(reader.file, reader.position, meta.captured));
    var length := meta.captured;
    ghost var packet := PacketAt(reader.file, reader.position, length);
    ghost var full := Full(options, meta, packet);
    if !reader.mode.Streamed? && length > |reader.file| - reader.position {
      return RecordEnded;
    }
    var source := new PacketPrefix(reader, length, packet);
    var record := PacketRecord(meta, NOTHING, None, None, [], [], true);
    result := ReadStages(options, source, record, full);
  }

  method ReadStages(options: ScanOptions, source: PacketPrefix, start: PacketRecord, ghost full: PacketRecord) returns (result: ReadResult)
    requires source.Valid() && !source.ended && Planned(options) && full == Full(options, start.meta, source.packet)
    requires start == PacketRecord(start.meta, NOTHING, None, None, [], [], true)
    modifies source, source.reader
    ensures Right(options, source, full, result)
  {
    hide Decode, AllMatch, Selected, Planned, Wanted, Full, Agrees;
    MetaAgrees(options, start, source.packet);
    AllMatchAgree(options.filters, start, full, STAGE_PACKET);
    var accepted := Accept(options.filters, start, STAGE_PACKET);
    if !accepted {
      RejectedEarly(options, full, STAGE_PACKET);
      result := Reject(options, source, start, full);
      return;
    }
    var record;
    record, accepted := DecodeStages(options, source, start, full);
    if source.ended {
      return RecordEnded;
    }
    if !accepted {
      result := Reject(options, source, record, full);
      return;
    }
    DeeperPass(options, full, STAGE_TRANSPORT + 1);
    DepthShown(options, record, source.packet);
    if options.reassemble != NotReassembled {
      FullDepth(options, start.meta, source.packet);
      result := TakeSegment(options, source, record, full);
      return;
    }
    result := ReadDeeper(options, source, record, full);
  }

  lemma MetaAgrees(options: ScanOptions, start: PacketRecord, p: Bytes)
    ensures Agrees(start, Full(options, start.meta, p), STAGE_PACKET) && Full(options, start.meta, p).meta == start.meta
  {
  }

  lemma FullDepth(options: ScanOptions, meta: Meta, p: Bytes)
    ensures Full(options, meta, p).decoded == Decode(p, meta.linkType, Transport) && Full(options, meta, p).meta == meta
    ensures Planned(options) && (options.dnsScan || options.decodeTls || options.reassemble != NotReassembled) ==> options.depth == Transport
  {
    hide Decode;
  }

  lemma DepthShown(options: ScanOptions, r: PacketRecord, p: Bytes)
    requires r.decoded == Decode(p, r.meta.linkType, options.depth)
    ensures forall stage | 0 < stage <= STAGE_TRANSPORT && stage <= options.depth.Level() :: Agrees(r, Full(options, r.meta, p), stage)
  {
    hide Decode, Full, Agrees;
    forall stage | 0 < stage <= STAGE_TRANSPORT && stage <= options.depth.Level()
      ensures Agrees(r, Full(options, r.meta, p), stage)
    {
      DecodedAgrees(options, r, r.meta, p, options.depth, stage);
    }
  }

  /** The stages past the headers. */
  method ReadDeeper(options: ScanOptions, source: PacketPrefix, start: PacketRecord, ghost full: PacketRecord) returns (result: ReadResult)
    requires source.Valid() && !source.ended && Planned(options) && full == Full(options, start.meta, source.packet)
    requires start == PacketRecord(start.meta, start.decoded, None, None, [], [], true)
    requires options.reassemble == NotReassembled && PassedTo(options, full, STAGE_TRANSPORT + 1)
    requires start.decoded == Decode(source.packet, start.meta.linkType, options.depth)
    modifies source, source.reader
    ensures Right(options, source, full, result)
  {
    hide Decode, AllMatch, Selected, Planned, Wanted, Full, Agrees, Right;
    DepthShown(options, start, source.packet);
    FullDepth(options, start.meta, source.packet);
    var record, accepted := DnsStage(options, source, start, full);
    if source.ended {
      EndedRight(options, source, full);
      return RecordEnded;
    }
    if !accepted {
      result := Reject(options, source, record, full);
      return;
    }
    record, accepted := TlsStage(options, source, record, full);
    if source.ended {
      EndedRight(options, source, full);
      return RecordEnded;
    }
    if !accepted {
      result := Reject(options, source, record, full);
      return;
    }
    SixPassed(options, full);
    DeeperShown(options, start, record, full);
    result := DataStage(options, source, record, full);
  }

  lemma EndedRight(options: ScanOptions, source: PacketPrefix, full: PacketRecord)
    requires source.Valid() && source.ended
    ensures Right(options, source, full, RecordEnded)
  {
  }

  lemma SixPassed(options: ScanOptions, full: PacketRecord)
    requires PassedTo(options, full, STAGE_TRANSPORT + 1)
    requires AllMatch(options.filters, full, STAGE_DNS) && AllMatch(options.filters, full, STAGE_TLS)
    ensures PassedTo(options, full, STAGE_PACKET_DATA)
  {
    hide AllMatch;
  }

  lemma DeeperShown(options: ScanOptions, start: PacketRecord, r: PacketRecord, full: PacketRecord)
    requires r == start.(dns := r.dns, tls := r.tls) && r.meta == full.meta && options.reassemble == NotReassembled
    requires forall stage | 0 < stage <= STAGE_TRANSPORT && stage <= options.depth.Level() :: Agrees(start, full, stage)
    requires options.dnsScan && options.decodeDns ==> r.dns == full.dns
    requires options.decodeTls ==> r.tls == full.tls
    ensures Shown(options.(materialize := false), r, full)
  {
    forall stage | 0 < stage <= STAGE_TRANSPORT && stage <= options.depth.Level()
      ensures Agrees(r, full, stage)
    {
      assert Agrees(start, full, stage);
    }
  }
}
