/** A packet scan of a whole capture: what it reports of each packet depends on the file, not on how far the scan
    chose to decode or in which mode it read. */
module PacketFile {
  import opened Basics
  import opened CaptureReader
  import opened PcapReader
  import opened PacketDecoder
  import opened PacketScan

  function MetaOf(r: Record): Meta {
    Meta(r.number, r.offset, r.seconds, r.fraction, |r.data| % 0x1_0000_0000, r.original, r.linkType)
  }

  /** The scan's record of a packet: numbered and placed as in the file, selected exactly when the whole packet passes
      every filter, and then showing the whole packet's values. */
  ghost predicate Faithful(options: ScanOptions, r: Record, got: PacketRecord) {
    var full := Full(options, MetaOf(r), r.data);
    got.meta == MetaOf(r) && got.selected == Selected(options, full) && (got.selected ==> Shown(options, got, full))
  }

  ghost predicate AllFaithful(options: ScanOptions, records: seq<Record>, got: seq<PacketRecord>) {
    |got| == |records| && forall i | 0 <= i < |got| :: Faithful(options, records[i], got[i])
  }

  datatype PacketStep = Packet(record: PacketRecord) | NoMore(ending: Ending)

  /** Reads a record's header, then as much of its data as the scan needs. */
  method NextPacket(reader: Reader, format: Format, complete: nat, options: ScanOptions) returns (step: PacketStep)
    requires reader.Valid() && !reader.truncatedTail && Planned(options)
    modifies reader
    ensures step.NoMore? <==> NextAt(reader.file, format, old(reader.position), complete).Stopped?
    ensures step.NoMore? ==> step.ending == NextAt(reader.file, format, old(reader.position), complete).ending
    ensures step.Packet? ==>
      var r := NextAt(reader.file, format, old(reader.position), complete).record;
      reader.Valid() && !reader.truncatedTail && reader.position == r.offset + |r.data| && Faithful(options, r, step.record)
  {
    hide Planned, Full, Selected, Shown, U32At;
    ghost var at := reader.position;
    var header := reader.ReadMaybe(RECORD_HEADER);
    if header.None? {
      return NoMore(if !reader.truncatedTail then AtEnd else if complete > 0 then TruncatedTail else UnexpectedEnd);
    }
    HeaderFields(reader.file, at, header.value, format.order);
    var h, order := header.value, format.order;
    var seconds, fraction := U32At(h, 0, order), U32At(h, 4, order);
    var captured, original := U32At(h, 8, order), U32At(h, 12, order);
    if captured > MAX_CAPTURED {
      return NoMore(TooLong);
    }
    var meta := Meta(complete + 1, reader.position, seconds, fraction, captured, original, format.linkType);
    ghost var offset := reader.position;
    var result := ReadPacketData(reader, options, meta);
    if result.RecordEnded? {
      return NoMore(if complete > 0 then TruncatedTail else UnexpectedEnd);
    }
    WholePacket(reader.file, offset, captured);
    step := Packet(result.record);
  }

  lemma WholePacket(file: Bytes, start: nat, length: nat)
    requires start + length <= |file|
    ensures PacketAt(file, start, length) == file[start..start + length]
  {
  }

  datatype PacketReading = PacketReading(records: seq<PacketRecord>, ending: Ending) | NoCapture(error: HeaderError)

  /** What a scan must report of a file. */
  ghost predicate Reports(options: ScanOptions, scan: Scan, got: PacketReading) {
    match scan
    case NotOpened(error) => got == NoCapture(error)
    case Scanned(_, reading) =>
      got.PacketReading? && got.ending == reading.ending && AllFaithful(options, reading.records, got.records)
  }

  /** Scans a capture with any columns and filters, in any mode: one record for each packet of the file, with the same
      numbers and offsets whatever is filtered, and exactly the packets selected that pass every filter when decoded
      in full. */
  method ScanPackets(file: Bytes, mode: Mode, options: ScanOptions) returns (got: PacketReading)
    requires Planned(options)
    ensures Reports(options, Scans(file), got)
  {
    hide NextAt, ReadFrom, Opens, Faithful, Planned;
    var reader := new Reader(file, mode);
    var open := Initialize(reader);
    if open.Rejected? {
      return NoCapture(open.error);
    }
    var format := open.format;
    var records: seq<PacketRecord> := [];
    ghost var behind: seq<Record> := [];
    assert [] + ReadFrom(file, format, FILE_HEADER, 0).records == ReadFrom(file, format, FILE_HEADER, 0).records;
    while true
      invariant reader.file == file && fresh(reader) && reader.Valid() && !reader.truncatedTail
      invariant AllFaithful(options, behind, records)
      invariant ReadFrom(file, format, FILE_HEADER, 0) == After(behind, ReadFrom(file, format, reader.position, |records|))
      decreases |file| - reader.position
    {
      ghost var position, complete := reader.position, |records|;
      var step := NextPacket(reader, format, |records|, options);
      if step.NoMore? {
        AfterStopped(behind, file, format, position, complete);
        return PacketReading(records, step.ending);
      }
      AfterFound(behind, file, format, position, complete);
      Advances(file, format, position, complete);
      records, behind := records + [step.record], behind + [NextAt(file, format, position, complete).record];
    }
  }

  /** Two scans of one file number and place its packets alike, whatever their columns and filters. */
  lemma NumberingIndependent(file: Bytes, a: ScanOptions, b: ScanOptions, x: PacketReading, y: PacketReading)
    requires Reports(a, Scans(file), x) && Reports(b, Scans(file), y) && x.PacketReading?
    ensures y.PacketReading? && |x.records| == |y.records| && x.ending == y.ending
    ensures forall i | 0 <= i < |x.records| :: x.records[i].meta == y.records[i].meta
  {
    hide Opens, ReadFrom, Full, Selected, Shown;
    var records := Scans(file).reading.records;
    forall i | 0 <= i < |x.records|
      ensures x.records[i].meta == y.records[i].meta
    {
      assert Faithful(a, records[i], x.records[i]) && Faithful(b, records[i], y.records[i]);
    }
  }
}
