/** Reading classic PCAP captures, with a tail cut short mid-write tolerated (src/packetquapture_extension.cpp). */
module PcapReader {
  import opened Basics
  import opened CaptureReader

  const MAX_CAPTURED := 256 * 1024 * 1024
  const FILE_HEADER := 24
  const RECORD_HEADER := 16

  datatype ByteOrder = Little | Big

  /** A 16- or 32-bit value in the capture's byte order. */
  function U16At(b: Bytes, at: nat, order: ByteOrder): U16
    requires at + 2 <= |b|
  {
    if order.Little? then Big16(b[at + 1], b[at]) else Big16(b[at], b[at + 1])
  }

  function U32At(b: Bytes, at: nat, order: ByteOrder): U32
    requires at + 4 <= |b|
  {
    if order.Little? then 65536 * U16At(b, at + 2, order) + U16At(b, at, order)
    else 65536 * U16At(b, at, order) + U16At(b, at + 2, order)
  }

  /** What the file header says. */
  datatype Format = Format(order: ByteOrder, nanoseconds: bool, linkType: U32)

  datatype HeaderError = Empty | EndsInMagic | NotPcap | EndsInHeader | UnsupportedVersion

  datatype Opened = Capture(format: Format) | Rejected(error: HeaderError)

  function MagicOf(magic: Bytes): Option<(ByteOrder, bool)> {
    if magic == [0xD4, 0xC3, 0xB2, 0xA1] then Some((Little, false))
    else if magic == [0xA1, 0xB2, 0xC3, 0xD4] then Some((Big, false))
    else if magic == [0x4D, 0x3C, 0xB2, 0xA1] then Some((Little, true))
    else if magic == [0xA1, 0xB2, 0x3C, 0x4D] then Some((Big, true))
    else None
  }

  function Opens(file: Bytes): Opened {
    if |file| == 0 then Rejected(Empty)
    else if |file| < 4 then Rejected(EndsInMagic)
    else
      var magic := MagicOf(file[..4]);
      if magic.None? then Rejected(NotPcap)
      else if |file| < FILE_HEADER then Rejected(EndsInHeader)
      else if U16At(file, 4, magic.value.0) != 2 then Rejected(UnsupportedVersion)
      else Capture(Format(magic.value.0, magic.value.1, U32At(file, 20, magic.value.0)))
  }

  /** A packet record: its number, where its data starts, the two parts of its time, its lengths and its bytes. */
  datatype Record = Record(number: nat, offset: nat, seconds: U32, fraction: U32, original: U32, linkType: U32, data: Bytes)
  {
    /** The time of a microsecond capture. */
    function Micros(): nat {
      seconds * 1000000 + fraction
    }
  }

  /** How reading stops: at the end of the file, inside a record after a whole one, inside the first record, or at a
      record longer than the safety limit. */
  datatype Ending = AtEnd | TruncatedTail | UnexpectedEnd | TooLong

  datatype Step = Found(record: Record) | Stopped(ending: Ending)

  /** A record cut short is an ordinary tail once the file has yielded a whole one. */
  function CutShort(complete: nat): Step {
    Stopped(if complete > 0 then TruncatedTail else UnexpectedEnd)
  }

  /** The record at a position, when `complete` records came before it. */
  function NextAt(file: Bytes, format: Format, position: nat, complete: nat): Step {
    if position >= |file| then Stopped(AtEnd)
    else if position + RECORD_HEADER > |file| then CutShort(complete)
    else
      var captured := U32At(file, position + 8, format.order);
      var data := position + RECORD_HEADER;
      if captured > MAX_CAPTURED then Stopped(TooLong)
      else if data + captured > |file| then CutShort(complete)
      else
        Found(Record(complete + 1, data, U32At(file, position, format.order), U32At(file, position + 4, format.order),
                     U32At(file, position + 12, format.order), format.linkType, file[data..data + captured]))
  }

  datatype Reading = Reading(records: seq<Record>, ending: Ending)

  function ReadFrom(file: Bytes, format: Format, position: nat, complete: nat): Reading
    decreases |file| - position
  {
    match NextAt(file, format, position, complete)
    case Stopped(ending) => Reading([], ending)
    case Found(record) =>
      var rest := ReadFrom(file, format, record.offset + |record.data|, complete + 1);
      Reading([record] + rest.records, rest.ending)
  }

  // ---------------------------------------------------------------- the reader

  class PcapReader {
    const reader: Reader
    const format: Format
    var completeRecords: nat

    constructor (reader: Reader, format: Format)
      ensures this.reader == reader && this.format == format && completeRecords == 0
    {
      this.reader, this.format, completeRecords := reader, format, 0;
    }

    /** The next record, its data read as a whole. */
    method Next() returns (step: Step)
      requires reader.Valid() && !reader.truncatedTail
      modifies this, reader
      ensures step == NextAt(reader.file, format, old(reader.position), old(completeRecords))
      ensures step.Found? ==> reader.Valid() && !reader.truncatedTail
      ensures step.Found? ==> reader.position == step.record.offset + |step.record.data|
      ensures step.Found? ==> completeRecords == old(completeRecords) + 1
    {
      ghost var at := reader.position;
      var header := reader.ReadMaybe(RECORD_HEADER);
      if header.None? {
        if reader.truncatedTail {
          step := CutShort(completeRecords);
        } else {
          step := Stopped(AtEnd);
        }
        return;
      }
      HeaderFields(reader.file, at, header.value, format.order);
      var h, order := header.value, format.order;
      var seconds, fraction := U32At(h, 0, order), U32At(h, 4, order);
      var captured, original := U32At(h, 8, order), U32At(h, 12, order);
      if captured > MAX_CAPTURED {
        return Stopped(TooLong);
      }
      var offset := reader.position;
      if !reader.mode.Streamed? && captured > |reader.file| - reader.position {
        step := CutShort(completeRecords);
        return;
      }
      var data := reader.ReadMaybe(captured);
      if data.None? {
        step := CutShort(completeRecords);
        return;
      }
      completeRecords := completeRecords + 1;
      step := Found(Record(completeRecords, offset, seconds, fraction, original, format.linkType, data.value));
    }
  }

  lemma HeaderFields(file: Bytes, at: nat, h: Bytes, order: ByteOrder)
    requires at + RECORD_HEADER <= |file| && h == file[at..at + RECORD_HEADER]
    ensures forall k | k in {0, 4, 8, 12} :: U32At(h, k, order) == U32At(file, at + k, order)
  {
    assert forall i | 0 <= i < RECORD_HEADER :: h[i] == file[at + i];
    FieldAt(file, at, h, order, 0);
    FieldAt(file, at, h, order, 4);
    FieldAt(file, at, h, order, 8);
    FieldAt(file, at, h, order, 12);
  }

  lemma FieldAt(file: Bytes, at: nat, h: Bytes, order: ByteOrder, k: nat)
    requires at + |h| <= |file| && h == file[at..at + |h|] && k + 4 <= |h|
    ensures U32At(h, k, order) == U32At(file, at + k, order) && U16At(h, k, order) == U16At(file, at + k, order)
  {
    assert h[k] == file[at + k] && h[k + 1] == file[at + k + 1];
    assert h[k + 2] == file[at + k + 2] && h[k + 3] == file[at + k + 3];
  }

  /** Reads the file header. */
  method Initialize(reader: Reader) returns (open: Opened)
    requires reader.Valid() && reader.position == 0 && !reader.truncatedTail
    modifies reader
    ensures open == Opens(reader.file)
    ensures open.Capture? ==> reader.Valid() && reader.position == FILE_HEADER && !reader.truncatedTail
  {
    hide MagicOf, U16At, U32At;
    var magic := reader.ReadMaybe(4);
    if magic.None? {
      return Rejected(if reader.truncatedTail then EndsInMagic else Empty);
    }
    assert reader.file[0..4] == reader.file[..4];
    var kind := MagicOf(magic.value);
    if kind.None? {
      return Rejected(NotPcap);
    }
    var header := reader.ReadMaybe(20);
    if header.None? {
      return Rejected(EndsInHeader);
    }
    FieldAt(reader.file, 4, header.value, kind.value.0, 0);
    FieldAt(reader.file, 4, header.value, kind.value.0, 16);
    if U16At(header.value, 0, kind.value.0) != 2 {
      return Rejected(UnsupportedVersion);
    }
    open := Capture(Format(kind.value.0, kind.value.1, U32At(header.value, 16, kind.value.0)));
  }

  datatype Scan = Scanned(format: Format, reading: Reading) | NotOpened(error: HeaderError)

  function Scans(file: Bytes): Scan {
    match Opens(file)
    case Rejected(error) => NotOpened(error)
    case Capture(format) => Scanned(format, ReadFrom(file, format, FILE_HEADER, 0))
  }

  function After(records: seq<Record>, rest: Reading): Reading {
    Reading(records + rest.records, rest.ending)
  }

  lemma AfterFound(records: seq<Record>, file: Bytes, format: Format, position: nat, complete: nat)
    requires NextAt(file, format, position, complete).Found?
    ensures var record := NextAt(file, format, position, complete).record;
      After(records, ReadFrom(file, format, position, complete)) ==
        After(records + [record], ReadFrom(file, format, record.offset + |record.data|, complete + 1))
  {
    hide NextAt;
    var record := NextAt(file, format, position, complete).record;
    var rest := ReadFrom(file, format, record.offset + |record.data|, complete + 1);
    assert records + ([record] + rest.records) == records + [record] + rest.records;
  }

  lemma AfterStopped(records: seq<Record>, file: Bytes, format: Format, position: nat, complete: nat)
    requires NextAt(file, format, position, complete).Stopped?
    ensures After(records, ReadFrom(file, format, position, complete))
         == Reading(records, NextAt(file, format, position, complete).ending)
  {
    hide NextAt;
  }

  /** Reads a whole capture, in any mode: the result depends on the file alone. */
  method ScanFile(file: Bytes, mode: Mode) returns (scan: Scan)
    ensures scan == Scans(file)
  {
    hide NextAt, ReadFrom, Opens;
    var reader := new Reader(file, mode);
    var open := Initialize(reader);
    if open.Rejected? {
      return NotOpened(open.error);
    }
    var format := open.format;
    var capture := new PcapReader(reader, format);
    var records: seq<Record> := [];
    assert [] + ReadFrom(file, format, FILE_HEADER, 0).records == ReadFrom(file, format, FILE_HEADER, 0).records;
    while true
      invariant capture.reader == reader && capture.format == format && reader.file == file && fresh(capture) && fresh(reader)
      invariant reader.Valid() && !reader.truncatedTail
      invariant ReadFrom(file, format, FILE_HEADER, 0) ==
        After(records, ReadFrom(file, format, reader.position, capture.completeRecords))
      decreases |file| - reader.position
    {
      ghost var position, complete := reader.position, capture.completeRecords;
      var step := capture.Next();
      if step.Stopped? {
        AfterStopped(records, file, format, position, complete);
        return Scanned(format, Reading(records, step.ending));
      }
      AfterFound(records, file, format, position, complete);
      Advances(file, format, position, complete);
      records := records + [step.record];
    }
  }

  lemma Advances(file: Bytes, format: Format, position: nat, complete: nat)
    ensures NextAt(file, format, position, complete).Found? ==>
      var record := NextAt(file, format, position, complete).record;
      position < record.offset + |record.data| <= |file|
  {
  }
}
