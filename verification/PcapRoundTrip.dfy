/** A capture written by the PCAP writer reads back as the packets written, up to the first the reader refuses, and any
    prefix of it as the records wholly inside. */
module PcapRoundTrip {
  import opened Basics
  import opened CaptureReader
  import opened PcapReader
  import opened PcapWriter

  lemma PutReads(bytes: Bytes, at: nat, value: U32)
    requires at + 4 <= |bytes| && bytes[at..at + 4] == Put32(value)
    ensures U32At(bytes, at, Little) == value
  {
    var four := bytes[at..at + 4];
    assert bytes[at] == four[0] && bytes[at + 1] == four[1] && bytes[at + 2] == four[2] && bytes[at + 3] == four[3];
    Digits(value);
  }

  lemma Digits(value: U32)
    ensures 65536 * (256 * (value / 16777216) + value / 65536 % 256) + (256 * (value / 256 % 256) + value % 256) == value
  {
    assert value / 256 == 256 * (value / 65536) + value / 256 % 256;
    assert value / 65536 == 256 * (value / 16777216) + value / 65536 % 256;
  }

  /** The written file header opens as a little-endian microsecond capture of the link type. */
  lemma HeaderOpens(snaplen: U32, linkType: U32, rest: Bytes)
    ensures Opens(FileHeader(snaplen, linkType) + rest) == Capture(Format(Little, false, linkType))
  {
    var header := FileHeader(snaplen, linkType);
    var file := header + rest;
    HeaderLength(snaplen, linkType);
    assert file[..4] == Put32(0xA1B2C3D4) == [0xD4, 0xC3, 0xB2, 0xA1];
    assert file[4] == 2 && file[5] == 0;
    assert file[20..24] == Put32(linkType);
    PutReads(file, 20, linkType);
  }

  /** The record a packet is read back as. */
  function RecordOf(p: Packet, number: nat, offset: nat, linkType: U32): Record {
    Record(number, offset, p.timestamp / 1000000, p.timestamp % 1000000, p.original, linkType, p.data)
  }

  /** The file holds a packet at a position. */
  predicate HoldsAt(file: Bytes, position: nat, p: Packet) {
    position + |Encoded(p)| <= |file| && file[position..position + |Encoded(p)|] == Encoded(p)
  }

  lemma PacketReads(file: Bytes, position: nat, p: Packet, format: Format, complete: nat)
    requires HoldsAt(file, position, p) && |p.data| <= MAX_CAPTURED && format.order == Little
    ensures NextAt(file, format, position, complete)
         == Found(RecordOf(p, complete + 1, position + RECORD_HEADER, format.linkType))
  {
    hide Put32, U32At;
    EncodedIs(p);
    var whole := file[position..position + |Encoded(p)|];
    assert forall i | 0 <= i < |whole| :: file[position + i] == whole[i];
    FourBytes(p);
    Slice(file, position, whole, 0);
    Slice(file, position, whole, 4);
    Slice(file, position, whole, 8);
    Slice(file, position, whole, 12);
    PutReads(file, position, p.timestamp / 1000000);
    PutReads(file, position + 4, p.timestamp % 1000000);
    PutReads(file, position + 8, |p.data|);
    PutReads(file, position + 12, p.original);
    assert whole[RECORD_HEADER..] == p.data;
    assert file[position + RECORD_HEADER..position + RECORD_HEADER + |p.data|] == whole[RECORD_HEADER..];
  }

  lemma Slice(file: Bytes, position: nat, whole: Bytes, k: nat)
    requires position + |whole| <= |file| && whole == file[position..position + |whole|] && k + 4 <= |whole|
    ensures file[position + k..position + k + 4] == whole[k..k + 4]
  {
    assert forall i | k <= i < k + 4 :: file[position + i] == whole[i];
  }

  lemma FourBytes(p: Packet)
    ensures |Encoded(p)| >= RECORD_HEADER
    ensures Encoded(p)[0..4] == Put32(p.timestamp / 1000000) && Encoded(p)[4..8] == Put32(p.timestamp % 1000000)
    ensures Encoded(p)[8..12] == Put32(|p.data|) && Encoded(p)[12..16] == Put32(p.original)
  {
  }

  /** The records of packets laid out one after another from a position. */
  function RecordsFrom(packets: seq<Packet>, complete: nat, position: nat, linkType: U32): seq<Record>
    decreases |packets|
  {
    if packets == [] then []
    else
      [RecordOf(packets[0], complete + 1, position + RECORD_HEADER, linkType)]
      + RecordsFrom(packets[1..], complete + 1, position + RECORD_HEADER + |packets[0].data|, linkType)
  }

  function EndOf(packets: seq<Packet>, position: nat): nat
    decreases |packets|
  {
    if packets == [] then position else EndOf(packets[1..], position + RECORD_HEADER + |packets[0].data|)
  }

  predicate AllHeld(file: Bytes, position: nat, packets: seq<Packet>)
    decreases |packets|
  {
    packets == []
    || (HoldsAt(file, position, packets[0]) && AllHeld(file, position + RECORD_HEADER + |packets[0].data|, packets[1..]))
  }

  predicate AllSmall(packets: seq<Packet>) {
    forall i | 0 <= i < |packets| :: |packets[i].data| <= MAX_CAPTURED
  }

  lemma SmallOn(packets: seq<Packet>)
    requires AllSmall(packets) && packets != []
    ensures |packets[0].data| <= MAX_CAPTURED && AllSmall(packets[1..])
  {
  }

  /** Reading packets one after another, then whatever follows them. */
  lemma {:induction false} HeldReads(file: Bytes, format: Format, position: nat, complete: nat, packets: seq<Packet>)
    requires AllHeld(file, position, packets) && AllSmall(packets) && format.order == Little
    ensures ReadFrom(file, format, position, complete) ==
      After(RecordsFrom(packets, complete, position, format.linkType),
            ReadFrom(file, format, EndOf(packets, position), complete + |packets|))
    decreases |packets|
  {
    if packets == [] {
      hide NextAt, ReadFrom;
      AfterNothing(ReadFrom(file, format, position, complete));
    } else {
      hide *;
      var next := position + RECORD_HEADER + |packets[0].data|;
      HeldUnfold(file, position, packets);
      SmallOn(packets);
      LayoutUnfold(packets, complete, position, format.linkType);
      PacketReads(file, position, packets[0], format, complete);
      ReadOne(file, format, position, complete, packets[0]);
      HeldReads(file, format, next, complete + 1, packets[1..]);
      AfterMore(RecordOf(packets[0], complete + 1, position + RECORD_HEADER, format.linkType),
                RecordsFrom(packets[1..], complete + 1, next, format.linkType),
                ReadFrom(file, format, EndOf(packets[1..], next), complete + 1 + |packets[1..]|));
    }
  }

  lemma AfterNothing(rest: Reading)
    ensures After([], rest) == rest
  {
  }

  lemma AfterMore(record: Record, records: seq<Record>, rest: Reading)
    ensures After([record], After(records, rest)) == After([record] + records, rest)
  {
    assert [record] + (records + rest.records) == [record] + records + rest.records;
  }

  lemma ReadOne(file: Bytes, format: Format, position: nat, complete: nat, p: Packet)
    requires NextAt(file, format, position, complete) == Found(RecordOf(p, complete + 1, position + RECORD_HEADER, format.linkType))
    ensures ReadFrom(file, format, position, complete) ==
      After([RecordOf(p, complete + 1, position + RECORD_HEADER, format.linkType)],
            ReadFrom(file, format, position + RECORD_HEADER + |p.data|, complete + 1))
  {
    hide NextAt;
  }

  lemma HeldUnfold(file: Bytes, position: nat, packets: seq<Packet>)
    requires AllHeld(file, position, packets) && packets != []
    ensures HoldsAt(file, position, packets[0])
    ensures AllHeld(file, position + RECORD_HEADER + |packets[0].data|, packets[1..])
  {
    hide HoldsAt;
  }

  lemma LayoutUnfold(packets: seq<Packet>, complete: nat, position: nat, linkType: U32)
    requires packets != []
    ensures var next := position + RECORD_HEADER + |packets[0].data|;
      && EndOf(packets, position) == EndOf(packets[1..], next)
      && RecordsFrom(packets, complete, position, linkType) ==
           [RecordOf(packets[0], complete + 1, position + RECORD_HEADER, linkType)]
           + RecordsFrom(packets[1..], complete + 1, next, linkType)
  {
    hide RecordOf;
  }

  // ---------------------------------------------------------------- the written file holds its packets

  lemma {:induction false} EncodedFirst(packets: seq<Packet>)
    requires packets != []
    ensures EncodedAll(packets) == Encoded(packets[0]) + EncodedAll(packets[1..])
  {
    hide Encoded;
    var n := |packets| - 1;
    if n == 0 {
      assert packets[..0] == [] && packets[1..] == [];
    } else {
      EncodedFirst(packets[..n]);
      assert packets[..n][1..] == packets[1..][..n - 1] && packets[1..][n - 1] == packets[n];
      assert packets[..n][0] == packets[0];
    }
  }

  /** The file is a prefix, the packets, and a rest. */
  predicate Laid(file: Bytes, before: Bytes, packets: seq<Packet>, rest: Bytes) {
    file == before + EncodedAll(packets) + rest
  }

  lemma LaidFirst(file: Bytes, before: Bytes, packets: seq<Packet>, rest: Bytes)
    requires Laid(file, before, packets, rest) && packets != []
    ensures Laid(file, before + Encoded(packets[0]), packets[1..], rest)
    ensures |before + Encoded(packets[0])| == |before| + RECORD_HEADER + |packets[0].data|
    ensures HoldsAt(file, |before|, packets[0])
    ensures |EncodedAll(packets)| == RECORD_HEADER + |packets[0].data| + |EncodedAll(packets[1..])|
  {
    hide Encoded, HoldsAt, EncodedAll;
    var head, tail := Encoded(packets[0]), EncodedAll(packets[1..]);
    EncodedIs(packets[0]);
    EncodedFirst(packets);
    Regroup(before, head, tail, rest);
    HeldFirst(before, packets[0], tail + rest);
  }

  lemma {:induction false} LaidHeld(file: Bytes, before: Bytes, packets: seq<Packet>, rest: Bytes)
    requires Laid(file, before, packets, rest)
    ensures AllHeld(file, |before|, packets)
    ensures EndOf(packets, |before|) == |before| + |EncodedAll(packets)|
    decreases |packets|
  {
    hide *;
    if packets == [] {
      NoneLaid(file, |before|);
    } else {
      LaidFirst(file, before, packets, rest);
      LaidHeld(file, before + Encoded(packets[0]), packets[1..], rest);
      HeldFold(file, |before|, packets);
    }
  }

  lemma NoneLaid(file: Bytes, position: nat)
    ensures AllHeld(file, position, []) && EndOf([], position) == position && EncodedAll([]) == []
  {
  }

  lemma WrittenHeld(before: Bytes, packets: seq<Packet>, rest: Bytes)
    ensures AllHeld(before + EncodedAll(packets) + rest, |before|, packets)
    ensures EndOf(packets, |before|) == |before| + |EncodedAll(packets)|
  {
    hide EncodedAll, AllHeld, EndOf;
    LaidHeld(before + EncodedAll(packets) + rest, before, packets, rest);
  }

  lemma HeldFold(file: Bytes, position: nat, packets: seq<Packet>)
    requires packets != [] && HoldsAt(file, position, packets[0])
    requires AllHeld(file, position + RECORD_HEADER + |packets[0].data|, packets[1..])
    ensures AllHeld(file, position, packets)
    ensures EndOf(packets, position) == EndOf(packets[1..], position + RECORD_HEADER + |packets[0].data|)
  {
    hide HoldsAt;
  }

  lemma HeldFirst(before: Bytes, p: Packet, rest: Bytes)
    ensures HoldsAt(before + Encoded(p) + rest, |before|, p)
  {
    hide Encoded;
  }

  lemma EndReads(file: Bytes, format: Format, complete: nat)
    ensures ReadFrom(file, format, |file|, complete) == Reading([], AtEnd)
  {
  }

  /** What is read back of one packet: its own time, lengths and bytes, numbered in order. */
  lemma {:induction false} RecordsMatch(packets: seq<Packet>, complete: nat, position: nat, linkType: U32, i: nat)
    requires i < |packets|
    ensures |RecordsFrom(packets, complete, position, linkType)| == |packets|
    ensures var r := RecordsFrom(packets, complete, position, linkType)[i];
      && r.Micros() == packets[i].timestamp && r.data == packets[i].data && r.original == packets[i].original
      && r.number == complete + i + 1 && r.linkType == linkType
    decreases |packets|
  {
    if i == 0 {
      if |packets| > 1 {
        RecordsMatch(packets[1..], complete + 1, position + RECORD_HEADER + |packets[0].data|, linkType, 0);
      }
    } else {
      RecordsMatch(packets[1..], complete + 1, position + RECORD_HEADER + |packets[0].data|, linkType, i - 1);
    }
  }

  // ---------------------------------------------------------------- a file cut short

  /** How many packets are read of a file with `room` bytes of records: those wholly inside, up to the first that is
      over the reader's limit. */
  function ReadCount(packets: seq<Packet>, room: nat): (k: nat)
    ensures k <= |packets|
    decreases |packets|
  {
    if packets == [] || |packets[0].data| > MAX_CAPTURED || |Encoded(packets[0])| > room then 0
    else 1 + ReadCount(packets[1..], room - |Encoded(packets[0])|)
  }

  /** The first `k` packets can be read and are wholly inside, and the next is not one more. */
  predicate StopsAt(packets: seq<Packet>, room: nat, k: nat) {
    && k <= |packets| && AllSmall(packets[..k]) && |EncodedAll(packets[..k])| <= room
    && (k < |packets| && |packets[k].data| <= MAX_CAPTURED ==> |EncodedAll(packets[..k])| + |Encoded(packets[k])| > room)
  }

  /** Every length has exactly one such count. */
  lemma {:induction false} ReadCountExact(packets: seq<Packet>, room: nat, k: nat)
    ensures StopsAt(packets, room, k) <==> k == ReadCount(packets, room)
    decreases |packets|
  {
    hide Encoded, EncodedAll;
    NoneEncoded();
    assert packets[..0] == [];
    if packets != [] && |packets[0].data| <= MAX_CAPTURED && |Encoded(packets[0])| <= room {
      if 0 < k <= |packets| {
        ReadCountExact(packets[1..], room - |Encoded(packets[0])|, k - 1);
        CountStep(packets, room, k);
      }
    } else if 0 < k <= |packets| {
      EncodedFirst(packets[..k]);
      assert packets[..k][0] == packets[0];
    }
  }

  lemma CountStep(packets: seq<Packet>, room: nat, k: nat)
    requires 0 < k <= |packets| && |packets[0].data| <= MAX_CAPTURED && |Encoded(packets[0])| <= room
    ensures StopsAt(packets, room, k) <==> StopsAt(packets[1..], room - |Encoded(packets[0])|, k - 1)
  {
    hide Encoded, EncodedAll;
    EncodedFirst(packets[..k]);
    assert packets[..k][0] == packets[0] && packets[..k][1..] == packets[1..][..k - 1];
    assert AllSmall(packets[..k]) <==> AllSmall(packets[..k][1..]) by {
      var some, rest := packets[..k], packets[..k][1..];
      assert forall i | 0 <= i < |rest| :: rest[i] == some[i + 1];
      assert forall i | 0 < i < |some| :: some[i] == rest[i - 1];
    }
  }

  lemma {:induction false} EncodedSplit(packets: seq<Packet>, k: nat)
    requires k <= |packets|
    ensures EncodedAll(packets) == EncodedAll(packets[..k]) + EncodedAll(packets[k..])
    decreases |packets| - k
  {
    hide Encoded, EncodedAll;
    if k == |packets| {
      assert packets[..k] == packets && packets[k..] == [];
      NoneEncoded();
      assert EncodedAll(packets) + [] == EncodedAll(packets);
    } else {
      EncodedSplit(packets, k + 1);
      EncodedFirst(packets[k..]);
      assert packets[k..][1..] == packets[k + 1..] && packets[k..][0] == packets[k];
      OneMoreEncoded(packets, k);
      var a, b, c := EncodedAll(packets[..k]), Encoded(packets[k]), EncodedAll(packets[k + 1..]);
      assert a + b + c == a + (b + c);
    }
  }

  lemma NoneEncoded()
    ensures EncodedAll([]) == []
  {
  }

  lemma OneMoreEncoded(packets: seq<Packet>, k: nat)
    requires k < |packets|
    ensures EncodedAll(packets[..k + 1]) == EncodedAll(packets[..k]) + Encoded(packets[k])
  {
    hide Encoded;
    assert packets[..k + 1][..k] == packets[..k];
  }

  /** How reading ends with `m` bytes of a packet left: too long once its header shows it, else cut short. */
  function EndingIn(p: Packet, complete: nat, m: nat): Ending {
    if m == 0 then AtEnd
    else if m >= RECORD_HEADER && |p.data| > MAX_CAPTURED then TooLong
    else CutShort(complete).ending
  }

  lemma CutReads(file: Bytes, position: nat, p: Packet, format: Format, complete: nat, m: nat)
    requires position + m == |file| && format.order == Little
    requires m < |Encoded(p)| || |p.data| > MAX_CAPTURED
    requires m >= RECORD_HEADER ==> file[position + 8..position + 12] == Encoded(p)[8..12]
    ensures ReadFrom(file, format, position, complete) == Reading([], EndingIn(p, complete, m))
  {
    hide Put32, U32At;
    EncodedIs(p);
    if m >= RECORD_HEADER {
      FourBytes(p);
      PutReads(file, position + 8, |p.data|);
    }
  }

  /** How reading a file with `room` bytes of records ends. */
  function EndingOf(packets: seq<Packet>, room: nat): Ending {
    var k := ReadCount(packets, room);
    if k == |packets| || room <= |EncodedAll(packets[..k])| then AtEnd
    else EndingIn(packets[k], k, room - |EncodedAll(packets[..k])|)
  }

  /** Any prefix of a written capture that has its file header reads as exactly the records wholly inside, up to the
      first the reader refuses, ending cleanly between records, as too long at one it refuses, and otherwise as a
      truncated tail, or as an unexpected end in the first record. */
  lemma PrefixReads(given: Option<U32>, linkType: U32, packets: seq<Packet>, n: nat)
    requires FILE_HEADER <= n <= |FileOf(given, linkType, packets)|
    ensures var room := n - FILE_HEADER;
      Scans(FileOf(given, linkType, packets)[..n]) ==
        Scanned(Format(Little, false, linkType),
                Reading(RecordsFrom(packets[..ReadCount(packets, room)], 0, FILE_HEADER, linkType), EndingOf(packets, room)))
  {
    hide *;
    var header, format := FileHeader(Snaplen(given, packets), linkType), Format(Little, false, linkType);
    var k := ReadCount(packets, n - FILE_HEADER);
    ReadCountExact(packets, n - FILE_HEADER, k);
    StopFacts(packets, n - FILE_HEADER, k);
    var whole, left := EncodedAll(packets[..k]), EncodedAll(packets[k..]);
    var file, m := FileOf(given, linkType, packets)[..n], n - FILE_HEADER - |whole|;
    HeaderLength(Snaplen(given, packets), linkType);
    PrefixShape(given, linkType, packets, k, n);
    HeaderOpens(Snaplen(given, packets), linkType, whole + left[..m]);
    assert header + (whole + left[..m]) == header + whole + left[..m];
    WrittenHeld(header, packets[..k], left[..m]);
    HeldReads(file, format, FILE_HEADER, 0, packets[..k]);
    TailIs(header, whole, left[..m]);
    LeftReads(file, FILE_HEADER + |whole|, packets, n - FILE_HEADER, left, m, format);
    ScansIs(file, format);
    AfterLast(RecordsFrom(packets[..k], 0, FILE_HEADER, linkType), EndingOf(packets, n - FILE_HEADER));
  }

  lemma StopFacts(packets: seq<Packet>, room: nat, k: nat)
    requires StopsAt(packets, room, k)
    ensures k <= |packets| && AllSmall(packets[..k]) && |EncodedAll(packets[..k])| <= room
  {
    hide AllSmall, EncodedAll;
  }

  /** A prefix that ends inside the file header is refused. */
  lemma ShortPrefix(given: Option<U32>, linkType: U32, packets: seq<Packet>, n: nat)
    requires n < FILE_HEADER
    ensures n <= |FileOf(given, linkType, packets)|
    ensures Scans(FileOf(given, linkType, packets)[..n]) ==
      NotOpened(if n == 0 then Empty else if n < 4 then EndsInMagic else EndsInHeader)
  {
    hide EncodedAll, ReadFrom, FileHeader, MagicOf;
    var header := FileHeader(Snaplen(given, packets), linkType);
    HeaderLength(Snaplen(given, packets), linkType);
    if n >= 4 {
      HeaderMagic(Snaplen(given, packets), linkType);
      assert FileOf(given, linkType, packets)[..n][..4] == header[..4];
    }
  }

  lemma HeaderMagic(snaplen: U32, linkType: U32)
    ensures |FileHeader(snaplen, linkType)| >= 4 && MagicOf(FileHeader(snaplen, linkType)[..4]) == Some((Little, false))
  {
    assert FileHeader(snaplen, linkType)[..4] == Put32(0xA1B2C3D4) == [0xD4, 0xC3, 0xB2, 0xA1];
  }

  // ---------------------------------------------------------------- the whole file

  lemma WholeRoom(packets: seq<Packet>, k: nat)
    requires k < |packets|
    ensures |EncodedAll(packets[..k])| + |Encoded(packets[k])| <= |EncodedAll(packets)|
  {
    hide Encoded, EncodedAll;
    EncodedSplit(packets, k + 1);
    OneMoreEncoded(packets, k);
  }

  /** A capture with a packet over the reader's limit reads as the packets before the first such, then stops. */
  lemma RoundTripStops(given: Option<U32>, linkType: U32, packets: seq<Packet>, k: nat)
    requires k < |packets| && AllSmall(packets[..k]) && |packets[k].data| > MAX_CAPTURED
    ensures Scans(FileOf(given, linkType, packets)) ==
      Scanned(Format(Little, false, linkType), Reading(RecordsFrom(packets[..k], 0, FILE_HEADER, linkType), TooLong))
  {
    hide FileHeader, Scans, RecordsFrom, EncodedAll, Encoded, ReadCount;
    var file, room := FileOf(given, linkType, packets), |EncodedAll(packets)|;
    HeaderLength(Snaplen(given, packets), linkType);
    assert file[..|file|] == file;
    PrefixReads(given, linkType, packets, |file|);
    WholeRoom(packets, k);
    EncodedIs(packets[k]);
    ReadCountExact(packets, room, k);
  }

  /** Everything written is read back, the same times, lengths, link type and bytes, in order, to the end of the file,
      if and only if no packet is over the reader's limit. */
  lemma RoundTrip(given: Option<U32>, linkType: U32, packets: seq<Packet>)
    ensures Scans(FileOf(given, linkType, packets)) ==
              Scanned(Format(Little, false, linkType), Reading(RecordsFrom(packets, 0, FILE_HEADER, linkType), AtEnd))
       <==> AllSmall(packets)
  {
    hide FileHeader, Scans, RecordsFrom, EncodedAll, Encoded, ReadCount, AllSmall;
    if AllSmall(packets) {
      var file, n := FileOf(given, linkType, packets), |packets|;
      HeaderLength(Snaplen(given, packets), linkType);
      assert file[..|file|] == file && packets[..n] == packets;
      PrefixReads(given, linkType, packets, |file|);
      ReadCountExact(packets, |EncodedAll(packets)|, n);
    } else {
      var k := FirstLarge(packets);
      RoundTripStops(given, linkType, packets, k);
    }
  }

  lemma FirstLarge(packets: seq<Packet>) returns (k: nat)
    requires !AllSmall(packets)
    ensures k < |packets| && AllSmall(packets[..k]) && |packets[k].data| > MAX_CAPTURED
  {
    k := 0;
    while |packets[k].data| <= MAX_CAPTURED
      invariant k < |packets| && AllSmall(packets[..k])
      decreases |packets| - k
    {
      assert packets[..k + 1] == packets[..k] + [packets[k]];
      assert AllSmall(packets[..k + 1]);
      k := k + 1;
    }
  }

  lemma ScansIs(file: Bytes, format: Format)
    requires Opens(file) == Capture(format)
    ensures Scans(file) == Scanned(format, ReadFrom(file, format, FILE_HEADER, 0))
  {
    hide Opens, ReadFrom;
  }

  lemma AfterLast(records: seq<Record>, ending: Ending)
    ensures After(records, Reading([], ending)) == Reading(records, ending)
  {
  }

  /** The prefix is the header, the whole records, and the start of what follows. */
  lemma PrefixShape(given: Option<U32>, linkType: U32, packets: seq<Packet>, k: nat, n: nat)
    requires k <= |packets| && FILE_HEADER + |EncodedAll(packets[..k])| <= n <= |FileOf(given, linkType, packets)|
    ensures var header := FileHeader(Snaplen(given, packets), linkType);
      var whole, left := EncodedAll(packets[..k]), EncodedAll(packets[k..]);
      var m := n - FILE_HEADER - |whole|;
      && 0 <= m <= |left| && FileOf(given, linkType, packets)[..n] == header + whole + left[..m]
  {
    hide FileHeader, Encoded, EncodedAll;
    var header := FileHeader(Snaplen(given, packets), linkType);
    HeaderLength(Snaplen(given, packets), linkType);
    EncodedSplit(packets, k);
    var whole, left := EncodedAll(packets[..k]), EncodedAll(packets[k..]);
    assert header + (whole + left) == header + whole + left;
    CutOff(header, whole, left, n - FILE_HEADER - |whole|);
  }

  /** What the file holds after the whole records decides how reading ends. */
  lemma LeftReads(file: Bytes, position: nat, packets: seq<Packet>, room: nat, left: Bytes, m: nat, format: Format)
    requires format.order == Little && left == EncodedAll(packets[ReadCount(packets, room)..]) && m <= |left|
    requires position + m == |file| && file[position..] == left[..m]
    requires room == |EncodedAll(packets[..ReadCount(packets, room)])| + m
    ensures ReadFrom(file, format, position, ReadCount(packets, room)) == Reading([], EndingOf(packets, room))
  {
    hide *;
    var k := ReadCount(packets, room);
    EndingIs(packets, room);
    if m == 0 {
      EndReads(file, format, k);
    } else {
      if k == |packets| {
        assert packets[k..] == [];
        NoneEncoded();
      }
      EncodedFirst(packets[k..]);
      assert packets[k..][0] == packets[k];
      FourBytes(packets[k]);
      if m >= RECORD_HEADER {
        LengthField(file, position, Encoded(packets[k]), EncodedAll(packets[k..][1..]), m);
      }
      CutReads(file, position, packets[k], format, k, m);
    }
  }

  lemma EndingIs(packets: seq<Packet>, room: nat)
    ensures var k := ReadCount(packets, room);
      var whole := |EncodedAll(packets[..k])|;
      && (k == |packets| || room <= whole ==> EndingOf(packets, room) == AtEnd)
      && (k < |packets| && room > whole ==>
            && EndingOf(packets, room) == EndingIn(packets[k], k, room - whole)
            && (room - whole < |Encoded(packets[k])| || |packets[k].data| > MAX_CAPTURED))
  {
    hide EncodedAll, Encoded, ReadCount, EndingIn, AllSmall;
    ReadCountExact(packets, room, ReadCount(packets, room));
  }

  lemma {:induction false} LengthField(file: Bytes, position: nat, head: Bytes, rest: Bytes, m: nat)
    requires RECORD_HEADER <= |head| && RECORD_HEADER <= m <= |head + rest|
    requires position + m == |file| && file[position..] == (head + rest)[..m]
    ensures file[position + 8..position + 12] == head[8..12]
  {
    var some := (head + rest)[..m];
    assert forall i | 8 <= i < 12 :: some[i] == head[i];
    assert some[8..12] == head[8..12];
    assert file[position + 8..position + 12] == file[position..][8..12];
  }

  lemma TailIs(a: Bytes, b: Bytes, c: Bytes)
    ensures (a + b + c)[|a| + |b|..] == c && |a + b + c| == |a| + |b| + |c|
  {
  }

  lemma CutOff(a: Bytes, b: Bytes, c: Bytes, m: int)
    requires 0 <= m <= |c|
    ensures (a + b + c)[..|a| + |b| + m] == a + b + c[..m]
  {
  }
}
