/** Writing classic PCAP captures, and reading them back (src/pcap_writer.cpp). */
module PcapWriter {
  import opened Basics
  import opened CaptureReader
  import opened PcapReader

  const WRITE_CHUNK := 64 * 1024

  // ---------------------------------------------------------------- the file's layout

  /** A 32-bit value, low byte first. */
  function Put32(value: U32): Bytes {
    [value % 256, value / 256 % 256, value / 65536 % 256, value / 16777216]
  }

  function FileHeader(snaplen: U32, linkType: U32): Bytes {
    Put32(0xA1B2C3D4) + [2, 0, 4, 0] + [0, 0, 0, 0] + [0, 0, 0, 0] + Put32(snaplen) + Put32(linkType)
  }

  datatype AnyPacket = Packet(timestamp: int, original: nat, data: Bytes)

  /** A packet the writer accepts: whole seconds in 32 bits, and lengths in 32 bits that cover its data. */
  predicate Accepted(p: AnyPacket) {
    && 0 <= p.timestamp && p.timestamp / 1000000 <= U32_MAX
    && |p.data| <= p.original <= U32_MAX
  }

  type Packet = p: AnyPacket | Accepted(p) witness Packet(0, 0, [])

  function RecordHeader(p: Packet): Bytes {
    Put32(p.timestamp / 1000000) + Put32(p.timestamp % 1000000) + Put32(|p.data|) + Put32(p.original)
  }

  function Encoded(p: Packet): Bytes {
    RecordHeader(p) + p.data
  }

  function EncodedAll(packets: seq<Packet>): Bytes {
    if packets == [] then [] else EncodedAll(packets[..|packets| - 1]) + Encoded(packets[|packets| - 1])
  }

  /** The largest capture, but never 0: a snaplen of 0 is invalid. */
  function LargestCapture(packets: seq<Packet>): U32 {
    if packets == [] then 1 else Max(LargestCapture(packets[..|packets| - 1]), |packets[|packets| - 1].data|)
  }

  function Snaplen(given: Option<U32>, packets: seq<Packet>): U32 {
    if given.Some? then given.value else LargestCapture(packets)
  }

  function FileOf(given: Option<U32>, linkType: U32, packets: seq<Packet>): Bytes {
    FileHeader(Snaplen(given, packets), linkType) + EncodedAll(packets)
  }

  // ---------------------------------------------------------------- the output and the writer

  /** A seekable staging output. A write may take fewer bytes than given; an unreliable one may take none, or claim
      too many. */
  class Output {
    const reliable: bool
    var bytes: Bytes
    var cursor: nat

    constructor (reliable: bool)
      ensures this.reliable == reliable && bytes == [] && cursor == 0
    {
      this.reliable, bytes, cursor := reliable, [], 0;
    }

    method Write(data: Bytes) returns (written: nat)
      requires cursor <= |bytes|
      modifies this
      ensures cursor <= |bytes| && (reliable && data != [] ==> 0 < written <= |data|)
      ensures written <= |data| ==> cursor == old(cursor) + written && bytes == Written(old(bytes), old(cursor), data[..written])
    {
      var least, most := if reliable && data != [] then 1 else 0, if reliable then |data| else |data| + 1;
      var count: nat :| least <= count <= most;
      written := count;
      if count <= |data| {
        bytes := Written(bytes, cursor, data[..count]);
        cursor := cursor + count;
      }
    }

    method Seek(offset: nat)
      requires offset <= |bytes|
      modifies this`cursor
      ensures cursor == offset
    {
      cursor := offset;
    }
  }

  /** The bytes once `data` overwrites those from an offset. */
  function Written(bytes: Bytes, at: nat, data: Bytes): Bytes
    requires at <= |bytes|
  {
    bytes[..at] + data + if at + |data| < |bytes| then bytes[at + |data|..] else []
  }

  datatype State = Opened | Finished | Failed

  class Writer {
    const output: Output
    const linkType: U32
    const snaplen: Option<U32>
    var state: State
    var count: nat
    var written: nat
    var maximum: U32
    ghost var packets: seq<Packet>

    /** While open, the output holds the header with the snaplen known so far and every record, and stands at its end. */
    ghost predicate Valid()
      reads this, output
    {
      && linkType <= 0xFFFF && (snaplen.Some? ==> snaplen.value > 0)
      && (state == Opened ==>
            && output.cursor == |output.bytes| == written
            && output.bytes == FileHeader(Snaplen(snaplen, []), linkType) + EncodedAll(packets)
            && count == |packets| && maximum == LargestCapture(packets) && written <= U64_MAX && count <= U64_MAX)
      && (state == Finished ==>
            output.bytes == FileOf(snaplen, linkType, packets) && output.cursor == |output.bytes| && count == |packets|)
    }

    constructor (output: Output, linkType: U32, snaplen: Option<U32>)
      requires output.bytes == [] && output.cursor == 0
      requires linkType <= 0xFFFF && (snaplen.Some? ==> snaplen.value > 0)
      modifies output
      ensures this.output == output && this.linkType == linkType && this.snaplen == snaplen
      ensures Valid() && (state == Opened || state == Failed) && packets == []
      ensures output.reliable ==> state == Opened
    {
      this.output, this.linkType, this.snaplen := output, linkType, snaplen;
      state, count, written, maximum, packets := Opened, 0, FILE_HEADER, 1, [];
      new;
      var header := FileHeader(Snaplen(snaplen, []), linkType);
      var ok := WriteAll(header);
      if !ok {
        state := Failed;
      } else {
        assert Written([], 0, header) == header && header + [] == header;
      }
    }

    /** Writes everything, a chunk and a short write at a time, unless the output stops making progress. */
    method WriteAll(data: Bytes) returns (ok: bool)
      requires output.cursor <= |output.bytes|
      modifies output
      ensures output.cursor <= |output.bytes| && (output.reliable ==> ok)
      ensures ok ==> output.cursor == old(output.cursor) + |data|
      ensures ok ==> output.bytes == Written(old(output.bytes), old(output.cursor), data)
    {
      var done := 0;
      ghost var start, before := output.cursor, output.bytes;
      WrittenNone(before, start);
      while done < |data|
        invariant 0 <= done <= |data| && output.cursor == start + done <= |output.bytes|
        invariant output.bytes == Written(before, start, data[..done])
        decreases |data| - done
      {
        var requested := Min(|data| - done, WRITE_CHUNK);
        var n := output.Write(data[done..done + requested]);
        if n == 0 || n > requested {
          return false;
        }
        WrittenTwice(before, start, data, done, n);
        assert data[done..done + requested][..n] == data[done..done + n];
        done := done + n;
      }
      assert data[..done] == data;
      ok := true;
    }

    /** Whether a packet may be written here. */
    predicate Acceptable(timestamp: int, captured: nat, original: nat, link: U32, data: Bytes)
      reads this
    {
      && 0 <= timestamp && timestamp / 1000000 <= U32_MAX
      && link == linkType
      && captured <= U32_MAX && original <= U32_MAX && captured <= original
      && captured == |data|
      && (snaplen.Some? ==> captured <= snaplen.value)
      && written + RECORD_HEADER + captured <= U64_MAX && count < U64_MAX
    }

    /** Appends a record to a writer that is open. A refused packet or an output that fails leaves the writer failed. */
    method WritePacket(timestamp: int, captured: nat, original: nat, link: U32, data: Bytes) returns (ok: bool)
      requires Valid()
      modifies this, output
      ensures Valid() && (ok <==> state == Opened)
      ensures old(state) != Opened ==> state == old(state) && packets == old(packets)
      ensures ok ==> old(Acceptable(timestamp, captured, original, link, data))
      ensures output.reliable && old(state) == Opened ==> ok == old(Acceptable(timestamp, captured, original, link, data))
      ensures ok ==> packets == old(packets) + [Packet(timestamp, original, data)]
    {
      hide FileHeader, Encoded, RecordHeader, LargestCapture, EncodedAll, Put32;
      if state != Opened {
        return false;
      }
      if !Acceptable(timestamp, captured, original, link, data) {
        state := Failed;
        return false;
      }
      ghost var p: Packet := Packet(timestamp, original, data);
      ghost var before := output.bytes;
      var header := Put32(timestamp / 1000000) + Put32(timestamp % 1000000) + Put32(captured) + Put32(original);
      EncodedIs(p);
      WrittenAtEnd(before, header);
      ok := WriteAll(header);
      if !ok {
        state := Failed;
        return;
      }
      WrittenAtEnd(before + header, data);
      ok := WriteAll(data);
      if !ok {
        state := Failed;
        return;
      }
      MorePackets(packets, p, FileHeader(Snaplen(snaplen, []), linkType));
      maximum := Max(maximum, captured);
      written := written + RECORD_HEADER + captured;
      count := count + 1;
      packets := packets + [p];
    }

    /** Patches the snaplen that was not known at the start, and returns to the end of the file. */
    method Finish() returns (ok: bool)
      requires Valid()
      modifies this, output
      ensures Valid() && packets == old(packets) && (ok ==> state == Finished)
      ensures ok ==> old(state) == Opened
      ensures old(state) != Opened ==> state == old(state)
      ensures output.reliable && old(state) == Opened ==> ok
    {
      hide FileHeader, EncodedAll, LargestCapture, Put32;
      if state != Opened {
        return false;
      }
      if snaplen.None? {
        HeaderLength(Snaplen(snaplen, []), linkType);
        Patched(Snaplen(snaplen, []), maximum, linkType, EncodedAll(packets));
        output.Seek(16);
        var patch := Put32(maximum);
        ok := WriteAll(patch);
        if !ok {
          state := Failed;
          return;
        }
        HeaderLength(maximum, linkType);
        output.Seek(written);
      }
      state := Finished;
      ok := true;
    }
  }

  /** Opens a writer, unless the link type does not fit 16 bits or the given snaplen is 0. */
  method OpenWriter(output: Output, linkType: U32, snaplen: Option<U32>) returns (writer: Option<Writer>)
    requires output.bytes == [] && output.cursor == 0
    modifies output
    ensures writer.Some? <==> linkType <= 0xFFFF && snaplen != Some(0)
    ensures writer.Some? ==>
      var w := writer.value;
      fresh(w) && w.Valid() && w.output == output && w.linkType == linkType && w.snaplen == snaplen && w.packets == []
      && (output.reliable ==> w.state == Opened)
  {
    if linkType > 0xFFFF || snaplen == Some(0) {
      return None;
    }
    var w := new Writer(output, linkType, snaplen);
    writer := Some(w);
  }

  lemma WrittenNone(bytes: Bytes, at: nat)
    requires at <= |bytes|
    ensures Written(bytes, at, []) == bytes
  {
  }

  lemma WrittenTwice(bytes: Bytes, at: nat, data: Bytes, done: nat, n: nat)
    requires at <= |bytes| && done + n <= |data|
    ensures at + done <= |Written(bytes, at, data[..done])|
    ensures Written(Written(bytes, at, data[..done]), at + done, data[done..done + n]) == Written(bytes, at, data[..done + n])
  {
    assert data[..done + n] == data[..done] + data[done..done + n];
  }

  lemma WrittenAtEnd(bytes: Bytes, data: Bytes)
    ensures Written(bytes, |bytes|, data) == bytes + data
  {
  }

  lemma EncodedIs(p: Packet)
    ensures Encoded(p) == Put32(p.timestamp / 1000000) + Put32(p.timestamp % 1000000) + Put32(|p.data|) + Put32(p.original) + p.data
    ensures |RecordHeader(p)| == RECORD_HEADER && |Encoded(p)| == RECORD_HEADER + |p.data|
    ensures RecordHeader(p) == Put32(p.timestamp / 1000000) + Put32(p.timestamp % 1000000) + Put32(|p.data|) + Put32(p.original)
  {
  }

  lemma MorePackets(packets: seq<Packet>, p: Packet, header: Bytes)
    ensures header + EncodedAll(packets + [p]) == header + EncodedAll(packets) + RecordHeader(p) + p.data
    ensures LargestCapture(packets + [p]) == Max(LargestCapture(packets), |p.data|)
  {
    assert (packets + [p])[..|packets|] == packets;
    var all := EncodedAll(packets);
    assert header + (all + (RecordHeader(p) + p.data)) == header + all + RecordHeader(p) + p.data;
  }

  lemma HeaderLength(snaplen: U32, linkType: U32)
    ensures |FileHeader(snaplen, linkType)| == FILE_HEADER
  {
  }

  lemma Patched(before: U32, after: U32, linkType: U32, rest: Bytes)
    ensures |FileHeader(before, linkType) + rest| >= FILE_HEADER && |Put32(after)| == 4
    ensures Written(FileHeader(before, linkType) + rest, 16, Put32(after)) == FileHeader(after, linkType) + rest
  {
    var old', new' := FileHeader(before, linkType), FileHeader(after, linkType);
    assert old'[..16] == new'[..16] && old'[20..] == new'[20..];
    assert new' == new'[..16] + Put32(after) + new'[20..];
    assert (old' + rest)[..16] == old'[..16];
    assert (old' + rest)[20..] == old'[20..] + rest;
    assert new'[..16] + Put32(after) + (new'[20..] + rest) == new'[..16] + Put32(after) + new'[20..] + rest;
  }
}
