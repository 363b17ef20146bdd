/** What an emitted stream says about the segments it came from. */
module StreamProperties {
  import opened Basics
  import opened TcpTypes
  import opened StreamAssembly

  // ---------------------------------------------------------------- chunks and gaps partition the stream

  datatype Span = Span(begin: nat, end: nat)

  /** `[begin, end)` is a maximal run of positions that are all supplied, or all missing. */
  ghost predicate MaximalRun(owners: seq<U32>, span: Span, missing: bool) {
    && span.begin < span.end <= |owners|
    && (forall p | span.begin <= p < span.end :: (owners[p] == UNOWNED) == missing)
    && (span.begin > 0 ==> (owners[span.begin - 1] == UNOWNED) != missing)
    && (span.end < |owners| ==> (owners[span.end] == UNOWNED) != missing)
  }

  predicate Contains(span: Span, p: int) {
    span.begin <= p < span.end
  }

  /** The runs of one kind: maximal, in order, and holding every position of that kind. */
  ghost predicate ExactRuns(owners: seq<U32>, spans: seq<Span>, missing: bool) {
    && (forall a | 0 <= a < |spans| :: MaximalRun(owners, spans[a], missing))
    && (forall a, b | 0 <= a < b < |spans| :: spans[a].end < spans[b].begin)
    && (forall p | 0 <= p < |owners| && (owners[p] == UNOWNED) == missing ::
          exists a | 0 <= a < |spans| :: Contains(spans[a], p))
  }

  function RunEnd(owners: seq<U32>, i: nat): (end: nat)
    requires i < |owners|
    ensures i < end <= |owners|
    ensures forall p | i <= p < end :: (owners[p] == UNOWNED) == (owners[i] == UNOWNED)
    ensures end < |owners| ==> (owners[end] == UNOWNED) != (owners[i] == UNOWNED)
  {
    SameOwnerRun(owners, i, UNOWNED);
    SuppliedRun(owners, i);
    if owners[i] == UNOWNED then SameOwnerEnd(owners, i, UNOWNED) else SuppliedEnd(owners, i)
  }

  function RunsFrom(owners: seq<U32>, i: nat, missing: bool): seq<Span>
    requires i <= |owners|
    decreases |owners| - i
  {
    if i == |owners| then []
    else
      var rest := RunsFrom(owners, RunEnd(owners, i), missing);
      if (owners[i] == UNOWNED) == missing then [Span(i, RunEnd(owners, i))] + rest else rest
  }

  /** A run may begin at `i`. */
  predicate Boundary(owners: seq<U32>, i: nat)
    requires i <= |owners|
  {
    0 < i < |owners| ==> (owners[i - 1] == UNOWNED) != (owners[i] == UNOWNED)
  }

  lemma {:induction false} RunsMaximal(owners: seq<U32>, i: nat, missing: bool)
    requires i <= |owners| && Boundary(owners, i)
    ensures forall a | 0 <= a < |RunsFrom(owners, i, missing)| ::
              var span := RunsFrom(owners, i, missing)[a]; i <= span.begin && MaximalRun(owners, span, missing)
    decreases |owners| - i
  {
    if i < |owners| {
      RunsMaximal(owners, RunEnd(owners, i), missing);
    }
  }

  lemma {:induction false} RunsOrdered(owners: seq<U32>, i: nat, missing: bool)
    requires i <= |owners| && Boundary(owners, i)
    ensures forall a, b | 0 <= a < b < |RunsFrom(owners, i, missing)| ::
              RunsFrom(owners, i, missing)[a].end < RunsFrom(owners, i, missing)[b].begin
    decreases |owners| - i
  {
    if i < |owners| {
      var end := RunEnd(owners, i);
      RunsOrdered(owners, end, missing);
      RunsMaximal(owners, end, missing);
      var rest := RunsFrom(owners, end, missing);
      forall b | 0 <= b < |rest| && (owners[i] == UNOWNED) == missing
        ensures end < rest[b].begin
      {
        assert MaximalRun(owners, rest[b], missing);
      }
    }
  }

  lemma {:induction false} RunsCover(owners: seq<U32>, i: nat, missing: bool, p: nat)
    requires i <= p < |owners| && (owners[p] == UNOWNED) == missing
    ensures exists a | 0 <= a < |RunsFrom(owners, i, missing)| :: Contains(RunsFrom(owners, i, missing)[a], p)
    decreases |owners| - i
  {
    var end := RunEnd(owners, i);
    var spans := RunsFrom(owners, i, missing);
    if p < end {
      assert Contains(spans[0], p);
    } else {
      RunsCover(owners, end, missing, p);
      var rest := RunsFrom(owners, end, missing);
      var a :| 0 <= a < |rest| && Contains(rest[a], p);
      assert rest[a] == spans[a + |spans| - |rest|];
    }
  }

  lemma RunsExact(owners: seq<U32>, missing: bool)
    ensures ExactRuns(owners, RunsFrom(owners, 0, missing), missing)
  {
    RunsMaximal(owners, 0, missing);
    RunsOrdered(owners, 0, missing);
    forall p | 0 <= p < |owners| && (owners[p] == UNOWNED) == missing
      ensures exists a | 0 <= a < |RunsFrom(owners, 0, missing)| :: Contains(RunsFrom(owners, 0, missing)[a], p)
    {
      RunsCover(owners, 0, missing, p);
    }
  }

  function GapSpan(gap: Gap): Span {
    Span(gap.offset, gap.offset + gap.length)
  }

  function ChunkSpan(chunk: Chunk): Span {
    Span(chunk.offset, chunk.offset + |chunk.data|)
  }

  function GapSpans(gaps: seq<Gap>): seq<Span> {
    seq(|gaps|, a requires 0 <= a < |gaps| => GapSpan(gaps[a]))
  }

  function ChunkSpans(chunks: seq<Chunk>): seq<Span> {
    seq(|chunks|, a requires 0 <= a < |chunks| => ChunkSpan(chunks[a]))
  }

  lemma {:induction false} GapsAreRuns(owners: seq<U32>, i: nat)
    requires i <= |owners|
    ensures GapSpans(GapsFrom(owners, i)) == RunsFrom(owners, i, true)
    decreases |owners| - i
  {
    if i < |owners| {
      GapsAreRuns(owners, RunEnd(owners, i));
    }
  }

  /** A chunk holds exactly the overlaid bytes of its span, and says where they sit in sequence space. */
  ghost predicate ChunkHolds(bytes: seq<U8>, base: U32, chunk: Chunk) {
    && chunk.offset + |chunk.data| <= |bytes|
    && chunk.data == bytes[chunk.offset..chunk.offset + |chunk.data|]
    && chunk.sequence == Wrap32(base + chunk.offset)
  }

  lemma {:induction false} ChunksAreRuns(segments: seq<Segment>, owners: seq<U32>, bytes: seq<U8>, base: U32, i: nat)
    requires i <= |owners| == |bytes|
    requires OwnersIndex(owners, segments)
    ensures ChunkSpans(ChunksFrom(segments, owners, bytes, base, i)) == RunsFrom(owners, i, false)
    decreases |owners| - i
  {
    if i < |owners| {
      var end := RunEnd(owners, i);
      ChunksAreRuns(segments, owners, bytes, base, end);
      if owners[i] != UNOWNED {
        var chunk, rest := ChunkAt(segments, owners, bytes, base, i), ChunksFrom(segments, owners, bytes, base, end);
        assert ChunkSpan(chunk) == Span(i, end);
        assert ChunkSpans([chunk] + rest) == [Span(i, end)] + ChunkSpans(rest);
      }
    }
  }

  lemma {:induction false} ChunksHold(segments: seq<Segment>, owners: seq<U32>, bytes: seq<U8>, base: U32, i: nat)
    requires i <= |owners| == |bytes|
    requires OwnersIndex(owners, segments)
    ensures forall chunk | chunk in ChunksFrom(segments, owners, bytes, base, i) :: ChunkHolds(bytes, base, chunk)
    decreases |owners| - i
  {
    if i < |owners| {
      ChunksHold(segments, owners, bytes, base, RunEnd(owners, i));
      if owners[i] != UNOWNED {
        assert ChunkHolds(bytes, base, ChunkAt(segments, owners, bytes, base, i));
      }
    }
  }

  // ---------------------------------------------------------------- origins tile each chunk

  /** Origins of positive length, end to end, covering exactly `[from, to)`. */
  ghost predicate Tile(origins: seq<ByteOrigin>, from: int, to: int) {
    if origins == [] then from == to
    else origins[0].offset == from && origins[0].length > 0 && Tile(origins[1..], from + origins[0].length, to)
  }

  /** The first segment to supply position `q` arrived in the packet `stamp`. */
  predicate SuppliedBy(segments: seq<Segment>, owners: seq<U32>, q: int, stamp: PacketStamp) {
    0 <= q < |owners| && owners[q] < |segments| && segments[owners[q]].stamp == stamp
  }

  /** An origin names the first segment to supply each of its bytes. */
  ghost predicate NamesFirstSuppliers(segments: seq<Segment>, owners: seq<U32>, begin: int, origin: ByteOrigin) {
    forall q | begin + origin.offset <= q < begin + origin.offset + origin.length ::
      SuppliedBy(segments, owners, q, origin.stamp)
  }

  lemma {:induction false} OriginsExact(segments: seq<Segment>, owners: seq<U32>, begin: nat, i: nat)
    requires begin <= i <= |owners|
    requires OwnersIndex(owners, segments)
    ensures Tile(OriginsFrom(segments, owners, begin, i), i - begin, SuppliedEnd(owners, i) - begin)
    ensures forall a | 0 <= a < |OriginsFrom(segments, owners, begin, i)| ::
              NamesFirstSuppliers(segments, owners, begin, OriginsFrom(segments, owners, begin, i)[a])
    decreases |owners| - i
  {
    if i < |owners| && owners[i] != UNOWNED {
      var end := SameOwnerEnd(owners, i, owners[i]);
      SameOwnerRun(owners, i, owners[i]);
      OriginsExact(segments, owners, begin, end);
      SuppliedEndAfter(owners, i, end);
      var origins, rest := OriginsFrom(segments, owners, begin, i), OriginsFrom(segments, owners, begin, end);
      assert origins == [ByteOrigin(i - begin, end - i, segments[owners[i]].stamp)] + rest;
      assert origins[1..] == rest;
    }
  }

  lemma {:induction false} ChunkOriginsExact(segments: seq<Segment>, owners: seq<U32>, bytes: seq<U8>, base: U32, i: nat)
    requires i <= |owners| == |bytes|
    requires OwnersIndex(owners, segments)
    ensures forall chunk | chunk in ChunksFrom(segments, owners, bytes, base, i) ::
              && Tile(chunk.origins, 0, |chunk.data|)
              && forall a | 0 <= a < |chunk.origins| ::
                   NamesFirstSuppliers(segments, owners, chunk.offset, chunk.origins[a])
    decreases |owners| - i
  {
    if i < |owners| {
      if owners[i] == UNOWNED {
        ChunkOriginsExact(segments, owners, bytes, base, SameOwnerEnd(owners, i, UNOWNED));
      } else {
        ChunkOriginsExact(segments, owners, bytes, base, SuppliedEnd(owners, i));
        OriginsExact(segments, owners, i, i);
      }
    }
  }

  // ---------------------------------------------------------------- the whole stream

  /** Some tracked direction finished as `stream`, with these segments placed at these offsets. */
  ghost predicate Reconstructs(limits: Limits, d: Direction, offsets: seq<int>, stream: Stream) {
    && d.failure.None?
    && (d.segments != [] || d.hasSyn)
    && Place(limits, d, BaseOf(d)) == Placed(offsets, stream.expectedBytes)
    && |offsets| == |d.segments|
    && Agree(d.segments, offsets)
    && stream.sequence == BaseOf(d)
    && var owners := Owners(d.segments, offsets, stream.expectedBytes);
       var bytes := Overlaid(d.segments, offsets, stream.expectedBytes);
       && stream.chunks == ChunksFrom(d.segments, owners, bytes, stream.sequence, 0)
       && stream.gaps == GapsFrom(owners, 0)
       && stream.capturedBytes == TotalData(stream.chunks)
  }

  /** A stream that carries anything was reconstructed from the direction's segments. */
  lemma FinishedReconstructs(limits: Limits, key: FlowKey, d: Direction, cause: Finalizer, stream: Stream)
    requires stream in Finished(limits, key, d, cause)
    requires stream.chunks != [] || stream.gaps != []
    ensures Reconstructs(limits, d, Offsets(d.segments, BaseOf(d)), stream)
  {
  }

  /** Chunks and gaps are maximal alternating runs that partition the stream. */
  lemma StreamPartition(limits: Limits, d: Direction, offsets: seq<int>, stream: Stream)
    requires Reconstructs(limits, d, offsets, stream)
    ensures var owners := Owners(d.segments, offsets, stream.expectedBytes);
      && ExactRuns(owners, GapSpans(stream.gaps), true)
      && ExactRuns(owners, ChunkSpans(stream.chunks), false)
    ensures forall chunk | chunk in stream.chunks ::
              ChunkHolds(Overlaid(d.segments, offsets, stream.expectedBytes), stream.sequence, chunk)
  {
    var owners := Owners(d.segments, offsets, stream.expectedBytes);
    RunsExact(owners, true);
    RunsExact(owners, false);
    GapsAreRuns(owners, 0);
    var bytes := Overlaid(d.segments, offsets, stream.expectedBytes);
    ChunksAreRuns(d.segments, owners, bytes, stream.sequence, 0);
    ChunksHold(d.segments, owners, bytes, stream.sequence, 0);
  }

  function TotalMissing(gaps: seq<Gap>): nat {
    if gaps == [] then 0 else gaps[0].length + TotalMissing(gaps[1..])
  }

  lemma {:induction false} TotalDataPrepend(chunk: Chunk, chunks: seq<Chunk>)
    ensures TotalData([chunk] + chunks) == |chunk.data| + TotalData(chunks)
    decreases |chunks|
  {
    var all := [chunk] + chunks;
    if chunks == [] {
      assert all[..0] == [];
    } else {
      var front := chunks[..|chunks| - 1];
      TotalDataPrepend(chunk, front);
      assert all[..|all| - 1] == [chunk] + front;
    }
  }

  lemma {:induction false} LengthsAddUp(segments: seq<Segment>, owners: seq<U32>, bytes: seq<U8>, base: U32, i: nat)
    requires i <= |owners| == |bytes|
    requires OwnersIndex(owners, segments)
    ensures TotalData(ChunksFrom(segments, owners, bytes, base, i)) + TotalMissing(GapsFrom(owners, i)) == |owners| - i
    decreases |owners| - i
  {
    if i < |owners| {
      var end := RunEnd(owners, i);
      LengthsAddUp(segments, owners, bytes, base, end);
      if owners[i] != UNOWNED {
        TotalDataPrepend(ChunkAt(segments, owners, bytes, base, i), ChunksFrom(segments, owners, bytes, base, end));
      }
    }
  }

  /** Captured and missing bytes add up to the stream's length. */
  lemma StreamConservesLength(limits: Limits, d: Direction, offsets: seq<int>, stream: Stream)
    requires Reconstructs(limits, d, offsets, stream)
    ensures stream.capturedBytes + TotalMissing(stream.gaps) == stream.expectedBytes
  {
    var owners := Owners(d.segments, offsets, stream.expectedBytes);
    LengthsAddUp(d.segments, owners, Overlaid(d.segments, offsets, stream.expectedBytes), stream.sequence, 0);
  }

  /** Each chunk's origins tile it, and each names the first segment to supply its bytes. */
  lemma StreamOrigins(limits: Limits, d: Direction, offsets: seq<int>, stream: Stream)
    requires Reconstructs(limits, d, offsets, stream)
    ensures forall chunk | chunk in stream.chunks ::
              && Tile(chunk.origins, 0, |chunk.data|)
              && forall a | 0 <= a < |chunk.origins| ::
                   NamesFirstSuppliers(d.segments, Owners(d.segments, offsets, stream.expectedBytes),
                                       chunk.offset, chunk.origins[a])
  {
    var owners := Owners(d.segments, offsets, stream.expectedBytes);
    ChunkOriginsExact(d.segments, owners, Overlaid(d.segments, offsets, stream.expectedBytes), stream.sequence, 0);
  }

  /** The stream has byte `value` at position `p`. */
  ghost predicate HasByte(stream: Stream, p: int, value: U8) {
    exists a | 0 <= a < |stream.chunks| ::
      Contains(ChunkSpan(stream.chunks[a]), p) && stream.chunks[a].data[p - stream.chunks[a].offset] == value
  }

  /** The stream's chunks are the supplied runs of `owners`, holding `bytes`. */
  ghost predicate ChunksShow(stream: Stream, owners: seq<U32>, bytes: seq<U8>) {
    && |owners| == |bytes|
    && ExactRuns(owners, ChunkSpans(stream.chunks), false)
    && forall chunk | chunk in stream.chunks :: ChunkHolds(bytes, stream.sequence, chunk)
  }

  lemma ShownBytes(stream: Stream, owners: seq<U32>, bytes: seq<U8>, p: nat)
    requires ChunksShow(stream, owners, bytes)
    requires p < |owners| && owners[p] != UNOWNED
    ensures HasByte(stream, p, bytes[p])
  {
    var spans := ChunkSpans(stream.chunks);
    var a :| 0 <= a < |spans| && Contains(spans[a], p);
    var chunk := stream.chunks[a];
    assert spans[a] == ChunkSpan(chunk) && ChunkHolds(bytes, stream.sequence, chunk);
    assert chunk.data[p - chunk.offset] == bytes[p];
  }

  lemma ShownOnly(stream: Stream, owners: seq<U32>, bytes: seq<U8>, p: nat, value: U8)
    requires ChunksShow(stream, owners, bytes)
    requires HasByte(stream, p, value)
    ensures p < |owners| && owners[p] != UNOWNED && bytes[p] == value
  {
    var a :| 0 <= a < |stream.chunks| && Contains(ChunkSpan(stream.chunks[a]), p)
             && stream.chunks[a].data[p - stream.chunks[a].offset] == value;
    var chunk := stream.chunks[a];
    assert MaximalRun(owners, ChunkSpans(stream.chunks)[a], false);
    assert chunk in stream.chunks;
    assert chunk.data[p - chunk.offset] == bytes[p];
  }

  /** Where segments agree, whoever was first, the overlay shows every supplier's byte. */
  lemma AgreedByte(segments: seq<Segment>, offsets: seq<int>, i: nat, p: int)
    requires i < |segments| == |offsets| < UNOWNED
    requires Agree(segments, offsets) && Supplies(segments, offsets, i, p)
    ensures FirstSupplier(segments, offsets, |segments|, p) != UNOWNED
    ensures OverlaidByte(segments, offsets, |segments|, p) == SuppliedByte(segments, offsets, i, p)
  {
  }

  lemma ReconstructedShows(limits: Limits, d: Direction, offsets: seq<int>, stream: Stream)
    requires Reconstructs(limits, d, offsets, stream)
    ensures ChunksShow(stream, Owners(d.segments, offsets, stream.expectedBytes),
                       Overlaid(d.segments, offsets, stream.expectedBytes))
  {
    StreamPartition(limits, d, offsets, stream);
  }

  lemma ShownSegment(stream: Stream, segments: seq<Segment>, offsets: seq<int>, i: nat, j: nat)
    requires |segments| == |offsets| < UNOWNED && Agree(segments, offsets)
    requires ChunksShow(stream, Owners(segments, offsets, stream.expectedBytes),
                        Overlaid(segments, offsets, stream.expectedBytes))
    requires i < |segments| && j < |segments[i].bytes|
    requires 0 <= offsets[i] && offsets[i] + |segments[i].bytes| <= stream.expectedBytes
    ensures HasByte(stream, offsets[i] + j, segments[i].bytes[j])
  {
    var p := offsets[i] + j;
    AgreedByte(segments, offsets, i, p);
    ShownBytes(stream, Owners(segments, offsets, stream.expectedBytes),
               Overlaid(segments, offsets, stream.expectedBytes), p);
  }

  /** The stream holds every captured byte of every segment, at that segment's place. */
  lemma StreamAgreesWithSegments(limits: Limits, d: Direction, offsets: seq<int>, stream: Stream, i: nat, j: nat)
    requires Reconstructs(limits, d, offsets, stream)
    requires i < |d.segments| && j < |d.segments[i].bytes|
    ensures HasByte(stream, RelativeSequence(d.segments[i].sequence, stream.sequence) + j, d.segments[i].bytes[j])
  {
    PlacedInside(limits, d, stream.sequence);
    ReconstructedShows(limits, d, offsets, stream);
    ShownSegment(stream, d.segments, offsets, i, j);
  }

  /** Conversely, every byte of every chunk was captured in some segment. */
  lemma StreamInventsNothing(limits: Limits, d: Direction, offsets: seq<int>, stream: Stream, p: nat, value: U8)
    requires Reconstructs(limits, d, offsets, stream)
    requires HasByte(stream, p, value)
    ensures exists i: nat | i < |d.segments| ::
      Supplies(d.segments, offsets, i, p) && SuppliedByte(d.segments, offsets, i, p) == value
  {
    StreamPartition(limits, d, offsets, stream);
    var owners := Owners(d.segments, offsets, stream.expectedBytes);
    ShownOnly(stream, owners, Overlaid(d.segments, offsets, stream.expectedBytes), p, value);
    assert Supplies(d.segments, offsets, owners[p], p);
  }
}
