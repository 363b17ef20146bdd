/** Turning a direction's segments into a stream of chunks and gaps (src/tcp_reassembly.cpp:305-457). */
module StreamAssembly {
  import opened Basics
  import opened TcpTypes

  /** Marks a position no segment supplied. */
  const UNOWNED: U32 := U32_MAX

  /** The signed distance from `base` to `sequence`: the one in the 32-bit window that lands on `sequence`. */
  function RelativeSequence(sequence: U32, base: U32): (distance: int)
    ensures -0x8000_0000 <= distance < 0x8000_0000
    ensures Wrap32(base + distance) == sequence
  {
    var difference := Wrap32(sequence - base);
    if difference <= 0x7FFF_FFFF then difference else difference - 0x1_0000_0000
  }

  lemma RelativeSequenceUnique(sequence: U32, base: U32, distance: int)
    requires -0x8000_0000 <= distance < 0x8000_0000
    requires Wrap32(base + distance) == sequence
    ensures RelativeSequence(sequence, base) == distance
  {
  }

  // ---------------------------------------------------------------- base and extent

  function EarliestOffset(segments: seq<Segment>, base: U32): int {
    if segments == [] then 0
    else Min(EarliestOffset(segments[..|segments| - 1], base), RelativeSequence(segments[|segments| - 1].sequence, base))
  }

  function BaseOf(d: Direction): U32
    requires d.hasSyn || d.segments != []
  {
    if d.hasSyn then Wrap32(d.synSequence + 1)
    else Wrap32(d.segments[0].sequence + EarliestOffset(d.segments, d.segments[0].sequence))
  }

  method StreamBase(d: Direction) returns (base: U32)
    requires d.hasSyn || d.segments != []
    ensures base == BaseOf(d)
  {
    base := if d.hasSyn then Wrap32(d.synSequence + 1) else d.segments[0].sequence;
    if !d.hasSyn {
      var firstOffset := 0;
      for i := 0 to |d.segments|
        invariant firstOffset == EarliestOffset(d.segments[..i], base)
      {
        assert d.segments[..i + 1][..i] == d.segments[..i];
        firstOffset := Min(firstOffset, RelativeSequence(d.segments[i].sequence, base));
      }
      assert d.segments[..|d.segments|] == d.segments;
      base := Wrap32(base + firstOffset);
    }
  }

  datatype Placement = Placed(offsets: seq<int>, extent: nat) | Misplaced(failure: Failure)

  predicate Fits(limits: Limits, segment: Segment, base: U32) {
    var offset := RelativeSequence(segment.sequence, base);
    0 <= offset <= limits.maxStreamBytes && segment.declared <= limits.maxStreamBytes - offset
  }

  function Offsets(segments: seq<Segment>, base: U32): seq<int> {
    seq(|segments|, i requires 0 <= i < |segments| => RelativeSequence(segments[i].sequence, base))
  }

  function DataExtent(segments: seq<Segment>, base: U32): nat {
    if segments == [] then 0
    else
      var segment := segments[|segments| - 1];
      Max(DataExtent(segments[..|segments| - 1], base), RelativeSequence(segment.sequence, base) + segment.declared)
  }

  function Place(limits: Limits, d: Direction, base: U32): Placement {
    if exists i | 0 <= i < |d.segments| :: !Fits(limits, d.segments[i], base) then
      Misplaced(Failure(Limit, SpanExceedsWindow))
    else if !d.hasFin then
      Placed(Offsets(d.segments, base), DataExtent(d.segments, base))
    else
      var end := RelativeSequence(d.finSequence, base);
      if end < 0 || end > limits.maxStreamBytes then Misplaced(Failure(Limit, FinExceedsWindow))
      else if end < DataExtent(d.segments, base) then Misplaced(Failure(Conflict, DataBeyondFin))
      else Placed(Offsets(d.segments, base), end)
  }

  method Measure(limits: Limits, d: Direction, base: U32) returns (placement: Placement)
    ensures placement == Place(limits, d, base)
  {
    var offsets, extent := [], 0;
    for i := 0 to |d.segments|
      invariant offsets == Offsets(d.segments, base)[..i]
      invariant extent == DataExtent(d.segments[..i], base)
      invariant forall j | 0 <= j < i :: Fits(limits, d.segments[j], base)
    {
      var segment := d.segments[i];
      var offset := RelativeSequence(segment.sequence, base);
      if offset < 0 || offset > limits.maxStreamBytes || segment.declared > limits.maxStreamBytes - offset {
        assert !Fits(limits, d.segments[i], base);
        return Misplaced(Failure(Limit, SpanExceedsWindow));
      }
      assert d.segments[..i + 1][..i] == d.segments[..i];
      offsets := offsets + [offset];
      extent := Max(extent, offset + segment.declared);
    }
    assert d.segments[..|d.segments|] == d.segments;
    if d.hasFin {
      var end := RelativeSequence(d.finSequence, base);
      if end < 0 || end > limits.maxStreamBytes {
        return Misplaced(Failure(Limit, FinExceedsWindow));
      }
      if end < extent {
        return Misplaced(Failure(Conflict, DataBeyondFin));
      }
      extent := end;
    }
    return Placed(offsets, extent);
  }

  // ---------------------------------------------------------------- overlay

  predicate Supplies(segments: seq<Segment>, offsets: seq<int>, i: nat, p: int)
    requires i < |segments| == |offsets|
  {
    offsets[i] <= p < offsets[i] + |segments[i].bytes|
  }

  function SuppliedByte(segments: seq<Segment>, offsets: seq<int>, i: nat, p: int): U8
    requires i < |segments| == |offsets|
    requires Supplies(segments, offsets, i, p)
  {
    segments[i].bytes[p - offsets[i]]
  }

  /** No two segments supply different bytes at one position. */
  ghost predicate Agree(segments: seq<Segment>, offsets: seq<int>)
    requires |segments| == |offsets|
  {
    forall i: nat, j: nat, p |
      i < |segments| && j < |segments| && Supplies(segments, offsets, i, p) && Supplies(segments, offsets, j, p) ::
      SuppliedByte(segments, offsets, i, p) == SuppliedByte(segments, offsets, j, p)
  }

  /** Which of the first `n` segments was first to supply position `p`. */
  function FirstSupplier(segments: seq<Segment>, offsets: seq<int>, n: nat, p: int): (owner: U32)
    requires n <= |segments| == |offsets| < UNOWNED
    ensures owner == UNOWNED ==> forall i: nat | i < n :: !Supplies(segments, offsets, i, p)
    ensures owner != UNOWNED ==> owner < n && Supplies(segments, offsets, owner, p)
    ensures owner != UNOWNED ==> forall i: nat | i < owner :: !Supplies(segments, offsets, i, p)
  {
    if n == 0 then UNOWNED
    else
      var before := FirstSupplier(segments, offsets, n - 1, p);
      if before == UNOWNED && Supplies(segments, offsets, n - 1, p) then n - 1 else before
  }

  function Owners(segments: seq<Segment>, offsets: seq<int>, extent: nat): seq<U32>
    requires |segments| == |offsets| < UNOWNED
  {
    seq(extent, p requires 0 <= p < extent => FirstSupplier(segments, offsets, |segments|, p))
  }

  function OverlaidByte(segments: seq<Segment>, offsets: seq<int>, n: nat, p: int): U8
    requires n <= |segments| == |offsets| < UNOWNED
  {
    var owner := FirstSupplier(segments, offsets, n, p);
    if owner == UNOWNED then 0 else SuppliedByte(segments, offsets, owner, p)
  }

  function Overlaid(segments: seq<Segment>, offsets: seq<int>, extent: nat): seq<U8>
    requires |segments| == |offsets| < UNOWNED
  {
    seq(extent, p requires 0 <= p < extent => OverlaidByte(segments, offsets, |segments|, p))
  }

  /** The state of the two buffers once the first `n` segments are copied. */
  ghost predicate OverlaidUpTo(segments: seq<Segment>, offsets: seq<int>, n: nat, bytes: seq<U8>, owners: seq<U32>)
    requires n <= |segments| == |offsets| < UNOWNED
  {
    && |bytes| == |owners|
    && (forall p | 0 <= p < |owners| :: owners[p] == FirstSupplier(segments, offsets, n, p))
    && (forall p | 0 <= p < |bytes| :: bytes[p] == OverlaidByte(segments, offsets, n, p))
  }

  /** Every byte of the first `n` segments agrees with what the buffer holds. */
  ghost predicate Confirmed(segments: seq<Segment>, offsets: seq<int>, n: nat, bytes: seq<U8>)
    requires n <= |segments| == |offsets|
  {
    forall i: nat, p | i < n && 0 <= p < |bytes| && Supplies(segments, offsets, i, p) ::
      bytes[p] == SuppliedByte(segments, offsets, i, p)
  }

  method Overlay(segments: seq<Segment>, offsets: seq<int>, bytes: array<U8>, owners: array<U32>) returns (ok: bool)
    requires |segments| == |offsets| < UNOWNED
    requires bytes as object != owners as object
    requires bytes.Length == owners.Length
    requires forall i | 0 <= i < |segments| :: 0 <= offsets[i] && offsets[i] + |segments[i].bytes| <= bytes.Length
    requires forall p | 0 <= p < bytes.Length :: bytes[p] == 0 && owners[p] == UNOWNED
    modifies bytes, owners
    ensures ok <==> Agree(segments, offsets)
    ensures ok ==> owners[..] == Owners(segments, offsets, owners.Length)
    ensures ok ==> bytes[..] == Overlaid(segments, offsets, bytes.Length)
  {
    for i := 0 to |segments|
      invariant OverlaidUpTo(segments, offsets, i, bytes[..], owners[..])
      invariant Confirmed(segments, offsets, i, bytes[..])
    {
      var fits := OverlaySegment(segments, offsets, i, bytes, owners);
      if !fits {
        return false;
      }
    }
    assert Agree(segments, offsets) by {
      forall i: nat, j: nat, p |
        i < |segments| && j < |segments| && Supplies(segments, offsets, i, p) && Supplies(segments, offsets, j, p)
        ensures SuppliedByte(segments, offsets, i, p) == SuppliedByte(segments, offsets, j, p)
      {
        assert bytes[..][p] == SuppliedByte(segments, offsets, i, p);
      }
    }
    return true;
  }

  /** The inner loop of Overlay: copies segment `i`. */
  method OverlaySegment(segments: seq<Segment>, offsets: seq<int>, i: nat, bytes: array<U8>, owners: array<U32>)
    returns (ok: bool)
    requires i < |segments| == |offsets| < UNOWNED
    requires bytes as object != owners as object
    requires bytes.Length == owners.Length
    requires 0 <= offsets[i] && offsets[i] + |segments[i].bytes| <= bytes.Length
    requires OverlaidUpTo(segments, offsets, i, bytes[..], owners[..])
    requires Confirmed(segments, offsets, i, bytes[..])
    modifies bytes, owners
    ensures !ok ==> !Agree(segments, offsets)
    ensures ok ==> OverlaidUpTo(segments, offsets, i + 1, bytes[..], owners[..])
    ensures ok ==> Confirmed(segments, offsets, i + 1, bytes[..])
  {
    var segment := segments[i];
    for j := 0 to |segment.bytes|
      invariant forall p | 0 <= p < bytes.Length && !(offsets[i] <= p < offsets[i] + j) ::
          bytes[p] == old(bytes[p]) && owners[p] == old(owners[p])
      invariant forall p | offsets[i] <= p < offsets[i] + j ::
          owners[p] == FirstSupplier(segments, offsets, i + 1, p) && bytes[p] == segment.bytes[p - offsets[i]]
      invariant forall p | offsets[i] <= p < offsets[i] + j && old(owners[p]) != UNOWNED :: bytes[p] == old(bytes[p])
    {
      var pos := offsets[i] + j;
      assert owners[pos] == old(owners[..])[pos] && bytes[pos] == old(bytes[..])[pos];
      assert Supplies(segments, offsets, i, pos);
      if owners[pos] != UNOWNED && bytes[pos] != segment.bytes[j] {
        assert Supplies(segments, offsets, owners[pos], pos);
        assert SuppliedByte(segments, offsets, owners[pos], pos) != SuppliedByte(segments, offsets, i, pos);
        return false;
      }
      if owners[pos] == UNOWNED {
        owners[pos] := i;
        bytes[pos] := segment.bytes[j];
      }
    }
    forall p | 0 <= p < bytes.Length
      ensures owners[..][p] == FirstSupplier(segments, offsets, i + 1, p)
      ensures bytes[..][p] == OverlaidByte(segments, offsets, i + 1, p)
    {
      assert old(owners[..])[p] == FirstSupplier(segments, offsets, i, p);
      assert old(bytes[..])[p] == OverlaidByte(segments, offsets, i, p);
    }
    forall k: nat, p | k < i + 1 && 0 <= p < bytes.Length && Supplies(segments, offsets, k, p)
      ensures bytes[..][p] == SuppliedByte(segments, offsets, k, p)
    {
      if k < i {
        assert old(bytes[..])[p] == SuppliedByte(segments, offsets, k, p);
        assert old(owners[..])[p] == FirstSupplier(segments, offsets, i, p);
      }
    }
    return true;
  }

  // ---------------------------------------------------------------- chunks and gaps

  /** Where the run of positions owned by `owner` from `i` on ends. */
  function SameOwnerEnd(owners: seq<U32>, i: nat, owner: U32): (end: nat)
    requires i <= |owners|
    ensures i <= end <= |owners|
    decreases |owners| - i
  {
    if i < |owners| && owners[i] == owner then SameOwnerEnd(owners, i + 1, owner) else i
  }

  lemma {:induction false} SameOwnerRun(owners: seq<U32>, i: nat, owner: U32)
    requires i <= |owners|
    ensures var end := SameOwnerEnd(owners, i, owner);
      (forall p | i <= p < end :: owners[p] == owner) && (end < |owners| ==> owners[end] != owner)
    decreases |owners| - i
  {
    if i < |owners| && owners[i] == owner {
      SameOwnerRun(owners, i + 1, owner);
    }
  }

  /** Where the run of supplied positions from `i` on ends. */
  function SuppliedEnd(owners: seq<U32>, i: nat): (end: nat)
    requires i <= |owners|
    ensures i <= end <= |owners|
    decreases |owners| - i
  {
    if i < |owners| && owners[i] != UNOWNED then SuppliedEnd(owners, i + 1) else i
  }

  lemma {:induction false} SuppliedRun(owners: seq<U32>, i: nat)
    requires i <= |owners|
    ensures var end := SuppliedEnd(owners, i);
      (forall p | i <= p < end :: owners[p] != UNOWNED) && (end < |owners| ==> owners[end] == UNOWNED)
    decreases |owners| - i
  {
    if i < |owners| && owners[i] != UNOWNED {
      SuppliedRun(owners, i + 1);
    }
  }

  ghost predicate OwnersIndex(owners: seq<U32>, segments: seq<Segment>) {
    forall p | 0 <= p < |owners| && owners[p] != UNOWNED :: owners[p] < |segments|
  }

  /** The origins of the chunk that began at `begin`, from position `i` on. */
  function OriginsFrom(segments: seq<Segment>, owners: seq<U32>, begin: nat, i: nat): seq<ByteOrigin>
    requires begin <= i <= |owners|
    requires OwnersIndex(owners, segments)
    decreases |owners| - i
  {
    if i == |owners| || owners[i] == UNOWNED then []
    else
      var end := SameOwnerEnd(owners, i, owners[i]);
      [ByteOrigin(i - begin, end - i, segments[owners[i]].stamp)] + OriginsFrom(segments, owners, begin, end)
  }

  function ChunkAt(segments: seq<Segment>, owners: seq<U32>, bytes: seq<U8>, base: U32, i: nat): Chunk
    requires i < |owners| == |bytes|
    requires OwnersIndex(owners, segments)
  {
    Chunk(i, Wrap32(base + i), bytes[i..SuppliedEnd(owners, i)], OriginsFrom(segments, owners, i, i))
  }

  function ChunksFrom(segments: seq<Segment>, owners: seq<U32>, bytes: seq<U8>, base: U32, i: nat): seq<Chunk>
    requires i <= |owners| == |bytes|
    requires OwnersIndex(owners, segments)
    decreases |owners| - i
  {
    if i == |owners| then []
    else if owners[i] == UNOWNED then
      ChunksFrom(segments, owners, bytes, base, SameOwnerEnd(owners, i, UNOWNED))
    else
      [ChunkAt(segments, owners, bytes, base, i)] +
      ChunksFrom(segments, owners, bytes, base, SuppliedEnd(owners, i))
  }

  function GapsFrom(owners: seq<U32>, i: nat): seq<Gap>
    requires i <= |owners|
    decreases |owners| - i
  {
    if i == |owners| then []
    else if owners[i] == UNOWNED then
      var end := SameOwnerEnd(owners, i, UNOWNED);
      [Gap(i, end - i)] + GapsFrom(owners, end)
    else
      GapsFrom(owners, SuppliedEnd(owners, i))
  }

  function TotalData(chunks: seq<Chunk>): nat {
    if chunks == [] then 0 else TotalData(chunks[..|chunks| - 1]) + |chunks[|chunks| - 1].data|
  }

  method FindRunEnd(owners: array<U32>, begin: nat, owner: U32) returns (offset: nat)
    requires begin <= owners.Length
    ensures offset == SameOwnerEnd(owners[..], begin, owner)
  {
    offset := begin;
    while offset < owners.Length && owners[offset] == owner
      invariant begin <= offset <= owners.Length
      invariant SameOwnerEnd(owners[..], begin, owner) == SameOwnerEnd(owners[..], offset, owner)
    {
      offset := offset + 1;
    }
  }

  lemma {:induction false} SuppliedEndAfter(owners: seq<U32>, i: nat, j: nat)
    requires i <= j <= |owners|
    requires forall p | i <= p < j :: owners[p] != UNOWNED
    ensures SuppliedEnd(owners, i) == SuppliedEnd(owners, j)
    decreases j - i
  {
    if i < j {
      SuppliedEndAfter(owners, i + 1, j);
    }
  }

  /** One chunk, with one origin per run of bytes from the same segment. */
  method EmitChunk(segments: seq<Segment>, bytes: array<U8>, owners: array<U32>, base: U32, begin: nat)
    returns (chunk: Chunk, offset: nat)
    requires begin < owners.Length == bytes.Length
    requires owners[begin] != UNOWNED
    requires OwnersIndex(owners[..], segments)
    ensures chunk == ChunkAt(segments, owners[..], bytes[..], base, begin)
    ensures offset == SuppliedEnd(owners[..], begin)
  {
    var extent := bytes.Length;
    var origins := [];
    offset := begin;
    ghost var held := owners[..];
    while offset < extent && owners[offset] != UNOWNED
      invariant begin <= offset <= extent
      invariant SuppliedEnd(held, begin) == SuppliedEnd(held, offset)
      invariant OriginsFrom(segments, held, begin, begin) == origins + OriginsFrom(segments, held, begin, offset)
    {
      var owner := owners[offset];
      var originBegin := offset;
      offset := FindRunEnd(owners, originBegin, owner);
      SameOwnerRun(held, originBegin, owner);
      SuppliedEndAfter(held, originBegin, offset);
      OneOrigin(segments, held, begin, originBegin);
      origins := origins + [ByteOrigin(originBegin - begin, offset - originBegin, segments[owner].stamp)];
    }
    chunk := Chunk(begin, Wrap32(base + begin), bytes[begin..offset], origins);
    assert bytes[begin..offset] == bytes[..][begin..offset];
  }

  lemma OneOrigin(segments: seq<Segment>, owners: seq<U32>, begin: nat, i: nat)
    requires begin <= i < |owners| && owners[i] != UNOWNED
    requires OwnersIndex(owners, segments)
    ensures var end := SameOwnerEnd(owners, i, owners[i]);
      OriginsFrom(segments, owners, begin, i)
      == [ByteOrigin(i - begin, end - i, segments[owners[i]].stamp)] + OriginsFrom(segments, owners, begin, end)
  {
  }

  /** Splits the overlaid bytes into gaps and chunks. */
  method Emit(segments: seq<Segment>, bytes: array<U8>, owners: array<U32>, base: U32)
    returns (chunks: seq<Chunk>, gaps: seq<Gap>, capturedBytes: nat)
    requires owners.Length == bytes.Length
    requires OwnersIndex(owners[..], segments)
    ensures chunks == ChunksFrom(segments, owners[..], bytes[..], base, 0)
    ensures gaps == GapsFrom(owners[..], 0)
    ensures capturedBytes == TotalData(chunks)
  {
    var extent := bytes.Length;
    var offset := 0;
    chunks, gaps, capturedBytes := [], [], 0;
    ghost var held, data := owners[..], bytes[..];
    while offset < extent
      invariant 0 <= offset <= extent
      invariant EmittedAfter(segments, held, data, base, 0, Emission([], [], 0))
             == EmittedAfter(segments, held, data, base, offset, Emission(chunks, gaps, capturedBytes))
      decreases extent - offset
    {
      var begin := offset;
      if owners[offset] == UNOWNED {
        offset := FindRunEnd(owners, begin, UNOWNED);
        gaps := gaps + [Gap(begin, offset - begin)];
      } else {
        var chunk;
        chunk, offset := EmitChunk(segments, bytes, owners, base, begin);
        chunks := chunks + [chunk];
        capturedBytes := capturedBytes + |chunk.data|;
      }
    }
    EmittedIs(segments, held, data, base, 0, Emission([], [], 0));
  }

  datatype Emission = Emission(chunks: seq<Chunk>, gaps: seq<Gap>, capturedBytes: nat)

  /** What has been emitted in the end, given what was emitted before position `i`. */
  ghost function EmittedAfter(segments: seq<Segment>, owners: seq<U32>, bytes: seq<U8>, base: U32, i: nat, done: Emission): Emission
    requires i <= |owners| == |bytes|
    requires OwnersIndex(owners, segments)
    decreases |owners| - i
  {
    if i == |owners| then done
    else if owners[i] == UNOWNED then
      var end := SameOwnerEnd(owners, i, UNOWNED);
      EmittedAfter(segments, owners, bytes, base, end, done.(gaps := done.gaps + [Gap(i, end - i)]))
    else
      var chunk := ChunkAt(segments, owners, bytes, base, i);
      EmittedAfter(segments, owners, bytes, base, SuppliedEnd(owners, i),
                   done.(chunks := done.chunks + [chunk], capturedBytes := done.capturedBytes + |chunk.data|))
  }

  lemma {:induction false} EmittedIs(segments: seq<Segment>, owners: seq<U32>, bytes: seq<U8>, base: U32, i: nat, done: Emission)
    requires i <= |owners| == |bytes|
    requires OwnersIndex(owners, segments)
    requires done.capturedBytes == TotalData(done.chunks)
    ensures var all := EmittedAfter(segments, owners, bytes, base, i, done);
      && all.chunks == done.chunks + ChunksFrom(segments, owners, bytes, base, i)
      && all.gaps == done.gaps + GapsFrom(owners, i)
      && all.capturedBytes == TotalData(all.chunks)
    decreases |owners| - i
  {
    if i < |owners| {
      if owners[i] == UNOWNED {
        var end := SameOwnerEnd(owners, i, UNOWNED);
        var gap := Gap(i, end - i);
        EmittedIs(segments, owners, bytes, base, end, done.(gaps := done.gaps + [gap]));
        assert done.gaps + [gap] + GapsFrom(owners, end) == done.gaps + ([gap] + GapsFrom(owners, end));
      } else {
        var end := SuppliedEnd(owners, i);
        var chunk, rest := ChunkAt(segments, owners, bytes, base, i), ChunksFrom(segments, owners, bytes, base, end);
        assert (done.chunks + [chunk])[..|done.chunks|] == done.chunks;
        EmittedIs(segments, owners, bytes, base, end,
                  done.(chunks := done.chunks + [chunk], capturedBytes := done.capturedBytes + |chunk.data|));
        assert done.chunks + [chunk] + rest == done.chunks + ([chunk] + rest);
      }
    }
  }

  // ---------------------------------------------------------------- finishing a direction

  function Diagnostic(key: FlowKey, d: Direction, failure: Failure, cause: Finalizer): Stream {
    Stream(key, d.id, Wrap32(d.synSequence + 1), 0, 0, d.hasSyn, d.hasFin, d.first, d.last,
           failure.status, failure.error, cause, [], [])
  }

  /** Offsets put every captured byte inside the stream. */
  lemma PlacedInside(limits: Limits, d: Direction, base: U32)
    requires Place(limits, d, base).Placed?
    ensures var placement := Place(limits, d, base);
      && |placement.offsets| == |d.segments|
      && placement.extent <= limits.maxStreamBytes
      && forall i | 0 <= i < |d.segments| ::
           0 <= placement.offsets[i] && placement.offsets[i] + d.segments[i].declared <= placement.extent
  {
    forall i | 0 <= i < |d.segments|
      ensures RelativeSequence(d.segments[i].sequence, base) + d.segments[i].declared <= DataExtent(d.segments, base)
    {
      DataExtentCovers(d.segments, base, i);
    }
    DataExtentBounded(limits, d.segments, base);
  }

  lemma {:induction false} DataExtentCovers(segments: seq<Segment>, base: U32, i: nat)
    requires i < |segments|
    ensures RelativeSequence(segments[i].sequence, base) + segments[i].declared <= DataExtent(segments, base)
  {
    if i < |segments| - 1 {
      DataExtentCovers(segments[..|segments| - 1], base, i);
    }
  }

  lemma {:induction false} DataExtentBounded(limits: Limits, segments: seq<Segment>, base: U32)
    requires forall i | 0 <= i < |segments| :: Fits(limits, segments[i], base)
    ensures DataExtent(segments, base) <= limits.maxStreamBytes
  {
    if segments != [] {
      DataExtentBounded(limits, segments[..|segments| - 1], base);
    }
  }

  /** The stream of a direction whose segments were placed and agree. */
  function StreamOf(limits: Limits, key: FlowKey, d: Direction, cause: Finalizer, base: U32, placement: Placement): Stream
    requires placement.Placed? && |placement.offsets| == |d.segments| < UNOWNED
  {
    var owners := Owners(d.segments, placement.offsets, placement.extent);
    var bytes := Overlaid(d.segments, placement.offsets, placement.extent);
    var chunks := ChunksFrom(d.segments, owners, bytes, base, 0);
    var gaps := GapsFrom(owners, 0);
    var status, error :=
      if !d.hasSyn then Unanchored else if gaps != [] then Gapped else Contiguous,
      if !d.hasSyn then SynNotCaptured else if gaps != [] then MissingBytes else NoError;
    Stream(key, d.id, base, placement.extent, TotalData(chunks), d.hasSyn, d.hasFin, d.first, d.last,
           status, error, cause, chunks, gaps)
  }

  /** What finishing a direction emits: at most one stream, or the diagnostic that replaces it. */
  ghost function Finished(limits: Limits, key: FlowKey, d: Direction, cause: Finalizer): seq<Stream>
  {
    if d.failure.Some? then [Diagnostic(key, d, d.failure.value, cause)]
    else if d.segments == [] && !(d.hasFin && d.hasSyn) then []
    else
      var base := BaseOf(d);
      var placement := Place(limits, d, base);
      if placement.Misplaced? then [Diagnostic(key, d, placement.failure, cause)]
      else if !Agree(d.segments, placement.offsets) then
        [Diagnostic(key, d, Failure(Conflict, SegmentsDisagree), cause)]
      else if placement.extent == 0 then []
      else [StreamOf(limits, key, d, cause, base, placement)]
  }

  method Finish(limits: Limits, key: FlowKey, d: Direction, cause: Finalizer) returns (result: seq<Stream>)
    ensures result == Finished(limits, key, d, cause)
  {
    if d.failure.Some? {
      return [Diagnostic(key, d, d.failure.value, cause)];
    }
    if d.segments == [] && !d.hasFin {
      return [];
    }
    if !d.hasSyn && d.segments == [] {
      return [];
    }
    var base := StreamBase(d);
    var placement := Measure(limits, d, base);
    if placement.Misplaced? {
      return [Diagnostic(key, d, placement.failure, cause)];
    }
    PlacedInside(limits, d, base);
    var extent := placement.extent;
    var bytes := new U8[extent](_ => 0);
    var owners := new U32[extent](_ => UNOWNED);
    var agreed := Overlay(d.segments, placement.offsets, bytes, owners);
    if !agreed {
      return [Diagnostic(key, d, Failure(Conflict, SegmentsDisagree), cause)];
    }
    var chunks, gaps, captured := Emit(d.segments, bytes, owners, base);
    var stream := Diagnostic(key, d, Failure(Contiguous, NoError), cause).(
      sequence := base, expectedBytes := extent, capturedBytes := captured, chunks := chunks, gaps := gaps);
    if !d.hasSyn {
      stream := stream.(status := Unanchored, error := SynNotCaptured);
    } else if gaps != [] {
      stream := stream.(status := Gapped, error := MissingBytes);
    }
    result := if extent > 0 then [stream] else [];
  }
}
