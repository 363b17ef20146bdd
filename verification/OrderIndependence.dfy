/** A finished direction does not depend on the order its segments arrived in, nor on repeats. */
module OrderIndependence {
  import opened Basics
  import opened TcpTypes
  import opened StreamAssembly

  ghost predicate SameBytes(a: Segment, b: Segment) {
    a.sequence == b.sequence && a.declared == b.declared && a.bytes == b.bytes
  }

  /** Where segments start, how long they are and what they carry, forgetting order, repeats and packets. */
  ghost function Carried(segments: seq<Segment>): set<(U32, U32, seq<U8>)> {
    set i | 0 <= i < |segments| :: (segments[i].sequence, segments[i].declared, segments[i].bytes)
  }

  lemma Twin(some: seq<Segment>, others: seq<Segment>, i: nat) returns (j: nat)
    requires Carried(some) <= Carried(others) && i < |some|
    ensures j < |others| && SameBytes(some[i], others[j])
  {
    assert (some[i].sequence, some[i].declared, some[i].bytes) in Carried(others);
    j :| 0 <= j < |others| && (some[i].sequence, some[i].declared, some[i].bytes)
                           == (others[j].sequence, others[j].declared, others[j].bytes);
  }

  /** The two directions were seen to carry the same segments, in any order and any number of times. */
  ghost predicate SameCapture(a: Direction, b: Direction) {
    && a.hasSyn == b.hasSyn && a.synSequence == b.synSequence
    && a.hasFin == b.hasFin && a.finSequence == b.finSequence
    && a.failure == b.failure
    && Carried(a.segments) == Carried(b.segments)
  }

  /** Streams that differ at most in which packets are named. */
  ghost predicate SameContent(a: Stream, b: Stream) {
    && a.sequence == b.sequence && a.expectedBytes == b.expectedBytes && a.capturedBytes == b.capturedBytes
    && a.synSeen == b.synSeen && a.finSeen == b.finSeen
    && a.status == b.status && a.error == b.error
    && a.gaps == b.gaps && SameChunks(a.chunks, b.chunks)
  }

  ghost predicate SameChunks(a: seq<Chunk>, b: seq<Chunk>) {
    && |a| == |b|
    && forall i | 0 <= i < |a| :: a[i].offset == b[i].offset && a[i].sequence == b[i].sequence && a[i].data == b[i].data
  }

  // ---------------------------------------------------------------- the base

  lemma {:induction false} EarliestIsLeast(segments: seq<Segment>, base: U32, i: nat)
    requires i < |segments|
    ensures EarliestOffset(segments, base) <= RelativeSequence(segments[i].sequence, base)
  {
    if i < |segments| - 1 {
      EarliestIsLeast(segments[..|segments| - 1], base, i);
    }
  }

  lemma {:induction false} EarliestIsSome(segments: seq<Segment>, base: U32) returns (i: nat)
    ensures EarliestOffset(segments, base) <= 0
    ensures EarliestOffset(segments, base) < 0 ==>
              i < |segments| && RelativeSequence(segments[i].sequence, base) == EarliestOffset(segments, base)
  {
    i := 0;
    if segments != [] {
      var front := segments[..|segments| - 1];
      i := EarliestIsSome(front, base);
      if EarliestOffset(front, base) > RelativeSequence(segments[|segments| - 1].sequence, base) {
        i := |segments| - 1;
      }
    }
  }

  /** Without a SYN, the stream begins at one of its segments. */
  lemma BaseIsAttained(d: Direction) returns (i: nat)
    requires !d.hasSyn && d.segments != []
    ensures i < |d.segments| && d.segments[i].sequence == BaseOf(d)
  {
    var front := d.segments[0].sequence;
    i := EarliestIsSome(d.segments, front);
    if EarliestOffset(d.segments, front) == 0 {
      i := 0;
    }
  }

  lemma OffsetFromFront(limits: Limits, a: seq<Segment>, b: seq<Segment>, base: U32, i: nat)
    requires Carried(b) <= Carried(a)
    requires forall i | 0 <= i < |a| :: Fits(limits, a[i], base)
    requires i < |b|
    ensures 0 <= RelativeSequence(b[i].sequence, base)
    ensures RelativeSequence(b[i].sequence, b[0].sequence)
         == RelativeSequence(b[i].sequence, base) - RelativeSequence(b[0].sequence, base)
  {
    var j := Twin(b, a, i);
    assert Fits(limits, a[j], base);
    var k := Twin(b, a, 0);
    assert Fits(limits, a[k], base);
    Shifted(b[i].sequence, b[0].sequence, base);
  }

  lemma EarliestFromFront(limits: Limits, a: seq<Segment>, b: seq<Segment>, base: U32, zero: nat)
    requires Carried(b) <= Carried(a)
    requires forall i | 0 <= i < |a| :: Fits(limits, a[i], base)
    requires zero < |b| && b[zero].sequence == base
    ensures EarliestOffset(b, b[0].sequence) == -RelativeSequence(b[0].sequence, base)
  {
    OffsetFromFront(limits, a, b, base, zero);
    EarliestIsLeast(b, b[0].sequence, zero);
    var k := EarliestIsSome(b, b[0].sequence);
    if k < |b| {
      OffsetFromFront(limits, a, b, base, k);
    }
    OffsetFromFront(limits, a, b, base, 0);
  }

  /** Where every segment fits, any other order finds the same base. */
  lemma BaseIndependent(limits: Limits, a: Direction, b: Direction)
    requires SameCapture(a, b)
    requires a.hasSyn || a.segments != []
    requires b.hasSyn || b.segments != []
    requires forall i | 0 <= i < |a.segments| :: Fits(limits, a.segments[i], BaseOf(a))
    ensures BaseOf(b) == BaseOf(a)
  {
    if !a.hasSyn {
      var i := BaseIsAttained(a);
      var zero := Twin(a.segments, b.segments, i);
      var base := BaseOf(a);
      EarliestFromFront(limits, a.segments, b.segments, base, zero);
      BackToBase(b.segments[0].sequence, base);
    }
  }

  lemma BackToBase(front: U32, base: U32)
    ensures Wrap32(front - RelativeSequence(front, base)) == base
  {
  }

  /** Distances from two bases less than half the sequence space apart differ by their distance. */
  lemma Shifted(sequence: U32, front: U32, base: U32)
    requires 0 <= RelativeSequence(sequence, base) && 0 <= RelativeSequence(front, base)
    ensures RelativeSequence(sequence, front) == RelativeSequence(sequence, base) - RelativeSequence(front, base)
  {
    RelativeSequenceUnique(sequence, front, RelativeSequence(sequence, base) - RelativeSequence(front, base));
  }

  // ---------------------------------------------------------------- the placement

  lemma FitIndependent(limits: Limits, a: seq<Segment>, b: seq<Segment>, base: U32)
    requires Carried(b) <= Carried(a)
    requires forall i | 0 <= i < |a| :: Fits(limits, a[i], base)
    ensures forall i | 0 <= i < |b| :: Fits(limits, b[i], base)
  {
    forall i | 0 <= i < |b|
      ensures Fits(limits, b[i], base)
    {
      var j := Twin(b, a, i);
    }
  }

  lemma {:induction false} ExtentWithin(a: seq<Segment>, b: seq<Segment>, base: U32)
    requires Carried(a) <= Carried(b)
    ensures DataExtent(a, base) <= DataExtent(b, base)
  {
    if a != [] {
      var front := a[..|a| - 1];
      assert forall i | 0 <= i < |front| :: front[i] == a[i];
      ExtentWithin(front, b, base);
      var j := Twin(a, b, |a| - 1);
      DataExtentCovers(b, base, j);
    }
  }

  ghost predicate SamePlacement(a: Placement, b: Placement) {
    match (a, b)
    case (Placed(_, m), Placed(_, n)) => m == n
    case (Misplaced(f), Misplaced(g)) => f == g
    case _ => false
  }

  lemma PlacementIndependent(limits: Limits, a: Direction, b: Direction)
    requires SameCapture(a, b)
    requires a.hasSyn || a.segments != []
    requires b.hasSyn || b.segments != []
    ensures SamePlacement(Place(limits, a, BaseOf(a)), Place(limits, b, BaseOf(b)))
    ensures Place(limits, a, BaseOf(a)).Placed? ==> BaseOf(a) == BaseOf(b)
  {
    if forall i | 0 <= i < |a.segments| :: Fits(limits, a.segments[i], BaseOf(a)) {
      BaseIndependent(limits, a, b);
      FitIndependent(limits, a.segments, b.segments, BaseOf(a));
      ExtentWithin(a.segments, b.segments, BaseOf(a));
      ExtentWithin(b.segments, a.segments, BaseOf(a));
    } else if forall i | 0 <= i < |b.segments| :: Fits(limits, b.segments[i], BaseOf(b)) {
      BaseIndependent(limits, b, a);
      FitIndependent(limits, b.segments, a.segments, BaseOf(b));
    }
  }

  // ---------------------------------------------------------------- the bytes

  ghost predicate PlacedAt(segments: seq<Segment>, offsets: seq<int>, base: U32) {
    |offsets| == |segments| && forall i | 0 <= i < |segments| :: offsets[i] == RelativeSequence(segments[i].sequence, base)
  }

  /** What one segment supplies, its twin supplies too. */
  lemma TwinSupplies(a: seq<Segment>, ao: seq<int>, b: seq<Segment>, bo: seq<int>, base: U32, i: nat, p: int)
    returns (j: nat)
    requires PlacedAt(a, ao, base) && PlacedAt(b, bo, base) && Carried(a) <= Carried(b)
    requires i < |a| && Supplies(a, ao, i, p)
    ensures j < |b| && Supplies(b, bo, j, p) && SuppliedByte(b, bo, j, p) == SuppliedByte(a, ao, i, p)
  {
    j := Twin(a, b, i);
  }

  lemma AgreementIndependent(a: seq<Segment>, ao: seq<int>, b: seq<Segment>, bo: seq<int>, base: U32)
    requires PlacedAt(a, ao, base) && PlacedAt(b, bo, base) && Carried(a) <= Carried(b)
    requires Agree(b, bo)
    ensures Agree(a, ao)
  {
    forall i: nat, j: nat, p | i < |a| && j < |a| && Supplies(a, ao, i, p) && Supplies(a, ao, j, p)
      ensures SuppliedByte(a, ao, i, p) == SuppliedByte(a, ao, j, p)
    {
      var k := TwinSupplies(a, ao, b, bo, base, i, p);
      var l := TwinSupplies(a, ao, b, bo, base, j, p);
    }
  }

  lemma ByteIndependent(a: seq<Segment>, ao: seq<int>, b: seq<Segment>, bo: seq<int>, base: U32, p: int)
    requires PlacedAt(a, ao, base) && PlacedAt(b, bo, base) && Carried(a) == Carried(b)
    requires |a| < UNOWNED && |b| < UNOWNED
    requires Agree(a, ao)
    ensures (FirstSupplier(a, ao, |a|, p) == UNOWNED) == (FirstSupplier(b, bo, |b|, p) == UNOWNED)
    ensures OverlaidByte(a, ao, |a|, p) == OverlaidByte(b, bo, |b|, p)
  {
    var i, j := FirstSupplier(a, ao, |a|, p), FirstSupplier(b, bo, |b|, p);
    if i != UNOWNED {
      var k := TwinSupplies(a, ao, b, bo, base, i, p);
    }
    if j != UNOWNED {
      var k := TwinSupplies(b, bo, a, ao, base, j, p);
    }
  }

  ghost predicate SamePattern(a: seq<U32>, b: seq<U32>) {
    |a| == |b| && forall p | 0 <= p < |a| :: (a[p] == UNOWNED) == (b[p] == UNOWNED)
  }

  lemma {:induction false} SuppliedEndIndependent(a: seq<U32>, b: seq<U32>, i: nat)
    requires SamePattern(a, b) && i <= |a|
    ensures SuppliedEnd(a, i) == SuppliedEnd(b, i)
    decreases |a| - i
  {
    if i < |a| && a[i] != UNOWNED {
      SuppliedEndIndependent(a, b, i + 1);
    }
  }

  lemma {:induction false} MissingEndIndependent(a: seq<U32>, b: seq<U32>, i: nat)
    requires SamePattern(a, b) && i <= |a|
    ensures SameOwnerEnd(a, i, UNOWNED) == SameOwnerEnd(b, i, UNOWNED)
    decreases |a| - i
  {
    if i < |a| && a[i] == UNOWNED {
      MissingEndIndependent(a, b, i + 1);
    }
  }

  lemma {:induction false} GapsIndependent(a: seq<U32>, b: seq<U32>, i: nat)
    requires SamePattern(a, b) && i <= |a|
    ensures GapsFrom(a, i) == GapsFrom(b, i)
    decreases |a| - i
  {
    if i < |a| {
      SuppliedEndIndependent(a, b, i);
      MissingEndIndependent(a, b, i);
      GapsIndependent(a, b, if a[i] == UNOWNED then SameOwnerEnd(a, i, UNOWNED) else SuppliedEnd(a, i));
    }
  }

  lemma {:induction false} ChunksIndependent(s: seq<Segment>, a: seq<U32>, t: seq<Segment>, b: seq<U32>, bytes: seq<U8>,
                                             base: U32, i: nat)
    requires SamePattern(a, b) && i <= |a| == |bytes|
    requires OwnersIndex(a, s) && OwnersIndex(b, t)
    ensures SameChunks(ChunksFrom(s, a, bytes, base, i), ChunksFrom(t, b, bytes, base, i))
    decreases |a| - i
  {
    if i < |a| {
      SuppliedEndIndependent(a, b, i);
      MissingEndIndependent(a, b, i);
      var end := if a[i] == UNOWNED then SameOwnerEnd(a, i, UNOWNED) else SuppliedEnd(a, i);
      ChunksIndependent(s, a, t, b, bytes, base, end);
      if a[i] != UNOWNED {
        assert ChunksFrom(s, a, bytes, base, i)[1..] == ChunksFrom(s, a, bytes, base, end);
        assert ChunksFrom(t, b, bytes, base, i)[1..] == ChunksFrom(t, b, bytes, base, end);
      }
    }
  }

  lemma {:induction false} SameTotals(a: seq<Chunk>, b: seq<Chunk>)
    requires SameChunks(a, b)
    ensures TotalData(a) == TotalData(b)
  {
    if a != [] {
      SameTotals(a[..|a| - 1], b[..|b| - 1]);
    }
  }

  // ---------------------------------------------------------------- the result

  lemma StreamIndependent(limits: Limits, key: FlowKey, a: Direction, b: Direction, cause: Finalizer, extent: nat)
    requires SameCapture(a, b)
    requires a.hasSyn || a.segments != []
    requires b.hasSyn || b.segments != []
    requires BaseOf(a) == BaseOf(b)
    requires Agree(a.segments, Offsets(a.segments, BaseOf(a)))
    ensures SameContent(
      StreamOf(limits, key, a, cause, BaseOf(a), Placed(Offsets(a.segments, BaseOf(a)), extent)),
      StreamOf(limits, key, b, cause, BaseOf(b), Placed(Offsets(b.segments, BaseOf(b)), extent)))
  {
    var base := BaseOf(a);
    var ao, bo := Offsets(a.segments, base), Offsets(b.segments, base);
    var aw, bw := Owners(a.segments, ao, extent), Owners(b.segments, bo, extent);
    var bytes := Overlaid(a.segments, ao, extent);
    forall p | 0 <= p < extent
      ensures (aw[p] == UNOWNED) == (bw[p] == UNOWNED)
      ensures bytes[p] == Overlaid(b.segments, bo, extent)[p]
    {
      ByteIndependent(a.segments, ao, b.segments, bo, base, p);
    }
    assert bytes == Overlaid(b.segments, bo, extent);
    GapsIndependent(aw, bw, 0);
    ChunksIndependent(a.segments, aw, b.segments, bw, bytes, base, 0);
    SameTotals(ChunksFrom(a.segments, aw, bytes, base, 0), ChunksFrom(b.segments, bw, bytes, base, 0));
  }

  /** Whether finishing gets as far as placing segments. */
  predicate Placeable(d: Direction) {
    d.failure.None? && (d.segments != [] || (d.hasFin && d.hasSyn))
  }

  lemma PlacedIndependent(limits: Limits, key: FlowKey, a: Direction, b: Direction, cause: Finalizer)
    requires SameCapture(a, b) && Placeable(a) && Placeable(b)
    requires Place(limits, a, BaseOf(a)).Placed?
    requires Agree(a.segments, Offsets(a.segments, BaseOf(a)))
    ensures var s, t := Finished(limits, key, a, cause), Finished(limits, key, b, cause);
      |s| == |t| && forall i | 0 <= i < |s| :: SameContent(s[i], t[i])
  {
    PlacementIndependent(limits, a, b);
    var base := BaseOf(a);
    AgreementIndependent(b.segments, Offsets(b.segments, base), a.segments, Offsets(a.segments, base), base);
    StreamIndependent(limits, key, a, b, cause, Place(limits, a, base).extent);
  }

  lemma UnplacedIndependent(limits: Limits, key: FlowKey, a: Direction, b: Direction, cause: Finalizer)
    requires SameCapture(a, b) && Placeable(a) && Placeable(b)
    requires Place(limits, a, BaseOf(a)).Placed? ==> !Agree(a.segments, Offsets(a.segments, BaseOf(a)))
    requires Place(limits, b, BaseOf(b)).Placed? ==> !Agree(b.segments, Offsets(b.segments, BaseOf(b)))
    ensures var s, t := Finished(limits, key, a, cause), Finished(limits, key, b, cause);
      |s| == |t| == 1 && SameContent(s[0], t[0])
  {
    PlacementIndependent(limits, a, b);
  }

  /** Directions that carried the same segments finish alike, whatever order they came in. */
  lemma FinishIndependent(limits: Limits, key: FlowKey, a: Direction, b: Direction, cause: Finalizer)
    requires SameCapture(a, b)
    ensures var s, t := Finished(limits, key, a, cause), Finished(limits, key, b, cause);
      |s| == |t| && forall i | 0 <= i < |s| :: SameContent(s[i], t[i])
  {
    assert (a.segments == []) == (b.segments == []) by {
      if a.segments != [] {
        var j := Twin(a.segments, b.segments, 0);
      }
      if b.segments != [] {
        var j := Twin(b.segments, a.segments, 0);
      }
    }
    if Placeable(a) {
      if Place(limits, a, BaseOf(a)).Placed? && Agree(a.segments, Offsets(a.segments, BaseOf(a))) {
        PlacedIndependent(limits, key, a, b, cause);
      } else if Place(limits, b, BaseOf(b)).Placed? && Agree(b.segments, Offsets(b.segments, BaseOf(b))) {
        PlacementIndependent(limits, a, b);
        var base := BaseOf(b);
        AgreementIndependent(a.segments, Offsets(a.segments, base), b.segments, Offsets(b.segments, base), base);
        assert false;
      } else {
        UnplacedIndependent(limits, key, a, b, cause);
      }
    }
  }
}
