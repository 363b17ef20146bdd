/** A direction that carried pieces of one byte stream after its SYN finishes as that stream. */
module Conversation {
  import opened Basics
  import opened TcpTypes
  import opened StreamAssembly
  import opened StreamProperties
  import opened DnsFraming

  /** One direction's bytes, as its sender wrote them: they follow the initial sequence number. */
  datatype Conversation = Conversation(key: FlowKey, isn: U32, bytes: seq<U8>)
  {
    function Start(): U32 {
      Wrap32(isn + 1)
    }
  }

  /** The segment is the part of the conversation at `offset`, wholly captured. */
  predicate IsSlice(c: Conversation, segment: Segment, offset: int) {
    && 0 <= offset && offset + segment.declared <= |c.bytes|
    && segment.sequence == Wrap32(c.Start() + offset)
    && segment.bytes == c.bytes[offset..offset + segment.declared]
  }

  /** The segment is some part of the conversation. */
  ghost predicate IsPart(c: Conversation, segment: Segment) {
    exists offset :: IsSlice(c, segment, offset)
  }

  /** The direction saw the conversation's SYN, only slices of it, and its FIN only at its end. */
  ghost predicate Follows(d: Direction, c: Conversation) {
    && d.failure.None? && d.hasSyn && d.synSequence == c.isn
    && (d.hasFin ==> d.finSequence == Wrap32(c.Start() + |c.bytes|))
    && forall i | 0 <= i < |d.segments| :: IsPart(c, d.segments[i])
  }

  /** Every byte of the conversation is in some segment. */
  ghost predicate Whole(d: Direction, c: Conversation) {
    forall p | 0 <= p < |c.bytes| :: Seen(d, c, p)
  }

  ghost predicate Seen(d: Direction, c: Conversation, p: int) {
    exists i, offset | 0 <= i < |d.segments| ::
      IsSlice(c, d.segments[i], offset) && offset <= p < offset + d.segments[i].declared
  }

  /** The conversation fits the reassembly window. */
  predicate Fitting(limits: Limits, c: Conversation) {
    |c.bytes| <= limits.maxStreamBytes && |c.bytes| <= 0x7FFF_FFFF
  }

  // ---------------------------------------------------------------- placement

  lemma SliceOffset(c: Conversation, segment: Segment, offset: int)
    requires IsSlice(c, segment, offset) && |c.bytes| <= 0x7FFF_FFFF
    ensures RelativeSequence(segment.sequence, c.Start()) == offset
  {
    RelativeSequenceUnique(segment.sequence, c.Start(), offset);
  }

  lemma SliceAt(d: Direction, c: Conversation, i: nat)
    requires Follows(d, c) && |c.bytes| <= 0x7FFF_FFFF && i < |d.segments|
    ensures IsSlice(c, d.segments[i], RelativeSequence(d.segments[i].sequence, c.Start()))
  {
    assert IsPart(c, d.segments[i]);
    var offset :| IsSlice(c, d.segments[i], offset);
    SliceOffset(c, d.segments[i], offset);
  }

  lemma {:induction false} SliceExtent(segments: seq<Segment>, c: Conversation)
    requires |c.bytes| <= 0x7FFF_FFFF
    requires forall i | 0 <= i < |segments| :: IsSlice(c, segments[i], RelativeSequence(segments[i].sequence, c.Start()))
    ensures DataExtent(segments, c.Start()) <= |c.bytes|
  {
    if segments != [] {
      SliceExtent(segments[..|segments| - 1], c);
    }
  }

  /** Every segment is placed where the conversation has it. */
  lemma FollowsPlaced(limits: Limits, d: Direction, c: Conversation)
    requires Follows(d, c) && Fitting(limits, c)
    ensures BaseOf(d) == c.Start()
    ensures Place(limits, d, c.Start()).Placed?
    ensures Place(limits, d, c.Start()).extent <= |c.bytes|
    ensures Place(limits, d, c.Start()).offsets == Offsets(d.segments, c.Start())
    ensures forall i | 0 <= i < |d.segments| :: IsSlice(c, d.segments[i], Offsets(d.segments, c.Start())[i])
  {
    forall i | 0 <= i < |d.segments|
      ensures IsSlice(c, d.segments[i], RelativeSequence(d.segments[i].sequence, c.Start()))
    {
      SliceAt(d, c, i);
    }
    SliceExtent(d.segments, c);
    forall i | 0 <= i < |d.segments|
      ensures Fits(limits, d.segments[i], c.Start())
    {
    }
    if d.hasFin {
      RelativeSequenceUnique(d.finSequence, c.Start(), |c.bytes|);
    }
  }

  // ---------------------------------------------------------------- bytes

  ghost predicate AllSlices(segments: seq<Segment>, offsets: seq<int>, c: Conversation) {
    |segments| == |offsets| && forall i | 0 <= i < |segments| :: IsSlice(c, segments[i], offsets[i])
  }

  lemma SlicesAgree(segments: seq<Segment>, offsets: seq<int>, c: Conversation)
    requires AllSlices(segments, offsets, c)
    ensures Agree(segments, offsets)
  {
    forall i: nat, p | i < |segments| && Supplies(segments, offsets, i, p)
      ensures SuppliedByte(segments, offsets, i, p) == c.bytes[p]
    {
      assert IsSlice(c, segments[i], offsets[i]);
    }
  }

  lemma SlicesOverlay(segments: seq<Segment>, offsets: seq<int>, c: Conversation, p: int)
    requires AllSlices(segments, offsets, c) && |segments| < UNOWNED
    requires FirstSupplier(segments, offsets, |segments|, p) != UNOWNED
    ensures 0 <= p < |c.bytes| && OverlaidByte(segments, offsets, |segments|, p) == c.bytes[p]
  {
    var owner := FirstSupplier(segments, offsets, |segments|, p);
    assert IsSlice(c, segments[owner], offsets[owner]);
  }

  /** What has been overlaid shows the conversation wherever anything was supplied. */
  ghost predicate Shows(owners: seq<U32>, bytes: seq<U8>, c: Conversation) {
    && |owners| == |bytes| <= |c.bytes|
    && forall p | 0 <= p < |owners| && owners[p] != UNOWNED :: bytes[p] == c.bytes[p]
  }

  lemma SlicesShow(segments: seq<Segment>, offsets: seq<int>, c: Conversation, extent: nat)
    requires AllSlices(segments, offsets, c) && |segments| < UNOWNED && extent <= |c.bytes|
    ensures Shows(Owners(segments, offsets, extent), Overlaid(segments, offsets, extent), c)
  {
    var owners, bytes := Owners(segments, offsets, extent), Overlaid(segments, offsets, extent);
    forall p | 0 <= p < |owners| && owners[p] != UNOWNED
      ensures bytes[p] == c.bytes[p]
    {
      SlicesOverlay(segments, offsets, c, p);
    }
  }

  /** The chunk at the start of the stream holds the conversation as far as it goes. */
  lemma HeadShows(segments: seq<Segment>, owners: seq<U32>, bytes: seq<U8>, base: U32, c: Conversation)
    requires Shows(owners, bytes, c) && OwnersIndex(owners, segments)
    ensures var chunks, n := ChunksFrom(segments, owners, bytes, base, 0), SuppliedEnd(owners, 0);
      && n <= |c.bytes|
      && (if chunks != [] && chunks[0].offset == 0 then chunks[0].data == c.bytes[..n] else n == 0)
  {
    SuppliedRun(owners, 0);
    var n := SuppliedEnd(owners, 0);
    if |owners| > 0 && owners[0] == UNOWNED {
      LaterChunks(segments, owners, bytes, base, SameOwnerEnd(owners, 0, UNOWNED));
    } else if |owners| > 0 {
      assert bytes[0..n] == c.bytes[..n];
    }
  }

  lemma {:induction false} LaterChunks(segments: seq<Segment>, owners: seq<U32>, bytes: seq<U8>, base: U32, i: nat)
    requires i <= |owners| == |bytes| && OwnersIndex(owners, segments)
    ensures var chunks := ChunksFrom(segments, owners, bytes, base, i); chunks != [] ==> chunks[0].offset >= i
    decreases |owners| - i
  {
    if i < |owners| && owners[i] == UNOWNED {
      LaterChunks(segments, owners, bytes, base, SameOwnerEnd(owners, i, UNOWNED));
    }
  }

  // ---------------------------------------------------------------- framing what was finished

  /** The direction's stream, framed. */
  ghost function Rows(limits: Limits, key: FlowKey, d: Direction, cause: Finalizer, maxMessages: nat): seq<DnsMessage> {
    var streams := Finished(limits, key, d, cause);
    if streams == [] then [] else Framed(streams[0], maxMessages)
  }

  /** A finished conversation is one stream showing it, unless nothing of it was seen. */
  lemma FollowsFinished(limits: Limits, key: FlowKey, d: Direction, cause: Finalizer, c: Conversation) returns (stream: Stream)
    requires Follows(d, c) && Fitting(limits, c)
    ensures Finished(limits, key, d, cause) == (if stream.expectedBytes == 0 then [] else [stream])
    ensures stream.synSeen && stream.status != Conflict && stream.status != Limit
    ensures stream.sequence == c.Start() && stream.key == key && stream.streamId == d.id
    ensures var owners := Owners(d.segments, Offsets(d.segments, c.Start()), stream.expectedBytes);
      && stream.expectedBytes <= |c.bytes|
      && SuppliedEnd(owners, 0) <= |c.bytes|
      && Head(stream).data == c.bytes[..SuppliedEnd(owners, 0)]
      && AllSlices(d.segments, Offsets(d.segments, c.Start()), c)
      && Place(limits, d, c.Start()) == Placed(Offsets(d.segments, c.Start()), stream.expectedBytes)
  {
    FollowsPlaced(limits, d, c);
    var base := c.Start();
    var placement := Place(limits, d, base);
    stream := StreamOf(limits, key, d, cause, base, placement);
    var offsets := Offsets(d.segments, base);
    SlicesAgree(d.segments, offsets, c);
    SlicesShow(d.segments, offsets, c, placement.extent);
    var owners := Owners(d.segments, offsets, placement.extent);
    HeadShows(d.segments, owners, Overlaid(d.segments, offsets, placement.extent), base, c);
    assert c.bytes[..0] == [];
  }

  lemma SeenIsSupplied(limits: Limits, d: Direction, c: Conversation, extent: nat, p: nat)
    requires Fitting(limits, c) && Seen(d, c, p)
    requires Place(limits, d, c.Start()) == Placed(Offsets(d.segments, c.Start()), extent)
    ensures p < extent
    ensures FirstSupplier(d.segments, Offsets(d.segments, c.Start()), |d.segments|, p) != UNOWNED
  {
    hide FirstSupplier;
    var offsets := Offsets(d.segments, c.Start());
    var i, offset :| 0 <= i < |d.segments| && IsSlice(c, d.segments[i], offset) && offset <= p < offset + d.segments[i].declared;
    PlacedInside(limits, d, c.Start());
    hide Place;
    SliceOffset(c, d.segments[i], offset);
    assert Supplies(d.segments, offsets, i, p);
  }

  lemma AllSupplied(owners: seq<U32>)
    requires forall p | 0 <= p < |owners| :: owners[p] != UNOWNED
    ensures SuppliedEnd(owners, 0) == |owners|
  {
    SuppliedRun(owners, 0);
  }

  /** When every byte was seen, the head of the stream is all of it. */
  lemma WholeIsSupplied(limits: Limits, d: Direction, c: Conversation, extent: nat)
    requires Fitting(limits, c) && Whole(d, c)
    requires Place(limits, d, c.Start()) == Placed(Offsets(d.segments, c.Start()), extent) && extent <= |c.bytes|
    ensures extent == |c.bytes|
    ensures SuppliedEnd(Owners(d.segments, Offsets(d.segments, c.Start()), extent), 0) == extent
  {
    hide Place, FirstSupplier, Seen;
    var offsets := Offsets(d.segments, c.Start());
    forall p | 0 <= p < |c.bytes|
      ensures p < extent && FirstSupplier(d.segments, offsets, |d.segments|, p) != UNOWNED
    {
      SeenIsSupplied(limits, d, c, extent, p);
    }
    if |c.bytes| > 0 {
      SeenIsSupplied(limits, d, c, extent, |c.bytes| - 1);
    }
    AllSupplied(Owners(d.segments, offsets, extent));
  }

  /** A row that reports message `i` of the conversation whole. */
  ghost predicate RowIs(row: DnsMessage, c: Conversation, id: nat, messages: seq<Payload>, i: nat)
    requires i < |messages|
  {
    && row.status == Complete && row.error == NoFrameError
    && row.number == i + 1 && row.data == messages[i]
    && row.sequence == Wrap32(c.Start() + |Encoded(messages[..i])|)
    && row.key == c.key && row.streamId == id
  }

  /** What framing makes of a stream that begins with the first `n` bytes of the conversation. */
  lemma RowsOfStream(stream: Stream, c: Conversation, messages: seq<Payload>, maxMessages: nat, n: nat)
    requires c.bytes == Encoded(messages) && |messages| <= maxMessages && n <= |c.bytes|
    requires stream.synSeen && stream.status != Conflict && stream.status != Limit
    requires stream.sequence == c.Start() && stream.key == c.key
    requires Head(stream).data == c.bytes[..n]
    ensures var rows, k := Framed(stream, maxMessages), WholeMessages(messages, n);
      && k <= |rows| <= k + 1
      && (forall i: nat | i < k :: RowIs(rows[i], c, stream.streamId, messages, i))
      && (|rows| == k + 1 ==> rows[k].status == Incomplete)
      && (|rows| == k <==> stream.expectedBytes == |Encoded(messages[..k])|)
  {
    hide Framed;
    FramedEncoding(stream, maxMessages, messages, n);
    var rows := Framed(stream, maxMessages);
    forall i: nat | i < WholeMessages(messages, n)
      ensures RowIs(rows[i], c, stream.streamId, messages, i)
    {
      assert Reports(rows[i], stream, messages, i);
    }
  }

  /** However much of it was seen, what is reported complete is a prefix of the conversation's messages,
      followed by at most one diagnostic. */
  lemma RowsArePrefix(limits: Limits, d: Direction, cause: Finalizer, c: Conversation, messages: seq<Payload>,
                      maxMessages: nat) returns (k: nat)
    requires Follows(d, c) && Fitting(limits, c) && c.bytes == Encoded(messages) && |messages| <= maxMessages
    ensures var rows := Rows(limits, c.key, d, cause, maxMessages);
      && k <= |messages| && k <= |rows| <= k + 1
      && (forall i: nat | i < k :: RowIs(rows[i], c, d.id, messages, i))
      && (|rows| == k + 1 ==> rows[k].status == Incomplete)
  {
    hide Finished, Owners, Framed, Place, Follows, RowIs, Head, AllSlices;
    var stream := FollowsFinished(limits, c.key, d, cause, c);
    if stream.expectedBytes == 0 {
      k := 0;
    } else {
      var n := SuppliedEnd(Owners(d.segments, Offsets(d.segments, c.Start()), stream.expectedBytes), 0);
      k := WholeMessages(messages, n);
      RowsOfStream(stream, c, messages, maxMessages, n);
    }
  }

  /** When all of it was seen, exactly the conversation's messages are reported. */
  lemma RowsAreMessages(limits: Limits, d: Direction, cause: Finalizer, c: Conversation, messages: seq<Payload>, maxMessages: nat)
    requires Follows(d, c) && Fitting(limits, c) && Whole(d, c)
    requires c.bytes == Encoded(messages) && |messages| <= maxMessages
    ensures var rows := Rows(limits, c.key, d, cause, maxMessages);
      && |rows| == |messages|
      && forall i: nat | i < |messages| :: RowIs(rows[i], c, d.id, messages, i)
  {
    hide Finished, Owners, Framed, Place, Whole, Follows, RowIs, Head, AllSlices;
    var stream := FollowsFinished(limits, c.key, d, cause, c);
    WholeIsSupplied(limits, d, c, stream.expectedBytes);
    WholeEncoding(messages, |c.bytes|);
    assert messages[..|messages|] == messages;
    if stream.expectedBytes != 0 {
      RowsOfStream(stream, c, messages, maxMessages, |c.bytes|);
    } else {
      assert messages == [] by {
        assert Encoded(messages) == [];
      }
    }
  }
}
