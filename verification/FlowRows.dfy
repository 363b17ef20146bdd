/** What a flow row says about the packets it covers: the row of a block of packets, field by field,
    without running totals. */
module FlowRows {
  import opened Basics
  import opened FlowTypes

  type Block = seq<Seen>

  // ---------------------------------------------------------------- sides and totals

  /** The first packet decides which endpoint is the originator: its sender, unless it answers a SYN. */
  predicate OrigIsLow(first: Seen) {
    FromLow(first.input) != first.input.packet.SynAck()
  }

  function BasisOf(first: Seen): Basis {
    if first.input.packet.SynAck() then FromSynAck
    else if first.input.packet.PureSyn() then FromSyn
    else FirstPacket
  }

  predicate SentBy(x: Seen, low: bool) {
    FromLow(x.input) == low
  }

  /** The packets of a block that one endpoint sent, in order. */
  function Side(block: Block, low: bool): Block {
    if block == [] then []
    else
      var n := |block| - 1;
      Side(block[..n], low) + if SentBy(block[n], low) then [block[n]] else []
  }

  function Total(block: Block, size: Seen -> nat): nat {
    if block == [] then 0 else Total(block[..|block| - 1], size) + size(block[|block| - 1])
  }

  function Captured(x: Seen): nat {
    x.input.captured
  }

  function Reported(x: Seen): nat {
    x.input.reported
  }

  function Payload(x: Seen): nat {
    x.input.packet.payloadLength
  }

  function Untimed(x: Seen): nat {
    if x.input.stamp.hasTimestamp then 0 else 1
  }

  function Late(x: Seen): nat {
    if x.input.stamp.hasTimestamp && x.late then 1 else 0
  }

  function FlagsOf(x: Seen): set<Bit> {
    if x.input.packet.tcp then x.input.packet.flags else {}
  }

  function AllFlags(block: Block): set<Bit> {
    set i, bit | 0 <= i < |block| && bit in FlagsOf(block[i]) :: bit
  }

  predicate Carries(block: Block, bit: Bit) {
    exists i | 0 <= i < |block| :: block[i].input.packet.Has(bit)
  }

  function CountersOf(side: Block): Counters {
    Counters(|side|, Total(side, Captured), Total(side, Reported), Total(side, Payload), AllFlags(side))
  }

  function Timestamps(block: Block): set<int> {
    set i | 0 <= i < |block| && block[i].input.stamp.hasTimestamp :: block[i].input.stamp.timestamp
  }

  function Widened(times: Option<(int, int)>, x: Seen): Option<(int, int)> {
    if !x.input.stamp.hasTimestamp then times
    else if times.None? then Some((x.input.stamp.timestamp, x.input.stamp.timestamp))
    else Some((Min(times.value.0, x.input.stamp.timestamp), Max(times.value.1, x.input.stamp.timestamp)))
  }

  /** The first and last timestamps of a block. */
  function Span(block: Block): Option<(int, int)> {
    if block == [] then None else Widened(Span(block[..|block| - 1]), block[|block| - 1])
  }

  // ---------------------------------------------------------------- the handshake

  /** What one endpoint has sent: a SYN, an accepted SYN-ACK, and the sequence number of the latest of them. */
  datatype Half = Half(syn: bool, synAck: bool, sequence: U32)

  datatype Handshake = Handshake(orig: Half, resp: Half, closed: bool, complete: bool, simultaneous: bool)
  {
    function Of(isOrig: bool): Half {
      if isOrig then orig else resp
    }

    function With(isOrig: bool, half: Half): Handshake {
      if isOrig then this.(orig := half) else this.(resp := half)
    }
  }

  const NO_HANDSHAKE := Handshake(Half(false, false, 0), Half(false, false, 0), false, false, false)

  function Following(h: Handshake, p: Packet, isOrig: bool): Handshake {
    if !p.tcp then h
    else
      var g := h.(closed := h.closed || (!p.Has(SYN) && (p.Has(ACK) || p.payloadLength > 0)));
      var mine, peer := h.Of(isOrig), h.Of(!isOrig);
      if p.PureSyn() then
        g.(simultaneous := h.simultaneous || peer.syn).With(isOrig, Half(true, mine.synAck, p.seqNumber))
      else if p.SynAck() then
        if peer.syn && p.ackNumber == Wrap32(peer.sequence + 1)
        then g.With(isOrig, Half(mine.syn, true, p.seqNumber)) else g
      else if p.Has(ACK) && mine.syn && peer.synAck && p.ackNumber == Wrap32(peer.sequence + 1)
              && p.seqNumber == Wrap32(mine.sequence + 1)
      then g.(complete := true)
      else g
  }

  function HandshakeOf(block: Block, low: bool): Handshake {
    if block == [] then NO_HANDSHAKE
    else
      var n := |block| - 1;
      Following(HandshakeOf(block[..n], low), block[n].input.packet, SentBy(block[n], low))
  }

  /** Whether a SYN starts another session on a tuple in use, rather than repeating or crossing the first one. */
  predicate Reuses(h: Handshake, finSeen: bool, p: Packet, isOrig: bool) {
    var mine, peer := h.Of(isOrig), h.Of(!isOrig);
    var active := !h.closed && !h.complete && !finSeen;
    var retransmit := active && mine.syn && mine.sequence == p.seqNumber;
    var simultaneous := active && !mine.syn && peer.syn && !mine.synAck;
    !retransmit && !simultaneous
  }

  // ---------------------------------------------------------------- the row

  /** The row of a session opened by `first` once it has counted `block`. */
  function RowOf(first: Seen, block: Block): Summary {
    var low := OrigIsLow(first);
    var key, h := KeyOf(first.input), HandshakeOf(block, low);
    Summary(key, first.input.section, first.input.stamp.number,
            if block == [] then 0 else block[|block| - 1].input.stamp.number, low,
            Span(block), Total(block, Untimed), Total(block, Late),
            CountersOf(Side(block, low)), CountersOf(Side(block, !low)),
            h.complete, h.simultaneous, key.low == key.high,
            Carries(block, SYN), Carries(block, FIN), Carries(block, RST), BasisOf(first))
  }

  function SummaryOf(block: Block): Summary
    requires block != []
  {
    RowOf(block[0], block)
  }

  predicate CountersFit(c: Counters) {
    c.packets <= U64_MAX && c.captured <= U64_MAX && c.reported <= U64_MAX && c.payload <= U64_MAX
  }

  /** No counter of the row exceeds 64 bits. */
  predicate Fits(row: Summary) {
    CountersFit(row.orig) && CountersFit(row.resp) && row.missing <= U64_MAX && row.late <= U64_MAX
  }

  function Timeout(limits: Limits, key: SessionKey): int {
    if key.protocol == 6 then limits.tcpIdle else limits.udpIdle
  }

  /** When a session will have been idle too long; none without a timeout, with a timestamp missing
      or when the time does not fit. */
  function Deadline(limits: Limits, row: Summary): Option<int> {
    var timeout := Timeout(limits, row.key);
    if timeout == 0 || row.missing > 0 || row.times.None? || row.times.value.1 > I64_MAX - timeout then None
    else Some(row.times.value.1 + timeout)
  }

  // ---------------------------------------------------------------- one more packet

  lemma SideMore(block: Block, x: Seen, low: bool)
    ensures Side(block + [x], low) == Side(block, low) + if SentBy(x, low) then [x] else []
  {
    assert (block + [x])[..|block|] == block;
  }

  lemma TotalMore(block: Block, x: Seen, size: Seen -> nat)
    ensures Total(block + [x], size) == Total(block, size) + size(x)
  {
    assert (block + [x])[..|block|] == block;
  }

  lemma AllFlagsMore(block: Block, x: Seen)
    ensures AllFlags(block + [x]) == AllFlags(block) + FlagsOf(x)
  {
    var more := block + [x];
    forall bit | bit in AllFlags(block) + FlagsOf(x)
      ensures bit in AllFlags(more)
    {
      if bit in AllFlags(block) {
        var i :| 0 <= i < |block| && bit in FlagsOf(block[i]);
        assert more[i] == block[i];
      } else {
        assert more[|block|] == x;
      }
    }
  }

  lemma CarriesMore(block: Block, x: Seen, bit: Bit)
    ensures Carries(block + [x], bit) == (Carries(block, bit) || x.input.packet.Has(bit))
  {
    var more := block + [x];
    if Carries(block, bit) {
      var i :| 0 <= i < |block| && block[i].input.packet.Has(bit);
      assert more[i] == block[i];
    } else if x.input.packet.Has(bit) {
      assert more[|block|] == x;
    }
  }

  lemma SpanMore(block: Block, x: Seen)
    ensures Span(block + [x]) == Widened(Span(block), x)
  {
    assert (block + [x])[..|block|] == block;
  }

  lemma HandshakeMore(block: Block, x: Seen, low: bool)
    ensures HandshakeOf(block + [x], low) == Following(HandshakeOf(block, low), x.input.packet, SentBy(x, low))
  {
    assert (block + [x])[..|block|] == block;
  }

  function CountedIn(c: Counters, x: Seen): Counters {
    Counters(c.packets + 1, c.captured + x.input.captured, c.reported + x.input.reported,
             c.payload + x.input.packet.payloadLength, c.flags + FlagsOf(x))
  }

  lemma CountersMore(side: Block, x: Seen)
    ensures CountersOf(side + [x]) == CountedIn(CountersOf(side), x)
  {
    TotalMore(side, x, Captured);
    TotalMore(side, x, Reported);
    TotalMore(side, x, Payload);
    AllFlagsMore(side, x);
  }

  lemma SideCountersMore(block: Block, x: Seen, low: bool)
    ensures CountersOf(Side(block + [x], low)) ==
      if SentBy(x, low) then CountedIn(CountersOf(Side(block, low)), x) else CountersOf(Side(block, low))
  {
    SideMore(block, x, low);
    if SentBy(x, low) {
      CountersMore(Side(block, low), x);
    } else {
      assert Side(block, low) + [] == Side(block, low);
    }
  }

  // ---------------------------------------------------------------- what the fields mean

  /** The row's times are the earliest and latest timestamps of the block, and absent exactly when there are none. */
  lemma {:induction false} SpanIsRange(block: Block)
    ensures Span(block).None? <==> Timestamps(block) == {}
    ensures Span(block).Some? ==>
      && Span(block).value.0 in Timestamps(block) && Span(block).value.1 in Timestamps(block)
      && forall t | t in Timestamps(block) :: Span(block).value.0 <= t <= Span(block).value.1
  {
    if block != [] {
      var n := |block| - 1;
      SpanIsRange(block[..n]);
      TimestampsMore(block[..n], block[n]);
      assert block == block[..n] + [block[n]];
    }
  }

  lemma TimestampsMore(block: Block, x: Seen)
    ensures Timestamps(block + [x]) ==
      Timestamps(block) + if x.input.stamp.hasTimestamp then {x.input.stamp.timestamp} else {}
  {
    var more := block + [x];
    assert more[|block|] == x;
    forall t | t in Timestamps(block)
      ensures t in Timestamps(more)
    {
      var i :| 0 <= i < |block| && block[i].input.stamp.hasTimestamp && block[i].input.stamp.timestamp == t;
      assert more[i] == block[i];
    }
  }

  /** Every packet is counted on exactly one side: the two sides of a row add up to the block. */
  lemma {:induction false} SidesAddUp(block: Block, size: Seen -> nat, low: bool)
    ensures Total(Side(block, low), size) + Total(Side(block, !low), size) == Total(block, size)
    ensures |Side(block, low)| + |Side(block, !low)| == |block|
  {
    if block != [] {
      var n := |block| - 1;
      SidesAddUp(block[..n], size, low);
      hide FromLow;
      TotalMore(Side(block[..n], SentBy(block[n], true)), block[n], size);
      assert Side(block[..n], low) + [] == Side(block[..n], low);
      assert Side(block[..n], !low) + [] == Side(block[..n], !low);
    }
  }

  /** A row's deadline never moves back as packets are added, while it has one. */
  lemma DeadlineMonotone(limits: Limits, block: Block, x: Seen)
    requires block != []
    ensures var before, after := Deadline(limits, SummaryOf(block)), Deadline(limits, SummaryOf(block + [x]));
      after.Some? && before.Some? ==> before.value <= after.value
  {
    hide FromLow, KeyOf, CountersOf, HandshakeOf;
    SpanMore(block, x);
  }

  lemma DeadlineNeverReturns(limits: Limits, block: Block, x: Seen)
    requires block != []
    requires Deadline(limits, SummaryOf(block)).None? && Span(block).Some?
    ensures Deadline(limits, SummaryOf(block + [x])).None?
  {
    hide FromLow, KeyOf, CountersOf, HandshakeOf;
    SpanMore(block, x);
    TotalMore(block, x, Untimed);
  }
}
