/** What a completed handshake in a flow row proves about the packets behind it (section 3.5 of RFC 9293). */
module FlowHandshake {
  import opened Basics
  import opened FlowTypes
  import opened FlowRows

  /** No SYN after the first packet was one that should have started another session. */
  ghost predicate NoReuse(block: Block, low: bool) {
    forall n | 0 < n < |block| && block[n].input.packet.PureSyn() ::
      !Reuses(HandshakeOf(block[..n], low), Carries(block[..n], FIN), block[n].input.packet, SentBy(block[n], low))
  }

  predicate IsSyn(block: Block, low: bool, a: bool, i: int) {
    0 <= i < |block| && SentBy(block[i], low) == a && block[i].input.packet.PureSyn()
  }

  predicate IsSynAck(block: Block, low: bool, a: bool, j: int) {
    0 <= j < |block| && SentBy(block[j], low) == a && block[j].input.packet.SynAck()
  }

  function SeqAt(block: Block, i: nat): U32
    requires i < |block|
  {
    block[i].input.packet.seqNumber
  }

  function AckAt(block: Block, i: nat): U32
    requires i < |block|
  {
    block[i].input.packet.ackNumber
  }

  /** Side `a` sent a SYN at `i`, and the opening segment at `r` is that SYN or a SYN-ACK of the same side. */
  predicate Opens(block: Block, low: bool, a: bool, i: int, r: int) {
    IsSyn(block, low, a, i) && (r == i || IsSynAck(block, low, a, r))
  }

  /** The other side answered the opening at `r` with a SYN-ACK at `j`. */
  predicate Answers(block: Block, low: bool, a: bool, i: int, r: int, j: int) {
    && Opens(block, low, a, i, r) && i < j && r < j
    && IsSynAck(block, low, !a, j)
    && AckAt(block, j) == Wrap32(SeqAt(block, r) + 1)
  }

  /** A SYN from `a`, a SYN-ACK from the other side acknowledging it, and an ACK from `a` acknowledging that, in order. */
  predicate ThreeWay(block: Block, low: bool, a: bool, i: int, r: int, j: int, k: int) {
    && Answers(block, low, a, i, r, j) && j < k < |block|
    && SentBy(block[k], low) == a
    && block[k].input.packet.Has(ACK) && !block[k].input.packet.Has(SYN)
    && AckAt(block, k) == Wrap32(SeqAt(block, j) + 1)
  }

  /** The packet at `k` starts right after an opening segment its side had sent by then. */
  predicate Follows(block: Block, low: bool, a: bool, i: int, r: int, k: int) {
    && Opens(block, low, a, i, r) && i < k && r < k < |block|
    && SeqAt(block, k) == Wrap32(SeqAt(block, r) + 1)
  }

  /** The three segments of a handshake, the last of them starting where the first side's opening ended. */
  ghost predicate Handshaken(block: Block, low: bool) {
    exists a, i, r, j, k, i', r' :: ThreeWay(block, low, a, i, r, j, k) && Follows(block, low, a, i', r', k)
  }

  ghost predicate Recorded(block: Block, low: bool, a: bool, sequence: U32) {
    exists i, r :: Opens(block, low, a, i, r) && SeqAt(block, r) == sequence
  }

  ghost predicate Answered(block: Block, low: bool, a: bool, sequence: U32) {
    exists i, r, j :: Answers(block, low, a, i, r, j) && SeqAt(block, j) == sequence
  }

  lemma OpensStays(block: Block, x: Seen, low: bool, a: bool, i: int, r: int)
    requires Opens(block, low, a, i, r)
    ensures Opens(block + [x], low, a, i, r) && SeqAt(block + [x], r) == SeqAt(block, r)
  {
    hide SentBy;
  }

  lemma AnswersStays(block: Block, x: Seen, low: bool, a: bool, i: int, r: int, j: int)
    requires Answers(block, low, a, i, r, j)
    ensures Answers(block + [x], low, a, i, r, j) && SeqAt(block + [x], j) == SeqAt(block, j)
  {
    hide SentBy;
    OpensStays(block, x, low, a, i, r);
  }

  lemma ThreeWayStays(block: Block, x: Seen, low: bool, a: bool, i: int, r: int, j: int, k: int)
    requires ThreeWay(block, low, a, i, r, j, k)
    ensures ThreeWay(block + [x], low, a, i, r, j, k)
  {
    hide SentBy;
    AnswersStays(block, x, low, a, i, r, j);
  }

  lemma RecordedStays(block: Block, x: Seen, low: bool, a: bool, sequence: U32)
    requires Recorded(block, low, a, sequence)
    ensures Recorded(block + [x], low, a, sequence)
  {
    var i, r :| Opens(block, low, a, i, r) && SeqAt(block, r) == sequence;
    OpensStays(block, x, low, a, i, r);
  }

  lemma AnsweredStays(block: Block, x: Seen, low: bool, a: bool, sequence: U32)
    requires Answered(block, low, a, sequence)
    ensures Answered(block + [x], low, a, sequence)
  {
    var i, r, j :| Answers(block, low, a, i, r, j) && SeqAt(block, j) == sequence;
    hide Opens, SentBy;
    AnswersStays(block, x, low, a, i, r, j);
  }

  lemma FollowsStays(block: Block, x: Seen, low: bool, a: bool, i: int, r: int, k: int)
    requires Follows(block, low, a, i, r, k)
    ensures Follows(block + [x], low, a, i, r, k)
  {
    hide SentBy;
    OpensStays(block, x, low, a, i, r);
  }

  lemma HandshakenStays(block: Block, x: Seen, low: bool)
    requires Handshaken(block, low)
    ensures Handshaken(block + [x], low)
  {
    hide ThreeWay, Follows;
    var a, i, r, j, k, i', r' :| ThreeWay(block, low, a, i, r, j, k) && Follows(block, low, a, i', r', k);
    ThreeWayStays(block, x, low, a, i, r, j, k);
    FollowsStays(block, x, low, a, i', r', k);
  }

  /** What the tracked state of side `a` stands for. */
  ghost predicate Grounded(block: Block, low: bool, h: Handshake, a: bool) {
    && (h.Of(a).syn ==> Recorded(block, low, a, h.Of(a).sequence))
    && (h.Of(a).synAck ==> Answered(block, low, !a, h.Of(a).sequence))
  }

  lemma SynGrounds(block: Block, x: Seen, low: bool, h: Handshake)
    requires x.input.packet.PureSyn()
    requires Grounded(block, low, h, SentBy(x, low))
    requires h.Of(SentBy(x, low)).synAck ==> h.Of(SentBy(x, low)).sequence == x.input.packet.seqNumber
    ensures Grounded(block + [x], low, Following(h, x.input.packet, SentBy(x, low)), SentBy(x, low))
  {
    var a, more := SentBy(x, low), block + [x];
    assert Opens(more, low, a, |block|, |block|) && SeqAt(more, |block|) == x.input.packet.seqNumber;
    if h.Of(a).synAck {
      AnsweredStays(block, x, low, !a, h.Of(a).sequence);
    }
  }

  lemma AcceptedAnswers(block: Block, x: Seen, low: bool, a: bool, sequence: U32)
    requires x.input.packet.SynAck() && SentBy(x, low) == !a
    requires Recorded(block, low, a, sequence) && x.input.packet.ackNumber == Wrap32(sequence + 1)
    ensures Answered(block + [x], low, a, x.input.packet.seqNumber)
  {
    hide SentBy;
    var i, r :| Opens(block, low, a, i, r) && SeqAt(block, r) == sequence;
    OpensStays(block, x, low, a, i, r);
    assert Answers(block + [x], low, a, i, r, |block|);
  }

  lemma AcceptedRecords(block: Block, x: Seen, low: bool, a: bool, sequence: U32)
    requires x.input.packet.SynAck() && SentBy(x, low) == a
    requires Recorded(block, low, a, sequence)
    ensures Recorded(block + [x], low, a, x.input.packet.seqNumber)
  {
    hide SentBy;
    var i, r :| Opens(block, low, a, i, r) && SeqAt(block, r) == sequence;
    OpensStays(block, x, low, a, i, r);
    assert Opens(block + [x], low, a, i, |block|);
  }

  lemma SynAckGrounds(block: Block, x: Seen, low: bool, h: Handshake)
    requires x.input.packet.SynAck()
    requires Grounded(block, low, h, SentBy(x, low)) && Grounded(block, low, h, !SentBy(x, low))
    ensures Grounded(block + [x], low, Following(h, x.input.packet, SentBy(x, low)), SentBy(x, low))
  {
    hide SentBy, Recorded, Answered;
    var a := SentBy(x, low);
    var p, peer := x.input.packet, h.Of(!a);
    if peer.syn && p.ackNumber == Wrap32(peer.sequence + 1) {
      AcceptedAnswers(block, x, low, !a, peer.sequence);
      if h.Of(a).syn {
        AcceptedRecords(block, x, low, a, h.Of(a).sequence);
      }
    } else {
      SideStays(block, x, low, h, a);
    }
  }

  lemma SideStays(block: Block, x: Seen, low: bool, h: Handshake, a: bool)
    requires Grounded(block, low, h, a)
    ensures Grounded(block + [x], low, h, a)
  {
    hide SentBy, Recorded, Answered;
    if h.Of(a).syn {
      RecordedStays(block, x, low, a, h.Of(a).sequence);
    }
    if h.Of(a).synAck {
      AnsweredStays(block, x, low, !a, h.Of(a).sequence);
    }
  }

  lemma AckAnswered(block: Block, x: Seen, low: bool, sequence: U32)
    requires x.input.packet.Has(ACK) && !x.input.packet.Has(SYN)
    requires Answered(block, low, SentBy(x, low), sequence) && x.input.packet.ackNumber == Wrap32(sequence + 1)
    ensures exists i, r, j :: ThreeWay(block + [x], low, SentBy(x, low), i, r, j, |block|)
  {
    hide SentBy, Opens;
    var a := SentBy(x, low);
    var i, r, j :| Answers(block, low, a, i, r, j) && SeqAt(block, j) == sequence;
    AnswersStays(block, x, low, a, i, r, j);
    assert ThreeWay(block + [x], low, a, i, r, j, |block|);
  }

  lemma AckFollows(block: Block, x: Seen, low: bool, sequence: U32)
    requires Recorded(block, low, SentBy(x, low), sequence) && x.input.packet.seqNumber == Wrap32(sequence + 1)
    ensures exists i, r :: Follows(block + [x], low, SentBy(x, low), i, r, |block|)
  {
    hide SentBy;
    var i, r :| Opens(block, low, SentBy(x, low), i, r) && SeqAt(block, r) == sequence;
    OpensStays(block, x, low, SentBy(x, low), i, r);
    assert Follows(block + [x], low, SentBy(x, low), i, r, |block|);
  }

  lemma AckShakes(block: Block, x: Seen, low: bool, h: Handshake)
    requires Grounded(block, low, h, true) && Grounded(block, low, h, false)
    requires h.complete ==> Handshaken(block, low)
    ensures Following(h, x.input.packet, SentBy(x, low)).complete ==> Handshaken(block + [x], low)
  {
    hide SentBy, Recorded, Answered, ThreeWay, Follows;
    var a := SentBy(x, low);
    if h.complete {
      hide Handshaken;
      HandshakenStays(block, x, low);
    } else if Following(h, x.input.packet, a).complete {
      assert Grounded(block, low, h, a) && Grounded(block, low, h, !a);
      AckAnswered(block, x, low, h.Of(!a).sequence);
      AckFollows(block, x, low, h.Of(a).sequence);
    }
  }

  lemma StepGrounds(block: Block, x: Seen, low: bool, h: Handshake, a: bool)
    requires Grounded(block, low, h, true) && Grounded(block, low, h, false)
    requires x.input.packet.PureSyn() && h.Of(SentBy(x, low)).synAck ==>
      h.Of(SentBy(x, low)).sequence == x.input.packet.seqNumber
    ensures Grounded(block + [x], low, Following(h, x.input.packet, SentBy(x, low)), a)
  {
    hide SentBy, Recorded, Answered;
    if a == SentBy(x, low) && x.input.packet.PureSyn() {
      SynGrounds(block, x, low, h);
    } else if a == SentBy(x, low) && x.input.packet.SynAck() {
      SynAckGrounds(block, x, low, h);
    } else {
      SideStays(block, x, low, h, a);
    }
  }

  lemma {:induction false} HandshakeGrounded(block: Block, low: bool)
    requires NoReuse(block, low)
    ensures Grounded(block, low, HandshakeOf(block, low), true) && Grounded(block, low, HandshakeOf(block, low), false)
    ensures HandshakeOf(block, low).complete ==> Handshaken(block, low)
  {
    if block != [] {
      hide Grounded, Handshaken, Following;
      var n := |block| - 1;
      NoReuseBefore(block, low);
      HandshakeGrounded(block[..n], low);
      var h := HandshakeOf(block[..n], low);
      LastSynRepeats(block, low);
      StepGrounds(block[..n], block[n], low, h, true);
      StepGrounds(block[..n], block[n], low, h, false);
      AckShakes(block[..n], block[n], low, h);
      assert block == block[..n] + [block[n]];
    } else {
      assert !HandshakeOf(block, low).complete;
    }
  }

  lemma NoReuseBefore(block: Block, low: bool)
    requires NoReuse(block, low) && block != []
    ensures NoReuse(block[..|block| - 1], low)
  {
    var front := block[..|block| - 1];
    forall n | 0 < n < |front| && front[n].input.packet.PureSyn()
      ensures !Reuses(HandshakeOf(front[..n], low), Carries(front[..n], FIN), front[n].input.packet, SentBy(front[n], low))
    {
      assert front[..n] == block[..n] && front[n] == block[n];
    }
  }

  /** A SYN from a side whose SYN-ACK was accepted repeats its recorded sequence number. */
  lemma LastSynRepeats(block: Block, low: bool)
    requires NoReuse(block, low) && block != []
    ensures var n := |block| - 1;
      var mine := HandshakeOf(block[..n], low).Of(SentBy(block[n], low));
      block[n].input.packet.PureSyn() && mine.synAck ==> mine.sequence == block[n].input.packet.seqNumber
  {
    hide Following;
    var n := |block| - 1;
    if n == 0 {
      assert block[..n] == [];
    }
  }

  /** A row says the handshake completed only if its block holds the three segments in order: a SYN from one
      side, a SYN-ACK from the other acknowledging it, and an ACK from the first that acknowledges it and starts right
      after the first side's opening, all mod 2^32. A SYN-ACK may stand in for the acknowledged SYN only when the same
      side had sent a SYN as well. */
  lemma CompleteMeansThreeWay(block: Block)
    requires block != []
    requires NoReuse(block, OrigIsLow(block[0]))
    requires SummaryOf(block).handshakeComplete
    ensures Handshaken(block, OrigIsLow(block[0]))
  {
    HandshakeGrounded(block, OrigIsLow(block[0]));
  }

  // ---------------------------------------------------------------- the ordinary handshake is recognised

  /** A SYN, its SYN-ACK and the closing ACK, in order, and no other SYN until then. */
  predicate Ordinary(block: Block, low: bool, a: bool, i: nat, j: nat, k: nat) {
    && i < j < k < |block|
    && IsSyn(block, low, a, i) && IsSynAck(block, low, !a, j) && SentBy(block[k], low) == a
    && AckAt(block, j) == Wrap32(SeqAt(block, i) + 1)
    && block[k].input.packet.Has(ACK) && !block[k].input.packet.Has(SYN)
    && AckAt(block, k) == Wrap32(SeqAt(block, j) + 1) && SeqAt(block, k) == Wrap32(SeqAt(block, i) + 1)
    && forall n | 0 <= n < k && n != i && n != j :: !block[n].input.packet.Has(SYN)
  }

  const UNSEEN := Half(false, false, 0)

  /** What is tracked of the two sides after `n` packets of an ordinary handshake. */
  ghost predicate TrackedAt(block: Block, low: bool, a: bool, i: nat, j: nat, n: nat)
    requires i < |block| && j < |block| && n <= |block|
  {
    var h := HandshakeOf(block[..n], low);
    && h.Of(a) == (if n <= i then UNSEEN else Half(true, false, SeqAt(block, i)))
    && h.Of(!a) == (if n <= j then UNSEEN else Half(false, true, SeqAt(block, j)))
  }

  lemma QuietPacket(h: Handshake, p: Packet, isOrig: bool)
    requires !p.Has(SYN)
    ensures Following(h, p, isOrig).orig == h.orig && Following(h, p, isOrig).resp == h.resp
  {
  }

  lemma UpTo(block: Block, low: bool, n: nat)
    requires n < |block|
    ensures HandshakeOf(block[..n + 1], low)
         == Following(HandshakeOf(block[..n], low), block[n].input.packet, SentBy(block[n], low))
  {
    assert block[..n + 1] == block[..n] + [block[n]];
    HandshakeMore(block[..n], block[n], low);
  }

  lemma {:induction false} OrdinaryTracked(block: Block, low: bool, a: bool, i: nat, j: nat, k: nat, n: nat)
    requires Ordinary(block, low, a, i, j, k) && n <= k
    ensures TrackedAt(block, low, a, i, j, n)
  {
    hide HandshakeOf, SentBy;
    if n == 0 {
      NoneTracked(low);
      assert block[..0] == [];
    } else {
      OrdinaryTracked(block, low, a, i, j, k, n - 1);
      UpTo(block, low, n - 1);
      if n - 1 != i && n - 1 != j {
        hide Following;
        QuietPacket(HandshakeOf(block[..n - 1], low), block[n - 1].input.packet, SentBy(block[n - 1], low));
      }
    }
  }

  lemma NoneTracked(low: bool)
    ensures HandshakeOf([], low) == NO_HANDSHAKE
  {
  }

  lemma {:induction false} CompleteStays(block: Block, low: bool, n: nat)
    requires n <= |block| && HandshakeOf(block[..n], low).complete
    ensures HandshakeOf(block, low).complete
  {
    if n == |block| {
      assert block[..n] == block;
    } else {
      var front := block[..|block| - 1];
      assert front[..n] == block[..n];
      CompleteStays(front, low, n);
    }
  }

  /** Wherever the three segments of a handshake are in a block, with any packets but further SYNs before and between
      them and any packets at all after them, the row says the handshake completed. */
  lemma OrdinaryHandshakeCompletes(block: Block, a: bool, i: nat, j: nat, k: nat)
    requires block != [] && Ordinary(block, OrigIsLow(block[0]), a, i, j, k)
    ensures SummaryOf(block).handshakeComplete
  {
    hide HandshakeOf, SentBy, KeyOf, CountersOf;
    var low := OrigIsLow(block[0]);
    OrdinaryTracked(block, low, a, i, j, k, k);
    UpTo(block, low, k);
    CompleteStays(block, low, k + 1);
  }
}
