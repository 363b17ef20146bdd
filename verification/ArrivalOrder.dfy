/** Directions that took in the same packets in any order finish alike, in any two runs of the reassembler. */
module ArrivalOrder {
  import opened Basics
  import opened TcpTypes
  import opened StreamAssembly
  import opened TcpTable
  import opened TcpRuns
  import opened TcpHistory
  import O = OrderIndependence

  /** What packets carry, forgetting their order, repeats and stamps. */
  ghost function Contents(packets: seq<Packet>): set<(U32, Flags, seq<U8>, U32)> {
    set i | 0 <= i < |packets| :: (packets[i].sequence, packets[i].flags, packets[i].payload, packets[i].declared)
  }

  lemma TwinPacket(some: seq<Packet>, others: seq<Packet>, i: nat) returns (j: nat)
    requires Contents(some) <= Contents(others) && i < |some|
    ensures j < |others| && others[j].sequence == some[i].sequence && others[j].flags == some[i].flags
    ensures others[j].payload == some[i].payload && others[j].declared == some[i].declared
  {
    var wanted := (some[i].sequence, some[i].flags, some[i].payload, some[i].declared);
    assert wanted in Contents(others);
    j :| 0 <= j < |others| && (others[j].sequence, others[j].flags, others[j].payload, others[j].declared) == wanted;
  }

  lemma HeldTwin(b: Direction, q: seq<Packet>, packet: Packet, j: nat) returns (m: nat)
    requires b.failure.None? && Carries(b, q) && j < |q| && HasData(packet)
    requires q[j].sequence == packet.sequence && q[j].flags == packet.flags
    requires q[j].payload == packet.payload && q[j].declared == packet.declared
    ensures m < |b.segments| && O.SameBytes(SegmentOf(packet), b.segments[m])
  {
    hide Marked, Given;
    assert Taken(b, q[j]) && HasData(q[j]);
    m :| 0 <= m < |b.segments| && Repeats(b.segments[m], SegmentOf(q[j]));
  }

  lemma CarriesGiven(a: Direction, p: seq<Packet>, i: nat) returns (k: nat)
    requires a.failure.None? && Carries(a, p) && i < |a.segments|
    ensures k < |p| && HasData(p[k]) && SegmentOf(p[k]) == a.segments[i]
  {
    hide Marked, Taken;
    assert Given(p, a.segments[i]);
    k :| 0 <= k < |p| && HasData(p[k]) && SegmentOf(p[k]) == a.segments[i];
  }

  lemma SegmentsWithin(a: Direction, p: seq<Packet>, b: Direction, q: seq<Packet>)
    requires a.failure.None? && b.failure.None? && Carries(a, p) && Carries(b, q) && Contents(p) <= Contents(q)
    ensures O.Carried(a.segments) <= O.Carried(b.segments)
  {
    hide Contents, Carries, SegmentOf, HasData;
    forall i | 0 <= i < |a.segments|
      ensures (a.segments[i].sequence, a.segments[i].declared, a.segments[i].bytes) in O.Carried(b.segments)
    {
      var k := CarriesGiven(a, p, i);
      var j := TwinPacket(p, q, k);
      var m := HeldTwin(b, q, p[k], j);
      assert (b.segments[m].sequence, b.segments[m].declared, b.segments[m].bytes) in O.Carried(b.segments);
    }
  }

  lemma SynSame(a: Direction, p: seq<Packet>, b: Direction, q: seq<Packet>)
    requires a.failure.None? && b.failure.None? && Carries(a, p) && Carries(b, q) && Contents(p) <= Contents(q)
    ensures a.hasSyn ==> b.hasSyn && b.synSequence == a.synSequence
  {
    hide Contents, Given, Known, FinSequence;
    if a.hasSyn {
      var i :| 0 <= i < |p| && p[i].flags.syn;
      var j := TwinPacket(p, q, i);
      assert Taken(a, p[i]) && Taken(b, q[j]);
    }
  }

  lemma FinSame(a: Direction, p: seq<Packet>, b: Direction, q: seq<Packet>)
    requires a.failure.None? && b.failure.None? && Carries(a, p) && Carries(b, q) && Contents(p) <= Contents(q)
    ensures a.hasFin ==> b.hasFin && b.finSequence == a.finSequence
  {
    hide Contents, Given, Known;
    if a.hasFin {
      var i :| 0 <= i < |p| && p[i].flags.fin;
      var j := TwinPacket(p, q, i);
      assert Taken(a, p[i]) && Taken(b, q[j]);
    }
  }

  lemma CarriesUnmarked(d: Direction, packets: seq<Packet>)
    requires d.failure.None? && Carries(d, packets)
    ensures !d.hasSyn ==> d.synSequence == 0
    ensures !d.hasFin ==> d.finSequence == 0
  {
  }

  /** Directions carrying the same packets in any order were seen to carry the same segments. */
  lemma SamePacketsSameCapture(a: Direction, p: seq<Packet>, b: Direction, q: seq<Packet>)
    requires a.failure.None? && b.failure.None? && Carries(a, p) && Carries(b, q) && Contents(p) == Contents(q)
    ensures O.SameCapture(a, b)
  {
    hide Carries, Contents, O.Carried;
    SegmentsWithin(a, p, b, q);
    SegmentsWithin(b, q, a, p);
    SynSame(a, p, b, q);
    SynSame(b, q, a, p);
    FinSame(a, p, b, q);
    FinSame(b, q, a, p);
    CarriesUnmarked(a, p);
    CarriesUnmarked(b, q);
  }

  lemma LiveCarries(limits: Limits, actions: seq<Action>, key: FlowKey)
    requires key in Run(limits, actions).table.flows
    ensures var h := Run(limits, actions); Carries(h.table.flows[key].dir, Heard(h.heard, h.table.flows[key].dir.id))
  {
    hide Run, Carries, Explained, Heard;
    RunRight(limits, actions);
  }

  /** In any two runs, whatever else they saw and however their packets were ordered, repeated and stamped: directions
      that took in packets of the same contents, and did not fail, finish as streams of the same content. */
  lemma OrderDoesNotMatter(limits: Limits, one: seq<Action>, other: seq<Action>, key: FlowKey, cause: Finalizer)
    requires var g, h := Run(limits, one), Run(limits, other);
      && key in g.table.flows && key in h.table.flows
      && g.table.flows[key].dir.failure.None? && h.table.flows[key].dir.failure.None?
      && Contents(Heard(g.heard, g.table.flows[key].dir.id)) == Contents(Heard(h.heard, h.table.flows[key].dir.id))
    ensures var s := Finished(limits, key, Run(limits, one).table.flows[key].dir, cause);
      var t := Finished(limits, key, Run(limits, other).table.flows[key].dir, cause);
      |s| == |t| && forall i | 0 <= i < |s| :: O.SameContent(s[i], t[i])
  {
    hide Run, Carries, Contents, Heard, Finished, O.SameCapture, O.SameContent;
    var g, h := Run(limits, one), Run(limits, other);
    var a, b := g.table.flows[key].dir, h.table.flows[key].dir;
    LiveCarries(limits, one, key);
    LiveCarries(limits, other, key);
    SamePacketsSameCapture(a, Heard(g.heard, a.id), b, Heard(h.heard, b.id));
    O.FinishIndependent(limits, key, a, b, cause);
  }
}
