/** When a direction survives a packet, and what the packet can add to the table. */
module TcpSurvival {
  import opened Basics
  import opened TcpTypes
  import opened StreamAssembly
  import opened TcpTable
  import opened TcpRuns
  import opened TcpHistory
  import TcpExpiry
  import MapSum

  /** Some directions are gone, and nothing else changed. */
  ghost predicate Shrinks(before: Table, after: Table) {
    && after.nextId == before.nextId
    && forall key | key in after.flows :: key in before.flows && after.flows[key] == before.flows[key]
  }

  /** The direction was not touched. */
  ghost predicate Spares(key: FlowKey, before: Table, after: Table, output: seq<Stream>) {
    && Shrinks(before, after)
    && (key in before.flows ==> key in after.flows)
    && forall i | 0 <= i < |output| :: output[i].key != key
  }

  lemma SparesBoth(key: FlowKey, a: Table, b: Table, c: Table, first: seq<Stream>, second: seq<Stream>)
    requires Spares(key, a, b, first) && Spares(key, b, c, second)
    ensures Spares(key, a, c, first + second)
  {
  }

  lemma RemovedSpares(limits: Limits, t: Table, removed: FlowKey, cause: Finalizer, key: FlowKey)
    requires removed != key || key !in t.flows
    ensures var after := Removed(limits, t, removed, cause); Spares(key, t, after.0, after.1)
  {
    hide Finished;
    if removed in t.flows {
      FinishedShape(limits, removed, t.flows[removed].dir, cause);
    }
  }

  lemma {:induction false} ExpireAllSpares(limits: Limits, t: Table, scope: ScopeKey, watermark: int, key: FlowKey)
    requires !Idle(t.flows, key, scope, watermark)
    ensures var after := ExpireAll(limits, t, scope, watermark); Spares(key, t, after.0, after.1)
    decreases |t.flows|
  {
    hide Removed;
    var idle := IdleEntries(t.flows, scope, watermark);
    if idle != {} {
      var first := FirstEntry(idle).1;
      assert Idle(t.flows, first, scope, watermark);
      TcpExpiry.RemovedIs(limits, t, first, ByIdleTimeout);
      RemovedSpares(limits, t, first, ByIdleTimeout, key);
      var removal := Removed(limits, t, first, ByIdleTimeout);
      ExpireAllSpares(limits, removal.0, scope, watermark, key);
      var rest := ExpireAll(limits, removal.0, scope, watermark);
      hide Spares;
      SparesBoth(key, t, removal.0, rest.0, removal.1, rest.1);
    }
  }

  /** A direction is not expired by a packet no later than its deadline. */
  lemma ExpiredSpares(limits: Limits, t: Table, seen: FlowKey, stamp: PacketStamp, key: FlowKey)
    requires TcpExpiry.ClocksRight(t)
    requires stamp.hasTimestamp && ScheduledIn(t.flows, key, seen.Scope()) ==> stamp.timestamp <= t.flows[key].deadline.value
    ensures var after := Expired(limits, t, seen, stamp); Spares(key, t, after.0, after.1)
  {
    hide ExpireAll;
    var scope := seen.Scope();
    if stamp.hasTimestamp && scope in t.clocks {
      var clock := Advanced(limits, t.clocks[scope], stamp.timestamp);
      var ticked := t.(clocks := t.clocks[scope := clock]);
      assert !Idle(ticked.flows, key, scope, clock);
      ExpireAllSpares(limits, ticked, scope, clock, key);
    }
  }

  lemma RetiredSpares(limits: Limits, t: Table, packet: Packet, key: FlowKey)
    requires key in t.flows && StartsAnew(t, packet) ==>
      packet.key != key && (packet.flags.ack || packet.key.Reverse() != key)
    ensures var after := Retired(limits, t, packet); Spares(key, t, after.0, after.1)
  {
    hide Removed;
    if StartsAnew(t, packet) {
      RemovedSpares(limits, t, packet.key, ByTupleReuse, key);
      var own := Removed(limits, t, packet.key, ByTupleReuse);
      if packet.flags.ack {
        assert own.1 + [] == own.1;
      } else {
        RemovedSpares(limits, own.0, packet.key.Reverse(), ByTupleReuse, key);
        var other := Removed(limits, own.0, packet.key.Reverse(), ByTupleReuse);
        hide Spares;
        SparesBoth(key, t, own.0, other.0, own.1, other.1);
      }
    }
  }

  lemma ResetSpares(limits: Limits, t: Table, packet: Packet, key: FlowKey)
    requires packet.flags.rst && key in t.flows ==> packet.key != key && packet.key.Reverse() != key
    ensures var after := ResetBoth(limits, t, packet); Spares(key, t, after.0, after.1)
  {
    hide Removed;
    if packet.flags.rst {
      RemovedSpares(limits, t, packet.key, ByReset, key);
      var own := Removed(limits, t, packet.key, ByReset);
      RemovedSpares(limits, own.0, packet.key.Reverse(), ByReset, key);
      var other := Removed(limits, own.0, packet.key.Reverse(), ByReset);
      hide Spares;
      SparesBoth(key, t, own.0, other.0, own.1, other.1);
    }
  }

  lemma ReadyShrinks(limits: Limits, t: Table, packet: Packet)
    ensures Shrinks(t, Ready(limits, t, packet).0)
  {
    hide ExpireAll, Finished;
    var scope := packet.key.Scope();
    if packet.stamp.hasTimestamp && scope in t.clocks {
      var clock := Advanced(limits, t.clocks[scope], packet.stamp.timestamp);
      TcpExpiry.ExpireAllExact(limits, t.(clocks := t.clocks[scope := clock]), scope, clock);
    }
  }

  lemma ResetShrinks(limits: Limits, t: Table, packet: Packet)
    ensures Shrinks(t, ResetBoth(limits, t, packet).0)
  {
    hide Finished;
  }

  // ---------------------------------------------------------------- how much a packet can add

  lemma ShrinksTotals(before: Table, after: Table)
    requires Shrinks(before, after)
    ensures TotalBytes(after) <= TotalBytes(before) && TotalSegments(after) <= TotalSegments(before)
    ensures after.flows.Keys <= before.flows.Keys
  {
    MapSum.SumPart(after.flows, before.flows, HeldBytes);
    MapSum.SumPart(after.flows, before.flows, HeldSegments);
  }

  lemma BufferedSize(limits: Limits, d: Direction, totalBytes: nat, totalSegments: nat, segment: Segment)
    ensures var after := Buffered(limits, d, totalBytes, totalSegments, segment);
      && SegmentBytes(after.segments) <= SegmentBytes(d.segments) + |segment.bytes|
      && |after.segments| <= |d.segments| + 1
    ensures d.failure.None?
         && |d.segments| < limits.maxSegments && totalSegments < limits.maxTotalSegments
         && SegmentBytes(d.segments) + |segment.bytes| <= limits.maxStreamBytes
         && totalBytes + |segment.bytes| <= limits.maxTotalBytes
         ==> Buffered(limits, d, totalBytes, totalSegments, segment).failure.None?
  {
    var grown := d.segments + [segment];
    assert grown[..|grown| - 1] == d.segments;
  }

  lemma AbsorbedSize(limits: Limits, d: Direction, totalBytes: nat, totalSegments: nat, packet: Packet)
    ensures var after := Absorbed(limits, d, totalBytes, totalSegments, packet);
      && SegmentBytes(after.segments) <= SegmentBytes(d.segments) + |packet.payload|
      && |after.segments| <= |d.segments| + 1
    ensures d.failure.None? && |packet.payload| <= packet.declared
         && (d.hasFin && packet.flags.fin ==> d.finSequence == FinSequence(packet))
         && |d.segments| < limits.maxSegments && totalSegments < limits.maxTotalSegments
         && SegmentBytes(d.segments) + |packet.payload| <= limits.maxStreamBytes
         && totalBytes + |packet.payload| <= limits.maxTotalBytes
         ==> Absorbed(limits, d, totalBytes, totalSegments, packet).failure.None?
  {
    hide Buffered;
    var noted := WithFin(WithSyn(d.(last := packet.stamp), packet), packet);
    if HasData(packet) {
      BufferedSize(limits, noted, totalBytes, totalSegments, SegmentOf(packet));
    }
  }

  lemma ScheduledTotals(limits: Limits, t: Table, key: FlowKey, stamp: PacketStamp)
    requires key in t.flows
    ensures TotalBytes(Scheduled(limits, t, key, stamp)) == TotalBytes(t)
    ensures TotalSegments(Scheduled(limits, t, key, stamp)) == TotalSegments(t)
  {
    hide Scheduled;
    ScheduledKeepsKey(limits, t, key, stamp);
    var after := Scheduled(limits, t, key, stamp);
    MapSum.SumWithout(after.flows, HeldBytes, key);
    MapSum.SumWithout(after.flows, HeldSegments, key);
    MapSum.SumWithout(t.flows, HeldBytes, key);
    MapSum.SumWithout(t.flows, HeldSegments, key);
    assert after.flows - {key} == t.flows - {key};
  }

  lemma EnteredIs(limits: Limits, t: Table, packet: Packet)
    requires packet.key in t.flows
    ensures var after := Entered(limits, t, packet);
      && after.flows.Keys == t.flows.Keys && after.nextId == t.nextId
      && (forall other | other in t.flows && other != packet.key :: after.flows[other] == t.flows[other])
      && after.flows[packet.key].dir
         == Absorbed(limits, t.flows[packet.key].dir, TotalBytes(t), TotalSegments(t), packet)
      && after.flows[packet.key].deadline == Scheduled(limits, t, packet.key, packet.stamp).flows[packet.key].deadline
      && after.flows[packet.key].untimed == Scheduled(limits, t, packet.key, packet.stamp).flows[packet.key].untimed
  {
    hide Absorbed, Scheduled, TotalBytes, TotalSegments;
    ScheduledKeepsKey(limits, t, packet.key, packet.stamp);
    ScheduledTotals(limits, t, packet.key, packet.stamp);
  }

  lemma EnteredTotals(limits: Limits, t: Table, packet: Packet)
    requires packet.key in t.flows
    ensures TotalBytes(Entered(limits, t, packet)) <= TotalBytes(t) + |packet.payload|
    ensures TotalSegments(Entered(limits, t, packet)) <= TotalSegments(t) + 1
  {
    hide Absorbed, Entered;
    EnteredIs(limits, t, packet);
    var key, after := packet.key, Entered(limits, t, packet);
    AbsorbedSize(limits, t.flows[key].dir, TotalBytes(t), TotalSegments(t), packet);
    MapSum.SumWithout(after.flows, HeldBytes, key);
    MapSum.SumWithout(after.flows, HeldSegments, key);
    MapSum.SumWithout(t.flows, HeldBytes, key);
    MapSum.SumWithout(t.flows, HeldSegments, key);
    assert after.flows - {key} == t.flows - {key};
  }

  lemma AdmittedTotals(limits: Limits, t: Table, packet: Packet)
    ensures var after := Admitted(limits, t, packet).0;
      && TotalBytes(after) == TotalBytes(t) && TotalSegments(after) == TotalSegments(t)
      && after.flows.Keys <= t.flows.Keys + {packet.key}
      && t.nextId <= after.nextId <= t.nextId + 1
      && (forall key | key in t.flows :: key in after.flows && after.flows[key] == t.flows[key])
  {
    var after := Admitted(limits, t, packet).0;
    if packet.key !in t.flows && packet.key in after.flows {
      MapSum.SumUpdate(t.flows, HeldBytes, packet.key, after.flows[packet.key]);
      MapSum.SumUpdate(t.flows, HeldSegments, packet.key, after.flows[packet.key]);
      MapSum.SumAbsent(t.flows, HeldBytes, packet.key);
      MapSum.SumAbsent(t.flows, HeldSegments, packet.key);
    }
  }
}
