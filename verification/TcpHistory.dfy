/** Streams against the packets they came from, over every run: each stream id is emitted at most once, and a
    stream that carries anything agrees with every captured byte its direction took in. */
module TcpHistory {
  import opened Basics
  import opened TcpTypes
  import opened StreamAssembly
  import opened StreamProperties
  import opened TcpTable
  import opened TcpRuns
  import TcpExpiry

  // ---------------------------------------------------------------- what a direction carries of its packets

  predicate HasData(packet: Packet) {
    0 < packet.declared && |packet.payload| <= packet.declared
  }

  function SegmentOf(packet: Packet): Segment
    requires HasData(packet)
  {
    Captured(DataSequence(packet), packet.declared, packet.stamp, packet.payload)
  }

  ghost predicate Taken(d: Direction, packet: Packet) {
    && |packet.payload| <= packet.declared
    && (HasData(packet) ==> Known(d.segments, SegmentOf(packet)))
    && (packet.flags.syn ==> d.hasSyn && d.synSequence == packet.sequence)
    && (packet.flags.fin ==> d.hasFin && d.finSequence == FinSequence(packet))
  }

  ghost predicate Given(packets: seq<Packet>, segment: Segment) {
    exists i | 0 <= i < |packets| :: HasData(packets[i]) && SegmentOf(packets[i]) == segment
  }

  /** A marker that is set came from some packet. */
  ghost predicate Marked(d: Direction, packets: seq<Packet>) {
    && (if d.hasSyn then exists i | 0 <= i < |packets| :: packets[i].flags.syn else d.synSequence == 0)
    && (if d.hasFin then exists i | 0 <= i < |packets| :: packets[i].flags.fin else d.finSequence == 0)
  }

  /** Unless it failed, a direction holds every packet's data and markers, and no others. */
  ghost predicate Carries(d: Direction, packets: seq<Packet>) {
    d.failure.None? ==>
      && (forall i | 0 <= i < |packets| :: Taken(d, packets[i]))
      && (forall i | 0 <= i < |d.segments| :: Given(packets, d.segments[i]))
      && Marked(d, packets)
  }

  lemma KnownGrows(segments: seq<Segment>, more: seq<Segment>, segment: Segment)
    requires Known(segments, segment)
    requires |segments| <= |more| && forall i | 0 <= i < |segments| :: more[i] == segments[i]
    ensures Known(more, segment)
  {
    var i :| 0 <= i < |segments| && Repeats(segments[i], segment);
    assert Repeats(more[i], segment);
  }

  lemma GivenGrows(packets: seq<Packet>, packet: Packet, segment: Segment)
    requires Given(packets, segment)
    ensures Given(packets + [packet], segment)
  {
    var i :| 0 <= i < |packets| && HasData(packets[i]) && SegmentOf(packets[i]) == segment;
    assert (packets + [packet])[i] == packets[i];
  }

  /** What taking in a packet does to a direction that does not fail. */
  lemma AbsorbedShape(limits: Limits, d: Direction, totalBytes: nat, totalSegments: nat, packet: Packet)
    ensures var after := Absorbed(limits, d, totalBytes, totalSegments, packet);
      after.failure.None? ==>
        && d.failure.None?
        && |packet.payload| <= packet.declared
        && (after.segments == d.segments || (HasData(packet) && after.segments == d.segments + [SegmentOf(packet)]))
        && (HasData(packet) ==> Known(after.segments, SegmentOf(packet)))
        && after.hasSyn == (d.hasSyn || packet.flags.syn)
        && after.synSequence == (if packet.flags.syn then packet.sequence else d.synSequence)
        && after.hasFin == (d.hasFin || packet.flags.fin)
        && after.finSequence == (if packet.flags.fin then FinSequence(packet) else d.finSequence)
        && (d.hasFin && packet.flags.fin ==> d.finSequence == FinSequence(packet))
    ensures Absorbed(limits, d, totalBytes, totalSegments, packet).id == d.id
  {
    hide Buffered, Known;
    if HasData(packet) {
      BufferedShape(limits, WithFin(WithSyn(d.(last := packet.stamp), packet), packet), totalBytes, totalSegments,
                    SegmentOf(packet));
    }
  }

  lemma BufferedShape(limits: Limits, d: Direction, totalBytes: nat, totalSegments: nat, segment: Segment)
    ensures var after := Buffered(limits, d, totalBytes, totalSegments, segment);
      && after == d.(segments := after.segments, failure := after.failure)
      && (after.failure.None? ==>
            && d.failure.None?
            && (after.segments == d.segments || after.segments == d.segments + [segment])
            && Known(after.segments, segment))
  {
    var after := Buffered(limits, d, totalBytes, totalSegments, segment);
    if after.segments == d.segments + [segment] {
      assert Repeats(after.segments[|d.segments|], segment);
    }
  }

  lemma AbsorbedCarries(limits: Limits, d: Direction, totalBytes: nat, totalSegments: nat, packet: Packet, packets: seq<Packet>)
    requires Carries(d, packets)
    requires packet.flags.syn && d.hasSyn ==> d.synSequence == packet.sequence
    ensures Carries(Absorbed(limits, d, totalBytes, totalSegments, packet), packets + [packet])
  {
    hide Absorbed;
    AbsorbedShape(limits, d, totalBytes, totalSegments, packet);
    var after := Absorbed(limits, d, totalBytes, totalSegments, packet);
    if after.failure.None? {
      hide Known, Marked;
      MarkedMore(d, after, packets, packet);
      forall i | 0 <= i < |packets + [packet]|
        ensures Taken(after, (packets + [packet])[i])
      {
        if i < |packets| {
          assert Taken(d, packets[i]);
          if HasData(packets[i]) {
            KnownGrows(d.segments, after.segments, SegmentOf(packets[i]));
          }
        }
      }
      hide Given;
      forall i | 0 <= i < |after.segments|
        ensures Given(packets + [packet], after.segments[i])
      {
        if i < |d.segments| {
          GivenGrows(packets, packet, d.segments[i]);
        } else {
          GivenLast(packets, packet);
        }
      }
    }
  }

  lemma MarkedMore(d: Direction, after: Direction, packets: seq<Packet>, packet: Packet)
    requires Marked(d, packets)
    requires after.hasSyn == (d.hasSyn || packet.flags.syn) && after.hasFin == (d.hasFin || packet.flags.fin)
    requires !packet.flags.syn ==> after.synSequence == d.synSequence
    requires !packet.flags.fin ==> after.finSequence == d.finSequence
    ensures Marked(after, packets + [packet])
  {
    var all := packets + [packet];
    assert all[|packets|] == packet;
    assert forall i | 0 <= i < |packets| :: all[i] == packets[i];
    if d.hasSyn {
      var i :| 0 <= i < |packets| && packets[i].flags.syn;
      assert all[i].flags.syn;
    }
    if d.hasFin {
      var i :| 0 <= i < |packets| && packets[i].flags.fin;
      assert all[i].flags.fin;
    }
  }

  lemma GivenLast(packets: seq<Packet>, packet: Packet)
    requires HasData(packet)
    ensures Given(packets + [packet], SegmentOf(packet))
  {
    assert (packets + [packet])[|packets|] == packet;
  }

  lemma FreshCarries(id: nat, stamp: PacketStamp)
    ensures Carries(Fresh(id, stamp), [])
  {
  }

  /** A stream that carries anything is what some direction carrying exactly these packets finished as. */
  ghost predicate Explained(limits: Limits, stream: Stream, packets: seq<Packet>) {
    stream.chunks != [] || stream.gaps != [] ==>
      exists d :: Carries(d, packets) && Explains(limits, d, stream)
  }

  ghost predicate Explains(limits: Limits, d: Direction, stream: Stream) {
    && d.failure.None? && d.id == stream.streamId
    && (d.segments != [] || d.hasSyn)
    && stream in Finished(limits, stream.key, d, stream.finalizedBy)
  }

  lemma FinishedShape(limits: Limits, key: FlowKey, d: Direction, cause: Finalizer)
    ensures |Finished(limits, key, d, cause)| <= 1
    ensures forall i | 0 <= i < |Finished(limits, key, d, cause)| ::
              var stream := Finished(limits, key, d, cause)[i];
              stream.streamId == d.id && stream.key == key && stream.finalizedBy == cause
    ensures d.failure.Some? ==> forall i | 0 <= i < |Finished(limits, key, d, cause)| ::
              var stream := Finished(limits, key, d, cause)[i]; stream.chunks == [] && stream.gaps == []
    ensures Finished(limits, key, d, cause) != [] && d.failure.None? ==> d.segments != [] || d.hasSyn
  {
    hide ChunksFrom, GapsFrom, Overlaid, Owners, Agree;
  }

  lemma FinishedExplained(limits: Limits, key: FlowKey, d: Direction, cause: Finalizer, packets: seq<Packet>)
    requires Carries(d, packets)
    ensures forall i | 0 <= i < |Finished(limits, key, d, cause)| ::
              Explained(limits, Finished(limits, key, d, cause)[i], packets)
  {
    hide Finished, Carries;
    FinishedShape(limits, key, d, cause);
    forall i | 0 <= i < |Finished(limits, key, d, cause)|
      ensures Explained(limits, Finished(limits, key, d, cause)[i], packets)
    {
      var stream := Finished(limits, key, d, cause)[i];
      if stream.chunks != [] || stream.gaps != [] {
        assert Explains(limits, d, stream);
      }
    }
  }

  // ---------------------------------------------------------------- what every step keeps

  /** Live directions and emitted streams all have different ids, all of them used up. */
  ghost predicate IdsRight(h: History) {
    && (forall key | key in h.table.flows :: h.table.flows[key].dir.id < h.table.nextId)
    && (forall a, b | a in h.table.flows && b in h.table.flows && a != b ::
          h.table.flows[a].dir.id != h.table.flows[b].dir.id)
    && (forall i | 0 <= i < |h.emitted| :: h.emitted[i].streamId < h.table.nextId)
    && (forall i, j | 0 <= i < j < |h.emitted| :: h.emitted[i].streamId != h.emitted[j].streamId)
    && (forall key, i | key in h.table.flows && 0 <= i < |h.emitted| ::
          h.table.flows[key].dir.id != h.emitted[i].streamId)
    && (forall id | id in h.heard :: id < h.table.nextId)
  }

  ghost predicate ContentRight(limits: Limits, h: History) {
    && (forall key | key in h.table.flows :: Carries(h.table.flows[key].dir, Heard(h.heard, h.table.flows[key].dir.id)))
    && (forall i | 0 <= i < |h.emitted| :: Explained(limits, h.emitted[i], Heard(h.heard, h.emitted[i].streamId)))
  }

  ghost predicate Right(limits: Limits, h: History) {
    IdsRight(h) && ContentRight(limits, h)
  }

  ghost function AfterRemove(limits: Limits, h: History, key: FlowKey, cause: Finalizer): History {
    var after := Removed(limits, h.table, key, cause);
    h.(table := after.0, emitted := h.emitted + after.1)
  }

  lemma RemoveKeepsIds(limits: Limits, h: History, key: FlowKey, cause: Finalizer)
    requires IdsRight(h)
    ensures IdsRight(AfterRemove(limits, h, key, cause))
  {
    hide Finished;
    if key in h.table.flows {
      FinishedShape(limits, key, h.table.flows[key].dir, cause);
    } else {
      assert h.emitted + [] == h.emitted;
    }
  }

  lemma RemoveKeepsContent(limits: Limits, h: History, key: FlowKey, cause: Finalizer)
    requires ContentRight(limits, h)
    ensures ContentRight(limits, AfterRemove(limits, h, key, cause))
  {
    hide Finished, Carries, Explained, Heard;
    if key in h.table.flows {
      var d := h.table.flows[key].dir;
      FinishedShape(limits, key, d, cause);
      FinishedExplained(limits, key, d, cause, Heard(h.heard, d.id));
    } else {
      assert h.emitted + [] == h.emitted;
    }
  }

  lemma RemoveKeeps(limits: Limits, h: History, key: FlowKey, cause: Finalizer)
    requires Right(limits, h)
    ensures Right(limits, AfterRemove(limits, h, key, cause))
  {
    hide IdsRight, ContentRight;
    RemoveKeepsIds(limits, h, key, cause);
    RemoveKeepsContent(limits, h, key, cause);
  }

  ghost function AfterExpire(limits: Limits, h: History, scope: ScopeKey, watermark: int): History {
    var after := ExpireAll(limits, h.table, scope, watermark);
    h.(table := after.0, emitted := h.emitted + after.1)
  }

  lemma {:induction false} ExpireKeeps(limits: Limits, h: History, scope: ScopeKey, watermark: int)
    requires Right(limits, h)
    ensures Right(limits, AfterExpire(limits, h, scope, watermark))
    decreases |h.table.flows|
  {
    hide Right, Removed;
    var idle := IdleEntries(h.table.flows, scope, watermark);
    if idle == {} {
      assert h.emitted + [] == h.emitted;
    } else {
      var key := FirstEntry(idle).1;
      assert key in h.table.flows;
      TcpExpiry.RemovedIs(limits, h.table, key, ByIdleTimeout);
      RemoveKeeps(limits, h, key, ByIdleTimeout);
      var next := AfterRemove(limits, h, key, ByIdleTimeout);
      ExpireKeeps(limits, next, scope, watermark);
      ExpireOne(limits, h, scope, watermark);
    }
  }

  lemma ExpireOne(limits: Limits, h: History, scope: ScopeKey, watermark: int)
    requires IdleEntries(h.table.flows, scope, watermark) != {}
    ensures var key := FirstEntry(IdleEntries(h.table.flows, scope, watermark)).1;
      AfterExpire(limits, h, scope, watermark)
      == AfterExpire(limits, AfterRemove(limits, h, key, ByIdleTimeout), scope, watermark)
  {
    hide Removed;
    var key := FirstEntry(IdleEntries(h.table.flows, scope, watermark)).1;
    var removal := Removed(limits, h.table, key, ByIdleTimeout);
    var rest := ExpireAll(limits, removal.0, scope, watermark).1;
    assert h.emitted + removal.1 + rest == h.emitted + (removal.1 + rest);
  }

  lemma ExpiredKeeps(limits: Limits, h: History, key: FlowKey, stamp: PacketStamp)
    requires Right(limits, h)
    ensures var after := Expired(limits, h.table, key, stamp);
      Right(limits, h.(table := after.0, emitted := h.emitted + after.1))
  {
    if stamp.hasTimestamp && key.Scope() in h.table.clocks {
      var clock := Advanced(limits, h.table.clocks[key.Scope()], stamp.timestamp);
      var ticked := h.(table := h.table.(clocks := h.table.clocks[key.Scope() := clock]));
      TickKeeps(limits, h, ticked.table.clocks);
      ExpireKeeps(limits, ticked, key.Scope(), clock);
    } else {
      assert h.emitted + [] == h.emitted;
    }
  }

  lemma TickKeeps(limits: Limits, h: History, clocks: map<ScopeKey, int>)
    requires Right(limits, h)
    ensures Right(limits, h.(table := h.table.(clocks := clocks)))
  {
    hide Carries, Explained;
  }

  lemma RetiredKeeps(limits: Limits, h: History, packet: Packet)
    requires Right(limits, h)
    ensures var after := Retired(limits, h.table, packet);
      Right(limits, h.(table := after.0, emitted := h.emitted + after.1))
  {
    hide Right, Removed;
    if StartsAnew(h.table, packet) {
      RemoveKeeps(limits, h, packet.key, ByTupleReuse);
      var own := Removed(limits, h.table, packet.key, ByTupleReuse);
      if packet.flags.ack {
        assert own.1 + [] == own.1;
      } else {
        RemoveKeeps(limits, AfterRemove(limits, h, packet.key, ByTupleReuse), packet.key.Reverse(), ByTupleReuse);
        var other := Removed(limits, own.0, packet.key.Reverse(), ByTupleReuse);
        assert h.emitted + own.1 + other.1 == h.emitted + (own.1 + other.1);
      }
    } else {
      assert h.emitted + [] == h.emitted;
    }
  }

  ghost function AfterReady(limits: Limits, h: History, packet: Packet): History {
    var after := Ready(limits, h.table, packet);
    h.(table := after.0, emitted := h.emitted + after.1)
  }

  lemma ReadyKeeps(limits: Limits, h: History, packet: Packet)
    requires Right(limits, h)
    ensures Right(limits, AfterReady(limits, h, packet))
  {
    hide Right, Expired, Retired;
    ExpiredKeeps(limits, h, packet.key, packet.stamp);
    var expired := Expired(limits, h.table, packet.key, packet.stamp);
    var next := h.(table := expired.0, emitted := h.emitted + expired.1);
    RetiredKeeps(limits, next, packet);
    var retired := Retired(limits, expired.0, packet);
    assert h.emitted + expired.1 + retired.1 == h.emitted + (expired.1 + retired.1);
  }

  lemma ResetKeeps(limits: Limits, h: History, packet: Packet)
    requires Right(limits, h)
    ensures var after := ResetBoth(limits, h.table, packet);
      Right(limits, h.(table := after.0, emitted := h.emitted + after.1))
  {
    hide Right, Removed;
    if packet.flags.rst {
      RemoveKeeps(limits, h, packet.key, ByReset);
      RemoveKeeps(limits, AfterRemove(limits, h, packet.key, ByReset), packet.key.Reverse(), ByReset);
      var own := Removed(limits, h.table, packet.key, ByReset);
      var other := Removed(limits, own.0, packet.key.Reverse(), ByReset);
      assert h.emitted + own.1 + other.1 == h.emitted + (own.1 + other.1);
    } else {
      assert h.emitted + [] == h.emitted;
    }
  }

  lemma OneMoreEmitted(h: History, stream: Stream, nextId: U64)
    requires IdsRight(h) && stream.streamId == h.table.nextId < nextId
    ensures IdsRight(h.(table := h.table.(nextId := nextId), emitted := h.emitted + [stream]))
  {
  }

  lemma OneMoreTracked(h: History, key: FlowKey, f: Tracked, nextId: U64)
    requires IdsRight(h) && key !in h.table.flows && f.dir.id == h.table.nextId < nextId
    ensures IdsRight(h.(table := h.table.(flows := h.table.flows[key := f], nextId := nextId)))
  {
  }

  lemma AdmittedKeepsIds(limits: Limits, h: History, packet: Packet)
    requires IdsRight(h)
    ensures var after := Admitted(limits, h.table, packet);
      IdsRight(h.(table := after.0, emitted := h.emitted + StreamsOf(after.1)))
  {
    hide IdsRight;
    assert h.emitted + [] == h.emitted;
    var t := h.table;
    if packet.key !in t.flows && t.nextId != U64_MAX {
      if |t.flows| >= limits.maxFlows {
        OneMoreEmitted(h, Overflow(packet, t.nextId), t.nextId + 1);
      } else {
        OneMoreTracked(h, packet.key, Tracked(Fresh(t.nextId, packet.stamp), false, None), t.nextId + 1);
      }
    }
  }

  lemma AdmittedKeepsContent(limits: Limits, h: History, packet: Packet)
    requires IdsRight(h) && ContentRight(limits, h)
    ensures var after := Admitted(limits, h.table, packet);
      ContentRight(limits, h.(table := after.0, emitted := h.emitted + StreamsOf(after.1)))
  {
    hide Carries;
    assert h.emitted + [] == h.emitted;
    FreshCarries(h.table.nextId, packet.stamp);
  }

  /** The packet's direction takes it in: its table entry and its history grow together. */
  ghost function AfterEnter(limits: Limits, h: History, packet: Packet): History
    requires packet.key in h.table.flows
  {
    var id := h.table.flows[packet.key].dir.id;
    h.(table := Entered(limits, h.table, packet), heard := h.heard[id := Heard(h.heard, id) + [packet]])
  }

  lemma EnteredShape(limits: Limits, t: Table, packet: Packet)
    requires packet.key in t.flows
    ensures var after := Entered(limits, t, packet);
      && after.flows.Keys == t.flows.Keys && after.nextId == t.nextId
      && (forall other | other in t.flows && other != packet.key :: after.flows[other] == t.flows[other])
      && exists totalBytes, totalSegments ::
           after.flows[packet.key].dir == Absorbed(limits, t.flows[packet.key].dir, totalBytes, totalSegments, packet)
  {
    hide Absorbed, Scheduled;
    ScheduledKeepsKey(limits, t, packet.key, packet.stamp);
  }

  lemma EnteredKeepsIds(limits: Limits, h: History, packet: Packet)
    requires IdsRight(h) && packet.key in h.table.flows
    ensures IdsRight(AfterEnter(limits, h, packet))
  {
    hide Absorbed, Entered;
    EnteredShape(limits, h.table, packet);
    var b, s :| Entered(limits, h.table, packet).flows[packet.key].dir
             == Absorbed(limits, h.table.flows[packet.key].dir, b, s, packet);
    AbsorbedShape(limits, h.table.flows[packet.key].dir, b, s, packet);
  }

  lemma EnteredKeepsContent(limits: Limits, h: History, packet: Packet)
    requires IdsRight(h) && ContentRight(limits, h) && packet.key in h.table.flows
    requires !StartsAnew(h.table, packet)
    ensures ContentRight(limits, AfterEnter(limits, h, packet))
  {
    hide Absorbed, Entered, Carries, Explained;
    EnteredShape(limits, h.table, packet);
    var d := h.table.flows[packet.key].dir;
    var b, s :| Entered(limits, h.table, packet).flows[packet.key].dir == Absorbed(limits, d, b, s, packet);
    AbsorbedShape(limits, d, b, s, packet);
    AbsorbedCarries(limits, d, b, s, packet, Heard(h.heard, d.id));
  }

  lemma EnteredKeeps(limits: Limits, h: History, packet: Packet)
    requires Right(limits, h) && packet.key in h.table.flows && !StartsAnew(h.table, packet)
    ensures Right(limits, AfterEnter(limits, h, packet))
  {
    hide IdsRight, ContentRight, Entered;
    EnteredKeepsIds(limits, h, packet);
    EnteredKeepsContent(limits, h, packet);
  }

  lemma ReadyNotAnew(limits: Limits, t: Table, packet: Packet)
    ensures packet.key in Ready(limits, t, packet).0.flows ==> !StartsAnew(Ready(limits, t, packet).0, packet)
  {
    hide Expired, Finished;
  }

  lemma DroppedOutput(limits: Limits, h: History, output: seq<Stream>)
    requires Right(limits, h.(emitted := h.emitted + output))
    ensures Right(limits, h)
  {
    hide Carries, Explained, Heard;
    var more := h.emitted + output;
    assert forall i | 0 <= i < |h.emitted| :: more[i] == h.emitted[i];
  }

  /** The state once the packet's direction is tracked. */
  ghost function AfterAdmit(limits: Limits, h: History, packet: Packet): History {
    var after := Admitted(limits, h.table, packet);
    h.(table := after.0, emitted := h.emitted + StreamsOf(after.1))
  }

  lemma AdmittedKeeps(limits: Limits, h: History, packet: Packet)
    requires Right(limits, h)
    ensures Right(limits, AfterAdmit(limits, h, packet))
  {
    hide IdsRight, ContentRight;
    AdmittedKeepsIds(limits, h, packet);
    AdmittedKeepsContent(limits, h, packet);
  }

  /** A packet whose direction is tracked: taken in, then perhaps reset. */
  lemma TakenKeeps(limits: Limits, h: History, packet: Packet)
    requires Right(limits, h) && packet.key in h.table.flows && !StartsAnew(h.table, packet)
    ensures var reset := ResetBoth(limits, Entered(limits, h.table, packet), packet);
      Right(limits, AfterEnter(limits, h, packet).(table := reset.0, emitted := h.emitted + reset.1))
  {
    hide Right, Entered, ResetBoth;
    EnteredKeeps(limits, h, packet);
    ResetKeeps(limits, AfterEnter(limits, h, packet), packet);
  }

  lemma FeedUntracked(limits: Limits, h: History, packet: Packet)
    requires Right(limits, h)
    requires packet.key !in Ready(limits, h.table, packet).0.flows && !Opens(packet)
    ensures Right(limits, Step(limits, h, Feed(packet)))
  {
    hide Right, Ready, Removed;
    ReadyKeeps(limits, h, packet);
    var ready := AfterReady(limits, h, packet);
    if packet.flags.rst {
      RemoveKeeps(limits, ready, packet.key.Reverse(), ByReset);
      var reset := Removed(limits, ready.table, packet.key.Reverse(), ByReset).1;
      assert ready.emitted + reset == h.emitted + (Ready(limits, h.table, packet).1 + reset);
    } else {
      assert Ready(limits, h.table, packet).1 + [] == Ready(limits, h.table, packet).1;
    }
  }

  lemma FeedRefused(limits: Limits, h: History, packet: Packet)
    requires Right(limits, h)
    requires packet.key in Ready(limits, h.table, packet).0.flows || Opens(packet)
    requires packet.key !in Admitted(limits, Ready(limits, h.table, packet).0, packet).0.flows
    ensures Right(limits, Step(limits, h, Feed(packet)))
  {
    hide Right, Ready;
    ReadyKeeps(limits, h, packet);
    var ready := Ready(limits, h.table, packet);
    var admitted := Admitted(limits, ready.0, packet);
    AdmittedKeeps(limits, AfterReady(limits, h, packet), packet);
    if admitted.1.IdsExhausted? {
      DroppedOutput(limits, h.(table := ready.0), ready.1);
      assert h.emitted + [] == h.emitted;
    } else {
      assert h.emitted + ready.1 + admitted.1.streams == h.emitted + (ready.1 + admitted.1.streams);
    }
  }

  lemma FeedTaken(limits: Limits, h: History, packet: Packet)
    requires Right(limits, h)
    requires packet.key in Ready(limits, h.table, packet).0.flows || Opens(packet)
    requires packet.key in Admitted(limits, Ready(limits, h.table, packet).0, packet).0.flows
    ensures Right(limits, Step(limits, h, Feed(packet)))
  {
    hide Right, Ready, Entered, ResetBoth;
    ReadyKeeps(limits, h, packet);
    ReadyNotAnew(limits, h.table, packet);
    var ready := Ready(limits, h.table, packet);
    var next := AfterAdmit(limits, AfterReady(limits, h, packet), packet);
    AdmittedKeeps(limits, AfterReady(limits, h, packet), packet);
    assert next.emitted == h.emitted + ready.1;
    TakenKeeps(limits, next, packet);
    var reset := ResetBoth(limits, Entered(limits, next.table, packet), packet);
    assert h.emitted + ready.1 + reset.1 == h.emitted + (ready.1 + reset.1);
  }

  lemma StepKeeps(limits: Limits, h: History, action: Action)
    requires Right(limits, h)
    ensures Right(limits, Step(limits, h, action))
  {
    hide Right, Add, Ready, Removed;
    match action
    case Drain =>
      if h.table.flows == map[] {
        assert h.emitted + [] == h.emitted;
      } else {
        RemoveKeeps(limits, h, FirstKey(h.table.flows.Keys), ByEof);
      }
    case Feed(packet) =>
      var ready := Ready(limits, h.table, packet).0;
      if packet.key !in ready.flows && !Opens(packet) {
        FeedUntracked(limits, h, packet);
      } else if packet.key in Admitted(limits, ready, packet).0.flows {
        FeedTaken(limits, h, packet);
      } else {
        FeedRefused(limits, h, packet);
      }
  }

  /** Ids and contents are right in every reachable state. */
  lemma {:induction false} RunRight(limits: Limits, actions: seq<Action>)
    ensures Right(limits, Run(limits, actions))
  {
    hide Step;
    if actions != [] {
      hide Right;
      RunRight(limits, actions[..|actions| - 1]);
      StepKeeps(limits, Run(limits, actions[..|actions| - 1]), actions[|actions| - 1]);
    }
  }

  // ---------------------------------------------------------------- what a run has emitted

  /** No stream id is emitted twice, whatever was fed and drained. */
  lemma IdsEmittedOnce(limits: Limits, actions: seq<Action>, i: nat, j: nat)
    requires i < |Run(limits, actions).emitted| && j < |Run(limits, actions).emitted|
    requires Run(limits, actions).emitted[i].streamId == Run(limits, actions).emitted[j].streamId
    ensures i == j
  {
    hide Run, ContentRight;
    RunRight(limits, actions);
  }

  /** Every captured byte a direction ever took in appears, at its place, in the stream it was emitted as,
      if that stream carries any bytes at all. */
  lemma EmittedAgrees(limits: Limits, actions: seq<Action>, i: nat, k: nat, j: nat)
    requires var h := Run(limits, actions);
      && i < |h.emitted| && (h.emitted[i].chunks != [] || h.emitted[i].gaps != [])
      && k < |Heard(h.heard, h.emitted[i].streamId)|
      && j < |Heard(h.heard, h.emitted[i].streamId)[k].payload|
    ensures var h := Run(limits, actions);
      var stream := h.emitted[i];
      var packet := Heard(h.heard, stream.streamId)[k];
      HasByte(stream, RelativeSequence(DataSequence(packet), stream.sequence) + j, packet.payload[j])
  {
    hide Run, IdsRight, Carries, HasByte, Heard, Finished, Taken;
    RunRight(limits, actions);
    var h := Run(limits, actions);
    var stream := h.emitted[i];
    var packets := Heard(h.heard, stream.streamId);
    assert Explained(limits, stream, packets);
    var d :| Carries(d, packets) && Explains(limits, d, stream);
    CarriedTaken(d, packets, k);
    CarriedByte(limits, d, stream, packets[k], j);
  }

  lemma CarriedTaken(d: Direction, packets: seq<Packet>, k: nat)
    requires Carries(d, packets) && d.failure.None? && k < |packets|
    ensures Taken(d, packets[k])
  {
  }

  lemma CarriedByte(limits: Limits, d: Direction, stream: Stream, packet: Packet, j: nat)
    requires Taken(d, packet) && Explains(limits, d, stream)
    requires stream.chunks != [] || stream.gaps != []
    requires j < |packet.payload|
    ensures HasByte(stream, RelativeSequence(DataSequence(packet), stream.sequence) + j, packet.payload[j])
  {
    hide HasByte, Finished, Reconstructs, RelativeSequence;
    FinishedReconstructs(limits, stream.key, d, stream.finalizedBy, stream);
    ReconstructedByte(limits, d, stream, packet, j);
  }

  lemma ReconstructedByte(limits: Limits, d: Direction, stream: Stream, packet: Packet, j: nat)
    requires Taken(d, packet) && (d.segments != [] || d.hasSyn)
    requires Reconstructs(limits, d, Offsets(d.segments, BaseOf(d)), stream)
    requires j < |packet.payload|
    ensures HasByte(stream, RelativeSequence(DataSequence(packet), stream.sequence) + j, packet.payload[j])
  {
    hide HasByte, Reconstructs, RelativeSequence;
    var i :| 0 <= i < |d.segments| && Repeats(d.segments[i], SegmentOf(packet));
    StreamAgreesWithSegments(limits, d, Offsets(d.segments, BaseOf(d)), stream, i, j);
  }
}
