/** What ends a captured conversation, exactly, and that its messages are reported whichever way it ends. */
module ConversationEnd {
  import opened Basics
  import opened TcpTypes
  import opened StreamAssembly
  import opened TcpTable
  import opened TcpRuns
  import opened TcpHistory
  import opened TcpSurvival
  import opened Conversation
  import opened DnsOverTcp
  import DnsFraming
  import TcpExpiry

  // ---------------------------------------------------------------- a direction ends once, with its own stream

  ghost predicate FinishedAs(limits: Limits, key: FlowKey, d: Direction, streams: seq<Stream>) {
    exists cause :: streams == Finished(limits, key, d, cause)
  }

  /** A direction is as it was, or is gone and its own stream is the only one emitted for it. */
  ghost predicate Settles(limits: Limits, key: FlowKey, before: Table, after: Table, output: seq<Stream>) {
    && (key in after.flows ==> key in before.flows && after.flows[key] == before.flows[key])
    && (if key in before.flows && key !in after.flows
        then FinishedAs(limits, key, before.flows[key].dir, OfKey(output, key))
        else OfKey(output, key) == [])
  }

  lemma SettlesBoth(limits: Limits, key: FlowKey, a: Table, b: Table, c: Table, first: seq<Stream>, second: seq<Stream>)
    requires Settles(limits, key, a, b, first) && Settles(limits, key, b, c, second)
    ensures Settles(limits, key, a, c, first + second)
  {
    hide FinishedAs, OfKey;
    OfKeyBoth(first, second, key);
    assert OfKey(first, key) + [] == OfKey(first, key) && [] + OfKey(second, key) == OfKey(second, key);
  }

  lemma NothingSettles(limits: Limits, key: FlowKey, before: Table, after: Table)
    requires key in before.flows <==> key in after.flows
    requires key in before.flows ==> after.flows[key] == before.flows[key]
    ensures Settles(limits, key, before, after, [])
  {
  }

  lemma RemovedSettles(limits: Limits, t: Table, removed: FlowKey, cause: Finalizer, key: FlowKey)
    ensures var after := Removed(limits, t, removed, cause); Settles(limits, key, t, after.0, after.1)
  {
    hide Finished, OfKey;
    if removed in t.flows {
      OfKeyFinished(limits, removed, t.flows[removed].dir, cause, key);
      assert FinishedAs(limits, removed, t.flows[removed].dir, Finished(limits, removed, t.flows[removed].dir, cause));
    } else {
      OfKeyNone([], key);
    }
  }

  lemma {:induction false} ExpireAllSettles(limits: Limits, t: Table, scope: ScopeKey, watermark: int, key: FlowKey)
    ensures var after := ExpireAll(limits, t, scope, watermark); Settles(limits, key, t, after.0, after.1)
    decreases |t.flows|
  {
    hide Removed, Settles;
    var idle := IdleEntries(t.flows, scope, watermark);
    if idle == {} {
      NothingSettles(limits, key, t, t);
    } else {
      var first := FirstEntry(idle).1;
      assert Idle(t.flows, first, scope, watermark);
      TcpExpiry.RemovedIs(limits, t, first, ByIdleTimeout);
      RemovedSettles(limits, t, first, ByIdleTimeout, key);
      var removal := Removed(limits, t, first, ByIdleTimeout);
      ExpireAllSettles(limits, removal.0, scope, watermark, key);
      var rest := ExpireAll(limits, removal.0, scope, watermark);
      SettlesBoth(limits, key, t, removal.0, rest.0, removal.1, rest.1);
    }
  }

  lemma ExpiredSettles(limits: Limits, t: Table, seen: FlowKey, stamp: PacketStamp, key: FlowKey)
    ensures var after := Expired(limits, t, seen, stamp); Settles(limits, key, t, after.0, after.1)
  {
    hide ExpireAll, FinishedAs, OfKey;
    if stamp.hasTimestamp && seen.Scope() in t.clocks {
      var clock := Advanced(limits, t.clocks[seen.Scope()], stamp.timestamp);
      ExpireAllSettles(limits, t.(clocks := t.clocks[seen.Scope() := clock]), seen.Scope(), clock, key);
    } else {
      NothingSettles(limits, key, t, t);
    }
  }

  lemma RetiredSettles(limits: Limits, t: Table, packet: Packet, key: FlowKey)
    ensures var after := Retired(limits, t, packet); Settles(limits, key, t, after.0, after.1)
  {
    hide Removed, Settles;
    NothingSettles(limits, key, t, t);
    if StartsAnew(t, packet) {
      var own := Removed(limits, t, packet.key, ByTupleReuse);
      RemovedSettles(limits, t, packet.key, ByTupleReuse, key);
      if packet.flags.ack {
        assert own.1 + [] == own.1;
      } else {
        RemovedSettles(limits, own.0, packet.key.Reverse(), ByTupleReuse, key);
        var other := Removed(limits, own.0, packet.key.Reverse(), ByTupleReuse);
        SettlesBoth(limits, key, t, own.0, other.0, own.1, other.1);
      }
    }
  }

  lemma ReadySettles(limits: Limits, t: Table, packet: Packet, key: FlowKey)
    ensures var after := Ready(limits, t, packet); Settles(limits, key, t, after.0, after.1)
  {
    hide Expired, Retired, Settles;
    var expired := Expired(limits, t, packet.key, packet.stamp);
    var retired := Retired(limits, expired.0, packet);
    ExpiredSettles(limits, t, packet.key, packet.stamp, key);
    RetiredSettles(limits, expired.0, packet, key);
    SettlesBoth(limits, key, t, expired.0, retired.0, expired.1, retired.1);
  }

  lemma ResetSettles(limits: Limits, t: Table, packet: Packet, key: FlowKey)
    ensures var after := ResetBoth(limits, t, packet); Settles(limits, key, t, after.0, after.1)
  {
    hide Removed, Settles;
    NothingSettles(limits, key, t, t);
    if packet.flags.rst {
      var own := Removed(limits, t, packet.key, ByReset);
      RemovedSettles(limits, t, packet.key, ByReset, key);
      RemovedSettles(limits, own.0, packet.key.Reverse(), ByReset, key);
      var other := Removed(limits, own.0, packet.key.Reverse(), ByReset);
      SettlesBoth(limits, key, t, own.0, other.0, own.1, other.1);
    }
  }

  /** What the packet does once the table is ready for it. */
  lemma PlacedSettles(limits: Limits, t: Table, packet: Packet, key: FlowKey) returns (output: seq<Stream>)
    requires packet.key != key && Add(limits, t, packet).1.Added?
    ensures var ready := Ready(limits, t, packet);
      && Add(limits, t, packet).1.streams == ready.1 + output
      && Settles(limits, key, ready.0, Add(limits, t, packet).0, output)
  {
    hide Ready, Entered, ResetBoth, Removed, Settles, Opens;
    var ready := Ready(limits, t, packet).0;
    if packet.key !in ready.flows && !Opens(packet) {
      output := if packet.flags.rst then Removed(limits, ready, packet.key.Reverse(), ByReset).1 else [];
      NothingSettles(limits, key, ready, ready);
      RemovedSettles(limits, ready, packet.key.Reverse(), ByReset, key);
    } else if packet.key in Entrance(limits, t, packet).flows {
      var entry := Entrance(limits, t, packet);
      var entered := Entered(limits, entry, packet);
      AdmittedTotals(limits, ready, packet);
      EnteredIs(limits, entry, packet);
      NothingSettles(limits, key, ready, entered);
      ResetSettles(limits, entered, packet, key);
      output := ResetBoth(limits, entered, packet).1;
      SettlesBoth(limits, key, ready, entered, ResetBoth(limits, entered, packet).0, [], output);
      assert [] + output == output;
    } else {
      output := Admitted(limits, ready, packet).1.streams;
      RefusedSettles(limits, ready, packet, key);
    }
  }

  lemma RefusedSettles(limits: Limits, t: Table, packet: Packet, key: FlowKey)
    requires packet.key != key && packet.key !in Admitted(limits, t, packet).0.flows && Admitted(limits, t, packet).1.Added?
    ensures Settles(limits, key, t, Admitted(limits, t, packet).0, Admitted(limits, t, packet).1.streams)
  {
    hide FinishedAs;
    OfKeyNone(Admitted(limits, t, packet).1.streams, key);
  }

  /** Whatever packet comes on another tuple: a direction is as it was, or its own stream is emitted, once, and it is
      gone. */
  lemma AddSettles(limits: Limits, t: Table, packet: Packet, key: FlowKey)
    requires packet.key != key && Add(limits, t, packet).1.Added?
    ensures Settles(limits, key, t, Add(limits, t, packet).0, Add(limits, t, packet).1.streams)
  {
    hide Add, Ready, Settles;
    ReadySettles(limits, t, packet, key);
    var output := PlacedSettles(limits, t, packet, key);
    var ready := Ready(limits, t, packet);
    SettlesBoth(limits, key, t, ready.0, Add(limits, t, packet).0, ready.1, output);
  }

  // ---------------------------------------------------------------- exactly which packets end it

  lemma ExpiredRemoves(limits: Limits, t: Table, seen: FlowKey, stamp: PacketStamp, key: FlowKey)
    requires TcpExpiry.ClocksRight(t) && stamp.hasTimestamp
    requires ScheduledIn(t.flows, key, seen.Scope()) && t.flows[key].deadline.value < stamp.timestamp
    ensures key !in Expired(limits, t, seen, stamp).0.flows
  {
    hide ExpireAll, IdleEntries, TcpExpiry.IdleOrder;
    var scope := seen.Scope();
    var clock := Advanced(limits, t.clocks[scope], stamp.timestamp);
    var order := TcpExpiry.IdleOrder(t.flows, scope, clock);
    TcpExpiry.ExpireAllExact(limits, t.(clocks := t.clocks[scope := clock]), scope, clock);
    TcpExpiry.IdleOrderExact(t.flows, scope, clock);
    TcpExpiry.IdleListed(t.flows, scope, clock, key);
    var i :| 0 <= i < |order| && order[i] == (t.flows[key].deadline.value, key);
    assert order[i].1 == key;
  }

  lemma ReadyWithin(limits: Limits, t: Table, packet: Packet, key: FlowKey)
    requires key !in Expired(limits, t, packet.key, packet.stamp).0.flows
    ensures key !in Ready(limits, t, packet).0.flows
  {
    hide Expired, Retired, FinishedAs, OfKey;
    RetiredSettles(limits, Expired(limits, t, packet.key, packet.stamp).0, packet, key);
  }

  lemma RetiredRemoves(limits: Limits, t: Table, packet: Packet)
    requires !packet.flags.ack && StartsAnew(Expired(limits, t, packet.key, packet.stamp).0, packet)
    ensures packet.key.Reverse() !in Ready(limits, t, packet).0.flows
  {
    hide Expired, Finished, Settled;
  }

  lemma AddWithin(limits: Limits, t: Table, packet: Packet, key: FlowKey)
    requires packet.key != key && key !in Ready(limits, t, packet).0.flows
    ensures key !in Add(limits, t, packet).0.flows
  {
    hide Ready, Entered, ResetBoth, Removed, Admitted, Opens;
    var ready := Ready(limits, t, packet).0;
    if packet.key !in ready.flows && !Opens(packet) {
      RemovedWithin(limits, ready, packet.key.Reverse(), ByReset, key);
    } else {
      AdmittedTotals(limits, ready, packet);
      var entry := Entrance(limits, t, packet);
      if packet.key in entry.flows {
        EnteredIs(limits, entry, packet);
        ResetShrinks(limits, Entered(limits, entry, packet), packet);
      }
    }
  }

  lemma RemovedWithin(limits: Limits, t: Table, removed: FlowKey, cause: Finalizer, key: FlowKey)
    requires key !in t.flows
    ensures key !in Removed(limits, t, removed, cause).0.flows
  {
    hide Finished, Settled;
  }

  lemma ResetRemoves(limits: Limits, t: Table, packet: Packet)
    requires packet.flags.rst && !Refused(limits, t, packet)
    ensures packet.key.Reverse() !in Add(limits, t, packet).0.flows
  {
    hide Ready, Entered, Finished, Settled, Opens;
  }

  lemma IdleEnds(limits: Limits, c: Conversation, packets: seq<Packet>, h: History, packet: Packet)
    requires TcpExpiry.ClocksRight(h.table) && Tracking(limits, c, packets, h) && Mine(packets, c.key) != []
    requires limits.tcpIdle > 0 && packet.stamp.hasTimestamp && packet.key.Scope() == c.key.Scope()
    requires !InTime(limits, Mine(packets, c.key), packet)
    ensures c.key !in Ready(limits, h.table, packet).0.flows
  {
    hide Mine, InTime, Alive, Expired, Ready, TcpExpiry.ClocksRight;
    InTimeSpares(limits, h.table.flows[c.key], Mine(packets, c.key), packet);
    ExpiredRemoves(limits, h.table, packet.key, packet.stamp, c.key);
    ReadyWithin(limits, h.table, packet, c.key);
  }

  lemma SurvivesStep(limits: Limits, c: Conversation, packets: seq<Packet>, h: History, packet: Packet)
    requires TcpExpiry.ClocksRight(h.table) && Right(limits, h) && Tracking(limits, c, packets, h)
    requires packet.key != c.key && Mine(packets, c.key) != []
    ensures c.key in Add(limits, h.table, packet).0.flows <==> MayFollow(limits, c, packets, h.table, packet)
  {
    hide Mine, InTime, Ready, Add, Expired, StartsAnew, Refused, TcpExpiry.ClocksRight, Right, Intact;
    if MayFollow(limits, c, packets, h.table, packet) {
      OtherStep(limits, c, packets, h, packet);
    } else if packet.key == c.key.Reverse() && Ends(limits, h.table, packet) {
      assert packet.key.Reverse() == c.key;
      if packet.flags.rst && !Refused(limits, h.table, packet) {
        ResetRemoves(limits, h.table, packet);
      } else {
        RetiredRemoves(limits, h.table, packet);
        AddWithin(limits, h.table, packet, c.key);
      }
    } else {
      IdleEnds(limits, c, packets, h, packet);
      AddWithin(limits, h.table, packet, c.key);
    }
  }

  /** In every capture: a packet on another tuple leaves a conversation under way tracked if and only if it does not
      end it from the other direction and does not come after it has fallen idle. */
  lemma SurvivesExactly(limits: Limits, c: Conversation, packets: seq<Packet>, packet: Packet)
    requires Undisturbed(limits, c, packets) && Roomy(limits, c, packets)
    requires packet.key != c.key && Mine(packets, c.key) != []
    ensures c.key in Fed(limits, packets + [packet]).table.flows
       <==> MayFollow(limits, c, packets, Fed(limits, packets).table, packet)
  {
    hide Mine, Run, Undisturbed, Roomy, MayFollow, Tracking, TcpExpiry.ClocksRight, Right, Add;
    TrackingAlways(limits, c, packets);
    RunClocks(limits, Feeds(packets));
    RunRight(limits, Feeds(packets));
    SurvivesStep(limits, c, packets, Fed(limits, packets), packet);
    FedOneMore(limits, packets, packet);
  }

  // ---------------------------------------------------------------- what is emitted stays emitted

  lemma {:induction false} EmittedStays(limits: Limits, packets: seq<Packet>, more: seq<Packet>)
    ensures Fed(limits, packets).emitted <= Fed(limits, packets + more).emitted
    decreases |more|
  {
    hide Run;
    if more == [] {
      assert packets + more == packets;
    } else {
      var n := |more| - 1;
      EmittedStays(limits, packets, more[..n]);
      FedOneMore(limits, packets + more[..n], more[n]);
      assert packets + more == packets + more[..n] + [more[n]];
    }
  }

  lemma {:induction false} FramedAllBoth(a: seq<Stream>, b: seq<Stream>, maxMessages: nat)
    ensures FramedAll(a + b, maxMessages) == FramedAll(a, maxMessages) + FramedAll(b, maxMessages)
    decreases |b|
  {
    hide DnsFraming.Framed;
    if b == [] {
      assert a + b == a;
    } else {
      FramedAllBoth(a, b[..|b| - 1], maxMessages);
      assert (a + b)[..|a + b| - 1] == a + b[..|b| - 1];
    }
  }

  lemma FramedFinished(limits: Limits, key: FlowKey, d: Direction, cause: Finalizer, maxMessages: nat)
    ensures FramedAll(Finished(limits, key, d, cause), maxMessages) == Rows(limits, key, d, cause, maxMessages)
  {
    hide Finished, DnsFraming.Framed;
    FinishedShape(limits, key, d, cause);
    if Finished(limits, key, d, cause) != [] {
      FramedOne(Finished(limits, key, d, cause), maxMessages);
    }
  }

  /** Once a direction's stream is the first emitted for its key, its rows come first, whatever is captured later. */
  lemma RowsComeFirst(limits: Limits, c: Conversation, packets: seq<Packet>, more: seq<Packet>, d: Direction,
                      cause: Finalizer, rest: seq<Stream>, maxMessages: nat)
    requires OfKey(Fed(limits, packets).emitted, c.key) == Finished(limits, c.key, d, cause) + rest
    ensures Rows(limits, c.key, d, cause, maxMessages) <= Reported(limits, c, packets + more, maxMessages)
  {
    hide Fed, Finished, OfKey, FramedAll, Rows, Drained;
    EmittedStays(limits, packets, more);
    var h := Fed(limits, packets + more);
    var now := Fed(limits, packets).emitted;
    var later := h.emitted[|now|..];
    assert h.emitted == now + later;
    var own, drained := Finished(limits, c.key, d, cause), Drained(limits, h.table);
    OfKeyBoth(now, later, c.key);
    OfKeyBoth(h.emitted, drained, c.key);
    var tail := rest + OfKey(later, c.key) + OfKey(drained, c.key);
    assert OfKey(h.emitted + drained, c.key) == own + tail;
    FramedAllBoth(own, tail, maxMessages);
    FramedFinished(limits, c.key, d, cause, maxMessages);
  }

  /** The reported rows begin with the conversation's messages, each whole and in its place. */
  ghost predicate BeginsWith(rows: seq<DnsFraming.DnsMessage>, c: Conversation, id: nat, messages: seq<DnsFraming.Payload>) {
    |messages| <= |rows| && forall i: nat | i < |messages| :: RowIs(rows[i], c, id, messages, i)
  }

  lemma MessagesFirst(limits: Limits, c: Conversation, messages: seq<DnsFraming.Payload>, d: Direction, mine: seq<Packet>,
                      cause: Finalizer, rows: seq<DnsFraming.DnsMessage>, maxMessages: nat)
    requires Follows(d, c) && Carries(d, mine) && Covered(c, mine)
    requires c.bytes == DnsFraming.Encoded(messages) && Fitting(limits, c) && |messages| <= maxMessages
    requires Rows(limits, c.key, d, cause, maxMessages) <= rows
    ensures BeginsWith(rows, c, d.id, messages)
  {
    hide Follows, Carries, Covered, Whole, Fitting, Rows, RowIs;
    FollowsUnfailed(d, c);
    CarriedWhole(c, d, mine);
    RowsAreMessages(limits, d, cause, c, messages, maxMessages);
  }

  // ---------------------------------------------------------------- ended by another packet

  /** The packet ends the conversation: it expires or retires it, or is on another tuple and resets it. */
  ghost predicate EndsAt(limits: Limits, key: FlowKey, t: Table, packet: Packet) {
    || key !in Ready(limits, t, packet).0.flows
    || (packet.key != key && key !in Add(limits, t, packet).0.flows)
  }

  lemma AddStarts(limits: Limits, t: Table, packet: Packet) returns (output: seq<Stream>)
    requires Add(limits, t, packet).1.Added?
    ensures Add(limits, t, packet).1.streams == Ready(limits, t, packet).1 + output
  {
    hide Ready, Entered, ResetBoth, Removed;
    output := Add(limits, t, packet).1.streams[|Ready(limits, t, packet).1|..];
  }

  lemma EndedOutput(limits: Limits, t: Table, packet: Packet, key: FlowKey) returns (cause: Finalizer, rest: seq<Stream>)
    requires key in t.flows && EndsAt(limits, key, t, packet) && Add(limits, t, packet).1.Added?
    ensures OfKey(Add(limits, t, packet).1.streams, key) == Finished(limits, key, t.flows[key].dir, cause) + rest
  {
    hide Ready, Add, OfKey, Finished;
    var d := t.flows[key].dir;
    if packet.key != key {
      if key !in Ready(limits, t, packet).0.flows {
        AddWithin(limits, t, packet, key);
      }
      AddSettles(limits, t, packet, key);
      cause :| OfKey(Add(limits, t, packet).1.streams, key) == Finished(limits, key, d, cause);
      rest := [];
      assert Finished(limits, key, d, cause) + rest == Finished(limits, key, d, cause);
    } else {
      ReadySettles(limits, t, packet, key);
      cause :| OfKey(Ready(limits, t, packet).1, key) == Finished(limits, key, d, cause);
      var output := AddStarts(limits, t, packet);
      rest := OfKey(output, key);
      OfKeyBoth(Ready(limits, t, packet).1, output, key);
    }
  }

  /** A conversation captured whole and then ended by a packet, idle, on a reused tuple or by the other direction's
      reset, is reported as its messages, first of all on its tuple, whatever is captured afterwards. */
  lemma DnsEnded(limits: Limits, c: Conversation, messages: seq<DnsFraming.Payload>, packets: seq<Packet>, packet: Packet,
                 more: seq<Packet>, maxMessages: nat)
    requires CapturedIn(limits, c, packets) && Covered(c, Mine(packets, c.key))
    requires c.bytes == DnsFraming.Encoded(messages) && Fitting(limits, c) && |messages| <= maxMessages
    requires EndsAt(limits, c.key, Fed(limits, packets).table, packet)
    requires Add(limits, Fed(limits, packets).table, packet).1.Added?
    ensures c.key in Fed(limits, packets).table.flows
    ensures BeginsWith(Reported(limits, c, packets + [packet] + more, maxMessages), c,
                       Fed(limits, packets).table.flows[c.key].dir.id, messages)
  {
    hide *;
    DirectionFollows(limits, c, packets);
    var h := Fed(limits, packets);
    var d := h.table.flows[c.key].dir;
    var cause, rest := EndedOutput(limits, h.table, packet, c.key);
    EmittedNow(limits, c, packets, packet, Finished(limits, c.key, d, cause) + rest);
    RowsComeFirst(limits, c, packets + [packet], more, d, cause, rest, maxMessages);
    MessagesFirst(limits, c, messages, d, Mine(packets, c.key), cause,
                  Reported(limits, c, packets + [packet] + more, maxMessages), maxMessages);
  }

  lemma EmittedNow(limits: Limits, c: Conversation, packets: seq<Packet>, packet: Packet, streams: seq<Stream>)
    requires Unemitted(c, Fed(limits, packets)) && Add(limits, Fed(limits, packets).table, packet).1.Added?
    requires OfKey(Add(limits, Fed(limits, packets).table, packet).1.streams, c.key) == streams
    ensures OfKey(Fed(limits, packets + [packet]).emitted, c.key) == streams
  {
    hide Run, Add, OfKey;
    var h := Fed(limits, packets);
    FedOneMore(limits, packets, packet);
    OfKeyNone(h.emitted, c.key);
    OfKeyBoth(h.emitted, Add(limits, h.table, packet).1.streams, c.key);
    assert [] + streams == streams;
  }

  // ---------------------------------------------------------------- ended by its own reset

  function Unreset(packet: Packet): Packet {
    packet.(flags := packet.flags.(rst := false))
  }

  lemma UnresetSame(limits: Limits, t: Table, packet: Packet)
    ensures Ready(limits, t, Unreset(packet)) == Ready(limits, t, packet)
    ensures Entrance(limits, t, Unreset(packet)) == Entrance(limits, t, packet)
    ensures Opens(Unreset(packet)) == Opens(packet)
  {
    hide Expired, Removed;
  }

  lemma UnresetEntered(limits: Limits, t: Table, packet: Packet)
    requires packet.key in t.flows
    ensures Entered(limits, t, Unreset(packet)) == Entered(limits, t, packet)
  {
    hide Scheduled, TotalBytes, TotalSegments, Buffered;
    ScheduledKeepsKey(limits, t, packet.key, packet.stamp);
  }

  /** A packet that resets its own direction is taken in first, then the direction's stream is emitted. */
  lemma ResetEmits(limits: Limits, h: History, packet: Packet)
    requires packet.flags.rst && packet.key in Entrance(limits, h.table, packet).flows
    requires packet.key in Ready(limits, h.table, packet).0.flows || Opens(packet)
    ensures var quiet := Step(limits, h, Feed(Unreset(packet)));
      && packet.key in quiet.table.flows
      && quiet.emitted + Finished(limits, packet.key, quiet.table.flows[packet.key].dir, ByReset)
         <= Step(limits, h, Feed(packet)).emitted
  {
    hide Ready, Entered, Entrance, Step, Opens, Finished, Settled;
    UnresetSame(limits, h.table, packet);
    var entry := Entrance(limits, h.table, packet);
    UnresetEntered(limits, entry, packet);
    TakenStep(limits, h, Unreset(packet));
    EnteredStep(limits, h, packet);
    EnteredIs(limits, entry, packet);
    var own := Removed(limits, Entered(limits, entry, packet), packet.key, ByReset);
    var other := Removed(limits, own.0, packet.key.Reverse(), ByReset);
    var ready := Ready(limits, h.table, packet).1;
    assert h.emitted + (ready + (own.1 + other.1)) == h.emitted + ready + own.1 + other.1;
  }

  lemma StepTakes(limits: Limits, h: History, packet: Packet)
    requires packet.key in Step(limits, h, Feed(packet)).table.flows
    ensures packet.key in Ready(limits, h.table, packet).0.flows || Opens(packet)
  {
    hide Ready, Settled, Finished, Entered, ResetBoth, Opens;
  }

  lemma OwnResetOutput(limits: Limits, c: Conversation, packets: seq<Packet>, packet: Packet) returns (rest: seq<Stream>)
    requires packet.key == c.key && packet.flags.rst
    requires Unemitted(c, Fed(limits, packets + [Unreset(packet)]))
    requires c.key in Fed(limits, packets + [Unreset(packet)]).table.flows
    ensures OfKey(Fed(limits, packets + [packet]).emitted, c.key)
         == Finished(limits, c.key, Fed(limits, packets + [Unreset(packet)]).table.flows[c.key].dir, ByReset) + rest
  {
    hide Run, Step, Ready, Opens, Entrance, Finished, OfKey;
    var h := Fed(limits, packets);
    FedOneMore(limits, packets, Unreset(packet));
    FedOneMore(limits, packets, packet);
    var quiet, after := Fed(limits, packets + [Unreset(packet)]), Fed(limits, packets + [packet]);
    UnresetSame(limits, h.table, packet);
    StepTracks(limits, h, Unreset(packet));
    StepTakes(limits, h, Unreset(packet));
    ResetEmits(limits, h, packet);
    var own := Finished(limits, c.key, quiet.table.flows[c.key].dir, ByReset);
    var left := after.emitted[|quiet.emitted + own|..];
    assert after.emitted == quiet.emitted + own + left;
    OfKeyNone(quiet.emitted, c.key);
    OfKeyFinished(limits, c.key, quiet.table.flows[c.key].dir, ByReset, c.key);
    OfKeyBoth(quiet.emitted, own, c.key);
    OfKeyBoth(quiet.emitted + own, left, c.key);
    rest := OfKey(left, c.key);
    assert [] + own == own;
  }

  /** A conversation captured whole whose own side then resets it, the reset perhaps carrying the last of it, is
      reported as its messages, first of all on its tuple, whatever is captured afterwards. */
  lemma DnsReset(limits: Limits, c: Conversation, messages: seq<DnsFraming.Payload>, packets: seq<Packet>, packet: Packet,
                 more: seq<Packet>, maxMessages: nat)
    requires packet.key == c.key && packet.flags.rst
    requires CapturedIn(limits, c, packets + [Unreset(packet)]) && Covered(c, Mine(packets + [Unreset(packet)], c.key))
    requires c.bytes == DnsFraming.Encoded(messages) && Fitting(limits, c) && |messages| <= maxMessages
    ensures c.key in Fed(limits, packets + [Unreset(packet)]).table.flows
    ensures BeginsWith(Reported(limits, c, packets + [packet] + more, maxMessages), c,
                       Fed(limits, packets + [Unreset(packet)]).table.flows[c.key].dir.id, messages)
  {
    hide *;
    var quiet := packets + [Unreset(packet)];
    DirectionFollows(limits, c, quiet);
    var d := Fed(limits, quiet).table.flows[c.key].dir;
    var rest := OwnResetOutput(limits, c, packets, packet);
    RowsComeFirst(limits, c, packets + [packet], more, d, ByReset, rest, maxMessages);
    MessagesFirst(limits, c, messages, d, Mine(quiet, c.key), ByReset,
                  Reported(limits, c, packets + [packet] + more, maxMessages), maxMessages);
  }
}
