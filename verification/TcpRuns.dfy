/** What holds of every run of the reassembler: a sequence of packets and of requests to finish a direction. */
module TcpRuns {
  import opened Basics
  import opened TcpTypes
  import opened StreamAssembly
  import opened TcpTable
  import TcpExpiry

  datatype Action = Feed(packet: Packet) | Drain

  /** A table, the packets each direction took in by stream id, and every stream emitted so far. */
  datatype History = History(table: Table, heard: map<nat, seq<Packet>>, emitted: seq<Stream>)

  const START := History(EMPTY, map[], [])

  ghost function Heard(heard: map<nat, seq<Packet>>, id: nat): seq<Packet> {
    if id in heard then heard[id] else []
  }

  /** The direction a packet is taken in by, if any. */
  ghost function Taker(limits: Limits, t: Table, packet: Packet): Option<nat> {
    var ready := Ready(limits, t, packet).0;
    if packet.key !in ready.flows && !Opens(packet) then None
    else
      var admitted := Admitted(limits, ready, packet).0;
      if packet.key in admitted.flows then Some(admitted.flows[packet.key].dir.id) else None
  }

  ghost function StreamsOf(outcome: Outcome): seq<Stream> {
    if outcome.Added? then outcome.streams else []
  }

  ghost function Step(limits: Limits, h: History, action: Action): History {
    match action
    case Feed(packet) =>
      var after := Add(limits, h.table, packet);
      var taker := Taker(limits, h.table, packet);
      var heard := if taker.Some? then h.heard[taker.value := Heard(h.heard, taker.value) + [packet]] else h.heard;
      History(after.0, heard, h.emitted + StreamsOf(after.1))
    case Drain =>
      var after := FinishNext(limits, h.table);
      History(after.0, h.heard, h.emitted + after.1)
  }

  ghost function Run(limits: Limits, actions: seq<Action>): History {
    if actions == [] then START
    else Step(limits, Run(limits, actions[..|actions| - 1]), actions[|actions| - 1])
  }

  // ---------------------------------------------------------------- clocks

  lemma RetiredClocks(limits: Limits, t: Table, packet: Packet)
    requires TcpExpiry.ClocksRight(t)
    ensures TcpExpiry.ClocksRight(Retired(limits, t, packet).0)
    ensures var after := Retired(limits, t, packet).0;
      forall scope | scope in after.clocks :: scope in t.clocks && after.clocks[scope] == t.clocks[scope]
  {
    hide Finished, TcpExpiry.NoneOverdue, TcpExpiry.ClocksUsed;
    if StartsAnew(t, packet) {
      TcpExpiry.RemovedClocks(limits, t, packet.key, ByTupleReuse, None);
      var own := Removed(limits, t, packet.key, ByTupleReuse).0;
      if !packet.flags.ack {
        TcpExpiry.RemovedClocks(limits, own, packet.key.Reverse(), ByTupleReuse, None);
      }
    }
  }

  lemma ReadyClocks(limits: Limits, t: Table, packet: Packet)
    requires TcpExpiry.ClocksRight(t)
    ensures var after, scope := Ready(limits, t, packet).0, packet.key.Scope();
      && TcpExpiry.ClocksRight(after)
      && (packet.stamp.hasTimestamp && scope in after.clocks ==>
            packet.stamp.timestamp <= after.clocks[scope] <= packet.stamp.timestamp + limits.tcpIdle)
  {
    hide TcpExpiry.ClocksRight, Expired, Retired;
    TcpExpiry.ExpiredClocks(limits, t, packet.key, packet.stamp);
    RetiredClocks(limits, Expired(limits, t, packet.key, packet.stamp).0, packet);
  }

  lemma AdmittedClocks(limits: Limits, t: Table, packet: Packet)
    requires TcpExpiry.ClocksRight(t)
    ensures TcpExpiry.ClocksRight(Admitted(limits, t, packet).0)
    ensures Admitted(limits, t, packet).0.clocks == t.clocks
  {
    var after := Admitted(limits, t, packet).0;
    forall key, scope
      ensures ScheduledIn(after.flows, key, scope) == ScheduledIn(t.flows, key, scope)
    {
    }
  }

  lemma EnteredClocks(limits: Limits, t: Table, packet: Packet)
    requires TcpExpiry.ClocksRight(t) && packet.key in t.flows
    requires packet.stamp.hasTimestamp && packet.key.Scope() in t.clocks ==>
      packet.stamp.timestamp <= t.clocks[packet.key.Scope()] <= packet.stamp.timestamp + limits.tcpIdle
    ensures TcpExpiry.ClocksRight(Entered(limits, t, packet))
  {
    hide Absorbed, Scheduled;
    TcpExpiry.ScheduledClocks(limits, t, packet.key, packet.stamp);
    ScheduledKeepsKey(limits, t, packet.key, packet.stamp);
    var scheduled, after := Scheduled(limits, t, packet.key, packet.stamp), Entered(limits, t, packet);
    forall key, scope
      ensures ScheduledIn(after.flows, key, scope) == ScheduledIn(scheduled.flows, key, scope)
    {
    }
  }

  lemma ScheduledKeepsKey(limits: Limits, t: Table, key: FlowKey, stamp: PacketStamp)
    requires key in t.flows
    ensures var after := Scheduled(limits, t, key, stamp);
      && after.flows.Keys == t.flows.Keys && after.nextId == t.nextId
      && (forall other | other in t.flows && other != key :: after.flows[other] == t.flows[other])
      && after.flows[key].dir == t.flows[key].dir
  {
  }

  lemma ResetClocks(limits: Limits, t: Table, packet: Packet)
    requires TcpExpiry.ClocksRight(t)
    ensures TcpExpiry.ClocksRight(ResetBoth(limits, t, packet).0)
  {
    hide TcpExpiry.NoneOverdue, TcpExpiry.ClocksUsed, Removed;
    if packet.flags.rst {
      TcpExpiry.RemovedClocks(limits, t, packet.key, ByReset, None);
      TcpExpiry.RemovedClocks(limits, Removed(limits, t, packet.key, ByReset).0, packet.key.Reverse(), ByReset, None);
    }
  }

  lemma AddClocks(limits: Limits, t: Table, packet: Packet)
    requires TcpExpiry.ClocksRight(t)
    ensures TcpExpiry.ClocksRight(Add(limits, t, packet).0)
  {
    hide TcpExpiry.NoneOverdue, TcpExpiry.ClocksUsed, Removed, Ready, ResetBoth, Entered;
    ReadyClocks(limits, t, packet);
    var ready := Ready(limits, t, packet).0;
    TcpExpiry.RemovedClocks(limits, ready, packet.key.Reverse(), ByReset, None);
    AdmittedClocks(limits, ready, packet);
    var admitted := Admitted(limits, ready, packet).0;
    if packet.key in admitted.flows {
      EnteredClocks(limits, admitted, packet);
      ResetClocks(limits, Entered(limits, admitted, packet), packet);
    }
  }

  /** In every reachable state, no scheduled direction is past its deadline by its interface's clock,
      and only interfaces with something scheduled have a clock. */
  lemma {:induction false} RunClocks(limits: Limits, actions: seq<Action>)
    ensures TcpExpiry.ClocksRight(Run(limits, actions).table)
  {
    hide TcpExpiry.NoneOverdue, TcpExpiry.ClocksUsed, Add, Removed;
    if actions == [] {
      EmptyClocks();
    } else {
      var before := actions[..|actions| - 1];
      RunClocks(limits, before);
      var t := Run(limits, before).table;
      match actions[|actions| - 1]
      case Feed(packet) =>
        AddClocks(limits, t, packet);
      case Drain =>
        if t.flows != map[] {
          TcpExpiry.RemovedClocks(limits, t, FirstKey(t.flows.Keys), ByEof, None);
        }
    }
  }

  lemma EmptyClocks()
    ensures TcpExpiry.ClocksRight(EMPTY)
  {
  }

  // ---------------------------------------------------------------- draining

  /** Everything finishing one direction after another emits. */
  ghost function Drained(limits: Limits, t: Table): seq<Stream>
    decreases |t.flows|
  {
    if t.flows == map[] then []
    else
      var first := FinishNext(limits, t);
      first.1 + Drained(limits, first.0)
  }

  function Drains(n: nat): seq<Action> {
    seq(n, _ => Drain)
  }

  lemma DrainOnce(limits: Limits, actions: seq<Action>)
    requires Run(limits, actions).table.flows != map[]
    ensures var h, after := Run(limits, actions), Run(limits, actions + [Drain]);
      && |after.table.flows| == |h.table.flows| - 1
      && after.emitted + Drained(limits, after.table) == h.emitted + Drained(limits, h.table)
  {
    hide Add, Finished;
    var h, longer := Run(limits, actions), actions + [Drain];
    assert longer[..|longer| - 1] == actions;
    var after := Run(limits, longer);
    var first := FinishNext(limits, h.table);
    assert after == History(first.0, h.heard, h.emitted + first.1);
    assert first.0.flows == h.table.flows - {FirstKey(h.table.flows.Keys)};
    assert h.emitted + first.1 + Drained(limits, first.0) == h.emitted + (first.1 + Drained(limits, first.0));
  }

  lemma NoClocksLeft(t: Table)
    requires TcpExpiry.ClocksRight(t) && t.flows == map[]
    ensures t.clocks == map[]
  {
  }

  /** Draining once per direction emits all of them and leaves neither a direction nor a clock. */
  lemma {:induction false} DrainEmpties(limits: Limits, actions: seq<Action>, n: nat)
    requires n == |Run(limits, actions).table.flows|
    ensures var h, after := Run(limits, actions), Run(limits, actions + Drains(n));
      && after.table.flows == map[] && after.table.clocks == map[]
      && after.emitted == h.emitted + Drained(limits, h.table)
    decreases n
  {
    hide Run, TcpExpiry.ClocksRight;
    var h := Run(limits, actions);
    if n == 0 {
      assert actions + Drains(0) == actions;
      RunClocks(limits, actions);
      NoClocksLeft(h.table);
    } else {
      DrainOnce(limits, actions);
      DrainEmpties(limits, actions + [Drain], n - 1);
      assert actions + [Drain] + Drains(n - 1) == actions + Drains(n);
    }
  }
}
