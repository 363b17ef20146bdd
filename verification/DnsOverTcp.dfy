/** End to end: however a DNS conversation is cut into packets, reordered and repeated, and whatever else is
    captured with it, reassembly and framing report exactly its messages. */
module DnsOverTcp {
  import opened Basics
  import opened TcpTypes
  import opened StreamAssembly
  import opened TcpTable
  import opened TcpRuns
  import opened TcpHistory
  import opened TcpSurvival
  import opened Conversation
  import DnsFraming
  import TcpExpiry

  // ---------------------------------------------------------------- a capture of the conversation

  function Feeds(packets: seq<Packet>): seq<Action> {
    seq(|packets|, i requires 0 <= i < |packets| => Feed(packets[i]))
  }

  ghost function Fed(limits: Limits, packets: seq<Packet>): History {
    Run(limits, Feeds(packets))
  }

  lemma FedOneMore(limits: Limits, packets: seq<Packet>, packet: Packet)
    ensures Fed(limits, packets + [packet]) == Step(limits, Fed(limits, packets), Feed(packet))
  {
    hide Step;
    var all := packets + [packet];
    assert Feeds(all)[..|all| - 1] == Feeds(packets);
  }

  /** The conversation's packets, from the first that opens it. */
  function Mine(packets: seq<Packet>, key: FlowKey): seq<Packet> {
    if packets == [] then []
    else
      var before, packet := Mine(packets[..|packets| - 1], key), packets[|packets| - 1];
      if packet.key == key && (before != [] || Opens(packet)) then before + [packet] else before
  }

  function PayloadBytes(packets: seq<Packet>): nat {
    if packets == [] then 0 else PayloadBytes(packets[..|packets| - 1]) + |packets[|packets| - 1].payload|
  }

  ghost function KeysSeen(packets: seq<Packet>): set<FlowKey> {
    set i | 0 <= i < |packets| :: packets[i].key
  }

  /** A packet of the conversation's own direction: a wholly captured slice of it, its SYN, its FIN, or no data. */
  ghost predicate Belongs(c: Conversation, packet: Packet) {
    && packet.key == c.key && !packet.flags.rst
    && (packet.flags.syn ==> packet.sequence == c.isn)
    && (packet.flags.fin ==> FinSequence(packet) == Wrap32(c.Start() + |c.bytes|))
    && |packet.payload| == packet.declared
    && (HasData(packet) ==> IsPart(c, SegmentOf(packet)))
  }

  /** No deadline can be set from the packet: it would be past the last time there is. */
  predicate Beyond(limits: Limits, packet: Packet) {
    packet.stamp.timestamp + limits.tcpIdle > I64_MAX
  }

  /** The packet's time still bears on the deadline: it is the last one, or none since has cleared the deadline. */
  ghost predicate Counts(limits: Limits, mine: seq<Packet>, j: int)
    requires 0 <= j < |mine|
  {
    j == |mine| - 1 || forall k | j <= k < |mine| :: !Beyond(limits, mine[k])
  }

  /** The packet comes no more than the idle timeout after some packet of the conversation whose time still counts,
      or some packet of it had no time. */
  ghost predicate InTime(limits: Limits, mine: seq<Packet>, packet: Packet) {
    exists j | 0 <= j < |mine| ::
      || !mine[j].stamp.hasTimestamp
      || (Counts(limits, mine, j) && packet.stamp.timestamp <= mine[j].stamp.timestamp + limits.tcpIdle)
  }

  /** The table once the packet's direction is tracked. */
  ghost function Entrance(limits: Limits, t: Table, packet: Packet): Table {
    Admitted(limits, Ready(limits, t, packet).0, packet).0
  }

  /** A packet of the other direction that ends the conversation: it opens a new connection, or resets this one. */
  ghost predicate Ends(limits: Limits, t: Table, packet: Packet) {
    || (!packet.flags.ack && StartsAnew(Expired(limits, t, packet.key, packet.stamp).0, packet))
    || (packet.flags.rst && !Refused(limits, t, packet))
  }

  /** The packet would open a direction there is no room to track. */
  ghost predicate Refused(limits: Limits, t: Table, packet: Packet) {
    Opens(packet) && packet.key !in Entrance(limits, t, packet).flows
  }

  /** What may follow `packets`, from the table they left: anything at all on other tuples; on the conversation's own,
      only its parts; and once it is under way its other direction does not end it, and it does not fall idle. */
  ghost predicate MayFollow(limits: Limits, c: Conversation, packets: seq<Packet>, t: Table, packet: Packet) {
    && (packet.key == c.key ==> Belongs(c, packet))
    && (Mine(packets, c.key) != [] ==>
          && (packet.key == c.key.Reverse() ==> !Ends(limits, t, packet))
          && (limits.tcpIdle > 0 && packet.stamp.hasTimestamp && packet.key.Scope() == c.key.Scope() ==>
                InTime(limits, Mine(packets, c.key), packet)))
  }

  ghost predicate Undisturbed(limits: Limits, c: Conversation, packets: seq<Packet>) {
    packets != [] ==>
      var before := packets[..|packets| - 1];
      && Undisturbed(limits, c, before)
      && MayFollow(limits, c, before, Fed(limits, before).table, packets[|packets| - 1])
  }

  /** A direction can buffer the packet's data now: it already holds it, or the limits leave room for it. */
  ghost predicate Accepts(limits: Limits, d: Direction, totalBytes: nat, totalSegments: nat, packet: Packet) {
    HasData(packet) ==>
      && |packet.payload| <= limits.maxStreamBytes && |packet.payload| <= limits.maxTotalBytes
      && (Known(d.segments, SegmentOf(packet))
          || (&& |d.segments| < limits.maxSegments && totalSegments < limits.maxTotalSegments
              && SegmentBytes(d.segments) + |packet.payload| <= limits.maxStreamBytes
              && totalBytes + |packet.payload| <= limits.maxTotalBytes))
  }

  /** The table, once it has expired and retired what the packet makes it, can track the packet's direction and buffer
      its data. */
  ghost predicate RoomFor(limits: Limits, t: Table, packet: Packet) {
    var ready := Ready(limits, t, packet).0;
    if packet.key in ready.flows then
      Accepts(limits, ready.flows[packet.key].dir, TotalBytes(ready), TotalSegments(ready), packet)
    else
      Opens(packet) ==>
        && ready.nextId != U64_MAX && |ready.flows| < limits.maxFlows
        && Accepts(limits, Fresh(ready.nextId, packet.stamp), TotalBytes(ready), TotalSegments(ready), packet)
  }

  /** Each packet of the conversation found room when it came. */
  ghost predicate Roomy(limits: Limits, c: Conversation, packets: seq<Packet>) {
    packets != [] ==>
      var before, packet := packets[..|packets| - 1], packets[|packets| - 1];
      && Roomy(limits, c, before)
      && (packet.key == c.key ==> RoomFor(limits, Fed(limits, before).table, packet))
  }

  // ---------------------------------------------------------------- what each packet keeps

  /** No stream of the conversation has been emitted. */
  ghost predicate Unemitted(c: Conversation, h: History) {
    forall i | 0 <= i < |h.emitted| :: h.emitted[i].key != c.key
  }

  /** The deadline is the idle timeout after the latest packet whose time counts; there is none if a packet had no
      time, expiry is off, or the last packet is too late for one. */
  ghost predicate Alive(limits: Limits, f: Tracked, mine: seq<Packet>) {
    && (f.untimed <==> exists j | 0 <= j < |mine| :: !mine[j].stamp.hasTimestamp)
    && (f.deadline.None? <==> mine == [] || f.untimed || limits.tcpIdle <= 0 || Beyond(limits, mine[|mine| - 1]))
    && (f.deadline.Some? ==>
          && (exists j | 0 <= j < |mine| ::
                Counts(limits, mine, j) && mine[j].stamp.timestamp + limits.tcpIdle == f.deadline.value)
          && (forall j | 0 <= j < |mine| && Counts(limits, mine, j) ::
                mine[j].stamp.timestamp + limits.tcpIdle <= f.deadline.value))
  }

  /** A direction that took in `mine` and nothing else, and did not fail. */
  ghost predicate Intact(limits: Limits, c: Conversation, f: Tracked, mine: seq<Packet>) {
    && f.dir.failure.None? && Alive(limits, f, mine)
    && (f.dir.hasSyn ==> f.dir.synSequence == c.isn)
    && (f.dir.hasFin ==> f.dir.finSequence == Wrap32(c.Start() + |c.bytes|))
    && SegmentBytes(f.dir.segments) <= PayloadBytes(mine) && |f.dir.segments| <= |mine|
  }

  ghost predicate Following(limits: Limits, c: Conversation, mine: seq<Packet>, h: History) {
    if mine == [] then c.key !in h.table.flows
    else
      && c.key in h.table.flows
      && Heard(h.heard, h.table.flows[c.key].dir.id) == mine
      && Intact(limits, c, h.table.flows[c.key], mine)
  }

  ghost predicate Tracking(limits: Limits, c: Conversation, packets: seq<Packet>, h: History) {
    Unemitted(c, h) && Following(limits, c, Mine(packets, c.key), h)
  }

  /** A packet is past the deadline exactly when it is not in time. */
  lemma InTimeSpares(limits: Limits, f: Tracked, mine: seq<Packet>, packet: Packet)
    requires Alive(limits, f, mine) && mine != []
    ensures f.deadline.Some? ==> limits.tcpIdle > 0
    ensures limits.tcpIdle > 0 ==>
      (InTime(limits, mine, packet) <==> (f.deadline.Some? ==> packet.stamp.timestamp <= f.deadline.value))
  {
    hide Counts;
    LastCounts(limits, mine);
  }

  lemma LastCounts(limits: Limits, mine: seq<Packet>)
    requires mine != []
    ensures Counts(limits, mine, |mine| - 1)
  {
  }

  /** The conversation's direction survives everything that happens before the packet is taken in. */
  lemma ReadySpares(limits: Limits, c: Conversation, packets: seq<Packet>, h: History, packet: Packet)
    requires TcpExpiry.ClocksRight(h.table)
    requires Following(limits, c, Mine(packets, c.key), h) && MayFollow(limits, c, packets, h.table, packet)
    ensures var ready := Ready(limits, h.table, packet); Spares(c.key, h.table, ready.0, ready.1)
  {
    hide Expired, Retired, Mine, Belongs, Alive, InTime;
    var t, mine := h.table, Mine(packets, c.key);
    if mine != [] {
      InTimeSpares(limits, t.flows[c.key], mine, packet);
    }
    ExpiredSpares(limits, t, packet.key, packet.stamp, c.key);
    var expired := Expired(limits, t, packet.key, packet.stamp);
    NotRetired(limits, c, packets, h, packet, expired.0);
    RetiredSpares(limits, expired.0, packet, c.key);
    var retired := Retired(limits, expired.0, packet);
    hide Spares;
    SparesBoth(c.key, t, expired.0, retired.0, expired.1, retired.1);
  }

  lemma NotRetired(limits: Limits, c: Conversation, packets: seq<Packet>, h: History, packet: Packet, t: Table)
    requires Following(limits, c, Mine(packets, c.key), h) && MayFollow(limits, c, packets, h.table, packet)
    requires Shrinks(h.table, t) && t == Expired(limits, h.table, packet.key, packet.stamp).0
    ensures c.key in t.flows && StartsAnew(t, packet) ==>
      packet.key != c.key && (packet.flags.ack || packet.key.Reverse() != c.key)
  {
    hide Mine, Expired, Alive, InTime, Refused;
    assert packet.key.Reverse().Reverse() == packet.key;
  }

  // ---------------------------------------------------------------- sizes

  lemma PayloadOneMore(packets: seq<Packet>, packet: Packet)
    ensures PayloadBytes(packets + [packet]) == PayloadBytes(packets) + |packet.payload|
    ensures KeysSeen(packets + [packet]) == KeysSeen(packets) + {packet.key}
  {
    var all := packets + [packet];
    assert all[..|all| - 1] == packets;
    forall key | key in KeysSeen(packets) + {packet.key}
      ensures key in KeysSeen(all)
    {
      if key in KeysSeen(packets) {
        var i :| 0 <= i < |packets| && packets[i].key == key;
        assert all[i].key == key;
      } else {
        assert all[|packets|].key == key;
      }
    }
  }

  lemma MineOneMore(packets: seq<Packet>, packet: Packet, key: FlowKey)
    ensures Mine(packets + [packet], key)
         == if packet.key == key && (Mine(packets, key) != [] || Opens(packet)) then Mine(packets, key) + [packet]
            else Mine(packets, key)
  {
    var all := packets + [packet];
    assert all[..|all| - 1] == packets;
  }

  // ---------------------------------------------------------------- a packet of the conversation

  lemma AliveStep(limits: Limits, t: Table, key: FlowKey, mine: seq<Packet>, packet: Packet)
    requires key in t.flows && Alive(limits, t.flows[key], mine)
    ensures Alive(limits, Scheduled(limits, t, key, packet.stamp).flows[key], mine + [packet])
  {
    hide Counts, Settled;
    var all, n := mine + [packet], |mine|;
    assert forall j | 0 <= j < n :: all[j] == mine[j];
    assert all[n] == packet;
    LastCounts(limits, all);
    forall j | 0 <= j < n
      ensures Counts(limits, all, j) <==> Counts(limits, mine, j) && !Beyond(limits, mine[n - 1]) && !Beyond(limits, packet)
    {
      CountsOn(limits, mine, packet, j);
    }
  }

  lemma CountsOn(limits: Limits, mine: seq<Packet>, packet: Packet, j: int)
    requires 0 <= j < |mine|
    ensures Counts(limits, mine + [packet], j)
       <==> Counts(limits, mine, j) && !Beyond(limits, mine[|mine| - 1]) && !Beyond(limits, packet)
  {
    var all := mine + [packet];
    assert all[|mine|] == packet && forall k | 0 <= k < |mine| :: all[k] == mine[k];
  }

  lemma IntactStep(limits: Limits, c: Conversation, t: Table, mine: seq<Packet>, packet: Packet)
    requires packet.key == c.key && c.key in t.flows && Intact(limits, c, t.flows[c.key], mine)
    requires Belongs(c, packet)
    requires Accepts(limits, t.flows[c.key].dir, TotalBytes(t), TotalSegments(t), packet)
    ensures c.key in Entered(limits, t, packet).flows
    ensures Intact(limits, c, Entered(limits, t, packet).flows[c.key], mine + [packet])
    ensures Entered(limits, t, packet).flows[c.key].dir.id == t.flows[c.key].dir.id
  {
    hide Entered, Absorbed, Scheduled, TotalBytes, TotalSegments, Alive, Belongs, Accepts;
    EnteredIs(limits, t, packet);
    ScheduledKeepsKey(limits, t, c.key, packet.stamp);
    AliveStep(limits, t, c.key, mine, packet);
    SameAlive(limits, Scheduled(limits, t, c.key, packet.stamp).flows[c.key], Entered(limits, t, packet).flows[c.key],
              mine + [packet]);
    AbsorbedIntact(limits, c, t.flows[c.key].dir, TotalBytes(t), TotalSegments(t), mine, packet);
  }

  lemma SameAlive(limits: Limits, f: Tracked, g: Tracked, mine: seq<Packet>)
    requires Alive(limits, f, mine) && g.deadline == f.deadline && g.untimed == f.untimed
    ensures Alive(limits, g, mine)
  {
  }

  lemma AbsorbedIntact(limits: Limits, c: Conversation, d: Direction, totalBytes: nat, totalSegments: nat,
                       mine: seq<Packet>, packet: Packet)
    requires d.failure.None? && Belongs(c, packet)
    requires d.hasSyn ==> d.synSequence == c.isn
    requires d.hasFin ==> d.finSequence == Wrap32(c.Start() + |c.bytes|)
    requires SegmentBytes(d.segments) <= PayloadBytes(mine) && |d.segments| <= |mine|
    requires Accepts(limits, d, totalBytes, totalSegments, packet)
    ensures var after := Absorbed(limits, d, totalBytes, totalSegments, packet);
      && after.failure.None? && after.id == d.id
      && (after.hasSyn ==> after.synSequence == c.isn)
      && (after.hasFin ==> after.finSequence == Wrap32(c.Start() + |c.bytes|))
      && SegmentBytes(after.segments) <= PayloadBytes(mine + [packet]) && |after.segments| <= |mine + [packet]|
  {
    hide Absorbed, Accepts;
    PayloadOneMore(mine, packet);
    AcceptsExactly(limits, d, totalBytes, totalSegments, packet);
    AbsorbedSize(limits, d, totalBytes, totalSegments, packet);
    AbsorbedShape(limits, d, totalBytes, totalSegments, packet);
  }

  /** Taking in a packet of the conversation fails a direction exactly when it cannot buffer it. */
  lemma AcceptsExactly(limits: Limits, d: Direction, totalBytes: nat, totalSegments: nat, packet: Packet)
    requires d.failure.None? && |packet.payload| <= packet.declared
    requires d.hasFin && packet.flags.fin ==> d.finSequence == FinSequence(packet)
    ensures Absorbed(limits, d, totalBytes, totalSegments, packet).failure.None?
       <==> Accepts(limits, d, totalBytes, totalSegments, packet)
  {
    hide Known, SegmentBytes;
  }

  lemma OwnUntaken(limits: Limits, c: Conversation, packets: seq<Packet>, h: History, packet: Packet)
    requires TcpExpiry.ClocksRight(h.table) && Tracking(limits, c, packets, h) && MayFollow(limits, c, packets, h.table, packet)
    requires packet.key == c.key && Mine(packets, c.key) == [] && !Opens(packet)
    ensures Unemitted(c, Step(limits, h, Feed(packet)))
    ensures Following(limits, c, Mine(packets + [packet], c.key), Step(limits, h, Feed(packet)))
  {
    hide Ready, Removed, Mine;
    MineOneMore(packets, packet, c.key);
    ReadySpares(limits, c, packets, h, packet);
  }

  /** Taking in a packet that resets nothing. */
  lemma TakenStep(limits: Limits, h: History, packet: Packet)
    requires packet.key in Entrance(limits, h.table, packet).flows && !packet.flags.rst
    requires packet.key in Ready(limits, h.table, packet).0.flows || Opens(packet)
    ensures var after, entry := Step(limits, h, Feed(packet)), Entrance(limits, h.table, packet);
      var id := entry.flows[packet.key].dir.id;
      && after.table == Entered(limits, entry, packet)
      && after.heard == h.heard[id := Heard(h.heard, id) + [packet]]
      && after.emitted == h.emitted + Ready(limits, h.table, packet).1
  {
    hide Ready, Entered, Removed;
    var output := Ready(limits, h.table, packet).1;
    assert output + [] == output;
  }

  lemma OwnAdmitted(limits: Limits, c: Conversation, packets: seq<Packet>, h: History, packet: Packet)
    requires TcpExpiry.ClocksRight(h.table) && IdsRight(h)
    requires Tracking(limits, c, packets, h) && MayFollow(limits, c, packets, h.table, packet)
    requires RoomFor(limits, h.table, packet)
    requires packet.key == c.key && (Mine(packets, c.key) != [] || Opens(packet))
    ensures var entry, mine := Entrance(limits, h.table, packet), Mine(packets, c.key);
      && c.key in entry.flows && Intact(limits, c, entry.flows[c.key], mine)
      && Heard(h.heard, entry.flows[c.key].dir.id) == mine
      && Accepts(limits, entry.flows[c.key].dir, TotalBytes(entry), TotalSegments(entry), packet)
      && (c.key in Ready(limits, h.table, packet).0.flows || mine == [])
  {
    hide Ready, Mine, TotalBytes, TotalSegments, Intact, MayFollow, Accepts, Opens;
    ReadySpares(limits, c, packets, h, packet);
    var ready := Ready(limits, h.table, packet).0;
    AdmittedTotals(limits, ready, packet);
    if c.key !in ready.flows {
      FreshIntact(limits, c, ready.nextId, packet.stamp);
    }
  }

  lemma OwnTaken(limits: Limits, c: Conversation, packets: seq<Packet>, h: History, packet: Packet)
    requires TcpExpiry.ClocksRight(h.table) && IdsRight(h)
    requires Tracking(limits, c, packets, h) && MayFollow(limits, c, packets, h.table, packet)
    requires RoomFor(limits, h.table, packet)
    requires packet.key == c.key && (Mine(packets, c.key) != [] || Opens(packet))
    ensures Unemitted(c, Step(limits, h, Feed(packet)))
    ensures Following(limits, c, Mine(packets + [packet], c.key), Step(limits, h, Feed(packet)))
  {
    hide Ready, Mine, Entered, Entrance, TotalBytes, TotalSegments, Intact, IdsRight, TcpExpiry.ClocksRight, RoomFor,
      Accepts, Step;
    var mine, entry := Mine(packets, c.key), Entrance(limits, h.table, packet);
    MineOneMore(packets, packet, c.key);
    ReadySpares(limits, c, packets, h, packet);
    OwnAdmitted(limits, c, packets, h, packet);
    IntactStep(limits, c, entry, mine, packet);
    TakenStep(limits, h, packet);
  }

  lemma FreshIntact(limits: Limits, c: Conversation, id: nat, stamp: PacketStamp)
    ensures Intact(limits, c, Tracked(Fresh(id, stamp), false, None), [])
  {
  }

  // ---------------------------------------------------------------- a packet of something else

  /** The conversation's direction is as it was, and nothing of it was emitted. */
  ghost predicate Untouched(c: Conversation, h: History, after: History) {
    && Unemitted(c, after)
    && (c.key in h.table.flows <==> c.key in after.table.flows)
    && (c.key in h.table.flows ==>
          && after.table.flows[c.key] == h.table.flows[c.key]
          && Heard(after.heard, h.table.flows[c.key].dir.id) == Heard(h.heard, h.table.flows[c.key].dir.id))
  }

  /** Nothing before the packet is taken in touches the conversation, and nor does a reset. */
  ghost predicate Elsewhere(limits: Limits, c: Conversation, h: History, packet: Packet) {
    && packet.key != c.key
    && (packet.flags.rst && c.key in h.table.flows && !Refused(limits, h.table, packet) ==> packet.key.Reverse() != c.key)
    && Unemitted(c, h)
    && var ready := Ready(limits, h.table, packet); Spares(c.key, h.table, ready.0, ready.1)
  }

  lemma OtherUntaken(limits: Limits, c: Conversation, h: History, packet: Packet)
    requires Elsewhere(limits, c, h, packet)
    requires packet.key !in Ready(limits, h.table, packet).0.flows && !Opens(packet)
    ensures Untouched(c, h, Step(limits, h, Feed(packet)))
  {
    hide Ready, Removed;
    var ready := Ready(limits, h.table, packet).0;
    if packet.flags.rst {
      RemovedSpares(limits, ready, packet.key.Reverse(), ByReset, c.key);
    }
  }

  lemma OtherRefused(limits: Limits, c: Conversation, h: History, packet: Packet)
    requires Elsewhere(limits, c, h, packet)
    requires packet.key in Ready(limits, h.table, packet).0.flows || Opens(packet)
    requires packet.key !in Entrance(limits, h.table, packet).flows
    ensures Untouched(c, h, Step(limits, h, Feed(packet)))
  {
    hide Ready;
  }

  /** The packet's direction is not the conversation's, so neither is its history. */
  lemma OtherIds(limits: Limits, c: Conversation, h: History, packet: Packet)
    requires Right(limits, h) && Elsewhere(limits, c, h, packet)
    requires packet.key in Entrance(limits, h.table, packet).flows
    ensures c.key in h.table.flows <==> c.key in Entrance(limits, h.table, packet).flows
    ensures c.key in h.table.flows ==>
      && Entrance(limits, h.table, packet).flows[c.key] == h.table.flows[c.key]
      && Entrance(limits, h.table, packet).flows[packet.key].dir.id != h.table.flows[c.key].dir.id
  {
    hide Ready, Admitted, ContentRight;
    ReadyKeeps(limits, h, packet);
    AdmittedKeeps(limits, AfterReady(limits, h, packet), packet);
    AdmittedTotals(limits, Ready(limits, h.table, packet).0, packet);
  }

  /** What a step is, when the packet's direction takes it in. */
  lemma EnteredStep(limits: Limits, h: History, packet: Packet)
    requires packet.key in Entrance(limits, h.table, packet).flows
    requires packet.key in Ready(limits, h.table, packet).0.flows || Opens(packet)
    ensures var after, entry := Step(limits, h, Feed(packet)), Entrance(limits, h.table, packet);
      var id, reset := entry.flows[packet.key].dir.id, ResetBoth(limits, Entered(limits, entry, packet), packet);
      && after.table == reset.0
      && after.heard == h.heard[id := Heard(h.heard, id) + [packet]]
      && after.emitted == h.emitted + (Ready(limits, h.table, packet).1 + reset.1)
  {
    hide Ready, Entered, ResetBoth;
  }

  lemma OtherEntered(limits: Limits, c: Conversation, h: History, packet: Packet)
    requires Right(limits, h) && Elsewhere(limits, c, h, packet)
    requires packet.key in Ready(limits, h.table, packet).0.flows || Opens(packet)
    requires packet.key in Entrance(limits, h.table, packet).flows
    ensures Untouched(c, h, Step(limits, h, Feed(packet)))
  {
    hide Ready, Entered, Right, ResetBoth, Entrance, Step;
    OtherIds(limits, c, h, packet);
    EnteredStep(limits, h, packet);
    var entry := Entrance(limits, h.table, packet);
    EnteredIs(limits, entry, packet);
    ResetSpares(limits, Entered(limits, entry, packet), packet, c.key);
  }

  lemma OtherStep(limits: Limits, c: Conversation, packets: seq<Packet>, h: History, packet: Packet)
    requires TcpExpiry.ClocksRight(h.table) && Right(limits, h)
    requires Tracking(limits, c, packets, h) && MayFollow(limits, c, packets, h.table, packet) && packet.key != c.key
    ensures Untouched(c, h, Step(limits, h, Feed(packet)))
  {
    hide Ready, Right, Entrance, Step, Intact, Spares;
    ReadySpares(limits, c, packets, h, packet);
    assert packet.key.Reverse().Reverse() == packet.key;
    assert Elsewhere(limits, c, h, packet);
    if packet.key !in Ready(limits, h.table, packet).0.flows && !Opens(packet) {
      OtherUntaken(limits, c, h, packet);
    } else if packet.key in Entrance(limits, h.table, packet).flows {
      OtherEntered(limits, c, h, packet);
    } else {
      OtherRefused(limits, c, h, packet);
    }
  }

  // ---------------------------------------------------------------- every prefix of the capture

  lemma TrackingStep(limits: Limits, c: Conversation, packets: seq<Packet>, h: History, packet: Packet)
    requires TcpExpiry.ClocksRight(h.table) && Right(limits, h)
    requires Tracking(limits, c, packets, h) && MayFollow(limits, c, packets, h.table, packet)
    requires packet.key == c.key ==> RoomFor(limits, h.table, packet)
    ensures Tracking(limits, c, packets + [packet], Step(limits, h, Feed(packet)))
  {
    hide Step, Mine, RoomFor, MayFollow, TcpExpiry.ClocksRight, IdsRight, ContentRight, Opens;
    MineOneMore(packets, packet, c.key);
    if packet.key != c.key {
      OtherStep(limits, c, packets, h, packet);
    } else if Mine(packets, c.key) == [] && !Opens(packet) {
      OwnUntaken(limits, c, packets, h, packet);
    } else {
      OwnTaken(limits, c, packets, h, packet);
    }
  }

  /** Whatever else is captured, the conversation's direction is tracked, takes in exactly the conversation's packets
      and does not fail, as long as each of them finds room when it comes. */
  lemma {:induction false} TrackingAlways(limits: Limits, c: Conversation, packets: seq<Packet>)
    requires Undisturbed(limits, c, packets) && Roomy(limits, c, packets)
    ensures Tracking(limits, c, packets, Fed(limits, packets))
  {
    if packets == [] {
      TrackingStart(limits, c);
    } else {
      hide Tracking, MayFollow, RoomFor, TcpExpiry.ClocksRight, Right, Step, Run;
      var before, packet := packets[..|packets| - 1], packets[|packets| - 1];
      assert before + [packet] == packets;
      TrackingAlways(limits, c, before);
      RunClocks(limits, Feeds(before));
      RunRight(limits, Feeds(before));
      TrackingStep(limits, c, before, Fed(limits, before), packet);
      FedOneMore(limits, before, packet);
    }
  }

  lemma TrackingStart(limits: Limits, c: Conversation)
    ensures Tracking(limits, c, [], Fed(limits, []))
  {
  }

  /** Room is what it takes: without it the packet leaves the conversation untracked or failed. */
  lemma RoomIsNeeded(limits: Limits, c: Conversation, packets: seq<Packet>, h: History, packet: Packet)
    requires TcpExpiry.ClocksRight(h.table) && Right(limits, h)
    requires Tracking(limits, c, packets, h) && MayFollow(limits, c, packets, h.table, packet)
    requires packet.key == c.key && (Mine(packets, c.key) != [] || Opens(packet))
    ensures Tracking(limits, c, packets + [packet], Step(limits, h, Feed(packet))) <==> RoomFor(limits, h.table, packet)
  {
    hide Step, Mine, MayFollow, TcpExpiry.ClocksRight, IdsRight, ContentRight, Opens, Accepts, TotalBytes, TotalSegments,
      Absorbed, Ready, Entered, Heard, Alive;
    if RoomFor(limits, h.table, packet) {
      hide RoomFor;
      TrackingStep(limits, c, packets, h, packet);
    } else if Tracking(limits, c, packets + [packet], Step(limits, h, Feed(packet))) {
      MineOneMore(packets, packet, c.key);
      ReadySpares(limits, c, packets, h, packet);
      var ready, entry := Ready(limits, h.table, packet).0, Entrance(limits, h.table, packet);
      StepTracks(limits, h, packet);
      BelongsPlain(limits, c, packets, h.table, packet);
      TakenStep(limits, h, packet);
      AdmittedTotals(limits, ready, packet);
      EnteredIs(limits, entry, packet);
      AcceptsExactly(limits, entry.flows[c.key].dir, TotalBytes(entry), TotalSegments(entry), packet);
      assert false;
    }
  }

  lemma BelongsPlain(limits: Limits, c: Conversation, packets: seq<Packet>, t: Table, packet: Packet)
    requires MayFollow(limits, c, packets, t, packet) && packet.key == c.key
    ensures !packet.flags.rst && |packet.payload| <= packet.declared
    ensures packet.flags.fin ==> FinSequence(packet) == Wrap32(c.Start() + |c.bytes|)
  {
  }

  lemma StepTracks(limits: Limits, h: History, packet: Packet)
    requires packet.key in Step(limits, h, Feed(packet)).table.flows
    ensures packet.key in Entrance(limits, h.table, packet).flows
  {
    hide Ready, Settled, Finished, Entered, ResetBoth;
  }

  // ---------------------------------------------------------------- room, from the capture alone

  /** The whole capture is within the limits on what is held at one time. */
  ghost predicate Plenty(limits: Limits, c: Conversation, packets: seq<Packet>) {
    && PayloadBytes(packets) <= limits.maxTotalBytes && |packets| <= limits.maxTotalSegments
    && PayloadBytes(Mine(packets, c.key)) <= limits.maxStreamBytes && |Mine(packets, c.key)| <= limits.maxSegments
    && |KeysSeen(packets)| <= limits.maxFlows && |packets| < U64_MAX - 1
  }

  ghost predicate Sized(packets: seq<Packet>, t: Table) {
    && TotalBytes(t) <= PayloadBytes(packets) && TotalSegments(t) <= |packets|
    && t.flows.Keys <= KeysSeen(packets) && t.nextId <= 1 + |packets|
  }

  lemma SizedShrinks(packets: seq<Packet>, before: Table, after: Table)
    requires Sized(packets, before) && Shrinks(before, after)
    ensures Sized(packets, after)
  {
    ShrinksTotals(before, after);
  }

  lemma SizedStep(limits: Limits, packets: seq<Packet>, t: Table, packet: Packet)
    requires Sized(packets, t)
    ensures Sized(packets + [packet], Add(limits, t, packet).0)
  {
    hide Ready, Entered, Admitted, Finished, TotalBytes, TotalSegments;
    PayloadOneMore(packets, packet);
    ReadyShrinks(limits, t, packet);
    var ready := Ready(limits, t, packet).0;
    SizedShrinks(packets, t, ready);
    if packet.key !in ready.flows && !Opens(packet) {
      var after := Add(limits, t, packet).0;
      assert Shrinks(ready, after);
      ShrinksTotals(ready, after);
    } else {
      AdmittedTotals(limits, ready, packet);
      var admitted := Admitted(limits, ready, packet).0;
      if packet.key in admitted.flows {
        EnteredTotals(limits, admitted, packet);
        EnteredIs(limits, admitted, packet);
        var entered := Entered(limits, admitted, packet);
        ResetShrinks(limits, entered, packet);
        ShrinksTotals(entered, ResetBoth(limits, entered, packet).0);
      }
    }
  }

  lemma {:induction false} SubsetSize<T>(a: set<T>, b: set<T>)
    requires a <= b
    ensures |a| <= |b|
  {
    if a != {} {
      var x :| x in a;
      SubsetSize(a - {x}, b - {x});
    }
  }

  lemma SizedAfter(limits: Limits, packets: seq<Packet>, h: History, packet: Packet)
    requires Sized(packets, h.table)
    ensures Sized(packets + [packet], Step(limits, h, Feed(packet)).table)
  {
    hide Add, Sized;
    SizedStep(limits, packets, h.table, packet);
  }

  lemma {:induction false} SizedAlways(limits: Limits, packets: seq<Packet>)
    ensures Sized(packets, Fed(limits, packets).table)
  {
    if packets != [] {
      hide Sized, Step, Run;
      var before, packet := packets[..|packets| - 1], packets[|packets| - 1];
      assert before + [packet] == packets;
      SizedAlways(limits, before);
      SizedAfter(limits, before, Fed(limits, before), packet);
      FedOneMore(limits, before, packet);
    }
  }

  lemma PlentyBefore(limits: Limits, c: Conversation, packets: seq<Packet>, packet: Packet)
    requires Plenty(limits, c, packets + [packet])
    ensures Plenty(limits, c, packets)
  {
    PayloadOneMore(packets, packet);
    MineOneMore(packets, packet, c.key);
    PayloadOneMore(Mine(packets, c.key), packet);
    SubsetSize(KeysSeen(packets), KeysSeen(packets + [packet]));
  }

  /** There is room to track the conversation when it opens. */
  lemma RoomToTrack(limits: Limits, c: Conversation, packets: seq<Packet>, packet: Packet, t: Table)
    requires packet.key == c.key && c.key !in t.flows && Sized(packets, t)
    requires Plenty(limits, c, packets + [packet])
    ensures t.nextId != U64_MAX && |t.flows| < limits.maxFlows
  {
    PayloadOneMore(packets, packet);
    var seen := KeysSeen(packets + [packet]);
    assert t.flows.Keys <= seen - {c.key};
    SubsetSize(t.flows.Keys, seen - {c.key});
    assert c.key in seen;
    assert |seen - {c.key}| == |seen| - 1;
  }

  lemma PlentyHasRoom(limits: Limits, c: Conversation, packets: seq<Packet>, h: History, packet: Packet)
    requires TcpExpiry.ClocksRight(h.table) && Sized(packets, h.table)
    requires Tracking(limits, c, packets, h) && MayFollow(limits, c, packets, h.table, packet)
    requires packet.key == c.key && Plenty(limits, c, packets + [packet])
    ensures RoomFor(limits, h.table, packet)
  {
    hide Ready, TotalBytes, TotalSegments, MayFollow, KeysSeen, Mine, SegmentBytes, Alive, Opens, Known;
    ReadySpares(limits, c, packets, h, packet);
    var ready, mine := Ready(limits, h.table, packet).0, Mine(packets, c.key);
    ReadyShrinks(limits, h.table, packet);
    SizedShrinks(packets, h.table, ready);
    PayloadOneMore(packets, packet);
    PayloadOneMore(mine, packet);
    MineOneMore(packets, packet, c.key);
    if c.key !in ready.flows {
      RoomToTrack(limits, c, packets, packet, ready);
      NothingHeld();
    }
  }

  lemma NothingHeld()
    ensures SegmentBytes([]) == 0
  {
  }

  /** A capture that is small as a whole always has room. */
  lemma {:induction false} PlentyIsRoomy(limits: Limits, c: Conversation, packets: seq<Packet>)
    requires Undisturbed(limits, c, packets) && Plenty(limits, c, packets)
    ensures Roomy(limits, c, packets)
  {
    hide *;
    if packets == [] {
      NothingIsRoomy(limits, c);
    } else {
      var before, packet := packets[..|packets| - 1], packets[|packets| - 1];
      assert before + [packet] == packets;
      UndisturbedBefore(limits, c, packets);
      PlentyBefore(limits, c, before, packet);
      PlentyIsRoomy(limits, c, before);
      TrackingAlways(limits, c, before);
      SizedAlways(limits, before);
      FedClocks(limits, before);
      if packet.key == c.key {
        PlentyHasRoom(limits, c, before, Fed(limits, before), packet);
      }
      RoomyMore(limits, c, packets);
    }
  }

  lemma NothingIsRoomy(limits: Limits, c: Conversation)
    ensures Roomy(limits, c, [])
  {
  }

  lemma FedClocks(limits: Limits, packets: seq<Packet>)
    ensures TcpExpiry.ClocksRight(Fed(limits, packets).table)
  {
    hide Run, TcpExpiry.ClocksRight;
    RunClocks(limits, Feeds(packets));
  }

  lemma UndisturbedBefore(limits: Limits, c: Conversation, packets: seq<Packet>)
    requires packets != [] && Undisturbed(limits, c, packets)
    ensures var before := packets[..|packets| - 1];
      Undisturbed(limits, c, before) && MayFollow(limits, c, before, Fed(limits, before).table, packets[|packets| - 1])
  {
    hide MayFollow, Fed;
  }

  lemma RoomyMore(limits: Limits, c: Conversation, packets: seq<Packet>)
    requires packets != []
    requires var before, packet := packets[..|packets| - 1], packets[|packets| - 1];
      Roomy(limits, c, before) && (packet.key == c.key ==> RoomFor(limits, Fed(limits, before).table, packet))
    ensures Roomy(limits, c, packets)
  {
    hide RoomFor, Fed;
  }

  // ---------------------------------------------------------------- the direction follows the conversation

  lemma {:induction false} MineBelong(limits: Limits, c: Conversation, packets: seq<Packet>)
    requires Undisturbed(limits, c, packets)
    ensures forall i | 0 <= i < |Mine(packets, c.key)| :: Belongs(c, Mine(packets, c.key)[i])
  {
    hide Belongs, InTime;
    if packets != [] {
      MineBelong(limits, c, packets[..|packets| - 1]);
    }
  }

  /** The SYN was captured once the conversation was under way. */
  ghost predicate HasSyn(mine: seq<Packet>) {
    exists i | 0 <= i < |mine| :: mine[i].flags.syn
  }

  /** Every byte of the conversation was captured in some packet. */
  ghost predicate Covered(c: Conversation, mine: seq<Packet>) {
    forall p | 0 <= p < |c.bytes| :: CoveredAt(c, mine, p)
  }

  ghost predicate CoveredAt(c: Conversation, mine: seq<Packet>, p: int) {
    exists i, offset | 0 <= i < |mine| && HasData(mine[i]) ::
      IsSlice(c, SegmentOf(mine[i]), offset) && offset <= p < offset + mine[i].declared
  }

  lemma GivenSlice(c: Conversation, mine: seq<Packet>, segment: Segment)
    requires Given(mine, segment) && forall i | 0 <= i < |mine| :: Belongs(c, mine[i])
    ensures IsPart(c, segment)
  {
    hide IsPart;
    var j :| 0 <= j < |mine| && HasData(mine[j]) && SegmentOf(mine[j]) == segment;
    assert Belongs(c, mine[j]);
  }

  lemma SynTaken(d: Direction, mine: seq<Packet>)
    requires d.failure.None? && Carries(d, mine) && HasSyn(mine)
    ensures d.hasSyn
  {
    hide Known;
    var i :| 0 <= i < |mine| && mine[i].flags.syn;
    assert Taken(d, mine[i]);
  }

  lemma CarriedFollows(limits: Limits, c: Conversation, f: Tracked, mine: seq<Packet>)
    requires Intact(limits, c, f, mine) && Carries(f.dir, mine) && HasSyn(mine)
    requires forall i | 0 <= i < |mine| :: Belongs(c, mine[i])
    ensures Follows(f.dir, c)
  {
    hide Belongs, Given, Taken, HasSyn, Alive, IsPart;
    SynTaken(f.dir, mine);
    forall i | 0 <= i < |f.dir.segments|
      ensures IsPart(c, f.dir.segments[i])
    {
      GivenSlice(c, mine, f.dir.segments[i]);
    }
  }

  lemma CarriedWhole(c: Conversation, d: Direction, mine: seq<Packet>)
    requires d.failure.None? && Carries(d, mine) && Covered(c, mine)
    ensures Whole(d, c)
  {
    forall p | 0 <= p < |c.bytes|
      ensures Seen(d, c, p)
    {
      CarriedSeen(c, d, mine, p);
    }
  }

  lemma CarriedSeen(c: Conversation, d: Direction, mine: seq<Packet>, p: int)
    requires d.failure.None? && Carries(d, mine) && CoveredAt(c, mine, p)
    ensures Seen(d, c, p)
  {
    var j, offset :| 0 <= j < |mine| && HasData(mine[j]) && IsSlice(c, SegmentOf(mine[j]), offset)
                     && offset <= p < offset + mine[j].declared;
    var i := HeldTwin(d, mine, j);
    SameSlice(c, SegmentOf(mine[j]), d.segments[i], offset);
    hide IsSlice;
  }

  lemma HeldTwin(d: Direction, mine: seq<Packet>, j: nat) returns (i: nat)
    requires d.failure.None? && Carries(d, mine) && j < |mine| && HasData(mine[j])
    ensures i < |d.segments| && Repeats(d.segments[i], SegmentOf(mine[j]))
  {
    hide Given;
    assert Taken(d, mine[j]);
    i :| 0 <= i < |d.segments| && Repeats(d.segments[i], SegmentOf(mine[j]));
  }

  lemma SameSlice(c: Conversation, a: Segment, b: Segment, offset: int)
    requires Repeats(b, a) && IsSlice(c, a, offset)
    ensures IsSlice(c, b, offset)
  {
  }

  // ---------------------------------------------------------------- what is emitted in the end

  function OfKey(streams: seq<Stream>, key: FlowKey): seq<Stream> {
    if streams == [] then []
    else
      var before, stream := OfKey(streams[..|streams| - 1], key), streams[|streams| - 1];
      if stream.key == key then before + [stream] else before
  }

  lemma {:induction false} OfKeyBoth(a: seq<Stream>, b: seq<Stream>, key: FlowKey)
    ensures OfKey(a + b, key) == OfKey(a, key) + OfKey(b, key)
    decreases |b|
  {
    if b == [] {
      assert a + b == a;
    } else {
      OfKeyBoth(a, b[..|b| - 1], key);
      assert (a + b)[..|a + b| - 1] == a + b[..|b| - 1];
    }
  }

  lemma {:induction false} OfKeyNone(streams: seq<Stream>, key: FlowKey)
    requires forall i | 0 <= i < |streams| :: streams[i].key != key
    ensures OfKey(streams, key) == []
  {
    if streams != [] {
      OfKeyNone(streams[..|streams| - 1], key);
    }
  }

  lemma OfKeyFinished(limits: Limits, key: FlowKey, d: Direction, cause: Finalizer, wanted: FlowKey)
    ensures OfKey(Finished(limits, key, d, cause), wanted) == if key == wanted then Finished(limits, key, d, cause) else []
  {
    hide Finished;
    FinishedShape(limits, key, d, cause);
    var streams := Finished(limits, key, d, cause);
    if streams != [] {
      assert streams == [streams[0]] && streams[..0] == [];
    }
  }

  /** Draining emits a direction's stream once. */
  lemma {:induction false} DrainedOfKey(limits: Limits, t: Table, key: FlowKey)
    ensures OfKey(Drained(limits, t), key) == if key in t.flows then Finished(limits, key, t.flows[key].dir, ByEof) else []
    decreases |t.flows|
  {
    hide Finished, OfKey;
    if t.flows == map[] {
      OfKeyNone([], key);
    } else {
      var first := FirstKey(t.flows.Keys);
      var next := FinishNext(limits, t);
      assert next.0.flows == t.flows - {first} && next.1 == Finished(limits, first, t.flows[first].dir, ByEof);
      DrainedOfKey(limits, next.0, key);
      OfKeyBoth(next.1, Drained(limits, next.0), key);
      OfKeyFinished(limits, first, t.flows[first].dir, ByEof, key);
    }
  }

  /** Every stream of a capture, drained at its end. */
  ghost function Captured(limits: Limits, packets: seq<Packet>): seq<Stream> {
    var h := Fed(limits, packets);
    h.emitted + Drained(limits, h.table)
  }

  function FramedAll(streams: seq<Stream>, maxMessages: nat): seq<DnsFraming.DnsMessage> {
    if streams == [] then []
    else FramedAll(streams[..|streams| - 1], maxMessages) + DnsFraming.Framed(streams[|streams| - 1], maxMessages)
  }

  /** The rows reported for the conversation's direction. */
  ghost function Reported(limits: Limits, c: Conversation, packets: seq<Packet>, maxMessages: nat): seq<DnsFraming.DnsMessage> {
    FramedAll(OfKey(Captured(limits, packets), c.key), maxMessages)
  }

  lemma ReportedIs(limits: Limits, c: Conversation, packets: seq<Packet>, maxMessages: nat)
    requires Unemitted(c, Fed(limits, packets)) && c.key in Fed(limits, packets).table.flows
    ensures Reported(limits, c, packets, maxMessages)
         == Rows(limits, c.key, Fed(limits, packets).table.flows[c.key].dir, ByEof, maxMessages)
  {
    hide Finished, Fed, Drained, DnsFraming.Framed;
    var h := Fed(limits, packets);
    var d := h.table.flows[c.key].dir;
    OfKeyNone(h.emitted, c.key);
    DrainedOfKey(limits, h.table, c.key);
    OfKeyBoth(h.emitted, Drained(limits, h.table), c.key);
    var streams := Finished(limits, c.key, d, ByEof);
    assert [] + streams == streams;
    FinishedShape(limits, c.key, d, ByEof);
    if streams != [] {
      FramedOne(streams, maxMessages);
    }
  }

  lemma FramedOne(streams: seq<Stream>, maxMessages: nat)
    requires |streams| == 1
    ensures FramedAll(streams, maxMessages) == DnsFraming.Framed(streams[0], maxMessages)
  {
    hide DnsFraming.Framed;
    assert streams[..0] == [];
    assert FramedAll([], maxMessages) == [];
  }

  // ---------------------------------------------------------------- end to end

  /** The conversation was captured: parts of it, perhaps among anything else, each finding room when it came. */
  ghost predicate CapturedIn(limits: Limits, c: Conversation, packets: seq<Packet>) {
    Undisturbed(limits, c, packets) && Roomy(limits, c, packets) && HasSyn(Mine(packets, c.key))
  }

  lemma DirectionFollows(limits: Limits, c: Conversation, packets: seq<Packet>)
    requires CapturedIn(limits, c, packets)
    ensures var h := Fed(limits, packets);
      && Unemitted(c, h) && c.key in h.table.flows
      && Follows(h.table.flows[c.key].dir, c)
      && Carries(h.table.flows[c.key].dir, Mine(packets, c.key))
  {
    hide Run, Roomy, Follows, Mine, Intact, Carries, IdsRight, Undisturbed;
    TrackingAlways(limits, c, packets);
    RunRight(limits, Feeds(packets));
    MineBelong(limits, c, packets);
    var h := Fed(limits, packets);
    CarriedFollows(limits, c, h.table.flows[c.key], Mine(packets, c.key));
  }

  /** Whatever order and overlap its packets came in, and whatever else was captured, a conversation captured whole
      is reported as exactly its messages, in order, numbered from 1, each at its own sequence number. */
  lemma DnsEndToEnd(limits: Limits, c: Conversation, messages: seq<DnsFraming.Payload>, packets: seq<Packet>, maxMessages: nat)
    requires CapturedIn(limits, c, packets) && Covered(c, Mine(packets, c.key))
    requires c.bytes == DnsFraming.Encoded(messages) && Fitting(limits, c) && |messages| <= maxMessages
    ensures c.key in Fed(limits, packets).table.flows
    ensures var rows, id := Reported(limits, c, packets, maxMessages), Fed(limits, packets).table.flows[c.key].dir.id;
      && |rows| == |messages|
      && forall i: nat | i < |messages| :: RowIs(rows[i], c, id, messages, i)
  {
    hide Run, CapturedIn, Covered, Follows, Mine, Carries, Whole, Reported, Rows, RowIs, Fitting;
    DirectionFollows(limits, c, packets);
    var d := Fed(limits, packets).table.flows[c.key].dir;
    ReportedIs(limits, c, packets, maxMessages);
    FollowsUnfailed(d, c);
    CarriedWhole(c, d, Mine(packets, c.key));
    RowsAreMessages(limits, d, ByEof, c, messages, maxMessages);
  }

  lemma FollowsUnfailed(d: Direction, c: Conversation)
    requires Follows(d, c)
    ensures d.failure.None?
  {
  }

  /** When packets are missing, what is reported complete is a prefix of the conversation's messages, followed by
      at most one diagnostic. */
  lemma DnsPrefix(limits: Limits, c: Conversation, messages: seq<DnsFraming.Payload>, packets: seq<Packet>, maxMessages: nat)
    returns (k: nat)
    requires CapturedIn(limits, c, packets)
    requires c.bytes == DnsFraming.Encoded(messages) && Fitting(limits, c) && |messages| <= maxMessages
    ensures c.key in Fed(limits, packets).table.flows
    ensures var rows, id := Reported(limits, c, packets, maxMessages), Fed(limits, packets).table.flows[c.key].dir.id;
      && k <= |messages| && k <= |rows| <= k + 1
      && (forall i: nat | i < k :: RowIs(rows[i], c, id, messages, i))
      && (|rows| == k + 1 ==> rows[k].status == DnsFraming.Incomplete)
  {
    hide Run, CapturedIn, Follows, Carries, Reported, Rows, RowIs, Fitting;
    DirectionFollows(limits, c, packets);
    ReportedIs(limits, c, packets, maxMessages);
    k := RowsArePrefix(limits, Fed(limits, packets).table.flows[c.key].dir, ByEof, c, messages, maxMessages);
  }
}
