/** The reassembler as a plain table of directions: deadlines without a queue, totals recomputed when asked,
    duplicates found by looking at every segment. The class in TcpReassembler.dfy refines it. */
module TcpTable {
  import opened Basics
  import opened TcpTypes
  import opened StreamAssembly
  import Order
  import MapSum

  datatype Packet = Packet(key: FlowKey, sequence: U32, flags: Flags, payload: seq<U8>, declared: U32, stamp: PacketStamp)

  /** A tracked direction, and when it will have been idle too long, if it can expire at all. */
  datatype Tracked = Tracked(dir: Direction, untimed: bool, deadline: Option<int>)

  /** Tracked directions, the clock of each interface with something scheduled, and the next stream id. */
  datatype Table = Table(flows: map<FlowKey, Tracked>, clocks: map<ScopeKey, int>, nextId: U64)

  datatype Outcome = Added(streams: seq<Stream>) | IdsExhausted

  const EMPTY := Table(map[], map[], 1)

  // ---------------------------------------------------------------- totals

  function SegmentBytes(segments: seq<Segment>): nat {
    if segments == [] then 0 else SegmentBytes(segments[..|segments| - 1]) + |segments[|segments| - 1].bytes|
  }

  function HeldBytes(f: Tracked): nat {
    SegmentBytes(f.dir.segments)
  }

  function HeldSegments(f: Tracked): nat {
    |f.dir.segments|
  }

  ghost function TotalBytes(t: Table): nat {
    MapSum.Sum(t.flows, HeldBytes)
  }

  ghost function TotalSegments(t: Table): nat {
    MapSum.Sum(t.flows, HeldSegments)
  }

  // ---------------------------------------------------------------- clocks

  predicate ScheduledIn(flows: map<FlowKey, Tracked>, key: FlowKey, scope: ScopeKey) {
    key in flows && key.Scope() == scope && flows[key].deadline.Some?
  }

  /** A scope's clock is dropped once nothing is scheduled there. */
  ghost function Settled(flows: map<FlowKey, Tracked>, clocks: map<ScopeKey, int>, scope: ScopeKey): map<ScopeKey, int> {
    if exists key :: ScheduledIn(flows, key, scope) then clocks else clocks - {scope}
  }

  ghost function Removed(limits: Limits, t: Table, key: FlowKey, cause: Finalizer): (Table, seq<Stream>) {
    if key !in t.flows then (t, [])
    else
      var flows := t.flows - {key};
      (t.(flows := flows, clocks := Settled(flows, t.clocks, key.Scope())),
       Finished(limits, key, t.flows[key].dir, cause))
  }

  // ---------------------------------------------------------------- idle expiry

  predicate Idle(flows: map<FlowKey, Tracked>, key: FlowKey, scope: ScopeKey, watermark: int) {
    ScheduledIn(flows, key, scope) && flows[key].deadline.value < watermark
  }

  ghost function IdleEntries(flows: map<FlowKey, Tracked>, scope: ScopeKey, watermark: int): set<Entry> {
    set key | key in flows && Idle(flows, key, scope, watermark) :: (flows[key].deadline.value, key)
  }

  /** Removes every idle direction of a scope, in (deadline, key) order. */
  ghost function ExpireAll(limits: Limits, t: Table, scope: ScopeKey, watermark: int): (Table, seq<Stream>)
    decreases |t.flows|
  {
    if IdleEntries(t.flows, scope, watermark) == {} then (t, [])
    else
      var removal := Removed(limits, t, FirstEntry(IdleEntries(t.flows, scope, watermark)).1, ByIdleTimeout);
      var rest := ExpireAll(limits, removal.0, scope, watermark);
      (rest.0, removal.1 + rest.1)
  }

  /** The interface clock once a packet is seen: the latest timestamp, or this one after a step back. */
  function Advanced(limits: Limits, clock: int, timestamp: int): int {
    if timestamp < clock && clock - timestamp > limits.tcpIdle then timestamp else Max(clock, timestamp)
  }

  ghost function Expired(limits: Limits, t: Table, key: FlowKey, stamp: PacketStamp): (Table, seq<Stream>) {
    if !stamp.hasTimestamp || key.Scope() !in t.clocks then (t, [])
    else
      var clock := Advanced(limits, t.clocks[key.Scope()], stamp.timestamp);
      ExpireAll(limits, t.(clocks := t.clocks[key.Scope() := clock]), key.Scope(), clock)
  }

  ghost function Scheduled(limits: Limits, t: Table, key: FlowKey, stamp: PacketStamp): Table
    requires key in t.flows
  {
    var f := t.flows[key].(untimed := t.flows[key].untimed || !stamp.hasTimestamp);
    var deadline := stamp.timestamp + limits.tcpIdle;
    if f.untimed || limits.tcpIdle <= 0 || deadline > I64_MAX then
      var flows := t.flows[key := f.(deadline := None)];
      var clocks := if f.deadline.Some? then Settled(flows, t.clocks, key.Scope()) else t.clocks;
      t.(flows := flows, clocks := clocks)
    else if f.deadline.Some? && f.deadline.value >= deadline then
      t.(flows := t.flows[key := f])
    else
      var clock := if key.Scope() in t.clocks then Max(t.clocks[key.Scope()], stamp.timestamp) else stamp.timestamp;
      t.(flows := t.flows[key := f.(deadline := Some(deadline))], clocks := t.clocks[key.Scope() := clock])
  }

  // ---------------------------------------------------------------- what one packet adds to its direction

  function Fail(d: Direction, failure: Failure): Direction {
    d.(segments := [], failure := Some(failure))
  }

  predicate Repeats(a: Segment, b: Segment) {
    a.sequence == b.sequence && a.declared == b.declared && a.bytes == b.bytes
  }

  predicate Known(segments: seq<Segment>, segment: Segment) {
    exists i | 0 <= i < |segments| :: Repeats(segments[i], segment)
  }

  function Buffered(limits: Limits, d: Direction, totalBytes: nat, totalSegments: nat, segment: Segment): Direction {
    var captured := |segment.bytes|;
    if captured > limits.maxStreamBytes || captured > limits.maxTotalBytes then
      Fail(d, Failure(Limit, SegmentExceedsLimits))
    else if Known(d.segments, segment) then d
    else if |d.segments| >= limits.maxSegments || totalSegments >= limits.maxTotalSegments
            || SegmentBytes(d.segments) + captured > limits.maxStreamBytes || totalBytes + captured > limits.maxTotalBytes
    then
      Fail(d, Failure(Limit, BufferLimitReached))
    else
      d.(segments := d.segments + [segment])
  }

  function DataSequence(packet: Packet): U32 {
    Wrap32(packet.sequence + if packet.flags.syn then 1 else 0)
  }

  function FinSequence(packet: Packet): U32 {
    Wrap32(DataSequence(packet) + packet.declared)
  }

  function WithSyn(d: Direction, packet: Packet): Direction {
    if packet.flags.syn then d.(hasSyn := true, synSequence := packet.sequence) else d
  }

  function WithFin(d: Direction, packet: Packet): Direction {
    if !packet.flags.fin then d
    else
      var judged := if d.hasFin && d.finSequence != FinSequence(packet)
                    then Fail(d, Failure(Conflict, FinPositionsDisagree)) else d;
      judged.(hasFin := true, finSequence := FinSequence(packet))
  }

  function WithData(limits: Limits, d: Direction, totalBytes: nat, totalSegments: nat, packet: Packet): Direction {
    if d.failure.Some? then d
    else if |packet.payload| > packet.declared then Fail(d, Failure(Conflict, CapturedExceedsDeclared))
    else if packet.declared == 0 then d
    else
      Buffered(limits, d, totalBytes, totalSegments,
               Captured(DataSequence(packet), packet.declared, packet.stamp, packet.payload))
  }

  function Absorbed(limits: Limits, d: Direction, totalBytes: nat, totalSegments: nat, packet: Packet): Direction {
    WithData(limits, WithFin(WithSyn(d.(last := packet.stamp), packet), packet), totalBytes, totalSegments, packet)
  }

  // ---------------------------------------------------------------- one packet

  function Fresh(id: nat, stamp: PacketStamp): Direction {
    Direction(id, false, false, 0, 0, stamp, stamp, None, [])
  }

  /** The diagnostic of a direction there was no room to track. */
  function Overflow(packet: Packet, id: nat): Stream {
    Diagnostic(packet.key,
               Fresh(id, packet.stamp).(hasSyn := packet.flags.syn, synSequence := packet.sequence),
               Failure(Limit, TooManyDirections), ByLimit)
  }

  /** A SYN that starts a new connection on this tuple. */
  predicate StartsAnew(t: Table, packet: Packet) {
    && packet.flags.syn
    && (packet.key in t.flows ==>
          var d := t.flows[packet.key].dir; d.hasSyn && d.synSequence != packet.sequence)
  }

  /** A new connection retires the old one, and when the SYN opens it, the other direction too. */
  ghost function Retired(limits: Limits, t: Table, packet: Packet): (Table, seq<Stream>) {
    if !StartsAnew(t, packet) then (t, [])
    else
      var own := Removed(limits, t, packet.key, ByTupleReuse);
      var other := if packet.flags.ack then (own.0, []) else Removed(limits, own.0, packet.key.Reverse(), ByTupleReuse);
      (other.0, own.1 + other.1)
  }

  predicate Opens(packet: Packet) {
    packet.flags.syn || packet.declared != 0 || packet.payload != []
  }

  ghost function Entered(limits: Limits, t: Table, packet: Packet): Table
    requires packet.key in t.flows
  {
    var scheduled := Scheduled(limits, t, packet.key, packet.stamp);
    var f := scheduled.flows[packet.key];
    var dir := Absorbed(limits, f.dir, TotalBytes(scheduled), TotalSegments(scheduled), packet);
    scheduled.(flows := scheduled.flows[packet.key := f.(dir := dir)])
  }

  ghost function ResetBoth(limits: Limits, t: Table, packet: Packet): (Table, seq<Stream>) {
    if !packet.flags.rst then (t, [])
    else
      var own := Removed(limits, t, packet.key, ByReset);
      var other := Removed(limits, own.0, packet.key.Reverse(), ByReset);
      (other.0, own.1 + other.1)
  }

  ghost function Ready(limits: Limits, t: Table, packet: Packet): (Table, seq<Stream>) {
    var expired := Expired(limits, t, packet.key, packet.stamp);
    var retired := Retired(limits, expired.0, packet);
    (retired.0, expired.1 + retired.1)
  }

  ghost function Admitted(limits: Limits, t: Table, packet: Packet): (Table, Outcome) {
    if packet.key in t.flows then (t, Added([]))
    else if t.nextId == U64_MAX then (t, IdsExhausted)
    else if |t.flows| >= limits.maxFlows then
      (t.(nextId := t.nextId + 1), Added([Overflow(packet, t.nextId)]))
    else
      (t.(flows := t.flows[packet.key := Tracked(Fresh(t.nextId, packet.stamp), false, None)], nextId := t.nextId + 1),
       Added([]))
  }

  ghost function Add(limits: Limits, t: Table, packet: Packet): (Table, Outcome) {
    var ready := Ready(limits, t, packet);
    if packet.key !in ready.0.flows && !Opens(packet) then
      var reset := if packet.flags.rst then Removed(limits, ready.0, packet.key.Reverse(), ByReset) else (ready.0, []);
      (reset.0, Added(ready.1 + reset.1))
    else
      var admitted := Admitted(limits, ready.0, packet);
      if admitted.1.IdsExhausted? then admitted
      else if packet.key !in admitted.0.flows then (admitted.0, Added(ready.1 + admitted.1.streams))
      else
        var reset := ResetBoth(limits, Entered(limits, admitted.0, packet), packet);
        (reset.0, Added(ready.1 + reset.1))
  }

  /** Finishing takes the first direction in key order. */
  ghost function FinishNext(limits: Limits, t: Table): (Table, seq<Stream>) {
    if t.flows == map[] then (t, []) else Removed(limits, t, FirstKey(t.flows.Keys), ByEof)
  }
}
