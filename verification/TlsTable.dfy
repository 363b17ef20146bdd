/** Pairing the two directions of TLS connections, as a plain table: directions waiting for their peer, the queue of
    unconfirmed finds, and recent streams that were plainly not TLS. The class in TlsAssembler.dfy refines it. */
module TlsTable {
  import opened Basics
  import opened TcpTypes
  import opened TlsMerge
  import MapSum

  /** A finished stream as the assembler sees it: its own key and packets, the direction it parsed to, and whether it
      plainly carried something else. */
  datatype Arrival = Arrival(key: FlowKey, first: PacketStamp, last: PacketStamp, direction: TlsDirection, plainlyNotTls: bool)

  /** A stream that was plainly not TLS, keyed as a waiting find on its other side would be. */
  datatype Refuter = Refuter(key: FlowKey, clientSide: bool, first: PacketStamp, last: PacketStamp)

  datatype Table = Table(pending: map<FlowKey, TlsDirection>, order: seq<FlowKey>, refuters: seq<Refuter>)

  const EMPTY := Table(map[], [], [])

  /** What a call hands out: merges to be written as rows. It stops on the assertion that a place was freed. */
  datatype Outcome = Reported(pairs: seq<Pair>) | AssertionFailed

  // ---------------------------------------------------------------- relations between directions

  predicate Overlaps(first: PacketStamp, last: PacketStamp, otherFirst: PacketStamp, otherLast: PacketStamp) {
    first.number <= otherLast.number && otherFirst.number <= last.number
  }

  /** A peer confirms a find: the other side, overlapping it, with a hello that parsed and was not itself searched for. */
  predicate Confirms(peer: TlsDirection, found: TlsDirection) {
    && peer.client != found.client && !peer.needsConfirmation && peer.hellos != []
    && peer.hellos[0].verdict.status != Invalid
    && Overlaps(peer.first, peer.last, found.first, found.last)
  }

  predicate RefutedBy(refuter: Refuter, found: TlsDirection) {
    && refuter.clientSide == found.client && refuter.key == found.key
    && Overlaps(refuter.first, refuter.last, found.first, found.last)
  }

  predicate Refuted(refuters: seq<Refuter>, found: TlsDirection) {
    exists i | 0 <= i < |refuters| :: RefutedBy(refuters[i], found)
  }

  predicate Unconfirmed(pending: map<FlowKey, TlsDirection>, key: FlowKey) {
    key in pending && pending[key].needsConfirmation
  }

  function NeedsPlace(d: TlsDirection): nat {
    if d.needsConfirmation then 1 else 0
  }

  /** How many held directions still need confirmation. */
  ghost function UnconfirmedCount(pending: map<FlowKey, TlsDirection>): nat {
    MapSum.Sum(pending, NeedsPlace)
  }

  function UnconfirmedRoom(maxPending: nat): nat {
    Max(1, maxPending / 4)
  }

  // ---------------------------------------------------------------- reporting and holding

  /** A direction reported without a peer; one that needs confirmation never is. */
  function Alone(d: TlsDirection): seq<Pair> {
    if d.needsConfirmation then []
    else if d.client then [Pair(d, None)]
    else [Pair(NO_DIRECTION, Some(d))]
  }

  function Together(a: TlsDirection, b: TlsDirection): Pair {
    if a.client then Pair(a, Some(b)) else Pair(b, Some(a))
  }

  function Released(t: Table, key: FlowKey): Table {
    t.(pending := t.pending - {key})
  }

  /** Gives up the oldest queued find that is still held, if any. */
  function Evicted(t: Table): Table
    decreases |t.order|
  {
    if t.order == [] then t
    else
      var rest := t.(order := t.order[1..]);
      if Unconfirmed(t.pending, t.order[0]) then Released(rest, t.order[0]) else Evicted(rest)
  }

  /** The queue without the keys of finds no longer held. */
  function Compacted(pending: map<FlowKey, TlsDirection>, order: seq<FlowKey>): seq<FlowKey> {
    if order == [] then []
    else
      var n := |order| - 1;
      Compacted(pending, order[..n]) + if Unconfirmed(pending, order[n]) then [order[n]] else []
  }

  function Queued(maxPending: nat, t: Table, key: FlowKey): Table {
    var order := t.order + [key];
    t.(order := if |order| > 2 * maxPending then Compacted(t.pending, order) else order)
  }

  datatype Holding = Held(table: Table) | NoRoom | Stuck

  ghost function Hold(maxPending: nat, t: Table, d: TlsDirection): Holding {
    var count := UnconfirmedCount(t.pending);
    if maxPending == 0 || (d.needsConfirmation && count >= UnconfirmedRoom(maxPending)) then NoRoom
    else
      var full := |t.pending| >= maxPending;
      if full && (d.needsConfirmation || count == 0) then NoRoom
      else
        var freed := if full then Evicted(t) else t;
        var queued := if d.needsConfirmation then Queued(maxPending, freed, d.key) else freed;
        if |queued.pending| >= maxPending then Stuck
        else Held(queued.(pending := queued.pending[d.key := d]))
  }

  // ---------------------------------------------------------------- one stream

  function Remember(maxPending: nat, refuters: seq<Refuter>, refuter: Refuter): seq<Refuter> {
    (if |refuters| >= Max(1, maxPending) && refuters != [] then refuters[1..] else refuters) + [refuter]
  }

  /** One side of a plainly non-TLS stream: drops an overlapping find on its other side, or remembers the stream. */
  function RefuteSide(maxPending: nat, t: Table, stream: Arrival, clientSide: bool): Table {
    var key := if clientSide then stream.key.Reverse() else stream.key;
    if Unconfirmed(t.pending, key) && t.pending[key].client == clientSide
       && Overlaps(stream.first, stream.last, t.pending[key].first, t.pending[key].last)
    then Released(t, key)
    else t.(refuters := Remember(maxPending, t.refuters, Refuter(key, clientSide, stream.first, stream.last)))
  }

  function Refute(maxPending: nat, t: Table, stream: Arrival): Table {
    RefuteSide(maxPending, RefuteSide(maxPending, t, stream, true), stream, false)
  }

  /** Holds a direction whose peer is not waiting, or reports it alone when there is no room. */
  ghost function Waiting(maxPending: nat, t: Table, d: TlsDirection, before: seq<Pair>): (Table, Outcome) {
    match Hold(maxPending, t, d)
    case Held(after) => (after, Reported(before))
    case NoRoom => (t, Reported(before + Alone(d)))
    case Stuck => (t, AssertionFailed)
  }

  predicate Unpaired(held: TlsDirection, d: TlsDirection) {
    (d.needsConfirmation && !Confirms(held, d)) || (held.needsConfirmation && !Confirms(d, held))
  }

  /** A direction that meets the other side of its tuple. */
  ghost function Meets(maxPending: nat, t: Table, d: TlsDirection): (Table, Outcome)
    requires d.key in t.pending
  {
    var held := t.pending[d.key];
    if !Unpaired(held, d) then (Released(t, d.key), Reported([Together(d, held)]))
    else if held.last.number < d.first.number then Waiting(maxPending, Released(t, d.key), d, Alone(held))
    else if d.needsConfirmation then (t, Reported([]))
    else Waiting(maxPending, Released(t, d.key), d, [])
  }

  ghost function Placed(maxPending: nat, t: Table, d: TlsDirection): (Table, Outcome) {
    if d.key !in t.pending then Waiting(maxPending, t, d, [])
    else if t.pending[d.key].client == d.client then
      if d.needsConfirmation && !t.pending[d.key].needsConfirmation then (t, Reported([]))
      else Waiting(maxPending, Released(t, d.key), d, Alone(t.pending[d.key]))
    else Meets(maxPending, t, d)
  }

  ghost function Add(maxPending: nat, t: Table, stream: Arrival): (Table, Outcome) {
    var d := stream.direction;
    if d.hellos == [] then (if stream.plainlyNotTls then Refute(maxPending, t, stream) else t, Reported([]))
    else if d.needsConfirmation && Refuted(t.refuters, d) then (t, Reported([]))
    else Placed(maxPending, t, d)
  }

  /** Everything still waiting, in key order. */
  ghost function Remaining(pending: map<FlowKey, TlsDirection>): seq<Pair>
    decreases |pending|
  {
    if pending == map[] then []
    else
      var key := FirstKey(pending.Keys);
      Alone(pending[key]) + Remaining(pending - {key})
  }

  ghost function Finish(t: Table): (Table, seq<Pair>) {
    (EMPTY, Remaining(t.pending))
  }
}
