/** The TCP reassembler (src/tcp_reassembly.cpp): lazy expiry queues, running totals and an index over segments,
    all of it invisible in the table it maintains. */
module TcpReassembler {
  import opened Basics
  import opened TcpTypes
  import opened StreamAssembly
  import Order
  import MapSum
  import T = TcpTable

  /** A segment's place in the index: sequence and declared length as one number, then its number. */
  type Position = (int, int)

  datatype Flow = Flow(dir: Direction, bytes: nat, order: seq<Position>,
                       scheduled: bool, untimed: bool, deadline: int, queued: int)

  datatype Scope = Scope(watermark: int, expiry: set<Entry>)

  // ---------------------------------------------------------------- the table behind the representation

  function ViewFlow(f: Flow): T.Tracked {
    T.Tracked(f.dir, f.untimed, if f.scheduled then Some(f.deadline) else None)
  }

  ghost function ViewFlows(flows: map<FlowKey, Flow>): map<FlowKey, T.Tracked> {
    map key | key in flows :: ViewFlow(flows[key])
  }

  ghost function ViewClocks(scopes: map<ScopeKey, Scope>): map<ScopeKey, int> {
    map scope | scope in scopes :: scopes[scope].watermark
  }

  /** Each scheduled direction has one entry in its interface's queue, at or before its deadline,
      and each entry belongs to a scheduled direction. */
  ghost predicate QueuesMatch(flows: map<FlowKey, Flow>, scopes: map<ScopeKey, Scope>) {
    && (forall key | key in flows && flows[key].scheduled ::
          && key.Scope() in scopes && (flows[key].queued, key) in scopes[key.Scope()].expiry
          && flows[key].queued <= flows[key].deadline)
    && (forall scope | scope in scopes :: scopes[scope].expiry != {})
    && (forall scope, entry | scope in scopes && entry in scopes[scope].expiry ::
          EntryMatches(flows, scope, entry))
  }

  ghost predicate EntryMatches(flows: map<FlowKey, Flow>, scope: ScopeKey, entry: Entry) {
    && entry.1 in flows && entry.1.Scope() == scope
    && flows[entry.1].scheduled && flows[entry.1].queued == entry.0
  }

  // ---------------------------------------------------------------- the segment index

  function PositionOf(segment: Segment): int {
    segment.sequence * 0x1_0000_0000 + segment.declared
  }

  predicate Precedes(a: Position, b: Position) {
    a.0 < b.0 || (a.0 == b.0 && a.1 < b.1)
  }

  /** `order` is a sorted permutation of the segment numbers. */
  ghost predicate Indexed(segments: seq<Segment>, order: seq<Position>) {
    && |order| == |segments|
    && (forall a, b | 0 <= a < b < |order| :: Precedes(order[a], order[b]))
    && (forall a | 0 <= a < |order| ::
          0 <= order[a].1 < |segments| && order[a].0 == PositionOf(segments[order[a].1]))
    && (forall i | 0 <= i < |segments| :: (PositionOf(segments[i]), i) in order)
  }

  /** A sorted index with one more place in it. */
  function Insert(order: seq<Position>, place: Position): seq<Position> {
    if order == [] || Precedes(order[|order| - 1], place) then order + [place]
    else Insert(order[..|order| - 1], place) + [order[|order| - 1]]
  }

  /** The index of a direction's segments, as each is added. */
  function OrderOf(segments: seq<Segment>): seq<Position> {
    if segments == [] then []
    else Insert(OrderOf(segments[..|segments| - 1]), (PositionOf(segments[|segments| - 1]), |segments| - 1))
  }

  lemma {:induction false} InsertAt(order: seq<Position>, place: Position, index: nat)
    requires index <= |order|
    requires forall a | 0 <= a < index :: Precedes(order[a], place)
    requires forall a | index <= a < |order| :: !Precedes(order[a], place)
    ensures Insert(order, place) == order[..index] + [place] + order[index..]
  {
    if index < |order| {
      InsertAt(order[..|order| - 1], place, index);
      assert order[index..] == order[..|order| - 1][index..] + [order[|order| - 1]];
    } else {
      assert order[..index] == order && order[index..] == [];
    }
  }

  /** Where a new place goes. */
  lemma {:induction false} InsertPoint(order: seq<Position>, place: Position) returns (index: nat)
    requires forall a, b | 0 <= a < b < |order| :: Precedes(order[a], order[b])
    ensures index <= |order|
    ensures forall a | 0 <= a < index :: Precedes(order[a], place)
    ensures forall a | index <= a < |order| :: !Precedes(order[a], place)
  {
    if order == [] || Precedes(order[|order| - 1], place) {
      index := |order|;
    } else {
      index := InsertPoint(order[..|order| - 1], place);
    }
  }

  lemma IndexGrows(segments: seq<Segment>, segment: Segment)
    requires Indexed(segments, OrderOf(segments))
    ensures Indexed(segments + [segment], OrderOf(segments + [segment]))
  {
    var order, place := OrderOf(segments), (PositionOf(segment), |segments|);
    OrderOfMore(segments, segment);
    hide OrderOf, Insert;
    var index := InsertPoint(order, place);
    InsertAt(order, place, index);
    IndexInsert(segments, order, segment, index);
  }

  lemma OrderOfMore(segments: seq<Segment>, segment: Segment)
    ensures OrderOf(segments + [segment]) == Insert(OrderOf(segments), (PositionOf(segment), |segments|))
  {
    assert (segments + [segment])[..|segments|] == segments;
  }

  lemma NothingIndexed()
    ensures Indexed([], OrderOf([]))
  {
  }

  /** The index is a sorted permutation of the segment numbers. */
  lemma {:induction false} OrderIndexes(segments: seq<Segment>)
    ensures Indexed(segments, OrderOf(segments))
  {
    hide *;
    if segments == [] {
      NothingIndexed();
    } else {
      var front, last := segments[..|segments| - 1], segments[|segments| - 1];
      OrderIndexes(front);
      IndexGrows(front, last);
      assert front + [last] == segments;
    }
  }

  lemma SamePosition(a: Segment, b: Segment)
    ensures PositionOf(a) == PositionOf(b) <==> a.sequence == b.sequence && a.declared == b.declared
  {
  }

  /** The first place in the index not before `(position, number)`. */
  method LowerBound(order: seq<Position>, bound: Position) returns (index: nat)
    requires forall a, b | 0 <= a < b < |order| :: Precedes(order[a], order[b])
    ensures index <= |order|
    ensures forall a | 0 <= a < index :: Precedes(order[a], bound)
    ensures forall a | index <= a < |order| :: !Precedes(order[a], bound)
  {
    var low, high := 0, |order|;
    while low < high
      invariant 0 <= low <= high <= |order|
      invariant forall a | 0 <= a < low :: Precedes(order[a], bound)
      invariant forall a | high <= a < |order| :: !Precedes(order[a], bound)
    {
      var middle := (low + high) / 2;
      if Precedes(order[middle], bound) {
        low := middle + 1;
      } else {
        high := middle;
      }
    }
    index := low;
  }

  /** Whether a segment repeats one already held, looking only at segments of its sequence and length. */
  method FindRepeat(segments: seq<Segment>, order: seq<Position>, segment: Segment) returns (found: bool)
    requires order == OrderOf(segments)
    ensures found <==> T.Known(segments, segment)
  {
    OrderIndexes(segments);
    var position := PositionOf(segment);
    var index := LowerBound(order, (position, 0));
    ghost var start := index;
    while index < |order| && order[index].0 == position
      invariant start <= index <= |order|
      invariant forall a | start <= a < index ::
          order[a].0 == position && segments[order[a].1].bytes != segment.bytes
    {
      var existing := segments[order[index].1];
      if existing.bytes == segment.bytes {
        SamePosition(existing, segment);
        return true;
      }
      index := index + 1;
    }
    forall i | 0 <= i < |segments|
      ensures !T.Repeats(segments[i], segment)
    {
      SamePosition(segments[i], segment);
      var a :| 0 <= a < |order| && order[a] == (PositionOf(segments[i]), i);
    }
    return false;
  }

  /** Inserting a new segment's place keeps the index. */
  lemma IndexInsert(segments: seq<Segment>, order: seq<Position>, segment: Segment, index: nat)
    requires Indexed(segments, order) && index <= |order|
    requires forall a | 0 <= a < index :: Precedes(order[a], (PositionOf(segment), |segments|))
    requires forall a | index <= a < |order| :: !Precedes(order[a], (PositionOf(segment), |segments|))
    ensures Indexed(segments + [segment], order[..index] + [(PositionOf(segment), |segments|)] + order[index..])
  {
    var place := (PositionOf(segment), |segments|);
    var grown := order[..index] + [place] + order[index..];
    forall i | 0 <= i < |segments + [segment]|
      ensures (PositionOf((segments + [segment])[i]), i) in grown
    {
      if i < |segments| {
        var a :| 0 <= a < |order| && order[a] == (PositionOf(segments[i]), i);
        assert grown[if a < index then a else a + 1] == order[a];
      } else {
        assert grown[index] == place;
      }
    }
  }

  /** Inserts a new segment's place where std::upper_bound puts it. */
  method InsertPlace(segments: seq<Segment>, order: seq<Position>, segment: Segment) returns (grown: seq<Position>)
    requires order == OrderOf(segments) && |segments| < U32_MAX
    ensures grown == OrderOf(segments + [segment])
  {
    OrderIndexes(segments);
    var place := (PositionOf(segment), |segments|);
    var index := LowerBound(order, (place.0, U32_MAX as int + 1));
    grown := order[..index] + [place] + order[index..];
    InsertAt(order, place, index);
    OrderOfMore(segments, segment);
  }

  // ---------------------------------------------------------------- changes to the queues

  /** The queues with one entry taken out, and its scope gone if that was the last. */
  function WithoutEntry(scopes: map<ScopeKey, Scope>, scope: ScopeKey, entry: Entry): map<ScopeKey, Scope>
    requires scope in scopes
  {
    var rest := scopes[scope].expiry - {entry};
    if rest == {} then scopes - {scope} else scopes[scope := scopes[scope].(expiry := rest)]
  }

  lemma Unqueue(flows: map<FlowKey, Flow>, scopes: map<ScopeKey, Scope>, key: FlowKey)
    requires QueuesMatch(flows, scopes) && key in flows && flows[key].scheduled
    ensures QueuesMatch(flows[key := flows[key].(scheduled := false)],
                        WithoutEntry(scopes, key.Scope(), (flows[key].queued, key)))
  {
    var scope, entry := key.Scope(), (flows[key].queued, key);
    var rest := scopes[scope].expiry - {entry};
    forall other | other in flows && other != key && flows[other].scheduled && other.Scope() == scope
      ensures (flows[other].queued, other) in rest
    {
    }
  }

  /** What is left in a queue is exactly what is still scheduled there. */
  lemma UnqueueSettles(flows: map<FlowKey, Flow>, scopes: map<ScopeKey, Scope>, key: FlowKey)
    requires QueuesMatch(flows, scopes) && key in flows && flows[key].scheduled
    ensures ViewClocks(WithoutEntry(scopes, key.Scope(), (flows[key].queued, key)))
         == T.Settled(ViewFlows(flows[key := flows[key].(scheduled := false)]), ViewClocks(scopes), key.Scope())
  {
    var scope, entry := key.Scope(), (flows[key].queued, key);
    var after, rest := flows[key := flows[key].(scheduled := false)], scopes[scope].expiry - {entry};
    if other :| T.ScheduledIn(ViewFlows(after), other, scope) {
      assert (flows[other].queued, other) in rest;
    } else if rest != {} {
      var other :| other in rest;
      assert EntryMatches(flows, scope, other);
      assert T.ScheduledIn(ViewFlows(after), other.1, scope);
      assert false;
    }
  }

  lemma Erase(flows: map<FlowKey, Flow>, scopes: map<ScopeKey, Scope>, key: FlowKey)
    requires QueuesMatch(flows, scopes) && key in flows && !flows[key].scheduled
    ensures QueuesMatch(flows - {key}, scopes)
    ensures ViewFlows(flows - {key}) == ViewFlows(flows) - {key}
    ensures forall clocks, scope ::
              T.Settled(ViewFlows(flows) - {key}, clocks, scope) == T.Settled(ViewFlows(flows), clocks, scope)
  {
    forall other, scope
      ensures T.ScheduledIn(ViewFlows(flows) - {key}, other, scope) == T.ScheduledIn(ViewFlows(flows), other, scope)
    {
    }
  }

  lemma Requeue(flows: map<FlowKey, Flow>, scopes: map<ScopeKey, Scope>, key: FlowKey)
    requires QueuesMatch(flows, scopes) && key in flows && flows[key].scheduled
    ensures var f, scope := flows[key], scopes[key.Scope()];
      var after := flows[key := f.(queued := f.deadline)];
      var moved := scopes[key.Scope() := scope.(expiry := scope.expiry - {(f.queued, key)} + {(f.deadline, key)})];
      && QueuesMatch(after, moved)
      && ViewFlows(after) == ViewFlows(flows) && ViewClocks(moved) == ViewClocks(scopes)
  {
  }

  lemma Enqueue(flows: map<FlowKey, Flow>, scopes: map<ScopeKey, Scope>, key: FlowKey, deadline: int, watermark: int)
    requires QueuesMatch(flows, scopes) && key in flows && !flows[key].scheduled
    ensures var f := flows[key].(deadline := deadline, queued := deadline, scheduled := true);
      var others := if key.Scope() in scopes then scopes[key.Scope()].expiry else {};
      QueuesMatch(flows[key := f], scopes[key.Scope() := Scope(watermark, others + {(deadline, key)})])
  {
  }

  /** Anything but the queue fields of a direction may change, and its deadline may move later. */
  lemma Amend(flows: map<FlowKey, Flow>, scopes: map<ScopeKey, Scope>, key: FlowKey, f: Flow)
    requires QueuesMatch(flows, scopes)
    requires key in flows ==> f.scheduled == flows[key].scheduled && f.queued == flows[key].queued
    requires key !in flows ==> !f.scheduled
    requires f.scheduled ==> f.queued <= f.deadline
    ensures QueuesMatch(flows[key := f], scopes)
  {
  }

  lemma Tick(flows: map<FlowKey, Flow>, scopes: map<ScopeKey, Scope>, scope: ScopeKey, watermark: int)
    requires QueuesMatch(flows, scopes) && scope in scopes
    ensures QueuesMatch(flows, scopes[scope := scopes[scope].(watermark := watermark)])
    ensures ViewClocks(scopes[scope := scopes[scope].(watermark := watermark)]) == ViewClocks(scopes)[scope := watermark]
  {
  }

  lemma ViewUpdate(flows: map<FlowKey, Flow>, key: FlowKey, f: Flow)
    ensures ViewFlows(flows[key := f]) == ViewFlows(flows)[key := ViewFlow(f)]
  {
  }

  /** The first queue entry that is not stale is the first direction to expire. */
  lemma FirstEntryIsFirstIdle(flows: map<FlowKey, Flow>, scopes: map<ScopeKey, Scope>, scope: ScopeKey, entry: Entry,
                              watermark: int)
    requires QueuesMatch(flows, scopes) && scope in scopes
    requires Order.IsFirst(entry, scopes[scope].expiry, EntryRank)
    requires entry.0 < watermark && flows[entry.1].deadline == entry.0
    ensures T.IdleEntries(ViewFlows(flows), scope, watermark) != {}
    ensures FirstEntry(T.IdleEntries(ViewFlows(flows), scope, watermark)) == entry
  {
    var idle := T.IdleEntries(ViewFlows(flows), scope, watermark);
    assert EntryMatches(flows, scope, entry);
    assert T.Idle(ViewFlows(flows), entry.1, scope, watermark);
    assert entry in idle;
    forall other | other in idle
      ensures other == entry || Order.Less(EntryRank(entry), EntryRank(other))
    {
      var queued := (flows[other.1].queued, other.1);
      assert queued in scopes[scope].expiry;
      if other != entry && queued != entry && queued != other {
        LaterEntry(queued, other);
        Order.LessTransitive(EntryRank(entry), EntryRank(queued), EntryRank(other));
      } else if queued == entry {
        assert other == entry;
      }
    }
    Order.FirstUnique(entry, FirstEntry(idle), idle, EntryRank);
  }

  lemma LaterEntry(a: Entry, b: Entry)
    requires a.0 < b.0
    ensures Order.Less(EntryRank(a), EntryRank(b))
  {
  }

  /** Nothing is idle when the first entry is not below the watermark. */
  lemma NothingIdle(flows: map<FlowKey, Flow>, scopes: map<ScopeKey, Scope>, scope: ScopeKey, watermark: int)
    requires QueuesMatch(flows, scopes)
    requires scope in scopes ==>
      exists entry :: Order.IsFirst(entry, scopes[scope].expiry, EntryRank) && entry.0 >= watermark
    ensures T.IdleEntries(ViewFlows(flows), scope, watermark) == {}
  {
    var idle := T.IdleEntries(ViewFlows(flows), scope, watermark);
    if idle != {} {
      var other :| other in idle;
      var queued := (flows[other.1].queued, other.1);
      assert queued in scopes[scope].expiry;
      var entry :| Order.IsFirst(entry, scopes[scope].expiry, EntryRank) && entry.0 >= watermark;
      if queued != entry {
        LaterEntry(queued, entry);
        Order.LessTransitive(EntryRank(queued), EntryRank(entry), EntryRank(queued));
        Order.LessIrreflexive(EntryRank(queued));
      }
      assert false;
    }
  }

  // ---------------------------------------------------------------- changes to the totals

  lemma TotalsUpdate(flows: map<FlowKey, Flow>, key: FlowKey, f: Flow)
    ensures var before, after := ViewFlows(flows), ViewFlows(flows[key := f]);
      && MapSum.Sum(after, T.HeldBytes)
         == MapSum.Sum(before, T.HeldBytes) - (if key in flows then T.SegmentBytes(flows[key].dir.segments) else 0)
            + T.SegmentBytes(f.dir.segments)
      && MapSum.Sum(after, T.HeldSegments)
         == MapSum.Sum(before, T.HeldSegments) - (if key in flows then |flows[key].dir.segments| else 0)
            + |f.dir.segments|
  {
    var before := ViewFlows(flows);
    ViewUpdate(flows, key, f);
    MapSum.SumUpdate(before, T.HeldBytes, key, ViewFlow(f));
    MapSum.SumUpdate(before, T.HeldSegments, key, ViewFlow(f));
    if key in flows {
      MapSum.SumWithout(before, T.HeldBytes, key);
      MapSum.SumWithout(before, T.HeldSegments, key);
    } else {
      MapSum.SumAbsent(before, T.HeldBytes, key);
      MapSum.SumAbsent(before, T.HeldSegments, key);
    }
  }

  lemma TotalsErase(flows: map<FlowKey, Flow>, key: FlowKey)
    requires key in flows
    ensures var before, after := ViewFlows(flows), ViewFlows(flows - {key});
      && MapSum.Sum(after, T.HeldBytes) == MapSum.Sum(before, T.HeldBytes) - T.SegmentBytes(flows[key].dir.segments)
      && MapSum.Sum(after, T.HeldSegments) == MapSum.Sum(before, T.HeldSegments) - |flows[key].dir.segments|
  {
    var before := ViewFlows(flows);
    assert ViewFlows(flows - {key}) == before - {key};
    MapSum.SumWithout(before, T.HeldBytes, key);
    MapSum.SumWithout(before, T.HeldSegments, key);
  }

  // ---------------------------------------------------------------- the representation as a whole

  /** The reassembler's fields, as a value. */
  datatype Rep = Rep(flows: map<FlowKey, Flow>, scopes: map<ScopeKey, Scope>, bufferedBytes: int, bufferedSegments: int,
                     nextId: U64)

  ghost function ViewOf(r: Rep): T.Table {
    T.Table(ViewFlows(r.flows), ViewClocks(r.scopes), r.nextId)
  }

  /** A direction's byte count and segment index match its segments, within the limits. */
  ghost predicate FlowValid(limits: Limits, f: Flow) {
    && f.bytes == T.SegmentBytes(f.dir.segments) <= limits.maxStreamBytes
    && f.order == OrderOf(f.dir.segments)
    && |f.dir.segments| <= limits.maxSegments
  }

  ghost predicate FlowsValid(limits: Limits, flows: map<FlowKey, Flow>) {
    |flows| <= limits.maxFlows && forall key | key in flows :: FlowValid(limits, flows[key])
  }

  ghost predicate TotalsMatch(limits: Limits, r: Rep) {
    && r.bufferedBytes == MapSum.Sum(ViewFlows(r.flows), T.HeldBytes) <= limits.maxTotalBytes
    && r.bufferedSegments == MapSum.Sum(ViewFlows(r.flows), T.HeldSegments) <= limits.maxTotalSegments
  }

  ghost predicate Sound(limits: Limits, r: Rep) {
    QueuesMatch(r.flows, r.scopes) && FlowsValid(limits, r.flows) && TotalsMatch(limits, r)
  }

  /** What the queues hold of one direction. */
  ghost predicate QueuedRight(r: Rep, key: FlowKey) {
    && key in r.flows
    && (r.flows[key].scheduled ==>
          && key.Scope() in r.scopes && (r.flows[key].queued, key) in r.scopes[key.Scope()].expiry
          && r.flows[key].queued <= r.flows[key].deadline)
  }

  lemma SoundQueued(limits: Limits, r: Rep, key: FlowKey)
    requires Sound(limits, r) && key in r.flows
    ensures QueuedRight(r, key)
  {
  }

  lemma SoundEntry(limits: Limits, r: Rep, scope: ScopeKey, entry: Entry)
    requires Sound(limits, r) && scope in r.scopes && entry in r.scopes[scope].expiry
    ensures EntryMatches(r.flows, scope, entry) && r.flows[entry.1].queued <= r.flows[entry.1].deadline
  {
  }

  lemma SoundNonempty(limits: Limits, r: Rep, scope: ScopeKey)
    requires Sound(limits, r) && scope in r.scopes
    ensures r.scopes[scope].expiry != {}
  {
  }

  lemma SoundQueues(limits: Limits, r: Rep)
    requires Sound(limits, r)
    ensures QueuesMatch(r.flows, r.scopes)
  {
  }

  lemma SoundFlow(limits: Limits, r: Rep, key: FlowKey)
    requires Sound(limits, r) && key in r.flows
    ensures FlowValid(limits, r.flows[key]) && |r.flows[key].order| == |r.flows[key].dir.segments|
    ensures r.flows[key].bytes <= r.bufferedBytes <= limits.maxTotalBytes
    ensures |r.flows[key].dir.segments| <= r.bufferedSegments <= limits.maxTotalSegments
  {
    var view := ViewFlows(r.flows);
    MapSum.SumWithout(view, T.HeldBytes, key);
    MapSum.SumWithout(view, T.HeldSegments, key);
    OrderIndexes(r.flows[key].dir.segments);
  }

  lemma SoundTotals(limits: Limits, r: Rep)
    requires Sound(limits, r)
    ensures r.bufferedBytes == T.TotalBytes(ViewOf(r)) <= limits.maxTotalBytes
    ensures r.bufferedSegments == T.TotalSegments(ViewOf(r)) <= limits.maxTotalSegments
  {
  }

  lemma SameDir(r: Rep, key: FlowKey)
    requires key in r.flows
    ensures ViewOf(r) == WithDir(ViewOf(r), key, r.flows[key].dir)
  {
  }

  function Unscheduled(r: Rep, key: FlowKey): Rep
    requires key in r.flows && (r.flows[key].scheduled ==> key.Scope() in r.scopes)
  {
    var f := r.flows[key];
    if !f.scheduled then r
    else r.(flows := r.flows[key := f.(scheduled := false)],
            scopes := WithoutEntry(r.scopes, key.Scope(), (f.queued, key)))
  }

  function Erased(r: Rep, key: FlowKey): Rep
    requires key in r.flows && (r.flows[key].scheduled ==> key.Scope() in r.scopes)
  {
    var f := r.flows[key];
    var u := Unscheduled(r, key);
    u.(flows := u.flows - {key}, bufferedBytes := u.bufferedBytes - f.bytes,
       bufferedSegments := u.bufferedSegments - |f.dir.segments|)
  }

  lemma ErasedQueues(r: Rep, key: FlowKey)
    requires QueuesMatch(r.flows, r.scopes) && key in r.flows
    ensures r.flows[key].scheduled ==> key.Scope() in r.scopes
    ensures Erased(r, key).flows == r.flows - {key}
    ensures QueuesMatch(r.flows - {key}, Erased(r, key).scopes)
  {
    var u := Unscheduled(r, key);
    if r.flows[key].scheduled {
      Unqueue(r.flows, r.scopes, key);
    }
    Erase(u.flows, u.scopes, key);
    assert u.flows - {key} == r.flows - {key};
  }

  lemma ErasedSound(limits: Limits, r: Rep, key: FlowKey)
    requires Sound(limits, r) && key in r.flows
    ensures r.flows[key].scheduled ==> key.Scope() in r.scopes
    ensures Sound(limits, Erased(r, key))
  {
    ErasedQueues(r, key);
    TotalsErase(r.flows, key);
    assert FlowValid(limits, r.flows[key]);
  }

  /** Taking out a direction that was not scheduled settles no clock. */
  lemma NothingToSettle(flows: map<FlowKey, Flow>, scopes: map<ScopeKey, Scope>, key: FlowKey)
    requires QueuesMatch(flows, scopes) && key in flows && !flows[key].scheduled
    ensures T.Settled(ViewFlows(flows) - {key}, ViewClocks(scopes), key.Scope()) == ViewClocks(scopes)
  {
    var scope := key.Scope();
    if scope in scopes {
      var entry :| entry in scopes[scope].expiry;
      assert EntryMatches(flows, scope, entry);
      assert T.ScheduledIn(ViewFlows(flows) - {key}, entry.1, scope);
    } else {
      assert ViewClocks(scopes) - {scope} == ViewClocks(scopes);
    }
  }

  lemma ErasedView(r: Rep, key: FlowKey)
    requires QueuesMatch(r.flows, r.scopes) && key in r.flows
    ensures r.flows[key].scheduled ==> key.Scope() in r.scopes
    ensures var flows := ViewFlows(r.flows) - {key};
      ViewOf(Erased(r, key)) == T.Table(flows, T.Settled(flows, ViewClocks(r.scopes), key.Scope()), r.nextId)
  {
    var u := Unscheduled(r, key);
    assert ViewFlows(u.flows - {key}) == ViewFlows(r.flows) - {key};
    if r.flows[key].scheduled {
      Unqueue(r.flows, r.scopes, key);
      UnqueueSettles(r.flows, r.scopes, key);
      Erase(u.flows, u.scopes, key);
      assert ViewFlows(u.flows) - {key} == ViewFlows(r.flows) - {key};
    } else {
      NothingToSettle(r.flows, r.scopes, key);
    }
  }

  lemma ErasedRemoves(limits: Limits, r: Rep, key: FlowKey, cause: Finalizer)
    requires QueuesMatch(r.flows, r.scopes) && key in r.flows
    ensures r.flows[key].scheduled ==> key.Scope() in r.scopes
    ensures T.Removed(limits, ViewOf(r), key, cause) == (ViewOf(Erased(r, key)), Finished(limits, key, r.flows[key].dir, cause))
  {
    ErasedView(r, key);
  }

  // ---------------------------------------------------------------- rescheduling

  /** What Schedule leaves behind: a queued direction keeps its entry and only records the later deadline. */
  function Rescheduled(limits: Limits, r: Rep, key: FlowKey, stamp: PacketStamp): Rep
    requires key in r.flows && (r.flows[key].scheduled ==> key.Scope() in r.scopes)
  {
    var f := r.flows[key].(untimed := r.flows[key].untimed || !stamp.hasTimestamp);
    var noted := r.(flows := r.flows[key := f]);
    var deadline := stamp.timestamp + limits.tcpIdle;
    if f.untimed || limits.tcpIdle <= 0 || deadline > I64_MAX then Unscheduled(noted, key)
    else if f.scheduled && f.deadline >= deadline then noted
    else
      var scope := if key.Scope() in r.scopes then r.scopes[key.Scope()] else Scope(stamp.timestamp, {});
      var clock := Max(scope.watermark, stamp.timestamp);
      if f.scheduled then
        r.(flows := r.flows[key := f.(deadline := deadline)],
           scopes := r.scopes[key.Scope() := scope.(watermark := clock)])
      else
        r.(flows := r.flows[key := f.(deadline := deadline, queued := deadline, scheduled := true)],
           scopes := r.scopes[key.Scope() := Scope(clock, scope.expiry + {(deadline, key)})])
  }

  lemma RescheduledQueues(limits: Limits, r: Rep, key: FlowKey, stamp: PacketStamp)
    requires QueuesMatch(r.flows, r.scopes) && key in r.flows
    ensures r.flows[key].scheduled ==> key.Scope() in r.scopes
    ensures QueuesMatch(Rescheduled(limits, r, key, stamp).flows, Rescheduled(limits, r, key, stamp).scopes)
  {
    var f := r.flows[key].(untimed := r.flows[key].untimed || !stamp.hasTimestamp);
    var noted := r.flows[key := f];
    Amend(r.flows, r.scopes, key, f);
    var deadline := stamp.timestamp + limits.tcpIdle;
    if f.untimed || limits.tcpIdle <= 0 || deadline > I64_MAX {
      if f.scheduled {
        Unqueue(noted, r.scopes, key);
      }
    } else if !(f.scheduled && f.deadline >= deadline) {
      var clock := Max(if key.Scope() in r.scopes then r.scopes[key.Scope()].watermark else stamp.timestamp, stamp.timestamp);
      if f.scheduled {
        Amend(r.flows, r.scopes, key, f.(deadline := deadline));
        Tick(r.flows[key := f.(deadline := deadline)], r.scopes, key.Scope(), clock);
      } else {
        Enqueue(noted, r.scopes, key, deadline, clock);
        var after := f.(deadline := deadline, queued := deadline, scheduled := true);
        assert noted[key := after] == r.flows[key := after];
      }
    }
  }

  lemma RescheduledKeepsRest(limits: Limits, r: Rep, key: FlowKey, stamp: PacketStamp)
    requires key in r.flows && (r.flows[key].scheduled ==> key.Scope() in r.scopes)
    ensures var after := Rescheduled(limits, r, key, stamp);
      && after.flows == r.flows[key := after.flows[key]]
      && after.flows[key].dir == r.flows[key].dir && after.flows[key].bytes == r.flows[key].bytes
      && after.flows[key].order == r.flows[key].order
      && after.bufferedBytes == r.bufferedBytes && after.bufferedSegments == r.bufferedSegments
      && after.nextId == r.nextId
  {
  }

  lemma RescheduledSound(limits: Limits, r: Rep, key: FlowKey, stamp: PacketStamp)
    requires Sound(limits, r) && key in r.flows
    ensures r.flows[key].scheduled ==> key.Scope() in r.scopes
    ensures Sound(limits, Rescheduled(limits, r, key, stamp))
  {
    RescheduledQueues(limits, r, key, stamp);
    RescheduledKeepsRest(limits, r, key, stamp);
    TotalsUpdate(r.flows, key, Rescheduled(limits, r, key, stamp).flows[key]);
  }

  lemma RescheduledView(limits: Limits, r: Rep, key: FlowKey, stamp: PacketStamp)
    requires QueuesMatch(r.flows, r.scopes) && key in r.flows
    ensures r.flows[key].scheduled ==> key.Scope() in r.scopes
    ensures ViewOf(Rescheduled(limits, r, key, stamp)) == T.Scheduled(limits, ViewOf(r), key, stamp)
  {
    var f := r.flows[key].(untimed := r.flows[key].untimed || !stamp.hasTimestamp);
    if f.untimed || limits.tcpIdle <= 0 || stamp.timestamp + limits.tcpIdle > I64_MAX {
      if f.scheduled {
        NotedSettles(r, key, f);
      }
      ViewUpdate(r.flows, key, f.(scheduled := false));
    } else {
      RescheduledKeepsRest(limits, r, key, stamp);
      ViewUpdate(r.flows, key, Rescheduled(limits, r, key, stamp).flows[key]);
    }
  }

  lemma NotedSettles(r: Rep, key: FlowKey, f: Flow)
    requires QueuesMatch(r.flows, r.scopes) && key in r.flows
    requires f == r.flows[key].(untimed := f.untimed) && f.scheduled
    ensures var u := Unscheduled(r.(flows := r.flows[key := f]), key);
      && u.flows == r.flows[key := f.(scheduled := false)]
      && ViewClocks(u.scopes) == T.Settled(ViewFlows(u.flows), ViewClocks(r.scopes), key.Scope())
  {
    Amend(r.flows, r.scopes, key, f);
    UnqueueSettles(r.flows[key := f], r.scopes, key);
  }

  /** Directions whose entry sits before their deadline. */
  ghost function Stale(flows: map<FlowKey, Flow>): set<FlowKey> {
    set key | key in flows && flows[key].scheduled && flows[key].queued < flows[key].deadline
  }

  lemma RequeuedSound(limits: Limits, r: Rep, key: FlowKey)
    requires Sound(limits, r) && key in r.flows && r.flows[key].scheduled
    ensures key.Scope() in r.scopes
    ensures var f, scope := r.flows[key], r.scopes[key.Scope()];
      var after := r.(flows := r.flows[key := f.(queued := f.deadline)],
                      scopes := r.scopes[key.Scope() := scope.(expiry := scope.expiry - {(f.queued, key)} + {(f.deadline, key)})]);
      Sound(limits, after) && ViewOf(after) == ViewOf(r)
  {
    Requeue(r.flows, r.scopes, key);
    assert FlowValid(limits, r.flows[key]);
  }

  lemma TickedSound(limits: Limits, r: Rep, scope: ScopeKey, watermark: int)
    requires Sound(limits, r) && scope in r.scopes
    ensures var after := r.(scopes := r.scopes[scope := r.scopes[scope].(watermark := watermark)]);
      Sound(limits, after) && ViewOf(after) == ViewOf(r).(clocks := ViewOf(r).clocks[scope := watermark])
  {
    Tick(r.flows, r.scopes, scope, watermark);
  }

  /** When the queue's first entry is up to date, expiry takes that direction next. */
  lemma ExpireFirst(limits: Limits, r: Rep, scope: ScopeKey, entry: Entry, watermark: int)
    requires Sound(limits, r) && scope in r.scopes
    requires Order.IsFirst(entry, r.scopes[scope].expiry, EntryRank)
    requires entry.0 < watermark && entry.1 in r.flows && r.flows[entry.1].deadline == entry.0
    ensures var removal := T.Removed(limits, ViewOf(r), entry.1, ByIdleTimeout);
      var rest := T.ExpireAll(limits, removal.0, scope, watermark);
      T.ExpireAll(limits, ViewOf(r), scope, watermark) == (rest.0, removal.1 + rest.1)
  {
    hide Finished;
    SoundQueues(limits, r);
    FirstEntryIsFirstIdle(r.flows, r.scopes, scope, entry, watermark);
  }

  lemma NoneIdle(limits: Limits, r: Rep, scope: ScopeKey, watermark: int)
    requires Sound(limits, r)
    requires scope in r.scopes ==>
      exists entry :: Order.IsFirst(entry, r.scopes[scope].expiry, EntryRank) && entry.0 >= watermark
    ensures T.ExpireAll(limits, ViewOf(r), scope, watermark) == (ViewOf(r), [])
  {
    SoundQueues(limits, r);
    NothingIdle(r.flows, r.scopes, scope, watermark);
  }

  // ---------------------------------------------------------------- replacing what a direction carries

  function Replaced(r: Rep, key: FlowKey, f: Flow): Rep
    requires key in r.flows
  {
    r.(flows := r.flows[key := f],
       bufferedBytes := r.bufferedBytes - r.flows[key].bytes + f.bytes,
       bufferedSegments := r.bufferedSegments - |r.flows[key].dir.segments| + |f.dir.segments|)
  }

  predicate SameQueueing(f: Flow, g: Flow) {
    f.scheduled == g.scheduled && f.queued == g.queued && f.deadline == g.deadline && f.untimed == g.untimed
  }

  lemma ReplacedSound(limits: Limits, r: Rep, key: FlowKey, f: Flow)
    requires Sound(limits, r) && key in r.flows && FlowValid(limits, f) && SameQueueing(f, r.flows[key])
    requires Replaced(r, key, f).bufferedBytes <= limits.maxTotalBytes
    requires Replaced(r, key, f).bufferedSegments <= limits.maxTotalSegments
    ensures Sound(limits, Replaced(r, key, f))
  {
    Amend(r.flows, r.scopes, key, f);
    TotalsUpdate(r.flows, key, f);
    assert FlowValid(limits, r.flows[key]);
  }

  ghost function WithDir(t: T.Table, key: FlowKey, dir: Direction): T.Table
    requires key in t.flows
  {
    t.(flows := t.flows[key := t.flows[key].(dir := dir)])
  }

  lemma ReplacedView(r: Rep, key: FlowKey, f: Flow)
    requires key in r.flows && SameQueueing(f, r.flows[key])
    ensures ViewOf(Replaced(r, key, f)) == WithDir(ViewOf(r), key, f.dir)
  {
    ViewUpdate(r.flows, key, f);
  }

  lemma AdmittedSound(limits: Limits, r: Rep, packet: T.Packet)
    requires Sound(limits, r) && packet.key !in r.flows
    ensures |ViewFlows(r.flows)| == |r.flows|
    ensures r.nextId < U64_MAX ==> Sound(limits, r.(nextId := r.nextId + 1))
    ensures r.nextId < U64_MAX && |r.flows| < limits.maxFlows ==>
      var flow := Flow(T.Fresh(r.nextId, packet.stamp), 0, [], false, false, 0, 0);
      var after := r.(flows := r.flows[packet.key := flow], nextId := r.nextId + 1);
      Sound(limits, after) && ViewFlows(after.flows) == ViewFlows(r.flows)[packet.key := ViewFlow(flow)]
  {
    assert ViewFlows(r.flows).Keys == r.flows.Keys;
    var flow := Flow(T.Fresh(r.nextId, packet.stamp), 0, [], false, false, 0, 0);
    Amend(r.flows, r.scopes, packet.key, flow);
    TotalsUpdate(r.flows, packet.key, flow);
    ViewUpdate(r.flows, packet.key, flow);
  }

  /** Once nothing is tracked, no queue and no count is left over. */
  lemma NothingLeft(limits: Limits, r: Rep)
    requires Sound(limits, r) && ViewOf(r).flows == map[]
    ensures r.scopes == map[] && r.bufferedBytes == 0 && r.bufferedSegments == 0
  {
    ViewKeys(r);
    if r.scopes != map[] {
      var scope :| scope in r.scopes;
      SoundNonempty(limits, r, scope);
      var entry :| entry in r.scopes[scope].expiry;
      SoundEntry(limits, r, scope, entry);
    }
  }

  lemma ViewAt(r: Rep, key: FlowKey)
    ensures key in ViewOf(r).flows <==> key in r.flows
    ensures key in r.flows ==> ViewOf(r).flows[key].dir == r.flows[key].dir
  {
  }

  lemma ViewKeys(r: Rep)
    ensures ViewOf(r).flows.Keys == r.flows.Keys
    ensures ViewOf(r).flows == map[] <==> r.flows == map[]
  {
    assert ViewOf(r).flows.Keys == r.flows.Keys;
    if ViewOf(r).flows == map[] {
      assert r.flows.Keys == {};
    }
  }

  // ---------------------------------------------------------------- the reassembler

  class Reassembler {
    const limits: Limits
    var flows: map<FlowKey, Flow>
    var scopes: map<ScopeKey, Scope>
    var bufferedBytes: int
    var bufferedSegments: int
    var nextId: U64

    function Fields(): Rep
      reads this
    {
      Rep(flows, scopes, bufferedBytes, bufferedSegments, nextId)
    }

    ghost function View(): T.Table
      reads this
    {
      ViewOf(Fields())
    }

    ghost predicate Valid()
      reads this
    {
      Sound(limits, Fields())
    }

    constructor (limits: Limits)
      ensures Valid() && View() == T.EMPTY && this.limits == limits
    {
      this.limits := limits;
      flows, scopes, bufferedBytes, bufferedSegments, nextId := map[], map[], 0, 0, 1;
    }

    method Unschedule(key: FlowKey)
      requires QueuedRight(Fields(), key)
      modifies this
      ensures Fields() == Unscheduled(old(Fields()), key)
    {
      var flow := flows[key];
      if !flow.scheduled {
        return;
      }
      flows := flows[key := flow.(scheduled := false)];
      assert key.Scope() in scopes;
      assert (flow.queued, key) in scopes[key.Scope()].expiry;
      scopes := WithoutEntry(scopes, key.Scope(), (flow.queued, key));
    }

    /** Finishes a direction and forgets it. */
    method Remove(key: FlowKey, cause: Finalizer) returns (output: seq<Stream>)
      requires Valid()
      modifies this
      ensures Valid()
      ensures View() == T.Removed(limits, old(View()), key, cause).0
      ensures output == T.Removed(limits, old(View()), key, cause).1
      ensures flows.Keys == old(flows.Keys) - {key}
    {
      hide Sound, Finished;
      if key !in flows {
        return [];
      }
      SoundQueued(limits, Fields(), key);
      SoundQueues(limits, Fields());
      hide QueuesMatch;
      ErasedSound(limits, Fields(), key);
      ErasedRemoves(limits, Fields(), key, cause);
      output := Finish(limits, key, flows[key].dir, cause);
      Forget(key);
    }

    /** The bookkeeping of Remove. */
    method Forget(key: FlowKey)
      requires QueuedRight(Fields(), key)
      modifies this
      ensures Fields() == Erased(old(Fields()), key)
    {
      var flow := flows[key];
      Unschedule(key);
      bufferedBytes := bufferedBytes - flow.bytes;
      bufferedSegments := bufferedSegments - |flow.dir.segments|;
      flows := flows - {key};
    }

    // ------------------------------------------------------------ idle expiry

    method Schedule(key: FlowKey, stamp: PacketStamp)
      requires Valid() && key in flows
      modifies this
      ensures Valid()
      ensures View() == T.Scheduled(limits, old(View()), key, stamp)
      ensures flows.Keys == old(flows.Keys) && flows[key].dir == old(flows[key]).dir
    {
      hide Sound, QueuesMatch, T.Scheduled;
      SoundQueued(limits, Fields(), key);
      SoundQueues(limits, Fields());
      RescheduledSound(limits, Fields(), key, stamp);
      RescheduledView(limits, Fields(), key, stamp);
      RescheduledKeepsRest(limits, Fields(), key, stamp);
      Reschedule(key, stamp);
    }

    /** The body of Schedule. */
    method Reschedule(key: FlowKey, stamp: PacketStamp)
      requires QueuedRight(Fields(), key)
      modifies this
      ensures Fields() == Rescheduled(limits, old(Fields()), key, stamp)
    {
      if !stamp.hasTimestamp {
        flows := flows[key := flows[key].(untimed := true)];
      }
      var timeout := limits.tcpIdle;
      if flows[key].untimed || timeout <= 0 || stamp.timestamp > I64_MAX - timeout {
        Unschedule(key);
        return;
      }
      var deadline := stamp.timestamp + timeout;
      if flows[key].scheduled && flows[key].deadline >= deadline {
        return;
      }
      var id := key.Scope();
      var inserted := id !in scopes;
      if inserted {
        scopes := scopes[id := Scope(stamp.timestamp, {})];
      }
      scopes := scopes[id := scopes[id].(watermark := Max(scopes[id].watermark, stamp.timestamp))];
      flows := flows[key := flows[key].(deadline := deadline)];
      if flows[key].scheduled {
        assert !inserted;
        assert flows[key].queued < deadline;
        return;
      }
      scopes := scopes[id := scopes[id].(expiry := scopes[id].expiry + {(deadline, key)})];
      flows := flows[key := flows[key].(queued := deadline, scheduled := true)];
    }

    /** Moves a stale entry to its direction's real deadline. */
    method MoveEntry(key: FlowKey)
      requires Valid() && key in flows && flows[key].scheduled && flows[key].queued < flows[key].deadline
      modifies this
      ensures Valid() && View() == old(View())
      ensures flows.Keys == old(flows.Keys)
      ensures Stale(flows) == Stale(old(flows)) - {key} && key in Stale(old(flows))
    {
      hide Sound, ViewOf;
      RequeuedSound(limits, Fields(), key);
      var id, flow := key.Scope(), flows[key];
      scopes := scopes[id := scopes[id].(expiry := scopes[id].expiry - {(flow.queued, key)} + {(flow.deadline, key)})];
      flows := flows[key := flow.(queued := flow.deadline)];
    }

    /** Finalizes every direction on this packet's interface that has been quiet for too long. */
    method Expire(key: FlowKey, stamp: PacketStamp) returns (output: seq<Stream>)
      requires Valid()
      modifies this
      ensures Valid()
      ensures View() == T.Expired(limits, old(View()), key, stamp).0
      ensures output == T.Expired(limits, old(View()), key, stamp).1
    {
      hide Sound, T.ExpireAll;
      output := [];
      var id := key.Scope();
      if !stamp.hasTimestamp || id !in scopes {
        return;
      }
      var clock := scopes[id].watermark;
      var steppedBack := stamp.timestamp < clock && clock - stamp.timestamp > limits.tcpIdle;
      var watermark := if steppedBack then stamp.timestamp else Max(clock, stamp.timestamp);
      TickedSound(limits, Fields(), id, watermark);
      scopes := scopes[id := scopes[id].(watermark := watermark)];
      output := ExpireScope(id, watermark);
    }

    /** The loop of Expire. Each pass moves a stale entry or removes the first direction. */
    method ExpireScope(id: ScopeKey, watermark: int) returns (output: seq<Stream>)
      requires Valid()
      modifies this
      ensures Valid()
      ensures View() == T.ExpireAll(limits, old(View()), id, watermark).0
      ensures output == T.ExpireAll(limits, old(View()), id, watermark).1
    {
      hide Sound, QueuesMatch, ViewOf, T.ExpireAll, T.Removed;
      output := [];
      while id in scopes
        invariant Valid()
        invariant T.ExpireAll(limits, old(View()), id, watermark).0 == T.ExpireAll(limits, View(), id, watermark).0
        invariant T.ExpireAll(limits, old(View()), id, watermark).1 == output + T.ExpireAll(limits, View(), id, watermark).1
        decreases |flows.Keys|, |Stale(flows)|
      {
        SoundNonempty(limits, Fields(), id);
        FirstEntryExists(scopes[id].expiry);
        var entry :| entry in scopes[id].expiry && Order.IsFirst(entry, scopes[id].expiry, EntryRank);
        if entry.0 >= watermark {
          NoneIdle(limits, Fields(), id, watermark);
          return;
        }
        SoundEntry(limits, Fields(), id, entry);
        assert entry.1 in flows && flows[entry.1].scheduled;
        assert flows[entry.1].queued == entry.0;
        assert flows[entry.1].deadline >= flows[entry.1].queued;
        if flows[entry.1].deadline > entry.0 {
          MoveEntry(entry.1);
          continue;
        }
        ExpireFirst(limits, Fields(), id, entry, watermark);
        var removed := Remove(entry.1, ByIdleTimeout);
        output := output + removed;
      }
      NoneIdle(limits, Fields(), id, watermark);
    }

    // ------------------------------------------------------------ what one packet adds

    /** Puts a direction whose totals were just adjusted back in the table. */
    method Store(key: FlowKey, flow: Flow)
      requires Valid() && key in flows
      requires FlowValid(limits, flow) && SameQueueing(flow, flows[key])
      requires Replaced(Fields(), key, flow).bufferedBytes <= limits.maxTotalBytes
      requires Replaced(Fields(), key, flow).bufferedSegments <= limits.maxTotalSegments
      modifies this
      ensures Valid() && View() == WithDir(old(View()), key, flow.dir)
      ensures Fields() == Replaced(old(Fields()), key, flow)
    {
      hide Sound, ViewOf;
      ReplacedSound(limits, Fields(), key, flow);
      ReplacedView(Fields(), key, flow);
      bufferedBytes := bufferedBytes - flows[key].bytes + flow.bytes;
      bufferedSegments := bufferedSegments - |flows[key].dir.segments| + |flow.dir.segments|;
      flows := flows[key := flow];
    }

    method Fail(key: FlowKey, failure: Failure)
      requires Valid() && key in flows
      modifies this
      ensures Valid() && View() == WithDir(old(View()), key, T.Fail(old(flows[key]).dir, failure))
      ensures key in flows && flows.Keys == old(flows.Keys) && flows[key].dir == T.Fail(old(flows[key]).dir, failure)
    {
      hide Sound, ViewOf;
      SoundFlow(limits, Fields(), key);
      assert bufferedBytes >= flows[key].bytes;
      assert bufferedSegments >= |flows[key].dir.segments|;
      Store(key, flows[key].(dir := T.Fail(flows[key].dir, failure), bytes := 0, order := []));
    }

    /** Keeps a data segment for Finish, unless it repeats one or does not fit. */
    method Buffer(key: FlowKey, segment: Segment)
      requires Valid() && key in flows
      modifies this
      ensures Valid()
      ensures View() == WithDir(old(View()), key, T.Buffered(limits, old(flows[key]).dir, T.TotalBytes(old(View())),
                                                             T.TotalSegments(old(View())), segment))
      ensures flows.Keys == old(flows.Keys)
    {
      hide Sound, ViewOf;
      SoundFlow(limits, Fields(), key);
      SoundTotals(limits, Fields());
      var flow, captured := flows[key], |segment.bytes|;
      if captured > limits.maxStreamBytes || captured > limits.maxTotalBytes {
        Fail(key, Failure(Limit, SegmentExceedsLimits));
        return;
      }
      assert |flow.order| == |flow.dir.segments|;
      var repeated := FindRepeat(flow.dir.segments, flow.order, segment);
      if repeated {
        SameDir(Fields(), key);
        return;
      }
      assert flow.bytes <= limits.maxStreamBytes;
      assert bufferedBytes <= limits.maxTotalBytes;
      if |flow.dir.segments| >= limits.maxSegments || bufferedSegments >= limits.maxTotalSegments
         || captured > limits.maxStreamBytes - flow.bytes || captured > limits.maxTotalBytes - bufferedBytes
      {
        Fail(key, Failure(Limit, BufferLimitReached));
        return;
      }
      var order := InsertPlace(flow.dir.segments, flow.order, segment);
      var segments := flow.dir.segments + [segment];
      assert segments[..|segments| - 1] == flow.dir.segments;
      Store(key, flow.(dir := flow.dir.(segments := segments), bytes := flow.bytes + captured, order := order));
    }

    /** Changes anything about a direction but its segments. */
    method Note(key: FlowKey, dir: Direction)
      requires Valid() && key in flows && dir.segments == flows[key].dir.segments
      modifies this
      ensures Valid() && View() == WithDir(old(View()), key, dir)
      ensures key in flows && flows.Keys == old(flows.Keys) && flows[key].dir == dir
      ensures T.TotalBytes(View()) == T.TotalBytes(old(View())) && T.TotalSegments(View()) == T.TotalSegments(old(View()))
    {
      hide Sound, ViewOf;
      SoundFlow(limits, Fields(), key);
      SoundTotals(limits, Fields());
      Store(key, flows[key].(dir := dir));
      SoundTotals(limits, Fields());
    }

    method NoteFin(packet: T.Packet)
      requires Valid() && packet.key in flows
      modifies this
      ensures Valid() && View() == WithDir(old(View()), packet.key, T.WithFin(old(flows[packet.key]).dir, packet))
      ensures packet.key in flows && flows.Keys == old(flows.Keys)
      ensures flows[packet.key].dir == T.WithFin(old(flows[packet.key]).dir, packet)
      ensures flows[packet.key].dir.failure.None? ==>
        T.TotalBytes(View()) == T.TotalBytes(old(View())) && T.TotalSegments(View()) == T.TotalSegments(old(View()))
    {
      hide Sound, ViewOf, T.TotalBytes, T.TotalSegments;
      SameDir(Fields(), packet.key);
      if packet.flags.fin {
        var key, fin := packet.key, T.FinSequence(packet);
        if flows[key].dir.hasFin && flows[key].dir.finSequence != fin {
          Fail(key, Failure(Conflict, FinPositionsDisagree));
        }
        Note(key, flows[key].dir.(hasFin := true, finSequence := fin));
      }
    }

    method NoteData(packet: T.Packet)
      requires Valid() && packet.key in flows
      modifies this
      ensures Valid()
      ensures View() == WithDir(old(View()), packet.key,
                                T.WithData(limits, old(flows[packet.key]).dir, T.TotalBytes(old(View())),
                                           T.TotalSegments(old(View())), packet))
      ensures flows.Keys == old(flows.Keys)
    {
      hide Sound, ViewOf, T.TotalBytes, T.TotalSegments, T.Buffered;
      var key := packet.key;
      SameDir(Fields(), key);
      if flows[key].dir.failure.None? && |packet.payload| > packet.declared {
        Fail(key, Failure(Conflict, CapturedExceedsDeclared));
      }
      if flows[key].dir.failure.None? && packet.declared > 0 {
        Buffer(key, Captured(T.DataSequence(packet), packet.declared, packet.stamp, packet.payload));
      }
    }

    method Absorb(packet: T.Packet)
      requires Valid() && packet.key in flows
      modifies this
      ensures Valid()
      ensures View() == WithDir(old(View()), packet.key,
                                T.Absorbed(limits, old(flows[packet.key]).dir, T.TotalBytes(old(View())),
                                           T.TotalSegments(old(View())), packet))
      ensures flows.Keys == old(flows.Keys)
    {
      hide Sound, ViewOf, T.TotalBytes, T.TotalSegments, T.Buffered, T.WithFin;
      var key := packet.key;
      Note(key, T.WithSyn(flows[key].dir.(last := packet.stamp), packet));
      NoteFin(packet);
      NoteData(packet);
    }

    // ------------------------------------------------------------ packets

    /** Starts tracking a direction, or reports that the table is full, or that no stream id is left. */
    method Track(packet: T.Packet) returns (outcome: T.Outcome)
      requires Valid() && packet.key !in flows
      modifies this
      ensures Valid()
      ensures View() == T.Admitted(limits, old(View()), packet).0
      ensures outcome == T.Admitted(limits, old(View()), packet).1
    {
      hide Sound;
      AdmittedSound(limits, Fields(), packet);
      if nextId == U64_MAX {
        return T.IdsExhausted;
      }
      if |flows| >= limits.maxFlows {
        outcome := T.Added([T.Overflow(packet, nextId)]);
        nextId := nextId + 1;
        return;
      }
      flows := flows[packet.key := Flow(T.Fresh(nextId, packet.stamp), 0, [], false, false, 0, 0)];
      nextId := nextId + 1;
      return T.Added([]);
    }

    method RemoveBoth(key: FlowKey, cause: Finalizer, other: bool) returns (output: seq<Stream>)
      requires Valid()
      modifies this
      ensures Valid()
      ensures var own := T.Removed(limits, old(View()), key, cause);
        var both := if other then T.Removed(limits, own.0, key.Reverse(), cause) else (own.0, []);
        View() == both.0 && output == own.1 + both.1
    {
      hide Sound, ViewOf, T.Removed;
      output := Remove(key, cause);
      if other {
        var more := Remove(key.Reverse(), cause);
        output := output + more;
      }
    }

    /** A tracked direction takes in its packet. */
    method Enter(packet: T.Packet)
      requires Valid() && packet.key in flows
      modifies this
      ensures Valid()
      ensures View() == T.Entered(limits, old(View()), packet)
    {
      hide Sound, ViewOf, T.TotalBytes, T.TotalSegments, T.Absorbed, T.Scheduled;
      ViewAt(Fields(), packet.key);
      Schedule(packet.key, packet.stamp);
      ViewAt(Fields(), packet.key);
      Absorb(packet);
    }

    method Prepare(packet: T.Packet) returns (output: seq<Stream>)
      requires Valid()
      modifies this
      ensures Valid()
      ensures View() == T.Ready(limits, old(View()), packet).0
      ensures output == T.Ready(limits, old(View()), packet).1
    {
      hide Sound, ViewOf, T.Expired, T.Removed;
      var key := packet.key;
      output := Expire(key, packet.stamp);
      ViewAt(Fields(), key);
      var newSyn := packet.flags.syn &&
                    (key !in flows || (flows[key].dir.hasSyn && flows[key].dir.synSequence != packet.sequence));
      if newSyn {
        var retired := RemoveBoth(key, ByTupleReuse, !packet.flags.ack);
        output := output + retired;
      }
    }

    method Add(packet: T.Packet) returns (outcome: T.Outcome)
      requires Valid()
      modifies this
      ensures Valid()
      ensures View() == T.Add(limits, old(View()), packet).0
      ensures outcome == T.Add(limits, old(View()), packet).1
    {
      hide Sound, ViewOf, T.Ready, T.Removed, T.Entered;
      var key := packet.key;
      var output := Prepare(packet);
      ViewAt(Fields(), key);
      if key !in flows {
        if !packet.flags.syn && packet.declared == 0 && packet.payload == [] {
          if packet.flags.rst {
            var reset := Remove(key.Reverse(), ByReset);
            output := output + reset;
          }
          return T.Added(output);
        }
        outcome := Track(packet);
        if outcome.IdsExhausted? {
          return;
        }
        ViewAt(Fields(), key);
        if key !in flows {
          return T.Added(output + outcome.streams);
        }
      }
      Enter(packet);
      if packet.flags.rst {
        var reset := RemoveBoth(key, ByReset, true);
        output := output + reset;
      }
      outcome := T.Added(output);
    }

    method FinishNext() returns (result: seq<Stream>)
      requires Valid()
      modifies this
      ensures Valid()
      ensures View() == T.FinishNext(limits, old(View())).0
      ensures result == T.FinishNext(limits, old(View())).1
    {
      hide Sound, T.Removed;
      result := [];
      ViewKeys(Fields());
      if flows != map[] {
        FirstKeyExists(flows.Keys);
        var key :| key in flows.Keys && Order.IsFirst(key, flows.Keys, KeyRank);
        Order.FirstUnique(key, FirstKey(flows.Keys), flows.Keys, KeyRank);
        result := Remove(key, ByEof);
      }
    }
  }
}
