/** What whole runs of the TLS assembler report: every hello that stands on its own exactly once, and a hello found by
    searching only beside a peer that confirms it. */
module TlsReports {
  import opened Basics
  import opened TcpTypes
  import opened TlsMerge
  import opened TlsTable
  import opened TlsRuns
  import A = TlsAssembler
  import MapSum

  /** A run so far: the table, the merges reported, whether it stopped on the assertion, and whether the queue of
      finds was ever compacted. */
  datatype Progress = Progress(table: Table, pairs: seq<Pair>, stuck: bool, compacted: bool)

  ghost predicate AddCompacts(maxPending: nat, t: Table, stream: Arrival) {
    var d := stream.direction;
    Arrives(t, stream) && ReachesHold(t, d) && Compacts(maxPending, Released(t, d.key), d)
  }

  ghost function Run(maxPending: nat, streams: seq<Arrival>): Progress {
    if streams == [] then Progress(EMPTY, [], false, false)
    else
      var n := |streams| - 1;
      var before := Run(maxPending, streams[..n]);
      if before.stuck then before
      else
        var next := Add(maxPending, before.table, streams[n]);
        Progress(next.0, before.pairs + if next.1.Reported? then next.1.pairs else [],
                 next.1.AssertionFailed?, before.compacted || AddCompacts(maxPending, before.table, streams[n]))
  }

  lemma {:induction false} RunKeeps(maxPending: nat, streams: seq<Arrival>)
    ensures Proper(Run(maxPending, streams).table) && Bounded(maxPending, Run(maxPending, streams).table)
  {
    hide Add, Proper, Bounded, AddCompacts;
    if streams == [] {
      EmptyKeeps(maxPending);
    } else {
      var n := |streams| - 1;
      RunKeeps(maxPending, streams[..n]);
      AddKeeps(maxPending, Run(maxPending, streams[..n]).table, streams[n]);
    }
  }

  lemma EmptyKeeps(maxPending: nat)
    ensures Proper(EMPTY) && Bounded(maxPending, EMPTY) && AllQueued(EMPTY)
  {
    A.NoneCounted();
  }

  // ---------------------------------------------------------------- when eviction fails

  lemma ReleasedQueued(t: Table, key: FlowKey)
    requires AllQueued(t)
    ensures AllQueued(Released(t, key))
  {
    forall k | Unconfirmed(Released(t, key).pending, k)
      ensures k in t.order
    {
      assert Unconfirmed(t.pending, k);
    }
  }

  lemma RefuteQueued(maxPending: nat, t: Table, stream: Arrival)
    requires AllQueued(t)
    ensures AllQueued(Refute(maxPending, t, stream))
  {
    hide Remember, Overlaps;
    RefuteSideQueued(maxPending, t, stream, true);
    RefuteSideQueued(maxPending, RefuteSide(maxPending, t, stream, true), stream, false);
  }

  lemma RefuteSideQueued(maxPending: nat, t: Table, stream: Arrival, clientSide: bool)
    requires AllQueued(t)
    ensures AllQueued(RefuteSide(maxPending, t, stream, clientSide))
  {
    hide Remember, Overlaps;
    ReleasedQueued(t, if clientSide then stream.key.Reverse() else stream.key);
  }

  /** A call from a table whose finds are all queued never fails, and leaves them all queued unless it compacts. */
  lemma AddQueued(maxPending: nat, t: Table, stream: Arrival)
    requires Proper(t) && Bounded(maxPending, t) && AllQueued(t)
    ensures Add(maxPending, t, stream).1.Reported?
    ensures !AddCompacts(maxPending, t, stream) ==> AllQueued(Add(maxPending, t, stream).0)
  {
    hide Proper, Bounded, AllQueued, Refute, Refuted, Hold, Alone, Unpaired, Compacts;
    var d := stream.direction;
    if Arrives(t, stream) {
      ReleasedQueued(t, d.key);
      ReleasedKeeps(maxPending, t, d.key);
      var u := Released(t, d.key);
      if ReachesHold(t, d) {
        PlacedReaches(maxPending, t, d);
        QueuedNeverStuck(maxPending, u, d);
        if Hold(maxPending, u, d).Held? {
          HoldQueued(maxPending, u, d);
        }
      }
    } else if d.hellos == [] {
      RefuteQueued(maxPending, t, stream);
    }
  }

  /** Until the queue is first compacted, every held find is queued and no call stops on the assertion. */
  lemma {:induction false} NeverStuckUncompacted(maxPending: nat, streams: seq<Arrival>)
    requires !Run(maxPending, streams).compacted
    ensures !Run(maxPending, streams).stuck && AllQueued(Run(maxPending, streams).table)
  {
    hide Add, Proper, Bounded, AddCompacts, AllQueued;
    if streams == [] {
      EmptyKeeps(maxPending);
    } else {
      var n := |streams| - 1;
      RunKeeps(maxPending, streams[..n]);
      StuckStays(maxPending, streams);
      NeverStuckUncompacted(maxPending, streams[..n]);
      AddQueued(maxPending, Run(maxPending, streams[..n]).table, streams[n]);
    }
  }

  lemma StuckStays(maxPending: nat, streams: seq<Arrival>)
    requires streams != [] && !Run(maxPending, streams).compacted
    ensures !Run(maxPending, streams[..|streams| - 1]).compacted
  {
    hide Add, AddCompacts;
  }

  /** A call stops on the assertion exactly when a direction that stands on its own reaches a full table holding
      finds of which none is in the queue. */
  lemma StuckExactly(maxPending: nat, t: Table, stream: Arrival)
    requires Proper(t) && Bounded(maxPending, t)
    ensures Add(maxPending, t, stream).1 == AssertionFailed <==>
      var d := stream.direction;
      var u := Released(t, d.key);
      && d.hellos != [] && !d.needsConfirmation && ReachesHold(t, d)
      && maxPending > 0 && |u.pending| >= maxPending && UnconfirmedCount(u.pending) > 0
      && forall i | 0 <= i < |u.order| :: !Unconfirmed(u.pending, u.order[i])
  {
    hide Proper, Bounded, UnconfirmedCount, Refute, Refuted, Hold, Alone, Unpaired;
    var d := stream.direction;
    ReleasedKeeps(maxPending, t, d.key);
    HoldStuck(maxPending, Released(t, d.key), d);
    if Arrives(t, stream) && ReachesHold(t, d) {
      PlacedReaches(maxPending, t, d);
    }
  }

  // ---------------------------------------------------------------- runs that do fail

  /** A hello found by searching, on one side of a tuple. */
  predicate IsFind(stream: Arrival, key: FlowKey, client: bool) {
    var d := stream.direction;
    d.key == key && d.client == client && d.needsConfirmation && d.hellos != []
  }

  predicate StandsAlone(stream: Arrival) {
    !stream.direction.needsConfirmation && stream.direction.hellos != []
  }

  /** One find more on a tuple than the queue has places for, then as many directions that stand on their own, on
      tuples of their own, as the table has places for. */
  predicate Losing(maxPending: nat, a: FlowKey, client: bool, streams: seq<Arrival>) {
    && |streams| == 3 * maxPending + 1
    && (forall i | 0 <= i <= 2 * maxPending :: IsFind(streams[i], a, client))
    && (forall i | 2 * maxPending < i < |streams| :: StandsAlone(streams[i]) && streams[i].direction.key != a)
    && (forall i, j | 2 * maxPending < i < j < |streams| :: streams[i].direction.key != streams[j].direction.key)
  }

  /** Streams as the reassembler emits them: ids of their own, and here one after the other in the capture. */
  predicate OneByOne(streams: seq<Arrival>) {
    && (forall i | 0 <= i < |streams| ::
          && 0 < streams[i].first.number <= streams[i].last.number && streams[i].direction.first == streams[i].first
          && streams[i].direction.last == streams[i].last && streams[i].direction.key == streams[i].key)
    && (forall i, j | 0 <= i < j < |streams| ::
          && streams[i].direction.streamId != streams[j].direction.streamId
          && streams[i].last.number < streams[j].first.number)
  }

  /** For any room: compaction forgets the key of the find it makes way for, so the find is held but not queued; once
      other directions fill the table, the next one stops on the assertion, and none did before. */
  lemma CompactionLosesTheKey(maxPending: nat, a: FlowKey, client: bool, streams: seq<Arrival>)
    requires maxPending > 0 && Losing(maxPending, a, client, streams)
    ensures Run(maxPending, streams).stuck && !Run(maxPending, streams[..3 * maxPending]).stuck
  {
    hide Run, Add, Unconfirmed, UnconfirmedCount;
    var n := 3 * maxPending;
    StandingHeld(maxPending, a, client, streams, maxPending - 1);
    var before := Run(maxPending, streams[..n]).table;
    var d := streams[n].direction;
    RunKeeps(maxPending, streams[..n]);
    assert before.pending - {d.key} == before.pending;
    CountsOne(before.pending, a);
    StuckExactly(maxPending, before, streams[n]);
    RunStep(maxPending, streams[..n], streams[n]);
    assert streams == streams[..n] + [streams[n]];
  }

  lemma CountsOne(pending: map<FlowKey, TlsDirection>, a: FlowKey)
    requires Unconfirmed(pending, a)
    ensures UnconfirmedCount(pending) > 0
  {
    hide UnconfirmedCount;
    A.CountWithout(pending, a);
  }

  lemma RunStep(maxPending: nat, streams: seq<Arrival>, stream: Arrival)
    ensures !Run(maxPending, streams).stuck ==>
      && Run(maxPending, streams + [stream]).table == Add(maxPending, Run(maxPending, streams).table, stream).0
      && Run(maxPending, streams + [stream]).stuck == Add(maxPending, Run(maxPending, streams).table, stream).1.AssertionFailed?
  {
    hide Add, AddCompacts;
    assert (streams + [stream])[..|streams|] == streams;
  }

  lemma {:induction false} CompactedToNone(order: seq<FlowKey>)
    ensures Compacted(map[], order) == []
  {
    if order != [] {
      CompactedToNone(order[..|order| - 1]);
    }
  }

  /** The next find on a tuple takes the place of the last, and the queue gets one longer or is emptied. */
  lemma FindAgain(maxPending: nat, a: FlowKey, client: bool, t: Table, stream: Arrival)
    requires maxPending > 0 && IsFind(stream, a, client) && t.refuters == []
    requires t.pending - {a} == map[] && (a in t.pending ==> t.pending[a].needsConfirmation && t.pending[a].client == client)
    ensures Add(maxPending, t, stream)
         == (Table(map[a := stream.direction], if |t.order| < 2 * maxPending then t.order + [a] else [], []), Reported([]))
  {
    hide Compacted, Confirms;
    var d := stream.direction;
    A.NoneCounted();
    CompactedToNone(t.order + [a]);
    PlacedReaches(maxPending, t, d);
    assert Released(t, a).pending == map[];
  }

  /** After the first finds: the last of them is held, and queued until the queue overflows. */
  lemma {:induction false} FindsHeld(maxPending: nat, a: FlowKey, client: bool, streams: seq<Arrival>, k: nat)
    requires maxPending > 0 && Losing(maxPending, a, client, streams) && k <= 2 * maxPending
    ensures var run := Run(maxPending, streams[..k + 1]);
      !run.stuck && run.table.pending == map[a := streams[k].direction] && run.table.refuters == []
      && |run.table.order| == if k < 2 * maxPending then k + 1 else 0
  {
    hide Run, Add, StandsAlone;
    assert streams[..k + 1] == streams[..k] + [streams[k]];
    if k == 0 {
      RunStarts(maxPending);
      assert streams[..0] == [];
    } else {
      FindsHeld(maxPending, a, client, streams, k - 1);
      assert IsFind(streams[k - 1], a, client);
    }
    var before := Run(maxPending, streams[..k]).table;
    assert before.pending - {a} == map[];
    FindAgain(maxPending, a, client, before, streams[k]);
    RunStep(maxPending, streams[..k], streams[k]);
  }

  lemma RunStarts(maxPending: nat)
    ensures Run(maxPending, []) == Progress(EMPTY, [], false, false)
  {
  }

  lemma StandingStep(maxPending: nat, t: Table, stream: Arrival)
    requires StandsAlone(stream) && stream.direction.key !in t.pending && |t.pending| < maxPending
    ensures Add(maxPending, t, stream) == (t.(pending := t.pending[stream.direction.key := stream.direction]), Reported([]))
    ensures |Add(maxPending, t, stream).0.pending| == |t.pending| + 1
  {
    hide Evicted, Queued, UnconfirmedCount;
    A.CountWith(t.pending, stream.direction);
  }

  /** Other directions then fill the table around a find that no queued key names. */
  lemma {:induction false} StandingHeld(maxPending: nat, a: FlowKey, client: bool, streams: seq<Arrival>, k: nat)
    requires maxPending > 0 && Losing(maxPending, a, client, streams) && k < maxPending
    ensures var run := Run(maxPending, streams[..2 * maxPending + 1 + k]);
      && !run.stuck && run.table.order == [] && Unconfirmed(run.table.pending, a) && |run.table.pending| == k + 1
      && forall key | key in run.table.pending && key != a ::
           exists i | 2 * maxPending < i < 2 * maxPending + 1 + k :: streams[i].direction.key == key
  {
    hide Run, Add;
    var n := 2 * maxPending + k;
    if k == 0 {
      FindsHeld(maxPending, a, client, streams, n);
      assert IsFind(streams[n], a, client);
    } else {
      hide Unconfirmed;
      StandingHeld(maxPending, a, client, streams, k - 1);
      var before := Run(maxPending, streams[..n]).table;
      assert StandsAlone(streams[n]);
      StandingStep(maxPending, before, streams[n]);
      RunStep(maxPending, streams[..n], streams[n]);
      assert streams[..n + 1] == streams[..n] + [streams[n]];
      OthersKept(before.pending, streams[n].direction, a);
    }
  }

  lemma OthersKept(pending: map<FlowKey, TlsDirection>, d: TlsDirection, a: FlowKey)
    requires Unconfirmed(pending, a) && d.key != a
    ensures Unconfirmed(pending[d.key := d], a)
  {
  }

  function PortKey(port: U16): FlowKey {
    FlowKey(0, 0, 4, NO_ADDRESS, NO_ADDRESS, port, 443, [])
  }

  /** Client streams from one port each, the first ones all from port 0. */
  function LosingStream(maxPending: nat, i: nat): Arrival
    requires i <= 3 * maxPending && maxPending < 0x1_0000
  {
    var find := i <= 2 * maxPending;
    var key := PortKey(if find then 0 else i - 2 * maxPending);
    var first, last := PacketStamp(2 * i + 1, false, 0), PacketStamp(2 * i + 2, false, 0);
    Arrival(key, first, last,
            TlsDirection(key, i, true, first, last, UNDECIDED, find, [Hello(UNDECIDED, None, [], first, last, 0)]), false)
  }

  /** There are such streams, with ids of their own and one after the other in the capture, for every room up to the
      number of ports, the default of 512 included. */
  lemma LosingStreams(maxPending: nat)
    requires 0 < maxPending < 0x1_0000
    ensures exists a, client, streams ::
      Losing(maxPending, a, client, streams) && OneByOne(streams) && Run(maxPending, streams).stuck
  {
    hide Run;
    var streams := seq(3 * maxPending + 1, i requires 0 <= i <= 3 * maxPending => LosingStream(maxPending, i));
    assert Losing(maxPending, PortKey(0), true, streams);
    CompactionLosesTheKey(maxPending, PortKey(0), true, streams);
  }

  // ---------------------------------------------------------------- every hello that stands on its own, once

  function PairHolds(pair: Pair, m: Mention): nat {
    Holds(pair.client, m) + SideHolds(pair.server, m)
  }

  function PairsHold(pairs: seq<Pair>, m: Mention): nat {
    if pairs == [] then 0 else PairsHold(pairs[..|pairs| - 1], m) + PairHolds(pairs[|pairs| - 1], m)
  }

  lemma {:induction false} PairsHoldJoin(a: seq<Pair>, b: seq<Pair>, m: Mention)
    ensures PairsHold(a + b, m) == PairsHold(a, m) + PairsHold(b, m)
  {
    hide PairHolds;
    if b == [] {
      assert a + b == a;
    } else {
      var n := |b| - 1;
      PairsHoldJoin(a, b[..n], m);
      assert (a + b)[..|a + b| - 1] == a + b[..n];
    }
  }

  ghost function Tally(m: Mention): TlsDirection -> nat {
    d => Holds(d, m)
  }

  /** How many held directions hold a hello. */
  ghost function Waits(pending: map<FlowKey, TlsDirection>, m: Mention): nat {
    MapSum.Sum(pending, Tally(m))
  }

  lemma WaitsWithout(pending: map<FlowKey, TlsDirection>, key: FlowKey, m: Mention)
    ensures Waits(pending, m) == Waits(pending - {key}, m) + if key in pending then Holds(pending[key], m) else 0
  {
    hide Holds;
    if key in pending {
      MapSum.SumWithout(pending, Tally(m), key);
    } else {
      assert pending - {key} == pending;
    }
  }

  lemma WaitsWith(pending: map<FlowKey, TlsDirection>, d: TlsDirection, m: Mention)
    requires d.key !in pending
    ensures Waits(pending[d.key := d], m) == Waits(pending, m) + Holds(d, m)
  {
    hide Holds;
    MapSum.SumUpdate(pending, Tally(m), d.key, d);
    MapSum.SumAbsent(pending, Tally(m), d.key);
  }

  /** A hello that stands on its own is neither lost nor repeated; one found by searching may be lost. */
  predicate Kept(after: nat, before: nat, m: Mention) {
    after <= before && (!m.searched ==> after == before)
  }

  lemma SearchedHoldsNone(d: TlsDirection, m: Mention)
    requires d.needsConfirmation && !m.searched
    ensures Holds(d, m) == 0
  {
  }

  lemma AloneHolds(d: TlsDirection, m: Mention)
    ensures Kept(PairsHold(Alone(d), m), Holds(d, m), m)
  {
    if !d.needsConfirmation {
      assert Alone(d)[..0] == [];
      assert PairsHold(Alone(d), m) == PairHolds(Alone(d)[0], m);
    }
  }

  lemma {:induction false} EvictedWaits(t: Table, m: Mention)
    ensures Kept(Waits(Evicted(t).pending, m), Waits(t.pending, m), m)
    decreases |t.order|
  {
    hide Waits;
    if t.order != [] {
      if Unconfirmed(t.pending, t.order[0]) {
        WaitsWithout(t.pending, t.order[0], m);
        if !m.searched {
          SearchedHoldsNone(t.pending[t.order[0]], m);
        }
      } else {
        EvictedWaits(t.(order := t.order[1..]), m);
      }
    }
  }

  lemma HoldWaits(maxPending: nat, t: Table, d: TlsDirection, m: Mention)
    requires d.key !in t.pending && Bounded(maxPending, t) && Proper(t)
    requires Hold(maxPending, t, d).Held?
    ensures Kept(Waits(Hold(maxPending, t, d).table.pending, m), Waits(t.pending, m) + Holds(d, m), m)
  {
    hide Waits, UnconfirmedCount, Evicted, Compacted, Holds, Bounded, Proper;
    EvictedWaits(t, m);
    EvictedKeeps(maxPending, t);
    var freed := if |t.pending| >= maxPending then Evicted(t) else t;
    WaitsWith(freed.pending, d, m);
  }

  function PairsOf(outcome: Outcome): seq<Pair> {
    if outcome.Reported? then outcome.pairs else []
  }

  ghost predicate Conserves(t: Table, next: (Table, Outcome), d: TlsDirection, m: Mention) {
    && PairsHold(PairsOf(next.1), m) + Waits(next.0.pending, m) <= Waits(t.pending, m) + Holds(d, m)
    && (next.1.Reported? ==>
          Kept(PairsHold(next.1.pairs, m) + Waits(next.0.pending, m), Waits(t.pending, m) + Holds(d, m), m))
  }

  lemma WaitingConserves(maxPending: nat, t: Table, d: TlsDirection, before: seq<Pair>, m: Mention)
    requires d.key !in t.pending && Bounded(maxPending, t) && Proper(t)
    ensures var next := Waiting(maxPending, t, d, before);
      var held := PairsHold(before, m) + Waits(t.pending, m) + Holds(d, m);
      && PairsHold(PairsOf(next.1), m) + Waits(next.0.pending, m) <= held
      && (next.1.Reported? ==> Kept(PairsHold(next.1.pairs, m) + Waits(next.0.pending, m), held, m))
  {
    hide Hold, Waits, Holds, Bounded, Proper, Alone;
    if Hold(maxPending, t, d).Held? {
      HoldWaits(maxPending, t, d, m);
    }
    AloneHolds(d, m);
    PairsHoldJoin(before, Alone(d), m);
  }

  lemma TogetherHolds(a: TlsDirection, b: TlsDirection, m: Mention)
    ensures PairsHold([Together(a, b)], m) == Holds(a, m) + Holds(b, m)
  {
    hide Holds;
    assert [Together(a, b)][..0] == [];
    assert PairsHold([Together(a, b)], m) == PairHolds(Together(a, b), m);
  }

  lemma PlacedConserves(maxPending: nat, t: Table, d: TlsDirection, m: Mention)
    requires Bounded(maxPending, t) && Proper(t)
    ensures Conserves(t, Placed(maxPending, t, d), d, m)
  {
    hide Waits, Holds, Bounded, Proper, Alone, Waiting, Confirms;
    WaitsWithout(t.pending, d.key, m);
    ReleasedKeeps(maxPending, t, d.key);
    if d.needsConfirmation && !m.searched {
      SearchedHoldsNone(d, m);
    }
    if d.key in t.pending {
      var held := t.pending[d.key];
      AloneHolds(held, m);
      TogetherHolds(d, held, m);
      if held.needsConfirmation && !m.searched {
        SearchedHoldsNone(held, m);
      }
    }
    if ReachesHold(t, d) {
      PlacedReaches(maxPending, t, d);
      WaitingConserves(maxPending, Released(t, d.key), d, BeforeHold(t, d), m);
    }
  }

  lemma RefuteSideWaits(maxPending: nat, t: Table, stream: Arrival, clientSide: bool, m: Mention)
    ensures Kept(Waits(RefuteSide(maxPending, t, stream, clientSide).pending, m), Waits(t.pending, m), m)
  {
    hide Waits, Holds, Remember, Overlaps;
    var key := if clientSide then stream.key.Reverse() else stream.key;
    WaitsWithout(t.pending, key, m);
    if Unconfirmed(t.pending, key) && !m.searched {
      SearchedHoldsNone(t.pending[key], m);
    }
  }

  lemma NoHellos(d: TlsDirection, m: Mention)
    requires d.hellos == []
    ensures Holds(d, m) == 0
  {
  }

  /** One call moves hellos from the stream and the table to the merges: each that stands on its own, and no hello
      more often than it came. */
  lemma AddConserves(maxPending: nat, t: Table, stream: Arrival, m: Mention)
    requires Bounded(maxPending, t) && Proper(t)
    ensures Conserves(t, Add(maxPending, t, stream), stream.direction, m)
  {
    hide Waits, Holds, Bounded, Proper, Placed, RefuteSide, Refuted;
    var d := stream.direction;
    if Arrives(t, stream) {
      PlacedConserves(maxPending, t, d, m);
    } else if d.hellos == [] {
      NoHellos(d, m);
      RefuteSideWaits(maxPending, t, stream, true, m);
      RefuteSideWaits(maxPending, RefuteSide(maxPending, t, stream, true), stream, false, m);
    } else if !m.searched {
      SearchedHoldsNone(d, m);
    }
  }

  /** How many streams hold a hello. */
  function Arrived(streams: seq<Arrival>, m: Mention): nat {
    if streams == [] then 0
    else Arrived(streams[..|streams| - 1], m) + Holds(streams[|streams| - 1].direction, m)
  }

  lemma {:induction false} RunConserves(maxPending: nat, streams: seq<Arrival>, m: Mention)
    ensures var run := Run(maxPending, streams);
      && PairsHold(run.pairs, m) + Waits(run.table.pending, m) <= Arrived(streams, m)
      && (!m.searched && !run.stuck ==> PairsHold(run.pairs, m) + Waits(run.table.pending, m) == Arrived(streams, m))
  {
    hide Add, Holds, Proper, Bounded, AddCompacts, PairHolds;
    if streams == [] {
      assert Waits(map[], m) == 0;
    } else {
      hide Waits;
      var n := |streams| - 1;
      var before := Run(maxPending, streams[..n]);
      RunConserves(maxPending, streams[..n], m);
      RunKeeps(maxPending, streams[..n]);
      var next := Add(maxPending, before.table, streams[n]);
      AddConserves(maxPending, before.table, streams[n], m);
      PairsHoldJoin(before.pairs, PairsOf(next.1), m);
    }
  }

  lemma {:induction false} RemainingHolds(pending: map<FlowKey, TlsDirection>, m: Mention)
    ensures Kept(PairsHold(Remaining(pending), m), Waits(pending, m), m)
    decreases |pending|
  {
    hide Holds, Alone, PairHolds;
    if pending != map[] {
      hide Waits;
      var key := FirstKey(pending.Keys);
      WaitsWithout(pending, key, m);
      AloneHolds(pending[key], m);
      RemainingHolds(pending - {key}, m);
      PairsHoldJoin(Alone(pending[key]), Remaining(pending - {key}), m);
    }
  }

  /** Everything a run and Finish report. */
  ghost function Reports(maxPending: nat, streams: seq<Arrival>): seq<Pair> {
    Run(maxPending, streams).pairs + Finish(Run(maxPending, streams).table).1
  }

  // ---------------------------------------------------------------- merges are of two sides of one connection

  /** A merge has its client and server the right way round and, when both are there, on one tuple; and a side found
      by searching has a peer that confirms it. */
  predicate Sound(pair: Pair) {
    && SidesRight(pair)
    && (pair.server.Some? && pair.client.hellos != [] ==> pair.client.key == pair.server.value.key)
    && (pair.client.needsConfirmation ==> pair.server.Some? && Confirms(pair.server.value, pair.client))
    && (pair.server.Some? && pair.server.value.needsConfirmation ==> Confirms(pair.client, pair.server.value))
  }

  predicate AllSound(pairs: seq<Pair>) {
    forall i | 0 <= i < |pairs| :: Sound(pairs[i])
  }

  lemma AloneSound(d: TlsDirection)
    ensures AllSound(Alone(d))
  {
  }

  lemma AddSound(maxPending: nat, t: Table, stream: Arrival)
    requires Proper(t)
    ensures Add(maxPending, t, stream).1.Reported? ==> AllSound(Add(maxPending, t, stream).1.pairs)
  {
    hide Hold, Alone, Refute, Refuted, Sound;
    var d := stream.direction;
    AloneSound(d);
    if d.key in t.pending {
      var held := t.pending[d.key];
      AloneSound(held);
      if !Unpaired(held, d) && held.client != d.client {
        TogetherSound(d, held);
      }
    }
  }

  lemma TogetherSound(a: TlsDirection, b: TlsDirection)
    requires a.client != b.client && a.key == b.key && !Unpaired(b, a)
    ensures Sound(Together(a, b))
  {
  }

  lemma {:induction false} RemainingSound(pending: map<FlowKey, TlsDirection>)
    ensures AllSound(Remaining(pending))
    decreases |pending|
  {
    hide Sound, Alone;
    if pending != map[] {
      var key := FirstKey(pending.Keys);
      AloneSound(pending[key]);
      RemainingSound(pending - {key});
    }
  }

  /** In every run, a hello found by searching is reported only in a merge with a direction of the other side of the
      same tuple that overlaps it in capture order, parsed, and was not itself found by searching. */
  lemma {:induction false} RunSound(maxPending: nat, streams: seq<Arrival>)
    ensures AllSound(Run(maxPending, streams).pairs) && AllSound(Reports(maxPending, streams))
  {
    hide Add, Sound, AddCompacts, Remaining, Proper, Bounded;
    if streams != [] {
      var n := |streams| - 1;
      RunSound(maxPending, streams[..n]);
      RunKeeps(maxPending, streams[..n]);
      AddSound(maxPending, Run(maxPending, streams[..n]).table, streams[n]);
    }
    RemainingSound(Run(maxPending, streams).table.pending);
  }

  // ---------------------------------------------------------------- both sides of a merge come from the run

  ghost predicate From(streams: seq<Arrival>, d: TlsDirection) {
    exists i | 0 <= i < |streams| :: streams[i].direction == d
  }

  ghost predicate PairFrom(streams: seq<Arrival>, pair: Pair) {
    && (pair.client != NO_DIRECTION ==> From(streams, pair.client))
    && (pair.server.Some? ==> From(streams, pair.server.value))
  }

  ghost predicate AllFrom(streams: seq<Arrival>, pairs: seq<Pair>) {
    forall i | 0 <= i < |pairs| :: PairFrom(streams, pairs[i])
  }

  ghost predicate HeldFrom(streams: seq<Arrival>, pending: map<FlowKey, TlsDirection>) {
    forall key | key in pending :: From(streams, pending[key])
  }

  lemma FromMore(streams: seq<Arrival>, stream: Arrival, pending: map<FlowKey, TlsDirection>, pairs: seq<Pair>)
    requires HeldFrom(streams, pending) && AllFrom(streams, pairs)
    ensures HeldFrom(streams + [stream], pending) && AllFrom(streams + [stream], pairs)
    ensures From(streams + [stream], stream.direction)
  {
    assert (streams + [stream])[|streams|] == stream;
    forall d | From(streams, d)
      ensures From(streams + [stream], d)
    {
      var i :| 0 <= i < |streams| && streams[i].direction == d;
      assert (streams + [stream])[i] == streams[i];
    }
  }

  lemma {:induction false} EvictedFrom(streams: seq<Arrival>, t: Table)
    requires HeldFrom(streams, t.pending)
    ensures HeldFrom(streams, Evicted(t).pending)
    decreases |t.order|
  {
    hide From;
    if t.order != [] && !Unconfirmed(t.pending, t.order[0]) {
      EvictedFrom(streams, t.(order := t.order[1..]));
    }
  }

  lemma WaitingFrom(maxPending: nat, streams: seq<Arrival>, t: Table, d: TlsDirection, before: seq<Pair>)
    requires HeldFrom(streams, t.pending) && From(streams, d) && AllFrom(streams, before)
    ensures HeldFrom(streams, Waiting(maxPending, t, d, before).0.pending)
    ensures AllFrom(streams, PairsOf(Waiting(maxPending, t, d, before).1))
  {
    hide From, Evicted, Compacted, UnconfirmedCount;
    EvictedFrom(streams, t);
  }

  lemma AddFrom(maxPending: nat, streams: seq<Arrival>, t: Table, stream: Arrival)
    requires HeldFrom(streams, t.pending) && From(streams, stream.direction)
    ensures HeldFrom(streams, Add(maxPending, t, stream).0.pending)
    ensures AllFrom(streams, PairsOf(Add(maxPending, t, stream).1))
  {
    hide From, Waiting, Remember, Overlaps, Confirms, Refuted;
    var d := stream.direction;
    if Arrives(t, stream) && ReachesHold(t, d) {
      PlacedReaches(maxPending, t, d);
      WaitingFrom(maxPending, streams, Released(t, d.key), d, BeforeHold(t, d));
    }
  }

  lemma {:induction false} RemainingFrom(streams: seq<Arrival>, pending: map<FlowKey, TlsDirection>)
    requires HeldFrom(streams, pending)
    ensures AllFrom(streams, Remaining(pending))
    decreases |pending|
  {
    hide From;
    if pending != map[] {
      RemainingFrom(streams, pending - {FirstKey(pending.Keys)});
    }
  }

  /** In every run, both sides of every merge are directions of streams of the run. */
  lemma {:induction false} RunFrom(maxPending: nat, streams: seq<Arrival>)
    ensures HeldFrom(streams, Run(maxPending, streams).table.pending)
    ensures AllFrom(streams, Run(maxPending, streams).pairs) && AllFrom(streams, Reports(maxPending, streams))
  {
    hide Add, AddCompacts, Remaining, From, PairFrom;
    if streams != [] {
      var n := |streams| - 1;
      var before := Run(maxPending, streams[..n]);
      RunFrom(maxPending, streams[..n]);
      FromMore(streams[..n], streams[n], before.table.pending, before.pairs);
      assert streams == streams[..n] + [streams[n]];
      AddFrom(maxPending, streams, before.table, streams[n]);
    }
    RemainingFrom(streams, Run(maxPending, streams).table.pending);
  }

  lemma {:induction false} RowsCarry(pairs: seq<Pair>, m: Mention)
    requires AllSound(pairs)
    ensures Carried(A.AllRows(pairs), m) == PairsHold(pairs, m)
  {
    hide RowsOf, Sound, PairHolds;
    if pairs != [] {
      var n := |pairs| - 1;
      RowsCarry(pairs[..n], m);
      CarriedJoin(A.AllRows(pairs[..n]), RowsOf(pairs[n]), m);
      PairCarries(pairs[n], m);
    }
  }

  lemma PairCarries(pair: Pair, m: Mention)
    requires Sound(pair)
    ensures Carried(RowsOf(pair), m) == PairHolds(pair, m)
  {
    hide RowsOf, Holds, SideHolds, Confirms;
    MergeCarriesAll(pair, m);
  }

  /** In every run that does not stop on the assertion, each hello of a direction that needs no confirmation is on as
      many rows as streams hold it, counting the rows of Finish. */
  lemma EveryHelloReported(maxPending: nat, streams: seq<Arrival>, m: Mention)
    requires !m.searched && !Run(maxPending, streams).stuck
    ensures Carried(A.AllRows(Reports(maxPending, streams)), m) == Arrived(streams, m)
  {
    hide Run, Sound, PairHolds, Waits, Remaining, Holds;
    RunConserves(maxPending, streams, m);
    var run := Run(maxPending, streams);
    RemainingHolds(run.table.pending, m);
    PairsHoldJoin(run.pairs, Remaining(run.table.pending), m);
    RunSound(maxPending, streams);
    RowsCarry(Reports(maxPending, streams), m);
  }

  /** In every run, no hello, found by searching or not, is on more rows than streams hold it. */
  lemma NoHelloRepeated(maxPending: nat, streams: seq<Arrival>, m: Mention)
    ensures Carried(A.AllRows(Reports(maxPending, streams)), m) <= Arrived(streams, m)
  {
    hide Run, Sound, PairHolds, Waits, Remaining, Holds;
    RunConserves(maxPending, streams, m);
    var run := Run(maxPending, streams);
    RemainingHolds(run.table.pending, m);
    PairsHoldJoin(run.pairs, Remaining(run.table.pending), m);
    RunSound(maxPending, streams);
    RowsCarry(Reports(maxPending, streams), m);
  }

  lemma {:induction false} ArrivedOnce(streams: seq<Arrival>, i: nat, m: Mention)
    requires i < |streams| && Holds(streams[i].direction, m) == 1
    requires forall j, k | 0 <= j < k < |streams| :: streams[j].direction.streamId != streams[k].direction.streamId
    ensures Arrived(streams, m) == 1
  {
    var n := |streams| - 1;
    assert streams == streams[..n] + [streams[n]];
    if i < n {
      ArrivedOnce(streams[..n], i, m);
      assert streams[i].direction.streamId == m.streamId;
    } else {
      ArrivedNone(streams[..n], m);
    }
  }

  lemma {:induction false} ArrivedNone(streams: seq<Arrival>, m: Mention)
    requires forall j | 0 <= j < |streams| :: streams[j].direction.streamId != m.streamId
    ensures Arrived(streams, m) == 0
  {
    if streams != [] {
      ArrivedNone(streams[..|streams| - 1], m);
    }
  }

  /** With the reassembler's distinct stream ids: exactly one row carries each hello of each direction that needs no
      confirmation. */
  lemma EachHelloOnce(maxPending: nat, streams: seq<Arrival>, i: nat, number: nat)
    requires !Run(maxPending, streams).stuck
    requires forall j, k | 0 <= j < k < |streams| :: streams[j].direction.streamId != streams[k].direction.streamId
    requires i < |streams| && !streams[i].direction.needsConfirmation
    requires number < |streams[i].direction.hellos|
    ensures var d := streams[i].direction;
      Carried(A.AllRows(Reports(maxPending, streams)), Mention(d.client, d.streamId, number + 1, d.hellos[number], false)) == 1
  {
    hide Run, Reports, A.AllRows, Carried;
    var d := streams[i].direction;
    var m := Mention(d.client, d.streamId, number + 1, d.hellos[number], false);
    EveryHelloReported(maxPending, streams, m);
    ArrivedOnce(streams, i, m);
  }
}
