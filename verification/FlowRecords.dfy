/** Every row a pushed record yields, from its first Next on, and the same over whole runs. */
module FlowRecords {
  import opened Basics
  import opened FlowTypes
  import opened FlowRows
  import opened FlowTable
  import opened FlowRuns
  import opened FlowClocks
  import Order

  type Sessions = map<SessionKey, Block>

  // ---------------------------------------------------------------- the rows of a record

  /** The record opens another section. */
  predicate Changes(t: Table)
    requires t.pending.Some?
  {
    t.haveSection && t.section != t.pending.value.input.section
  }

  /** The record's interface has a clock, or there is room for one more. */
  predicate ScopeFits(limits: Limits, t: Table)
    requires t.pending.Some?
  {
    var id, clocks := t.pending.value.input.interfaceId, if Changes(t) then map[] else t.clocks;
    id in clocks || |clocks| < limits.maxScopes
  }

  /** The sessions that end with their section, in key order. */
  ghost function BoundaryOut(sessions: Sessions): seq<Outcome>
    decreases |sessions|
  {
    if sessions == map[] then []
    else
      var key := FirstKey(sessions.Keys);
      FewerSessions(sessions, key);
      [Emitted(sessions[key], SectionBoundary)] + BoundaryOut(sessions - {key})
  }

  /** The sessions idle at a clock, soonest deadline first. */
  ghost function IdleOut(limits: Limits, sessions: Sessions, id: U32, clock: Option<int>): seq<Outcome>
    decreases |sessions|
  {
    var idle := IdleOn(limits, sessions, id, clock);
    if idle == {} then []
    else
      IdleOpen(limits, sessions, id, clock);
      FewerSessions(sessions, FirstEntry(idle).1);
      [Emitted(sessions[FirstEntry(idle).1], IdleTimeout)] + IdleOut(limits, sessions - {FirstEntry(idle).1}, id, clock)
  }

  ghost predicate IsIdle(limits: Limits, id: U32, clock: Option<int>, key: SessionKey, block: Block) {
    var deadline := DeadlineOf(limits, block);
    key.interfaceId == id && deadline.Some? && clock.Some? && deadline.value < clock.value
  }

  /** The sessions that are not idle. */
  ghost function Spared(limits: Limits, sessions: Sessions, id: U32, clock: Option<int>): Sessions {
    map key | key in sessions && !IsIdle(limits, id, clock, key, sessions[key]) :: sessions[key]
  }

  /** The packet's own session, if counting it ends it. */
  function ResetOut(sessions: Sessions, x: Seen): seq<Outcome> {
    var key := KeyOf(x.input);
    var block := (if key in sessions then sessions[key] else []) + [x];
    if Fits(SummaryOf(block)) && Carries(block, RST) then [Emitted(block, Reset)] else []
  }

  /** What placing a packet hands out: at most one session to make way for it, then perhaps its own. */
  ghost function PlacingOut(limits: Limits, sessions: Sessions, x: Seen): seq<Outcome> {
    var key := KeyOf(x.input);
    if !Eligible(x.input) then []
    else if Reopens(sessions, x.input) then [Emitted(sessions[key], TupleReuse)] + ResetOut(sessions - {key}, x)
    else if key !in sessions && |sessions| >= limits.maxFlows then
      EvictableOpen(limits, sessions, x.input.interfaceId);
      var victim := Evictable(limits, sessions, x.input.interfaceId);
      [Emitted(sessions[victim], Limit)] + ResetOut(sessions - {victim}, x)
    else ResetOut(sessions, x)
  }

  /** All rows of a record: the sessions of a section it closes, then the idle ones, then what placing it hands out. */
  ghost function RecordOut(limits: Limits, t: Table): seq<Outcome>
    requires t.pending.Some?
  {
    var u, input := Readied(t), t.pending.value.input;
    var closed, sessions := if Changes(t) then BoundaryOut(t.sessions) else [], if Changes(t) then map[] else t.sessions;
    if !ScopeFits(limits, t) || input.interfaceId !in u.clocks || u.pending.None? then closed
    else
      var clock := u.clocks[input.interfaceId];
      closed + (IdleOut(limits, sessions, input.interfaceId, clock)
                + PlacingOut(limits, Spared(limits, sessions, input.interfaceId, clock), Seen(input, u.pending.value.late)))
  }

  // ---------------------------------------------------------------- the first Next of a record

  /** Readying a record, which its first Next does, changes nothing else about what it yields. */
  lemma ReadiedNext(limits: Limits, t: Table)
    requires t.pending.Some? && t.finishing.None? && !(Changes(t) && t.sessions != map[])
    ensures ScopeFits(limits, t) ==>
      && Ready(Readied(t)) && Readied(t).sessions == t.sessions
      && Readied(t).pending.value.input == t.pending.value.input
      && Next(limits, t) == Clocked(limits, Readied(t))
    ensures !ScopeFits(limits, t) ==> Next(limits, t).1 == Failed(ScopeCapacity)
  {
    hide Clocked;
  }

  lemma SameNext(limits: Limits, t: Table, u: Table)
    requires Next(limits, t) == Next(limits, u)
    ensures Drain(limits, t) == Drain(limits, u)
  {
    hide Next;
  }

  /** Draining a record is draining it readied. */
  lemma ReadiedDrain(limits: Limits, t: Table)
    requires t.pending.Some? && t.finishing.None? && !(Changes(t) && t.sessions != map[])
    ensures if ScopeFits(limits, t) then Ready(Readied(t)) && Drain(limits, t) == Drain(limits, Readied(t))
            else Drain(limits, t).rows == [] && Drain(limits, t).failed
  {
    hide Clocked, Next, Drain, Readied, ScopeFits;
    ReadiedNext(limits, t);
    if ScopeFits(limits, t) {
      ReadyNext(limits, Readied(t));
      SameNext(limits, t, Readied(t));
    } else {
      FailedDrain(limits, t);
    }
  }

  lemma FailedDrain(limits: Limits, t: Table)
    requires Next(limits, t).1.Failed?
    ensures Drain(limits, t).rows == [] && Drain(limits, t).failed
  {
    hide Next;
  }

  // ---------------------------------------------------------------- placing the packet

  lemma DrainedOnce(limits: Limits, u: Table)
    requires Next(limits, u).1.Emitted? && Next(limits, u).0.pending.None? && Next(limits, u).0.finishing.None?
    ensures Drain(limits, u).rows == [Next(limits, u).1]
  {
    hide Next;
    NothingPending(limits, Next(limits, u).0);
    DrainStep(limits, u);
  }

  lemma CountingOut(limits: Limits, u: Table)
    requires NoneIdle(limits, u) && Eligible(u.pending.value.input) && !Reopens(u.sessions, u.pending.value.input)
    requires KeyOf(u.pending.value.input) in u.sessions || |u.sessions| < limits.maxFlows
    ensures Drain(limits, u).rows == ResetOut(u.sessions, Seen(u.pending.value.input, u.pending.value.late))
  {
    hide Next, Drain, Eligible, Reopens, KeyOf, SummaryOf, Fits, Carries, IdleOn, Evictable;
    ReadyNext(limits, u);
    assert Clocked(limits, u) == Counted(u);
    if Counted(u).1.Emitted? {
      DrainedOnce(limits, u);
    } else {
      DrainStops(limits, u);
    }
  }

  /** A session that makes way leaves the packet to be counted, whoever it was. */
  lemma MakingWay(limits: Limits, u: Table, key: SessionKey, reason: Reason)
    requires NoneIdle(limits, u) && Eligible(u.pending.value.input) && |u.sessions| <= limits.maxFlows
    requires key in u.sessions && Next(limits, u) == Emit(u, key, reason)
    requires KeyOf(u.pending.value.input) !in u.sessions - {key}
    ensures Drain(limits, u).rows == [Emitted(u.sessions[key], reason)]
      + ResetOut(u.sessions - {key}, Seen(u.pending.value.input, u.pending.value.late))
  {
    hide Next, Drain, Eligible, KeyOf, IdleOn, ResetOut;
    var input, after := u.pending.value.input, u.(sessions := u.sessions - {key});
    IdleWithout(limits, u.sessions, input.interfaceId, u.clocks[input.interfaceId], key);
    FewerSessions(u.sessions, key);
    DrainStep(limits, u);
    CountingOut(limits, after);
  }

  lemma PlacingRows(limits: Limits, u: Table)
    requires NoneIdle(limits, u) && |u.sessions| <= limits.maxFlows
    ensures Drain(limits, u).rows == PlacingOut(limits, u.sessions, Seen(u.pending.value.input, u.pending.value.late))
  {
    hide Next, Drain, Eligible, Reopens, KeyOf, IdleOn, Evictable, ResetOut, Counted;
    var input := u.pending.value.input;
    ReadyNext(limits, u);
    if !Eligible(input) {
      DrainStops(limits, u);
    } else if Reopens(u.sessions, input) {
      ReopensOpen(u.sessions, input);
      MakingWay(limits, u, KeyOf(input), TupleReuse);
    } else if KeyOf(input) !in u.sessions && |u.sessions| >= limits.maxFlows {
      EvictableOpen(limits, u.sessions, input.interfaceId);
      MakingWay(limits, u, Evictable(limits, u.sessions, input.interfaceId), Limit);
    } else {
      CountingOut(limits, u);
    }
  }

  // ---------------------------------------------------------------- idle sessions first

  lemma IdleIs(limits: Limits, sessions: Sessions, id: U32, clock: Option<int>, entry: Entry)
    ensures entry in IdleOn(limits, sessions, id, clock) <==>
      && entry.1 in sessions && DeadlineOf(limits, sessions[entry.1]) == Some(entry.0)
      && IsIdle(limits, id, clock, entry.1, sessions[entry.1])
  {
    hide Deadlines, DeadlineOf;
    InDeadlines(limits, sessions, entry);
  }

  lemma SparedSame(limits: Limits, sessions: Sessions, id: U32, clock: Option<int>)
    requires IdleOn(limits, sessions, id, clock) == {}
    ensures Spared(limits, sessions, id, clock) == sessions
  {
    hide IdleOn, DeadlineOf;
    forall key | key in sessions
      ensures !IsIdle(limits, id, clock, key, sessions[key])
    {
      if DeadlineOf(limits, sessions[key]).Some? {
        IdleIs(limits, sessions, id, clock, (DeadlineOf(limits, sessions[key]).value, key));
      }
    }
  }

  lemma SparedWithout(limits: Limits, sessions: Sessions, id: U32, clock: Option<int>, key: SessionKey)
    requires key in sessions && IsIdle(limits, id, clock, key, sessions[key])
    ensures Spared(limits, sessions - {key}, id, clock) == Spared(limits, sessions, id, clock)
  {
    hide IsIdle;
  }

  lemma SparedFewer(limits: Limits, sessions: Sessions, id: U32, clock: Option<int>)
    ensures |Spared(limits, sessions, id, clock)| <= |sessions|
  {
    hide IsIdle;
    var spared := Spared(limits, sessions, id, clock);
    assert spared.Keys <= sessions.Keys;
    assert |sessions.Keys - spared.Keys| >= 0 && sessions.Keys == spared.Keys + (sessions.Keys - spared.Keys);
    assert |spared| == |spared.Keys| && |sessions| == |sessions.Keys|;
  }

  lemma {:induction false} ReadyRows(limits: Limits, u: Table)
    requires Ready(u) && |u.sessions| <= limits.maxFlows
    ensures var input := u.pending.value.input;
      var clock := u.clocks[input.interfaceId];
      Drain(limits, u).rows == IdleOut(limits, u.sessions, input.interfaceId, clock)
        + PlacingOut(limits, Spared(limits, u.sessions, input.interfaceId, clock), Seen(input, u.pending.value.late))
    decreases |u.sessions|
  {
    hide IdleOn, Next, Drain, Measure, PlacingOut, Spared, IsIdle;
    var input := u.pending.value.input;
    var clock := u.clocks[input.interfaceId];
    var idle := IdleOn(limits, u.sessions, input.interfaceId, clock);
    if idle == {} {
      assert NoneIdle(limits, u);
      PlacingRows(limits, u);
      SparedSame(limits, u.sessions, input.interfaceId, clock);
      assert [] + Drain(limits, u).rows == Drain(limits, u).rows;
    } else {
      IdleStep(limits, u);
      var first := FirstEntry(idle);
      FewerSessions(u.sessions, first.1);
      var after := u.(sessions := u.sessions - {first.1});
      ReadyRows(limits, after);
      DrainStep(limits, u);
      IdleIs(limits, u.sessions, input.interfaceId, clock, first);
      SparedWithout(limits, u.sessions, input.interfaceId, clock, first.1);
    }
  }

  // ---------------------------------------------------------------- a section that ends

  lemma {:induction false} BoundaryRows(limits: Limits, t: Table)
    requires t.pending.Some? && t.finishing.None? && Changes(t)
    ensures Drain(limits, t).rows == BoundaryOut(t.sessions) + Drain(limits, t.(sessions := map[])).rows
    decreases |t.sessions|
  {
    hide Next, Drain, Measure;
    if t.sessions == map[] {
      assert t.(sessions := map[]) == t;
      assert [] + Drain(limits, t).rows == Drain(limits, t).rows;
    } else {
      var key := FirstKey(t.sessions.Keys);
      FewerSessions(t.sessions, key);
      BoundaryStep(limits, t);
      var after := t.(sessions := t.sessions - {key});
      BoundaryRows(limits, after);
      DrainStep(limits, t);
      assert after.(sessions := map[]) == t.(sessions := map[]);
    }
  }

  lemma BoundaryStep(limits: Limits, t: Table)
    requires t.pending.Some? && t.finishing.None? && Changes(t) && t.sessions != map[]
    ensures Next(limits, t) == Emit(t, FirstKey(t.sessions.Keys), SectionBoundary)
  {
    hide InSection;
  }

  /** The rows of any pending record, whatever Next has already done for it, are exactly those of RecordOut. */
  lemma DrainRecord(limits: Limits, t: Table)
    requires t.pending.Some? && t.finishing.None? && |t.sessions| <= limits.maxFlows
    ensures Drain(limits, t).rows == RecordOut(limits, t)
  {
    hide Drain, IdleOut, PlacingOut, Spared, BoundaryOut, Readied;
    var u := if Changes(t) then t.(sessions := map[]) else t;
    ReadiedSame(t);
    ReadiedDrain(limits, u);
    if Changes(t) {
      BoundaryRows(limits, t);
    }
    if ScopeFits(limits, t) {
      ReadyRows(limits, Readied(u));
    }
  }

  lemma ReadiedSame(t: Table)
    requires t.pending.Some?
    ensures Readied(t).pending.Some?
    ensures Readied(t).sessions == t.sessions
    ensures Readied(t).pending.value.input == t.pending.value.input
    ensures Readied(t.(sessions := map[])).sessions == map[]
    ensures Readied(t.(sessions := map[])).clocks == Readied(t).clocks
    ensures Readied(t.(sessions := map[])).pending == Readied(t).pending
  {
  }

  // ---------------------------------------------------------------- the lists of rows, row by row

  lemma {:induction false} IdleOutIs(limits: Limits, sessions: Sessions, id: U32, clock: Option<int>)
    ensures var order, rows := IdleOrder(limits, sessions, id, clock), IdleOut(limits, sessions, id, clock);
      |rows| == |order|
      && forall i | 0 <= i < |order| :: order[i].1 in sessions && rows[i] == Emitted(sessions[order[i].1], IdleTimeout)
    decreases |sessions|
  {
    hide IdleOn;
    var idle := IdleOn(limits, sessions, id, clock);
    if idle != {} {
      IdleOpen(limits, sessions, id, clock);
      FewerSessions(sessions, FirstEntry(idle).1);
      IdleOutIs(limits, sessions - {FirstEntry(idle).1}, id, clock);
    }
  }

  /** Session keys in order. */
  ghost function KeyOrder(keys: set<SessionKey>): seq<SessionKey> {
    if keys == {} then [] else [FirstKey(keys)] + KeyOrder(keys - {FirstKey(keys)})
  }

  lemma {:induction false} KeyOrderExact(keys: set<SessionKey>)
    ensures forall key :: key in KeyOrder(keys) <==> key in keys
    ensures forall i, j | 0 <= i < j < |KeyOrder(keys)| :: Order.Less(KeyRank(KeyOrder(keys)[i]), KeyRank(KeyOrder(keys)[j]))
  {
    hide KeyRank;
    if keys != {} {
      KeyOrderExact(keys - {FirstKey(keys)});
    }
  }

  lemma {:induction false} BoundaryOutIs(sessions: Sessions)
    ensures var keys, rows := KeyOrder(sessions.Keys), BoundaryOut(sessions);
      |rows| == |keys|
      && forall i | 0 <= i < |keys| :: keys[i] in sessions && rows[i] == Emitted(sessions[keys[i]], SectionBoundary)
    decreases |sessions|
  {
    if sessions != map[] {
      var key := FirstKey(sessions.Keys);
      FewerSessions(sessions, key);
      assert (sessions - {key}).Keys == sessions.Keys - {key};
      BoundaryOutIs(sessions - {key});
    }
  }

  lemma ResetOutPlaces(sessions: Sessions, x: Seen)
    ensures Placements(ResetOut(sessions, x)) && |ResetOut(sessions, x)| <= 1
  {
    hide KeyOf, SummaryOf, Fits, Carries;
  }

  lemma PlacesFirst(row: Outcome, rest: seq<Outcome>)
    requires row.Emitted? && row.reason in {TupleReuse, Limit} && Placements(rest)
    ensures Placements([row] + rest)
  {
  }

  lemma PlacingOutPlaces(limits: Limits, sessions: Sessions, x: Seen)
    ensures Placements(PlacingOut(limits, sessions, x)) && |PlacingOut(limits, sessions, x)| <= 2
  {
    hide Eligible, Reopens, KeyOf, ResetOut, Evictable, Placements;
    var key := KeyOf(x.input);
    NoPlacements();
    if Reopens(sessions, x.input) {
      ReopensOpen(sessions, x.input);
      ResetOutPlaces(sessions - {key}, x);
      PlacesFirst(Emitted(sessions[key], TupleReuse), ResetOut(sessions - {key}, x));
    } else if key !in sessions && |sessions| >= limits.maxFlows {
      EvictableOpen(limits, sessions, x.input.interfaceId);
      var victim := Evictable(limits, sessions, x.input.interfaceId);
      ResetOutPlaces(sessions - {victim}, x);
      PlacesFirst(Emitted(sessions[victim], Limit), ResetOut(sessions - {victim}, x));
    } else {
      ResetOutPlaces(sessions, x);
    }
  }

  // ---------------------------------------------------------------- the table never outgrows its limit

  lemma NextBounded(limits: Limits, t: Table)
    requires |t.sessions| <= limits.maxFlows && !Next(limits, t).1.Failed?
    ensures |Next(limits, t).0.sessions| <= limits.maxFlows
  {
    hide Clocked, Measure;
    if t.finishing.Some? {
      if t.sessions != map[] {
        FewerSessions(t.sessions, FirstKey(t.sessions.Keys));
      }
    } else if t.pending.Some? {
      if Changes(t) && t.sessions != map[] {
        FewerSessions(t.sessions, FirstKey(t.sessions.Keys));
      } else {
        ReadiedIs(limits, t);
        ClockedBounded(limits, Readied(t));
      }
    }
  }

  lemma ClockedBounded(limits: Limits, t: Table)
    requires t.pending.Some? && t.pending.value.input.interfaceId in t.clocks && |t.sessions| <= limits.maxFlows
    ensures |Clocked(limits, t).0.sessions| <= limits.maxFlows
  {
    hide IdleOn, Evictable, Counted, Reopens, Eligible, KeyOf;
    var input := t.pending.value.input;
    var idle := IdleOn(limits, t.sessions, input.interfaceId, t.clocks[input.interfaceId]);
    if idle != {} {
      IdleOpen(limits, t.sessions, input.interfaceId, t.clocks[input.interfaceId]);
      FewerSessions(t.sessions, FirstEntry(idle).1);
    } else if Eligible(input) {
      if Reopens(t.sessions, input) {
        ReopensOpen(t.sessions, input);
        FewerSessions(t.sessions, KeyOf(input));
      } else if KeyOf(input) !in t.sessions && |t.sessions| >= limits.maxFlows {
        EvictableOpen(limits, t.sessions, input.interfaceId);
        FewerSessions(t.sessions, Evictable(limits, t.sessions, input.interfaceId));
      } else {
        CountedBounded(limits, t);
      }
    }
  }

  lemma CountedBounded(limits: Limits, t: Table)
    requires t.pending.Some? && |t.sessions| <= limits.maxFlows
    requires KeyOf(t.pending.value.input) in t.sessions || |t.sessions| < limits.maxFlows
    ensures |Counted(t).0.sessions| <= limits.maxFlows
  {
    hide KeyOf, SummaryOf, Fits, Carries;
    OneMoreKey(t.sessions, Counted(t).0.sessions, KeyOf(t.pending.value.input));
  }

  lemma OneMoreKey<T>(before: map<SessionKey, T>, after: map<SessionKey, T>, key: SessionKey)
    requires after.Keys <= before.Keys + {key}
    ensures |after| <= |before| + if key in before then 0 else 1
  {
    var all := before.Keys + {key};
    assert all == after.Keys + (all - after.Keys);
    assert |all| == |before.Keys| + if key in before then 0 else 1 by {
      if key in before { assert all == before.Keys; }
    }
    assert |after| == |after.Keys| && |before| == |before.Keys|;
  }

  lemma {:induction false} DrainBounded(limits: Limits, t: Table)
    requires |t.sessions| <= limits.maxFlows && !Drain(limits, t).failed
    ensures |Drain(limits, t).table.sessions| <= limits.maxFlows
    decreases Measure(t)
  {
    hide Next, Measure;
    NextBounded(limits, t);
    if Next(limits, t).1.Emitted? {
      NextShrinks(limits, t);
      DrainBounded(limits, Next(limits, t).0);
    }
  }

  lemma {:induction false} RunBounded(limits: Limits, inputs: seq<FlowInput>)
    requires !Run(limits, inputs).failed
    ensures |Run(limits, inputs).table.sessions| <= limits.maxFlows
  {
    if inputs != [] {
      hide Drain, Run;
      var n := |inputs| - 1;
      RunUnfold(limits, inputs);
      RunBounded(limits, inputs[..n]);
      DrainBounded(limits, Push(Run(limits, inputs[..n]).table, inputs[n]).0);
    }
  }

  // ---------------------------------------------------------------- over every run

  /** The table of a run with its next record just pushed. */
  ghost function Pushed(limits: Limits, inputs: seq<FlowInput>, input: FlowInput): Table {
    Push(Run(limits, inputs).table, input).0
  }

  lemma PushedReady(limits: Limits, inputs: seq<FlowInput>, input: FlowInput)
    requires !Run(limits, inputs).failed && input.stamp.number != 0
    ensures var t := Pushed(limits, inputs, input);
      && t.pending.Some? && t.pending.value.input == input && t.finishing.None? && |t.sessions| <= limits.maxFlows
      && t.sessions == Run(limits, inputs).table.sessions
      && Push(Run(limits, inputs).table, input).1.None?
  {
    hide Run;
    RunReady(limits, inputs);
    RunBounded(limits, inputs);
  }

  /** The rows of a run grow by exactly those of its next record. */
  lemma RunRows(limits: Limits, inputs: seq<FlowInput>, input: FlowInput)
    requires !Run(limits, inputs).failed && input.stamp.number != 0
    ensures Pushed(limits, inputs, input).pending.Some?
    ensures Run(limits, inputs + [input]).rows == Run(limits, inputs).rows + RecordOut(limits, Pushed(limits, inputs, input))
  {
    hide Drain, RecordOut;
    PushedReady(limits, inputs, input);
    DrainRecord(limits, Pushed(limits, inputs, input));
    assert (inputs + [input])[..|inputs|] == inputs;
  }

  /** The clock a record is judged by: the latest time its interface has shown in its section, its own included. */
  lemma RecordClock(limits: Limits, inputs: seq<FlowInput>, input: FlowInput)
    requires !Run(limits, inputs).failed && input.stamp.number != 0
    ensures var t := Pushed(limits, inputs, input);
      t.pending.Some? && ClockOf(Readied(t).clocks, input.interfaceId) == LatestOn(inputs + [input], input.interfaceId)
  {
    hide Run, LatestOn, Readied;
    RunReady(limits, inputs);
    RunClocks(limits, inputs);
    PushedClocks(Run(limits, inputs).table, inputs, input, input.interfaceId);
    PushedReady(limits, inputs, input);
  }

  lemma ClockKept(limits: Limits, t: Table)
    requires t.pending.Some? && ScopeFits(limits, t)
    ensures t.pending.value.input.interfaceId in Readied(t).clocks
  {
  }

  /** The rows of a pushed record begin with the sessions of a section it closes, in key order, or, in the same section,
      with exactly the sessions of its interface whose deadline is before the latest time the interface has shown, in
      (deadline, key) order; the rest, at most two, come from placing it. A record whose interface does not fit closes
      its section's sessions and yields nothing more. */
  ghost predicate RowsInOrder(limits: Limits, t: Table, clock: Option<int>, rows: seq<Outcome>)
    requires t.pending.Some?
  {
    if Changes(t) then
      var keys := KeyOrder(t.sessions.Keys);
      && |keys| <= |rows| <= |keys| + 2
      && (forall i | 0 <= i < |keys| :: keys[i] in t.sessions && rows[i] == Emitted(t.sessions[keys[i]], SectionBoundary))
      && Placements(rows[|keys|..])
    else if ScopeFits(limits, t) then
      var order := IdleOrder(limits, t.sessions, t.pending.value.input.interfaceId, clock);
      |rows| <= |order| + 2 && IdleRows(limits, t.sessions, order, rows)
    else rows == []
  }

  /** In every run: see RowsInOrder. */
  lemma IdleRowsExact(limits: Limits, inputs: seq<FlowInput>, input: FlowInput)
    requires !Run(limits, inputs).failed && input.stamp.number != 0
    ensures var t := Pushed(limits, inputs, input);
      && t.pending.Some?
      && RowsInOrder(limits, t, LatestOn(inputs + [input], input.interfaceId), Drain(limits, t).rows)
  {
    hide Run, Drain, LatestOn, Readied, RecordOut, RowsInOrder, Pushed, ScopeFits;
    var t := Pushed(limits, inputs, input);
    PushedReady(limits, inputs, input);
    RecordClock(limits, inputs, input);
    DrainRecord(limits, t);
    if ScopeFits(limits, t) {
      ClockKept(limits, t);
    }
    if Changes(t) {
      ClosingRows(limits, t, LatestOn(inputs + [input], input.interfaceId));
    } else {
      StayingRows(limits, t, LatestOn(inputs + [input], input.interfaceId));
    }
  }

  lemma StayingRows(limits: Limits, t: Table, clock: Option<int>)
    requires t.pending.Some? && !Changes(t)
    requires ScopeFits(limits, t) ==>
      && t.pending.value.input.interfaceId in Readied(t).clocks
      && Readied(t).clocks[t.pending.value.input.interfaceId] == clock
    ensures RowsInOrder(limits, t, clock, RecordOut(limits, t))
  {
    hide Readied, PlacingOut, Spared, IdleOut, IdleOrder, Changes, ScopeFits, Placements;
    if ScopeFits(limits, t) {
      ReadiedSame(t);
      var input, late := t.pending.value.input, Readied(t).pending.value.late;
      var idle, placing := IdleOut(limits, t.sessions, input.interfaceId, clock),
                           PlacingOut(limits, Spared(limits, t.sessions, input.interfaceId, clock), Seen(input, late));
      IdleOutIs(limits, t.sessions, input.interfaceId, clock);
      PlacingOutPlaces(limits, Spared(limits, t.sessions, input.interfaceId, clock), Seen(input, late));
      assert RecordOut(limits, t) == idle + placing;
      assert (idle + placing)[|idle|..] == placing;
    }
  }

  lemma ClosingRows(limits: Limits, t: Table, clock: Option<int>)
    requires t.pending.Some? && Changes(t)
    requires ScopeFits(limits, t) ==>
      && t.pending.value.input.interfaceId in Readied(t).clocks
      && Readied(t).clocks[t.pending.value.input.interfaceId] == clock
    ensures RowsInOrder(limits, t, clock, RecordOut(limits, t))
  {
    hide Readied, PlacingOut, Spared, IdleOut, BoundaryOut, KeyOrder, Changes, ScopeFits, Placements;
    BoundaryOutIs(t.sessions);
    var closed, rows := BoundaryOut(t.sessions), RecordOut(limits, t);
    if ScopeFits(limits, t) {
      ReadiedSame(t);
      var input, late := t.pending.value.input, Readied(t).pending.value.late;
      var placing := PlacingOut(limits, Spared(limits, map[], input.interfaceId, clock), Seen(input, late));
      NoIdleOut(limits, input.interfaceId, clock);
      PlacingOutPlaces(limits, Spared(limits, map[], input.interfaceId, clock), Seen(input, late));
      assert [] + placing == placing;
      assert rows == closed + placing;
      assert rows[|closed|..] == placing;
    } else {
      assert rows == closed && rows[|closed|..] == [];
      NoPlacements();
    }
  }

  lemma NoPlacements()
    ensures Placements([])
  {
  }

  lemma NoIdleOut(limits: Limits, id: U32, clock: Option<int>)
    ensures IdleOut(limits, map[], id, clock) == []
  {
  }

  /** In every run, any limit row of a record gives up a session of a table that is full once its idle sessions are
      gone, for a packet whose own session is not open, and no other session of it comes before: by deadline on the
      packet's interface, else by deadline on any, else by key. */
  lemma LimitRowIsSoonest(limits: Limits, inputs: seq<FlowInput>, input: FlowInput, i: nat)
    requires !Run(limits, inputs).failed && input.stamp.number != 0
    requires i < |Drain(limits, Pushed(limits, inputs, input)).rows|
    requires Drain(limits, Pushed(limits, inputs, input)).rows[i].Emitted?
    requires Drain(limits, Pushed(limits, inputs, input)).rows[i].reason == Limit
    ensures var sessions, clock := Run(limits, inputs).table.sessions, LatestOn(inputs + [input], input.interfaceId);
      var left := Spared(limits, sessions, input.interfaceId, clock);
      && |left| == limits.maxFlows && KeyOf(input) !in left
      && exists key :: Soonest(limits, left, input.interfaceId, key)
           && Drain(limits, Pushed(limits, inputs, input)).rows[i] == Emitted(left[key], Limit)
  {
    hide Run, Drain, LatestOn, Readied, PlacingOut, Spared, IdleOut, BoundaryOut, Soonest, KeyOf;
    var t := Pushed(limits, inputs, input);
    PushedReady(limits, inputs, input);
    RecordClock(limits, inputs, input);
    DrainRecord(limits, t);
    ReadiedSame(t);
    BoundaryOutIs(t.sessions);
    var u, id := Readied(t), input.interfaceId;
    if ScopeFits(limits, t) {
      ClockKept(limits, t);
      var sessions := if Changes(t) then map[] else t.sessions;
      IdleOutIs(limits, sessions, id, u.clocks[id]);
      SparedFewer(limits, sessions, id, u.clocks[id]);
      var left := Spared(limits, sessions, id, u.clocks[id]);
      var placing := PlacingOut(limits, left, Seen(input, u.pending.value.late));
      assert Drain(limits, t).rows[i] in placing;
      LimitPlacing(limits, left, Seen(input, u.pending.value.late), Drain(limits, t).rows[i]);
    }
  }

  lemma LimitPlacing(limits: Limits, sessions: Sessions, x: Seen, row: Outcome)
    requires row in PlacingOut(limits, sessions, x) && row.Emitted? && row.reason == Limit
    ensures |sessions| >= limits.maxFlows && KeyOf(x.input) !in sessions
    ensures exists key :: Soonest(limits, sessions, x.input.interfaceId, key) && row == Emitted(sessions[key], Limit)
  {
    hide Eligible, Reopens, KeyOf, SummaryOf, Fits, Carries, Evictable, Soonest;
    if sessions != map[] {
      EvictableOpen(limits, sessions, x.input.interfaceId);
      EvictableIsSoonest(limits, sessions, x.input.interfaceId);
    }
  }
}
