/** Whole runs of the flow aggregator: records pushed one by one, each drained before the next, then Finish. */
module FlowRuns {
  import opened Basics
  import opened FlowTypes
  import opened FlowRows
  import opened FlowTable
  import opened FlowHandshake
  import Order

  // ---------------------------------------------------------------- draining stops

  function Measure(t: Table): nat {
    |t.sessions| + if t.pending.Some? then 1 else 0
  }

  lemma EmitShrinks(t: Table, key: SessionKey, reason: Reason)
    requires key in t.sessions
    ensures Measure(Emit(t, key, reason).0) == Measure(t) - 1
  {
    assert (t.sessions - {key}).Keys == t.sessions.Keys - {key};
    assert |t.sessions.Keys - {key}| == |t.sessions.Keys| - 1;
    assert |t.sessions - {key}| == |(t.sessions - {key}).Keys| && |t.sessions| == |t.sessions.Keys|;
  }

  lemma CountedShrinks(t: Table)
    requires t.pending.Some? && Counted(t).1.Emitted?
    ensures Measure(Counted(t).0) < Measure(t)
  {
    hide KeyOf, SummaryOf, Fits, Carries;
    var key := KeyOf(t.pending.value.input);
    assert Counted(t).0.sessions.Keys == t.sessions.Keys - {key};
    assert |t.sessions.Keys - {key}| <= |t.sessions.Keys|;
    assert |Counted(t).0.sessions| == |Counted(t).0.sessions.Keys| && |t.sessions| == |t.sessions.Keys|;
  }

  lemma ClockedShrinks(limits: Limits, t: Table)
    requires t.pending.Some? && t.pending.value.input.interfaceId in t.clocks && Clocked(limits, t).1.Emitted?
    ensures Measure(Clocked(limits, t).0) < Measure(t)
  {
    hide IdleOn, Evictable, Counted, Reopens, Eligible, Emit, Measure;
    var input := t.pending.value.input;
    var idle := IdleOn(limits, t.sessions, input.interfaceId, t.clocks[input.interfaceId]);
    if idle != {} {
      IdleOpen(limits, t.sessions, input.interfaceId, t.clocks[input.interfaceId]);
      EmitShrinks(t, FirstEntry(idle).1, IdleTimeout);
    } else if Eligible(input) {
      if Reopens(t.sessions, input) {
        ReopensOpen(t.sessions, input);
        EmitShrinks(t, KeyOf(input), TupleReuse);
      } else if KeyOf(input) !in t.sessions && |t.sessions| >= limits.maxFlows {
        EvictableOpen(limits, t.sessions, input.interfaceId);
        EmitShrinks(t, Evictable(limits, t.sessions, input.interfaceId), Limit);
      } else {
        CountedShrinks(t);
      }
    }
  }

  lemma ReopensOpen(sessions: map<SessionKey, Block>, input: FlowInput)
    requires Reopens(sessions, input)
    ensures KeyOf(input) in sessions
  {
  }

  /** Every row handed out takes a session or the pending record with it. */
  lemma NextShrinks(limits: Limits, t: Table)
    requires Next(limits, t).1.Emitted?
    ensures Measure(Next(limits, t).0) < Measure(t)
  {
    hide Clocked, Emit;
    if t.finishing.Some? {
      EmitShrinks(t, FirstKey(t.sessions.Keys), if t.finishing.value == t.section then Eof else SectionBoundary);
    } else {
      var section := t.pending.value.input.section;
      var changed := t.haveSection && t.section != section;
      if changed && t.sessions != map[] {
        EmitShrinks(t, FirstKey(t.sessions.Keys), SectionBoundary);
      } else {
        var u := t.(section := section, haveSection := true, clocks := if changed then map[] else t.clocks);
        ClockedShrinks(limits, if t.pending.value.prepared && t.pending.value.input.interfaceId in u.clocks then u else Prepared(u));
      }
    }
  }

  /** What draining leaves and hands out. */
  datatype Drainage = Drainage(table: Table, rows: seq<Outcome>, failed: bool)

  /** Calls Next until it has no more rows. */
  ghost function Drain(limits: Limits, t: Table): Drainage
    decreases Measure(t)
  {
    var next := Next(limits, t);
    match next.1
    case Emitted(_, _) =>
      NextShrinks(limits, t);
      var rest := Drain(limits, next.0);
      rest.(rows := [next.1] + rest.rows)
    case Done => Drainage(next.0, [], false)
    case Failed(_) => Drainage(next.0, [], true)
  }

  /** A pushed record yields at most one row more than the sessions that were open. */
  lemma {:induction false} RowsBounded(limits: Limits, t: Table)
    ensures |Drain(limits, t).rows| <= Measure(t)
    decreases Measure(t)
  {
    hide Next, Measure;
    if Next(limits, t).1.Emitted? {
      NextShrinks(limits, t);
      RowsBounded(limits, Next(limits, t).0);
    }
  }

  // ---------------------------------------------------------------- what every reachable table keeps

  predicate Belongs(input: FlowInput, section: U32, key: SessionKey) {
    Eligible(input) && input.section == section && KeyOf(input) == key
  }

  /** A session holds eligible packets of its own section and key, none of which should have started another one. */
  ghost predicate Proper(section: U32, key: SessionKey, block: Block) {
    && block != []
    && (forall i | 0 <= i < |block| :: Belongs(block[i].input, section, key))
    && NoReuse(block, OrigIsLow(block[0]))
  }

  ghost predicate AllProper(t: Table) {
    && (forall key | key in t.sessions :: Proper(t.section, key, t.sessions[key]))
    && (!t.haveSection ==> t.sessions == map[])
  }

  ghost predicate ProperRow(outcome: Outcome) {
    outcome.Emitted? ==> outcome.block != [] && Proper(outcome.block[0].input.section, KeyOf(outcome.block[0].input), outcome.block)
  }

  lemma EmitProper(t: Table, key: SessionKey, reason: Reason)
    requires AllProper(t) && key in t.sessions
    ensures AllProper(Emit(t, key, reason).0) && ProperRow(Emit(t, key, reason).1)
  {
    hide NoReuse, OrigIsLow;
    assert Proper(t.section, key, t.sessions[key]);
    assert Belongs(t.sessions[key][0].input, t.section, key);
  }

  /** One more packet that does not reopen the tuple keeps a session proper. */
  lemma GrownProper(section: U32, key: SessionKey, block: Block, x: Seen)
    requires block != [] ==> Proper(section, key, block)
    requires Belongs(x.input, section, key)
    requires block != [] && x.input.packet.PureSyn() ==>
      var low := OrigIsLow(block[0]);
      !Reuses(HandshakeOf(block, low), Carries(block, FIN), x.input.packet, FromLow(x.input) == low)
    ensures Proper(section, key, block + [x])
  {
    hide HandshakeOf, Carries, Reuses, KeyOf, Eligible;
    var more := block + [x];
    var low := OrigIsLow(more[0]);
    forall n | 0 < n < |more| && more[n].input.packet.PureSyn()
      ensures !Reuses(HandshakeOf(more[..n], low), Carries(more[..n], FIN), more[n].input.packet, SentBy(more[n], low))
    {
      assert more[..n] == block[..n];
      assert block[..|block|] == block;
    }
  }

  lemma AfterProper(t: Table)
    requires AllProper(t) && t.pending.Some? && t.haveSection && t.section == t.pending.value.input.section
    requires Eligible(t.pending.value.input) && !Reopens(t.sessions, t.pending.value.input)
    ensures var pending := t.pending.value;
      var k := KeyOf(pending.input);
      var block := (if k in t.sessions then t.sessions[k] else []) + [Seen(pending.input, pending.late)];
      AllProper(t.(sessions := t.sessions[k := block], pending := None))
  {
    hide NoReuse, Reuses, HandshakeOf, FromLow, OrigIsLow, KeyOf;
    var pending := t.pending.value;
    var key := KeyOf(pending.input);
    var before := if key in t.sessions then t.sessions[key] else [];
    GrownProper(t.section, key, before, Seen(pending.input, pending.late));
  }

  lemma CountedProper(t: Table)
    requires AllProper(t) && t.pending.Some? && t.haveSection && t.section == t.pending.value.input.section
    requires Eligible(t.pending.value.input) && !Reopens(t.sessions, t.pending.value.input)
    ensures AllProper(Counted(t).0) && ProperRow(Counted(t).1)
  {
    hide SummaryOf, Fits, AllProper, KeyOf, Proper, Reopens, Eligible;
    var pending := t.pending.value;
    var key := KeyOf(pending.input);
    var block := (if key in t.sessions then t.sessions[key] else []) + [Seen(pending.input, pending.late)];
    AfterProper(t);
    if Counted(t).1.Emitted? {
      EmitProper(t.(sessions := t.sessions[key := block], pending := None), key, Reset);
    }
  }

  lemma ClockedProper(limits: Limits, t: Table)
    requires AllProper(t) && t.pending.Some? && t.pending.value.input.interfaceId in t.clocks
    requires t.haveSection && t.section == t.pending.value.input.section
    ensures AllProper(Clocked(limits, t).0) && ProperRow(Clocked(limits, t).1)
  {
    hide IdleOn, Evictable, Counted, Reopens, Eligible, Emit, Proper;
    var input := t.pending.value.input;
    var idle := IdleOn(limits, t.sessions, input.interfaceId, t.clocks[input.interfaceId]);
    if idle != {} {
      IdleOpen(limits, t.sessions, input.interfaceId, t.clocks[input.interfaceId]);
      EmitProper(t, FirstEntry(idle).1, IdleTimeout);
    } else if Eligible(input) {
      if Reopens(t.sessions, input) {
        ReopensOpen(t.sessions, input);
        EmitProper(t, KeyOf(input), TupleReuse);
      } else if KeyOf(input) !in t.sessions && |t.sessions| >= limits.maxFlows {
        EvictableOpen(limits, t.sessions, input.interfaceId);
        EmitProper(t, Evictable(limits, t.sessions, input.interfaceId), Limit);
      } else {
        CountedProper(t);
      }
    }
  }

  /** The table a pending record is placed in, once its section is current and its clock has advanced. */
  ghost function Readied(t: Table): Table
    requires t.pending.Some?
  {
    var pending := t.pending.value;
    var changed := t.haveSection && t.section != pending.input.section;
    var u := t.(section := pending.input.section, haveSection := true, clocks := if changed then map[] else t.clocks);
    if pending.prepared && pending.input.interfaceId in u.clocks then u else Prepared(u)
  }

  lemma ReadiedIs(limits: Limits, t: Table)
    requires t.pending.Some? && t.finishing.None? && !Next(limits, t).1.Failed?
    requires !(t.haveSection && t.section != t.pending.value.input.section && t.sessions != map[])
    ensures Readied(t).pending.Some? && Readied(t).pending.value.input == t.pending.value.input
    ensures Readied(t).pending.value.input.interfaceId in Readied(t).clocks
    ensures Readied(t).sessions == t.sessions && Readied(t).haveSection
    ensures Readied(t).section == t.pending.value.input.section
    ensures Readied(t).pending.value.prepared && Readied(t).finishing.None?
    ensures Next(limits, t) == Clocked(limits, Readied(t))
  {
    hide Clocked;
  }

  lemma NextProper(limits: Limits, t: Table)
    requires AllProper(t) && !Next(limits, t).1.Failed?
    ensures AllProper(Next(limits, t).0) && ProperRow(Next(limits, t).1)
  {
    hide Clocked, Emit, Proper;
    if t.finishing.Some? {
      if t.sessions != map[] {
        EmitProper(t, FirstKey(t.sessions.Keys), if t.finishing.value == t.section then Eof else SectionBoundary);
      }
    } else if t.pending.Some? {
      if t.haveSection && t.section != t.pending.value.input.section && t.sessions != map[] {
        EmitProper(t, FirstKey(t.sessions.Keys), SectionBoundary);
      } else {
        ReadiedIs(limits, t);
        ClockedProper(limits, Readied(t));
      }
    }
  }

  // ---------------------------------------------------------------- one call loses and invents nothing

  function Inputs(block: Block): seq<FlowInput> {
    seq(|block|, i requires 0 <= i < |block| => block[i].input)
  }

  /** The packets of one section and session that a row covers. */
  function RowPart(outcome: Outcome, section: U32, key: SessionKey): seq<FlowInput> {
    if outcome.Emitted? && outcome.block != [] && Belongs(outcome.block[0].input, section, key)
    then Inputs(outcome.block) else []
  }

  /** The packets of one section and session still held. */
  function LivePart(t: Table, section: U32, key: SessionKey): seq<FlowInput> {
    if t.section == section && key in t.sessions then Inputs(t.sessions[key]) else []
  }

  function PendingPart(t: Table, section: U32, key: SessionKey): seq<FlowInput> {
    if t.pending.Some? && Belongs(t.pending.value.input, section, key) then [t.pending.value.input] else []
  }

  ghost predicate Conserves(t: Table, next: (Table, Outcome), section: U32, key: SessionKey) {
    RowPart(next.1, section, key) + LivePart(next.0, section, key) + PendingPart(next.0, section, key)
      == LivePart(t, section, key) + PendingPart(t, section, key)
  }

  lemma EmitConserves(t: Table, k: SessionKey, reason: Reason, section: U32, key: SessionKey)
    requires AllProper(t) && k in t.sessions
    ensures Conserves(t, Emit(t, k, reason), section, key)
  {
    hide NoReuse, OrigIsLow, KeyOf, Eligible, Inputs;
    assert Proper(t.section, k, t.sessions[k]);
    assert Belongs(t.sessions[k][0].input, t.section, k);
    var next := Emit(t, k, reason);
    assert PendingPart(next.0, section, key) == PendingPart(t, section, key);
    if k == key && t.section == section {
      assert LivePart(next.0, section, key) == [];
      assert RowPart(next.1, section, key) == LivePart(t, section, key);
    } else {
      assert RowPart(next.1, section, key) == [];
      assert LivePart(next.0, section, key) == LivePart(t, section, key);
    }
  }

  lemma CountedConserves(t: Table, section: U32, key: SessionKey)
    requires AllProper(t) && t.pending.Some? && t.haveSection && t.section == t.pending.value.input.section
    requires Eligible(t.pending.value.input) && !Reopens(t.sessions, t.pending.value.input)
    requires !Counted(t).1.Failed?
    ensures Conserves(t, Counted(t), section, key)
  {
    hide SummaryOf, Fits, NoReuse, Reopens, OrigIsLow, KeyOf, Eligible, AllProper, Carries;
    var pending := t.pending.value;
    var k := KeyOf(pending.input);
    var before := if k in t.sessions then t.sessions[k] else [];
    var block := before + [Seen(pending.input, pending.late)];
    var after := t.(sessions := t.sessions[k := block], pending := None);
    assert Inputs(block) == Inputs(before) + [pending.input];
    assert LivePart(after, section, key) + PendingPart(after, section, key)
        == LivePart(t, section, key) + PendingPart(t, section, key);
    if Counted(t).1.Emitted? {
      AfterProper(t);
      EmitConserves(after, k, Reset, section, key);
    } else {
      assert RowPart(Counted(t).1, section, key) == [];
    }
  }

  lemma ClockedConserves(limits: Limits, t: Table, section: U32, key: SessionKey)
    requires AllProper(t) && t.pending.Some? && t.pending.value.input.interfaceId in t.clocks
    requires t.haveSection && t.section == t.pending.value.input.section
    requires !Clocked(limits, t).1.Failed?
    ensures Conserves(t, Clocked(limits, t), section, key)
  {
    hide IdleOn, Evictable, Counted, Reopens, Eligible, Emit, AllProper, Conserves;
    var input := t.pending.value.input;
    var idle := IdleOn(limits, t.sessions, input.interfaceId, t.clocks[input.interfaceId]);
    if idle != {} {
      IdleOpen(limits, t.sessions, input.interfaceId, t.clocks[input.interfaceId]);
      EmitConserves(t, FirstEntry(idle).1, IdleTimeout, section, key);
    } else if Eligible(input) {
      if Reopens(t.sessions, input) {
        ReopensOpen(t.sessions, input);
        EmitConserves(t, KeyOf(input), TupleReuse, section, key);
      } else if KeyOf(input) !in t.sessions && |t.sessions| >= limits.maxFlows {
        EvictableOpen(limits, t.sessions, input.interfaceId);
        EmitConserves(t, Evictable(limits, t.sessions, input.interfaceId), Limit, section, key);
      } else {
        CountedConserves(t, section, key);
      }
    } else {
      SkippedConserves(t, section, key);
    }
  }

  lemma SkippedConserves(t: Table, section: U32, key: SessionKey)
    requires t.pending.Some? && !Eligible(t.pending.value.input)
    ensures Conserves(t, (t.(pending := None), Done), section, key)
  {
  }

  /** One call of Next moves packets from the record and the sessions to the row and nowhere else. */
  lemma NextConserves(limits: Limits, t: Table, section: U32, key: SessionKey)
    requires AllProper(t) && !Next(limits, t).1.Failed?
    ensures Conserves(t, Next(limits, t), section, key)
  {
    hide Clocked, Emit, AllProper, RowPart, Inputs;
    if t.finishing.Some? {
      if t.sessions != map[] {
        EmitConserves(t, FirstKey(t.sessions.Keys), if t.finishing.value == t.section then Eof else SectionBoundary, section, key);
      } else {
        DoneConserves(t, t.(clocks := map[]), section, key);
      }
    } else if t.pending.None? {
      DoneConserves(t, t, section, key);
    } else if t.haveSection && t.section != t.pending.value.input.section && t.sessions != map[] {
      EmitConserves(t, FirstKey(t.sessions.Keys), SectionBoundary, section, key);
    } else {
      ReadiedIs(limits, t);
      ReadiedProper(t);
      ClockedConserves(limits, Readied(t), section, key);
      assert LivePart(Readied(t), section, key) == LivePart(t, section, key);
    }
  }

  lemma DoneConserves(t: Table, u: Table, section: U32, key: SessionKey)
    requires t.sessions == u.sessions && t.section == u.section && t.pending == u.pending
    ensures Conserves(t, (u, Done), section, key)
  {
  }

  lemma ReadiedProper(t: Table)
    requires AllProper(t) && t.pending.Some?
    requires !(t.haveSection && t.section != t.pending.value.input.section && t.sessions != map[])
    ensures AllProper(Readied(t)) && (t.section == Readied(t).section || t.sessions == map[])
  {
    hide Proper;
  }

  // ---------------------------------------------------------------- idle and evicted sessions

  /** The sessions of an interface that are idle at a clock, soonest deadline first. */
  ghost function IdleOrder(limits: Limits, sessions: map<SessionKey, Block>, id: U32, clock: Option<int>): seq<Entry>
    decreases |sessions|
  {
    var idle := IdleOn(limits, sessions, id, clock);
    if idle == {} then []
    else
      IdleOpen(limits, sessions, id, clock);
      FewerSessions(sessions, FirstEntry(idle).1);
      [FirstEntry(idle)] + IdleOrder(limits, sessions - {FirstEntry(idle).1}, id, clock)
  }

  lemma FewerSessions(sessions: map<SessionKey, Block>, key: SessionKey)
    requires key in sessions
    ensures |sessions - {key}| < |sessions|
  {
    assert (sessions - {key}).Keys == sessions.Keys - {key};
    assert |sessions - {key}| == |(sessions - {key}).Keys| && |sessions| == |sessions.Keys|;
  }

  lemma IdleWithout(limits: Limits, sessions: map<SessionKey, Block>, id: U32, clock: Option<int>, key: SessionKey)
    ensures forall entry :: entry in IdleOn(limits, sessions - {key}, id, clock) <==>
      entry in IdleOn(limits, sessions, id, clock) && entry.1 != key
  {
    forall entry
      ensures entry in Deadlines(limits, sessions - {key}) <==> entry in Deadlines(limits, sessions) && entry.1 != key
    {
      InDeadlines(limits, sessions, entry);
      InDeadlines(limits, sessions - {key}, entry);
    }
    hide Deadlines;
  }

  lemma InDeadlines(limits: Limits, sessions: map<SessionKey, Block>, entry: Entry)
    ensures entry in Deadlines(limits, sessions) <==>
      entry.1 in sessions && DeadlineOf(limits, sessions[entry.1]) == Some(entry.0)
  {
    hide DeadlineOf;
  }

  /** The order lists every idle session once, each before those with a later (deadline, key). */
  lemma {:induction false} IdleOrderExact(limits: Limits, sessions: map<SessionKey, Block>, id: U32, clock: Option<int>)
    ensures var order := IdleOrder(limits, sessions, id, clock);
      && (forall entry :: entry in order <==> entry in IdleOn(limits, sessions, id, clock))
      && (forall i, j | 0 <= i < j < |order| :: Order.Less(EntryRank(order[i]), EntryRank(order[j])))
    decreases |sessions|
  {
    hide IdleOn, EntryRank;
    var idle := IdleOn(limits, sessions, id, clock);
    if idle != {} {
      IdleOpen(limits, sessions, id, clock);
      var first := FirstEntry(idle);
      FewerSessions(sessions, first.1);
      IdleOrderExact(limits, sessions - {first.1}, id, clock);
      IdleWithout(limits, sessions, id, clock, first.1);
      OneIdleEach(limits, sessions, id, clock);
    }
  }

  lemma OneIdleEach(limits: Limits, sessions: map<SessionKey, Block>, id: U32, clock: Option<int>)
    ensures forall a, b | a in IdleOn(limits, sessions, id, clock) && b in IdleOn(limits, sessions, id, clock) && a.1 == b.1 ::
      a == b
  {
    hide DeadlineOf;
  }

  /** A record whose clock has advanced and whose interface has no idle session left. */
  ghost predicate NoneIdle(limits: Limits, t: Table) {
    && t.pending.Some? && t.pending.value.prepared && t.finishing.None?
    && t.haveSection && t.section == t.pending.value.input.section
    && t.pending.value.input.interfaceId in t.clocks
    && IdleOn(limits, t.sessions, t.pending.value.input.interfaceId, t.clocks[t.pending.value.input.interfaceId]) == {}
  }

  lemma NoneIdleStep(limits: Limits, t: Table)
    requires NoneIdle(limits, t) && Next(limits, t).1.Emitted?
    ensures Next(limits, t).1.reason in {TupleReuse, Limit, Reset}
    ensures Next(limits, t).0.pending.Some? ==> NoneIdle(limits, Next(limits, t).0)
    ensures Next(limits, t).0.finishing.None?
  {
    hide IdleOn, Evictable, Reopens, Eligible, Counted, KeyOf;
    var input := t.pending.value.input;
    CountedReason(t);
    if Reopens(t.sessions, input) {
      ReopensOpen(t.sessions, input);
      IdleWithout(limits, t.sessions, input.interfaceId, t.clocks[input.interfaceId], KeyOf(input));
    } else if KeyOf(input) !in t.sessions && |t.sessions| >= limits.maxFlows {
      var key := Evictable(limits, t.sessions, input.interfaceId);
      EvictableOpen(limits, t.sessions, input.interfaceId);
      IdleWithout(limits, t.sessions, input.interfaceId, t.clocks[input.interfaceId], key);
    }
  }

  /** Rows that come from placing a record: its tuple is reused, a session makes room, or its own session is reset. */
  predicate Placements(rows: seq<Outcome>) {
    forall i | 0 <= i < |rows| :: rows[i].Emitted? && rows[i].reason in {TupleReuse, Limit, Reset}
  }

  lemma DrainStep(limits: Limits, t: Table)
    requires Next(limits, t).1.Emitted?
    ensures Drain(limits, t).rows == [Next(limits, t).1] + Drain(limits, Next(limits, t).0).rows
  {
    hide Next;
  }

  lemma DrainStops(limits: Limits, t: Table)
    requires !Next(limits, t).1.Emitted?
    ensures Drain(limits, t).rows == []
  {
    hide Next;
  }

  lemma {:induction false} NoIdleRows(limits: Limits, t: Table)
    requires if t.pending.Some? then NoneIdle(limits, t) else t.finishing.None?
    ensures Placements(Drain(limits, t).rows)
    decreases Measure(t)
  {
    hide NoneIdle, Measure, Next, Drain;
    if Next(limits, t).1.Emitted? {
      NextShrinks(limits, t);
      PendingWhenEmitted(limits, t);
      NoneIdleStep(limits, t);
      DrainStep(limits, t);
      NoIdleRows(limits, Next(limits, t).0);
    } else {
      DrainStops(limits, t);
    }
  }

  lemma PendingWhenEmitted(limits: Limits, t: Table)
    requires t.finishing.None? || t.pending.Some?
    requires Next(limits, t).1.Emitted?
    ensures t.pending.Some?
  {
  }

  ghost predicate IdleRows(limits: Limits, sessions: map<SessionKey, Block>, order: seq<Entry>, rows: seq<Outcome>) {
    && |order| <= |rows|
    && (forall i | 0 <= i < |order| :: order[i].1 in sessions && rows[i] == Emitted(sessions[order[i].1], IdleTimeout))
    && Placements(rows[|order|..])
  }

  /** The table holds a record whose clock has advanced and whose section is current. */
  ghost predicate Ready(t: Table) {
    && t.pending.Some? && t.pending.value.prepared && t.finishing.None?
    && t.haveSection && t.section == t.pending.value.input.section
    && t.pending.value.input.interfaceId in t.clocks
  }

  lemma IdleStep(limits: Limits, t: Table)
    requires Ready(t)
    requires IdleOn(limits, t.sessions, t.pending.value.input.interfaceId, t.clocks[t.pending.value.input.interfaceId]) != {}
    ensures var id := t.pending.value.input.interfaceId;
      var first := FirstEntry(IdleOn(limits, t.sessions, id, t.clocks[id]));
      && first.1 in t.sessions
      && Next(limits, t) == (t.(sessions := t.sessions - {first.1}), Emitted(t.sessions[first.1], IdleTimeout))
  {
    hide IdleOn, Placed, Eligible;
    var id := t.pending.value.input.interfaceId;
    IdleOpen(limits, t.sessions, id, t.clocks[id]);
  }

  /** Once its clock has advanced, a record first hands out the idle sessions of its interface in order; what follows
      comes from placing it. */
  lemma {:induction false} ReadyIdleRows(limits: Limits, t: Table)
    requires Ready(t)
    ensures var id := t.pending.value.input.interfaceId;
      IdleRows(limits, t.sessions, IdleOrder(limits, t.sessions, id, t.clocks[id]), Drain(limits, t).rows)
    decreases |t.sessions|
  {
    hide IdleOn, Next, Measure, Drain;
    var id := t.pending.value.input.interfaceId;
    var idle := IdleOn(limits, t.sessions, id, t.clocks[id]);
    if idle == {} {
      assert NoneIdle(limits, t);
      NoIdleRows(limits, t);
      assert Drain(limits, t).rows[0..] == Drain(limits, t).rows;
    } else {
      IdleStep(limits, t);
      var first := FirstEntry(idle);
      FewerSessions(t.sessions, first.1);
      var after := Next(limits, t).0;
      ReadyIdleRows(limits, after);
      DrainStep(limits, t);
      var order := IdleOrder(limits, after.sessions, id, t.clocks[id]);
      assert Drain(limits, t).rows[1 + |order|..] == Drain(limits, after).rows[|order|..];
    }
  }

  /** No session comes before `key`: on the interface by deadline if any session there has one, else over all
      interfaces, else by key. */
  ghost predicate Soonest(limits: Limits, sessions: map<SessionKey, Block>, id: U32, key: SessionKey) {
    var here, all := DeadlinesOn(limits, sessions, id), Deadlines(limits, sessions);
    && key in sessions
    && (here != {} ==> exists d :: Order.IsFirst((d, key), here, EntryRank))
    && (here == {} && all != {} ==> exists d :: Order.IsFirst((d, key), all, EntryRank))
    && (all == {} ==> Order.IsFirst(key, sessions.Keys, KeyRank))
  }

  lemma EvictableIsSoonest(limits: Limits, sessions: map<SessionKey, Block>, id: U32)
    requires sessions != map[]
    ensures Soonest(limits, sessions, id, Evictable(limits, sessions, id))
  {
    hide DeadlinesOn, Deadlines, EntryRank;
    var key := Evictable(limits, sessions, id);
    EvictableOpen(limits, sessions, id);
    AllOrHere(limits, sessions, id);
    var here, all := DeadlinesOn(limits, sessions, id), Deadlines(limits, sessions);
    if here != {} {
      var d := FirstEntry(here).0;
      assert (d, key) == FirstEntry(here);
    } else if all != {} {
      var d := FirstEntry(all).0;
      assert (d, key) == FirstEntry(all);
      assert Order.IsFirst((d, key), all, EntryRank);
    }
  }

  lemma ReadyLimitRow(limits: Limits, t: Table)
    requires Ready(t) && Next(limits, t).1.Emitted? && Next(limits, t).1.reason == Limit
    ensures |t.sessions| >= limits.maxFlows && KeyOf(t.pending.value.input) !in t.sessions
    ensures exists key :: Soonest(limits, t.sessions, t.pending.value.input.interfaceId, key)
                          && Next(limits, t) == Emit(t, key, Limit)
  {
    hide Next, IdleOn, Reopens, Eligible, Counted, Soonest, KeyOf, Evictable;
    ReadyNext(limits, t);
    CountedReason(t);
    var input := t.pending.value.input;
    if t.sessions != map[] {
      EvictableOpen(limits, t.sessions, input.interfaceId);
      EvictableIsSoonest(limits, t.sessions, input.interfaceId);
    }
  }

  lemma ReadyNext(limits: Limits, t: Table)
    requires Ready(t)
    ensures Next(limits, t) == Clocked(limits, t)
  {
    hide Clocked;
  }

  lemma CountedReason(t: Table)
    requires t.pending.Some?
    ensures Counted(t).1.Emitted? ==> Counted(t).1.reason == Reset
    ensures Counted(t).1.Emitted? ==> Counted(t).0.pending.None?
    ensures Counted(t).0.finishing == t.finishing
  {
  }

  lemma AllOrHere(limits: Limits, sessions: map<SessionKey, Block>, id: U32)
    ensures Deadlines(limits, sessions) == {} ==> DeadlinesOn(limits, sessions, id) == {}
  {
  }

  // ---------------------------------------------------------------- draining conserves

  /** The packets of one section and session covered by rows, in the order of the rows. */
  function RowsPart(rows: seq<Outcome>, section: U32, key: SessionKey): seq<FlowInput> {
    if rows == [] then [] else RowPart(rows[0], section, key) + RowsPart(rows[1..], section, key)
  }

  lemma {:induction false} RowsPartJoin(a: seq<Outcome>, b: seq<Outcome>, section: U32, key: SessionKey)
    ensures RowsPart(a + b, section, key) == RowsPart(a, section, key) + RowsPart(b, section, key)
  {
    hide RowPart;
    if a == [] {
      assert a + b == b;
    } else {
      RowsPartJoin(a[1..], b, section, key);
      assert (a + b)[1..] == a[1..] + b;
    }
  }

  ghost predicate ProperRows(rows: seq<Outcome>) {
    forall i | 0 <= i < |rows| :: rows[i].Emitted? && ProperRow(rows[i])
  }

  lemma {:induction false} DrainProper(limits: Limits, t: Table)
    requires AllProper(t)
    ensures ProperRows(Drain(limits, t).rows)
    ensures !Drain(limits, t).failed ==>
      AllProper(Drain(limits, t).table) && Next(limits, Drain(limits, t).table).1 == Done
    decreases Measure(t)
  {
    hide Next, Measure, AllProper, ProperRow;
    if !Next(limits, t).1.Failed? {
      NextProper(limits, t);
      if Next(limits, t).1.Emitted? {
        NextShrinks(limits, t);
        DrainProper(limits, Next(limits, t).0);
      } else {
        DoneIsDone(limits, t);
      }
    }
  }

  /** Once Next has nothing more to hand out, nothing is pending and it stays that way. */
  lemma DoneIsDone(limits: Limits, t: Table)
    requires Next(limits, t).1 == Done
    ensures Next(limits, Next(limits, t).0).1 == Done
    ensures t.finishing.None? ==> Next(limits, t).0.pending.None?
    ensures t.finishing.Some? ==> Next(limits, t).0.sessions == map[]
    ensures Next(limits, t).0.finishing == t.finishing
  {
    hide IdleOn, Evictable, Reopens, Eligible, SummaryOf, Fits, Carries, KeyOf;
  }

  lemma {:induction false} DrainEnds(limits: Limits, t: Table)
    requires !Drain(limits, t).failed
    ensures var after := Drain(limits, t).table;
      && after.finishing == t.finishing
      && (t.finishing.None? ==> after.pending.None?)
      && (t.finishing.Some? ==> after.sessions == map[])
    decreases Measure(t)
  {
    hide Next, Measure;
    if Next(limits, t).1.Emitted? {
      NextShrinks(limits, t);
      EmittedKeepsFinishing(limits, t);
      DrainEnds(limits, Next(limits, t).0);
    } else {
      DoneIsDone(limits, t);
    }
  }

  lemma EmittedKeepsFinishing(limits: Limits, t: Table)
    ensures Next(limits, t).0.finishing == t.finishing
  {
    hide IdleOn, Evictable, Reopens, Eligible, SummaryOf, Fits, Carries, KeyOf;
  }

  lemma NoRow(outcome: Outcome, section: U32, key: SessionKey)
    requires !outcome.Emitted?
    ensures RowPart(outcome, section, key) == []
  {
  }

  lemma {:induction false} DrainConserves(limits: Limits, t: Table, section: U32, key: SessionKey)
    requires AllProper(t) && !Drain(limits, t).failed
    ensures var d := Drain(limits, t);
      RowsPart(d.rows, section, key) + LivePart(d.table, section, key) + PendingPart(d.table, section, key)
        == LivePart(t, section, key) + PendingPart(t, section, key)
    decreases Measure(t)
  {
    hide Next, Measure, AllProper, RowPart, LivePart, PendingPart;
    NextProper(limits, t);
    NextConserves(limits, t, section, key);
    var next := Next(limits, t);
    if next.1.Emitted? {
      NextShrinks(limits, t);
      DrainConserves(limits, next.0, section, key);
      var rest := Drain(limits, next.0);
      assert ([next.1] + rest.rows)[1..] == rest.rows;
      var row, rows := RowPart(next.1, section, key), RowsPart(rest.rows, section, key);
      var live, pending := LivePart(rest.table, section, key), PendingPart(rest.table, section, key);
      assert row + rows + live + pending == row + (rows + live + pending);
      assert RowsPart(Drain(limits, t).rows, section, key) == row + rows;
    } else {
      NoRow(next.1, section, key);
    }
  }

  // ---------------------------------------------------------------- whole runs

  /** Everything handed out while `inputs` were pushed and drained one by one. */
  ghost function Run(limits: Limits, inputs: seq<FlowInput>): Drainage {
    if inputs == [] then Drainage(EMPTY, [], false)
    else
      var before := Run(limits, inputs[..|inputs| - 1]);
      var push := Push(before.table, inputs[|inputs| - 1]);
      if before.failed || push.1.Some? then before.(failed := true)
      else
        var d := Drain(limits, push.0);
        d.(rows := before.rows + d.rows)
  }

  /** A run and the rows still handed out after Finish. */
  ghost function Finished(limits: Limits, inputs: seq<FlowInput>, final: U32): Drainage {
    var before := Run(limits, inputs);
    if before.failed || Finish(before.table, final).1.Some? then before.(failed := true)
    else
      var d := Drain(limits, Finish(before.table, final).0);
      d.(rows := before.rows + d.rows)
  }

  /** The eligible packets of one section and session, in capture order. */
  function Matching(inputs: seq<FlowInput>, section: U32, key: SessionKey): seq<FlowInput> {
    if inputs == [] then []
    else
      var n := |inputs| - 1;
      Matching(inputs[..n], section, key) + if Belongs(inputs[n], section, key) then [inputs[n]] else []
  }

  ghost predicate Settled(d: Drainage) {
    AllProper(d.table) && ProperRows(d.rows) && d.table.pending.None? && d.table.finishing.None?
  }

  lemma {:induction false} RunSettled(limits: Limits, inputs: seq<FlowInput>)
    ensures ProperRows(Run(limits, inputs).rows)
    ensures !Run(limits, inputs).failed ==> Settled(Run(limits, inputs))
  {
    hide Drain, AllProper, ProperRow;
    if inputs == [] {
      EmptyProper();
    } else {
      var n := |inputs| - 1;
      RunSettled(limits, inputs[..n]);
      var before := Run(limits, inputs[..n]);
      var push := Push(before.table, inputs[n]);
      if !before.failed && push.1.None? {
        PushProper(before.table, inputs[n]);
        DrainProper(limits, push.0);
        if !Drain(limits, push.0).failed {
          DrainEnds(limits, push.0);
        }
      }
    }
  }

  lemma EmptyProper()
    ensures AllProper(EMPTY)
  {
  }

  lemma PushProper(t: Table, input: FlowInput)
    requires AllProper(t)
    ensures AllProper(Push(t, input).0)
  {
  }

  /** At every point of a run, for each section and session, the packets of the rows handed out, in the order of
      the rows, followed by those still held are exactly the eligible packets seen, in capture order. */
  lemma {:induction false} RunConserves(limits: Limits, inputs: seq<FlowInput>, section: U32, key: SessionKey)
    requires !Run(limits, inputs).failed
    ensures var d := Run(limits, inputs);
      RowsPart(d.rows, section, key) + LivePart(d.table, section, key) == Matching(inputs, section, key)
  {
    hide Drain, Settled, AllProper, Belongs, RowPart, Inputs;
    if inputs != [] {
      var n := |inputs| - 1;
      var before := Run(limits, inputs[..n]);
      RunConserves(limits, inputs[..n], section, key);
      RunReady(limits, inputs[..n]);
      var t := Push(before.table, inputs[n]).0;
      PushProper(before.table, inputs[n]);
      DrainConserves(limits, t, section, key);
      DrainEnds(limits, t);
      RowsPartJoin(before.rows, Drain(limits, t).rows, section, key);
      assert LivePart(t, section, key) == LivePart(before.table, section, key);
      HandedOn(RowsPart(before.rows, section, key), LivePart(t, section, key), PendingPart(t, section, key),
              RowsPart(Drain(limits, t).rows, section, key), LivePart(Drain(limits, t).table, section, key));
    }
  }

  lemma HandedOn<X>(rows: seq<X>, live: seq<X>, pending: seq<X>, more: seq<X>, left: seq<X>)
    requires more + left + [] == live + pending
    ensures rows + more + left == rows + live + pending
  {
    assert more + left + [] == more + left;
    assert rows + more + left == rows + (more + left);
    assert rows + live + pending == rows + (live + pending);
  }

  lemma RunReady(limits: Limits, inputs: seq<FlowInput>)
    requires !Run(limits, inputs).failed
    ensures AllProper(Run(limits, inputs).table) && Run(limits, inputs).table.pending.None?
    ensures Run(limits, inputs).table.finishing.None?
  {
    RunSettled(limits, inputs);
  }

  /** In every run, every row handed out, before or after Finish, covers a block of eligible packets of one section and
      session, none of which should have started another session. */
  lemma FinishedProper(limits: Limits, inputs: seq<FlowInput>, final: U32)
    ensures ProperRows(Finished(limits, inputs, final).rows)
  {
    hide Drain, Run, AllProper, ProperRow;
    RunSettled(limits, inputs);
    var before := Run(limits, inputs);
    if !before.failed && Finish(before.table, final).1.None? {
      RunReady(limits, inputs);
      FinishProper(before.table, final);
      DrainProper(limits, Finish(before.table, final).0);
    }
  }

  /** After Finish nothing is held back and nothing is invented: every row covers packets of one section and session,
      and for each section and session the blocks of its rows, joined in the order they were handed out, are exactly
      its eligible packets in capture order. */
  lemma FinishedConserves(limits: Limits, inputs: seq<FlowInput>, final: U32, section: U32, key: SessionKey)
    requires !Finished(limits, inputs, final).failed
    ensures ProperRows(Finished(limits, inputs, final).rows)
    ensures RowsPart(Finished(limits, inputs, final).rows, section, key) == Matching(inputs, section, key)
  {
    FinishedProper(limits, inputs, final);
    FinishedParts(limits, inputs, final, section, key);
  }

  lemma FinishedParts(limits: Limits, inputs: seq<FlowInput>, final: U32, section: U32, key: SessionKey)
    requires !Finished(limits, inputs, final).failed
    ensures RowsPart(Finished(limits, inputs, final).rows, section, key) == Matching(inputs, section, key)
  {
    hide Drain, Run, AllProper, Matching, RowPart;
    RunReady(limits, inputs);
    RunConserves(limits, inputs, section, key);
    var before := Run(limits, inputs);
    var t := Finish(before.table, final).0;
    FinishProper(before.table, final);
    DrainConserves(limits, t, section, key);
    DrainEnds(limits, t);
    RowsPartJoin(before.rows, Drain(limits, t).rows, section, key);
    FinishLeavesPending(limits, t);
    var rows, more := RowsPart(before.rows, section, key), RowsPart(Drain(limits, t).rows, section, key);
    var live := LivePart(before.table, section, key);
    assert LivePart(Drain(limits, t).table, section, key) == PendingPart(t, section, key) == [];
    assert LivePart(t, section, key) == live;
    assert more + [] + [] == more && live + [] == live;
  }

  lemma FinishProper(t: Table, final: U32)
    requires AllProper(t)
    ensures AllProper(Finish(t, final).0)
  {
  }

  lemma {:induction false} FinishLeavesPending(limits: Limits, t: Table)
    requires t.finishing.Some? && !Drain(limits, t).failed
    ensures Drain(limits, t).table.pending == t.pending
    decreases Measure(t)
  {
    hide Measure;
    if Next(limits, t).1.Emitted? {
      NextShrinks(limits, t);
      FinishLeavesPending(limits, Next(limits, t).0);
    }
  }

  /** A row that says its handshake completed covers the three segments of one, in order. */
  lemma HandshakeInRow(row: Outcome)
    requires row.Emitted? && ProperRow(row)
    ensures row.block != []
    ensures SummaryOf(row.block).handshakeComplete ==> Handshaken(row.block, OrigIsLow(row.block[0]))
  {
    hide SummaryOf, KeyOf, Belongs, Handshaken;
    if SummaryOf(row.block).handshakeComplete {
      CompleteMeansThreeWay(row.block);
    }
  }

  /** In every run, every row that says its handshake completed, those after Finish included, covers the three
      segments of one, in order. */
  lemma RunHandshakes(limits: Limits, inputs: seq<FlowInput>, final: U32, i: nat)
    requires i < |Finished(limits, inputs, final).rows|
    ensures var row := Finished(limits, inputs, final).rows[i];
      && row.Emitted? && row.block != []
      && (SummaryOf(row.block).handshakeComplete ==> Handshaken(row.block, OrigIsLow(row.block[0])))
  {
    hide Finished, SummaryOf, Handshaken, ProperRow;
    FinishedProper(limits, inputs, final);
    HandshakeInRow(Finished(limits, inputs, final).rows[i]);
  }
}
