/** The flow aggregator as a plain table of sessions, each holding the packets it has counted: deadlines without a
    queue, rows computed when a session leaves. The class in FlowAggregator.dfy refines it. */
module FlowTable {
  import opened Basics
  import opened FlowTypes
  import opened FlowRows

  /** A pushed record that Next has not finished with. */
  datatype Pending = Pending(input: FlowInput, prepared: bool, late: bool)

  /** The open sessions, each interface's clock, the section being read, the record at hand and, once Finish was
      called, the section it named. */
  datatype Table = Table(sessions: map<SessionKey, Block>, clocks: map<U32, Option<int>>, section: U32,
                         haveSection: bool, pending: Option<Pending>, finishing: Option<U32>)

  const EMPTY := Table(map[], map[], 0, false, None, None)

  datatype Error = ScopeCapacity | CounterOverflow

  /** What one call of Next does: hands out one session, has nothing more to hand out, or fails. */
  datatype Outcome = Emitted(block: Block, reason: Reason) | Done | Failed(error: Error)

  // ---------------------------------------------------------------- choosing a session

  ghost function DeadlineOf(limits: Limits, block: Block): Option<int> {
    if block == [] then None else Deadline(limits, SummaryOf(block))
  }

  ghost function Deadlines(limits: Limits, sessions: map<SessionKey, Block>): set<Entry> {
    set key | key in sessions && DeadlineOf(limits, sessions[key]).Some? ::
      (DeadlineOf(limits, sessions[key]).value, key)
  }

  ghost function DeadlinesOn(limits: Limits, sessions: map<SessionKey, Block>, interfaceId: U32): set<Entry> {
    set entry | entry in Deadlines(limits, sessions) && entry.1.interfaceId == interfaceId
  }

  ghost function IdleOn(limits: Limits, sessions: map<SessionKey, Block>, interfaceId: U32, clock: Option<int>): set<Entry> {
    set entry | entry in DeadlinesOn(limits, sessions, interfaceId) && clock.Some? && entry.0 < clock.value
  }

  /** The session nearest its deadline on the interface, else on any interface, else the first in key order. */
  ghost function Evictable(limits: Limits, sessions: map<SessionKey, Block>, interfaceId: U32): SessionKey
    requires sessions != map[]
  {
    if DeadlinesOn(limits, sessions, interfaceId) != {} then FirstEntry(DeadlinesOn(limits, sessions, interfaceId)).1
    else if Deadlines(limits, sessions) != {} then FirstEntry(Deadlines(limits, sessions)).1
    else FirstKey(sessions.Keys)
  }

  // ---------------------------------------------------------------- one call of Next

  function Emit(t: Table, key: SessionKey, reason: Reason): (Table, Outcome)
    requires key in t.sessions
  {
    (t.(sessions := t.sessions - {key}), Emitted(t.sessions[key], reason))
  }

  function Later(clock: Option<int>, stamp: PacketStamp): Option<int> {
    if !stamp.hasTimestamp then clock
    else if clock.None? then Some(stamp.timestamp)
    else Some(Max(clock.value, stamp.timestamp))
  }

  /** Advances the record's interface clock; a packet behind it is late. */
  function Prepared(t: Table): Table
    requires t.pending.Some?
  {
    var input := t.pending.value.input;
    var clock := if input.interfaceId in t.clocks then t.clocks[input.interfaceId] else None;
    var late := input.stamp.hasTimestamp && clock.Some? && input.stamp.timestamp < clock.value;
    t.(clocks := t.clocks[input.interfaceId := Later(clock, input.stamp)], pending := Some(Pending(input, true, late)))
  }

  /** Whether the pending packet is a SYN that ends the session of its tuple. */
  predicate Reopens(sessions: map<SessionKey, Block>, input: FlowInput) {
    var key := KeyOf(input);
    && key in sessions && sessions[key] != [] && input.packet.PureSyn()
    && var block := sessions[key];
       var low := OrigIsLow(block[0]);
       Reuses(HandshakeOf(block, low), Carries(block, FIN), input.packet, FromLow(input) == low)
  }

  /** Counts the pending packet in its session; a reset ends the session. */
  function Counted(t: Table): (Table, Outcome)
    requires t.pending.Some?
  {
    var pending := t.pending.value;
    var key := KeyOf(pending.input);
    var block := (if key in t.sessions then t.sessions[key] else []) + [Seen(pending.input, pending.late)];
    if !Fits(SummaryOf(block)) then (t, Failed(CounterOverflow))
    else
      var after := t.(sessions := t.sessions[key := block], pending := None);
      if Carries(block, RST) then Emit(after, key, Reset) else (after, Done)
  }

  /** What happens to an eligible record once no session is idle. */
  ghost function Placed(limits: Limits, t: Table): (Table, Outcome)
    requires t.pending.Some?
  {
    var input := t.pending.value.input;
    var key := KeyOf(input);
    if Reopens(t.sessions, input) then Emit(t, key, TupleReuse)
    else if key !in t.sessions && |t.sessions| >= limits.maxFlows then
      EvictableOpen(limits, t.sessions, input.interfaceId);
      Emit(t, Evictable(limits, t.sessions, input.interfaceId), Limit)
    else Counted(t)
  }

  ghost function Clocked(limits: Limits, t: Table): (Table, Outcome)
    requires t.pending.Some? && t.pending.value.input.interfaceId in t.clocks
  {
    var input := t.pending.value.input;
    var idle := IdleOn(limits, t.sessions, input.interfaceId, t.clocks[input.interfaceId]);
    if idle != {} then
      IdleOpen(limits, t.sessions, input.interfaceId, t.clocks[input.interfaceId]);
      Emit(t, FirstEntry(idle).1, IdleTimeout)
    else if !Eligible(input) then (t.(pending := None), Done)
    else Placed(limits, t)
  }

  /** The record once its section is the current one. */
  ghost function InSection(limits: Limits, t: Table): (Table, Outcome)
    requires t.pending.Some?
  {
    var pending := t.pending.value;
    var id := pending.input.interfaceId;
    if pending.prepared && id in t.clocks then Clocked(limits, t)
    else if id !in t.clocks && |t.clocks| >= limits.maxScopes then (t, Failed(ScopeCapacity))
    else Clocked(limits, Prepared(t))
  }

  ghost function Drained(t: Table, final: U32): (Table, Outcome) {
    if t.sessions == map[] then (t.(clocks := map[]), Done)
    else Emit(t, FirstKey(t.sessions.Keys), if final == t.section then Eof else SectionBoundary)
  }

  ghost function Next(limits: Limits, t: Table): (Table, Outcome) {
    if t.finishing.Some? then Drained(t, t.finishing.value)
    else if t.pending.None? then (t, Done)
    else
      var section := t.pending.value.input.section;
      var changed := t.haveSection && t.section != section;
      if changed && t.sessions != map[] then Emit(t, FirstKey(t.sessions.Keys), SectionBoundary)
      else
        InSection(limits, t.(section := section, haveSection := true, clocks := if changed then map[] else t.clocks))
  }

  // ---------------------------------------------------------------- Push and Finish

  datatype CallError = NotDrained | InvalidPacketNumber

  function Push(t: Table, input: FlowInput): (Table, Option<CallError>) {
    if t.pending.Some? || t.finishing.Some? then (t, Some(NotDrained))
    else if input.stamp.number == 0 then (t, Some(InvalidPacketNumber))
    else (t.(pending := Some(Pending(input, false, false))), None)
  }

  function Finish(t: Table, final: U32): (Table, Option<CallError>) {
    if t.pending.Some? then (t, Some(NotDrained)) else (t.(finishing := Some(final)), None)
  }

  // ---------------------------------------------------------------- the chosen session is open

  lemma DeadlineOpen(limits: Limits, sessions: map<SessionKey, Block>, entry: Entry)
    requires entry in Deadlines(limits, sessions)
    ensures entry.1 in sessions && DeadlineOf(limits, sessions[entry.1]) == Some(entry.0)
  {
  }

  lemma IdleOpen(limits: Limits, sessions: map<SessionKey, Block>, interfaceId: U32, clock: Option<int>)
    requires IdleOn(limits, sessions, interfaceId, clock) != {}
    ensures FirstEntry(IdleOn(limits, sessions, interfaceId, clock)).1 in sessions
  {
    DeadlineOpen(limits, sessions, FirstEntry(IdleOn(limits, sessions, interfaceId, clock)));
  }

  lemma EvictableOpen(limits: Limits, sessions: map<SessionKey, Block>, interfaceId: U32)
    requires sessions != map[]
    ensures Evictable(limits, sessions, interfaceId) in sessions
  {
    if DeadlinesOn(limits, sessions, interfaceId) != {} {
      DeadlineOpen(limits, sessions, FirstEntry(DeadlinesOn(limits, sessions, interfaceId)));
    } else if Deadlines(limits, sessions) != {} {
      DeadlineOpen(limits, sessions, FirstEntry(Deadlines(limits, sessions)));
    }
  }
}
