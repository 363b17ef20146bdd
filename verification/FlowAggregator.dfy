/** The flow aggregator: running counters per session and, per interface, a clock and a lazy expiry queue
    (src/flow_aggregator.cpp). */
module FlowAggregator {
  import opened Basics
  import opened FlowTypes
  import opened FlowRows
  import T = FlowTable
  import Order

  /** A session's row so far, its handshake tracking, and its place in the expiry queue.
      `deadline` is the real one; `queued`, where its entry sits, may be earlier. */
  datatype State = State(row: Summary, orig: Half, resp: Half, closed: bool, scheduled: bool, deadline: int, queued: int)

  datatype Scope = Scope(watermark: Option<int>, expiry: set<Entry>)

  type States = map<SessionKey, State>
  type Scopes = map<U32, Scope>
  type Blocks = map<SessionKey, Block>

  datatype Result = Row(row: Summary, reason: Reason) | NoMore | Failed(error: T.Error)

  // ---------------------------------------------------------------- what the fields stand for

  function ShakeIn(s: State): Handshake {
    Handshake(s.orig, s.resp, s.closed, s.row.handshakeComplete, s.row.simultaneousOpen)
  }

  ghost predicate Mirrors(s: State, first: Seen, block: Block) {
    s.row == RowOf(first, block) && ShakeIn(s) == HandshakeOf(block, OrigIsLow(first))
  }

  /** The running totals are those of the packets counted. */
  ghost predicate Counts(key: SessionKey, s: State, block: Block) {
    block != [] && KeyOf(block[0].input) == key && Mirrors(s, block[0], block) && Fits(s.row)
  }

  /** A session is scheduled exactly when it has a deadline, and its entry never sits later than it. */
  predicate Timed(limits: Limits, s: State) {
    && s.scheduled == Deadline(limits, s.row).Some?
    && (s.scheduled ==> s.deadline == Deadline(limits, s.row).value && s.queued <= s.deadline)
  }

  ghost predicate AllCounted(states: States, blocks: Blocks) {
    states.Keys == blocks.Keys && forall key | key in states :: Counts(key, states[key], blocks[key])
  }

  ghost predicate AllTimed(limits: Limits, states: States) {
    forall key | key in states :: Timed(limits, states[key])
  }

  predicate HasEntry(states: States, scopes: Scopes, key: SessionKey)
    requires key in states
  {
    states[key].scheduled ==>
      key.interfaceId in scopes && (states[key].queued, key) in scopes[key.interfaceId].expiry
  }

  ghost predicate AllQueued(states: States, scopes: Scopes) {
    forall key | key in states :: HasEntry(states, scopes, key)
  }

  predicate Backs(states: States, id: U32, entry: Entry) {
    && entry.1 in states && entry.1.interfaceId == id
    && states[entry.1].scheduled && states[entry.1].queued == entry.0
  }

  ghost predicate AllBacked(states: States, scopes: Scopes) {
    forall id, entry | id in scopes && entry in scopes[id].expiry :: Backs(states, id, entry)
  }

  ghost predicate Sound(limits: Limits, states: States, scopes: Scopes, blocks: Blocks) {
    AllCounted(states, blocks) && AllTimed(limits, states) && AllQueued(states, scopes) && AllBacked(states, scopes)
  }

  function Clocks(scopes: Scopes): map<U32, Option<int>> {
    map id | id in scopes :: scopes[id].watermark
  }

  /** How the result of Next shows the outcome of the plain table. */
  ghost predicate Shows(result: Result, outcome: T.Outcome) {
    match outcome
    case Emitted(block, reason) => block != [] && result == Row(SummaryOf(block), reason)
    case Done => result == NoMore
    case Failed(error) => result == Failed(error)
  }

  // ---------------------------------------------------------------- the queue finds the true minimum

  lemma DeadlineFrom(limits: Limits, states: States, blocks: Blocks, key: SessionKey)
    requires AllCounted(states, blocks) && AllTimed(limits, states) && key in states
    ensures T.DeadlineOf(limits, blocks[key]) ==
      if states[key].scheduled then Some(states[key].deadline) else None
  {
    hide RowOf, Fits, Deadline;
    assert Counts(key, states[key], blocks[key]) && Timed(limits, states[key]);
  }

  /** The true deadlines on an interface are those of its queued sessions. */
  lemma DeadlinesQueued(limits: Limits, states: States, scopes: Scopes, blocks: Blocks, entry: Entry)
    requires Sound(limits, states, scopes, blocks)
    ensures entry in T.Deadlines(limits, blocks) <==>
      entry.1 in states && states[entry.1].scheduled && states[entry.1].deadline == entry.0
  {
    hide Counts, T.DeadlineOf;
    if entry.1 in states {
      DeadlineFrom(limits, states, blocks, entry.1);
    }
  }

  lemma QueueEmpty(limits: Limits, states: States, scopes: Scopes, blocks: Blocks, id: U32)
    requires Sound(limits, states, scopes, blocks)
    ensures T.DeadlinesOn(limits, blocks, id) == {} <==> id !in scopes || scopes[id].expiry == {}
  {
    hide T.Deadlines, Counts, Timed;
    if entry :| entry in T.DeadlinesOn(limits, blocks, id) {
      DeadlinesQueued(limits, states, scopes, blocks, entry);
      assert HasEntry(states, scopes, entry.1);
    }
    if id in scopes && scopes[id].expiry != {} {
      var entry :| entry in scopes[id].expiry;
      assert Backs(states, id, entry);
      var due := (states[entry.1].deadline, entry.1);
      DeadlinesQueued(limits, states, scopes, blocks, due);
      assert due in T.DeadlinesOn(limits, blocks, id);
    }
  }

  lemma LaterEntry(a: Entry, b: Entry, deadline: int)
    requires a == b || Order.Less(EntryRank(a), EntryRank(b))
    requires b.0 <= deadline
    requires a == b ==> a.0 == deadline
    ensures a == (deadline, b.1) || Order.Less(EntryRank(a), EntryRank((deadline, b.1)))
  {
    assert EntryRank(a)[0] == a.0 && EntryRank(b)[0] == b.0 && EntryRank((deadline, b.1))[0] == deadline;
    assert EntryRank(b)[1..] == b.1.Rank() && EntryRank((deadline, b.1))[1..] == b.1.Rank();
  }

  /** Once the front of a queue sits at its real deadline, it is the session that truly expires first. */
  lemma FrontIsSoonest(limits: Limits, states: States, scopes: Scopes, blocks: Blocks, id: U32, front: Entry)
    requires Sound(limits, states, scopes, blocks)
    requires id in scopes && Order.IsFirst(front, scopes[id].expiry, EntryRank)
    requires front.1 in states && states[front.1].deadline == front.0
    ensures Order.IsFirst(front, T.DeadlinesOn(limits, blocks, id), EntryRank)
  {
    hide T.Deadlines, Counts;
    assert Backs(states, id, front);
    DeadlinesQueued(limits, states, scopes, blocks, front);
    forall entry | entry in T.DeadlinesOn(limits, blocks, id)
      ensures entry == front || Order.Less(EntryRank(front), EntryRank(entry))
    {
      DeadlinesQueued(limits, states, scopes, blocks, entry);
      assert HasEntry(states, scopes, entry.1) && Timed(limits, states[entry.1]);
      LaterEntry(front, (states[entry.1].queued, entry.1), entry.0);
    }
  }

  // ---------------------------------------------------------------- steps that keep the representation sound

  function WithoutEntry(scopes: Scopes, s: State): Scopes
    requires s.scheduled ==> s.row.key.interfaceId in scopes
  {
    var id := s.row.key.interfaceId;
    if !s.scheduled then scopes
    else scopes[id := scopes[id].(expiry := scopes[id].expiry - {(s.queued, s.row.key)})]
  }

  lemma KeyKept(states: States, blocks: Blocks, key: SessionKey)
    requires AllCounted(states, blocks) && key in states
    ensures states[key].row.key == key && blocks[key] != [] && states[key].row == SummaryOf(blocks[key])
    ensures states[key].row.resetSeen == Carries(blocks[key], RST)
  {
    hide HandshakeOf, CountersOf, Side, Span, Total, FromLow, KeyOf;
    assert Counts(key, states[key], blocks[key]);
  }

  /** Dropping a session with its queue entry keeps everything else sound. */
  lemma DropSound(limits: Limits, states: States, scopes: Scopes, blocks: Blocks, key: SessionKey)
    requires Sound(limits, states, scopes, blocks) && key in states && states[key].row.key == key
    requires HasEntry(states, scopes, key)
    ensures Sound(limits, states - {key}, WithoutEntry(scopes, states[key]), blocks - {key})
  {
    hide Counts, Timed;
    var after, left := states - {key}, WithoutEntry(scopes, states[key]);
    forall k | k in after
      ensures HasEntry(after, left, k)
    {
      assert HasEntry(states, scopes, k);
    }
    forall id, entry | id in left && entry in left[id].expiry
      ensures Backs(after, id, entry)
    {
      assert Backs(states, id, entry);
    }
  }

  function Moved(s: State): State {
    s.(queued := s.deadline)
  }

  function MovedIn(scope: Scope, entry: Entry, deadline: int): Scope {
    scope.(expiry := scope.expiry - {entry} + {(deadline, entry.1)})
  }

  lemma MoveQueued(states: States, scopes: Scopes, id: U32, entry: Entry)
    requires AllQueued(states, scopes)
    requires id in scopes && Backs(states, id, entry)
    ensures AllQueued(states[entry.1 := Moved(states[entry.1])],
                      scopes[id := MovedIn(scopes[id], entry, states[entry.1].deadline)])
  {
    var after := states[entry.1 := Moved(states[entry.1])];
    var left := scopes[id := MovedIn(scopes[id], entry, states[entry.1].deadline)];
    forall k | k in after
      ensures HasEntry(after, left, k)
    {
      assert HasEntry(states, scopes, k);
    }
  }

  lemma MoveBacked(states: States, scopes: Scopes, id: U32, entry: Entry)
    requires AllBacked(states, scopes)
    requires id in scopes && Backs(states, id, entry)
    ensures AllBacked(states[entry.1 := Moved(states[entry.1])],
                      scopes[id := MovedIn(scopes[id], entry, states[entry.1].deadline)])
  {
    var deadline := states[entry.1].deadline;
    var after := states[entry.1 := Moved(states[entry.1])];
    var left := scopes[id := MovedIn(scopes[id], entry, deadline)];
    forall i, e | i in left && e in left[i].expiry
      ensures Backs(after, i, e)
    {
      if i == id && e == (deadline, entry.1) {
        assert Backs(after, i, e);
      } else {
        assert Backs(states, i, e);
        assert e.1 == entry.1 ==> e == entry && i == id;
      }
    }
  }

  /** Moving a queue entry to its session's real deadline keeps everything sound. */
  lemma MoveSound(limits: Limits, states: States, scopes: Scopes, blocks: Blocks, id: U32, entry: Entry)
    requires Sound(limits, states, scopes, blocks)
    requires id in scopes && Backs(states, id, entry)
    ensures Sound(limits, states[entry.1 := Moved(states[entry.1])],
                  scopes[id := MovedIn(scopes[id], entry, states[entry.1].deadline)], blocks)
  {
    hide AllCounted, AllTimed, AllQueued, AllBacked;
    MoveQueued(states, scopes, id, entry);
    MoveBacked(states, scopes, id, entry);
    CountsKept(states, blocks, entry.1, Moved(states[entry.1]));
    TimedMoved(limits, states, entry.1);
  }

  lemma TimedMoved(limits: Limits, states: States, key: SessionKey)
    requires AllTimed(limits, states) && key in states
    ensures AllTimed(limits, states[key := Moved(states[key])])
  {
    hide Deadline;
    assert Timed(limits, states[key]);
  }

  lemma CountsKept(states: States, blocks: Blocks, key: SessionKey, s: State)
    requires AllCounted(states, blocks) && key in states.Keys
    requires s.row == states[key].row && ShakeIn(s) == ShakeIn(states[key])
    ensures AllCounted(states[key := s], blocks)
  {
    hide Counts;
    CountsSame(key, states[key], s, blocks[key]);
  }

  lemma CountsSame(key: SessionKey, s: State, t: State, block: Block)
    requires Counts(key, s, block) && t.row == s.row && ShakeIn(t) == ShakeIn(s)
    ensures Counts(key, t, block)
  {
    hide RowOf, Fits, HandshakeOf, KeyOf;
  }

  // ---------------------------------------------------------------- one more packet in a row

  /** A row with one more packet, but for the handshake. */
  function Tallied(row: Summary, x: Seen, isOrig: bool): Summary {
    var p := x.input.packet;
    row.(lastPacket := x.input.stamp.number, times := Widened(row.times, x),
         missing := row.missing + Untimed(x), late := row.late + Late(x),
         orig := if isOrig then CountedIn(row.orig, x) else row.orig,
         resp := if isOrig then row.resp else CountedIn(row.resp, x),
         synSeen := row.synSeen || p.Has(SYN), finSeen := row.finSeen || p.Has(FIN),
         resetSeen := row.resetSeen || p.Has(RST))
  }

  function Grown(row: Summary, h: Handshake, x: Seen): Summary {
    var sent := SentBy(x, row.origIsLow);
    var g := Following(h, x.input.packet, sent);
    Tallied(row, x, sent).(handshakeComplete := g.complete, simultaneousOpen := g.simultaneous)
  }

  lemma RowMore(first: Seen, block: Block, x: Seen)
    ensures RowOf(first, block + [x]) == Grown(RowOf(first, block), HandshakeOf(block, OrigIsLow(first)), x)
  {
    var low := OrigIsLow(first);
    SpanMore(block, x);
    TotalMore(block, x, Untimed);
    TotalMore(block, x, Late);
    SideCountersMore(block, x, low);
    SideCountersMore(block, x, !low);
    HandshakeMore(block, x, low);
    CarriesMore(block, x, SYN);
    CarriesMore(block, x, FIN);
    CarriesMore(block, x, RST);
    hide FromLow, KeyOf, CountersOf, HandshakeOf, Side, Following, Carries, Span, Total;
  }

  // ---------------------------------------------------------------- the aggregator

  /** Entries that sit before their session's real deadline. */
  ghost function Stale(states: States, scope: Scope): set<SessionKey> {
    set entry | entry in scope.expiry && entry.1 in states && states[entry.1].deadline != entry.0 :: entry.1
  }

  class Aggregator {
    const limits: Limits
    var states: States
    var scopes: Scopes
    var pendingInput: FlowInput
    var pending: bool
    var section: U32
    var finalSection: U32
    var haveSection: bool
    var prepared: bool
    var late: bool
    var finishing: bool
    ghost var blocks: Blocks

    ghost predicate Valid()
      reads this
    {
      && Sound(limits, states, scopes, blocks)
      && |states| <= limits.maxFlows
      && (pending && prepared ==> pendingInput.interfaceId in scopes && haveSection && section == pendingInput.section)
      && !(pending && finishing)
    }

    ghost function View(): T.Table
      reads this
    {
      T.Table(blocks, Clocks(scopes), section, haveSection,
              if pending then Some(T.Pending(pendingInput, prepared, prepared && late)) else None,
              if finishing then Some(finalSection) else None)
    }

    constructor (limits: Limits)
      ensures this.limits == limits
      ensures Valid() && View() == T.EMPTY
    {
      this.limits := limits;
      states, scopes, blocks := map[], map[], map[];
      pendingInput := *;
      pending, section, finalSection, haveSection := false, 0, 0, false;
      prepared, late, finishing := false, false, false;
    }

    method Push(input: FlowInput) returns (error: Option<T.CallError>)
      requires Valid()
      modifies this
      ensures Valid() && (View(), error) == T.Push(old(View()), input)
    {
      hide Sound, Clocks;
      if pending || finishing {
        return Some(T.NotDrained);
      }
      if input.stamp.number == 0 {
        return Some(T.InvalidPacketNumber);
      }
      pendingInput, pending, prepared := input, true, false;
      return None;
    }

    method Finish(final: U32) returns (error: Option<T.CallError>)
      requires Valid()
      modifies this
      ensures Valid() && (View(), error) == T.Finish(old(View()), final)
    {
      hide Sound, Clocks;
      if pending {
        return Some(T.NotDrained);
      }
      finishing, finalSection := true, final;
      return None;
    }

    function ActiveCount(): (count: nat)
      requires Valid()
      reads this
      ensures count == |View().sessions|
    {
      assert states.Keys == blocks.Keys;
      assert |states| == |states.Keys| && |blocks| == |blocks.Keys|;
      |states|
    }

    // ------------------------------------------------------------ the expiry queue

    /** Moves one stale entry to its session's real deadline. */
    method MoveEntry(id: U32, entry: Entry)
      requires Valid() && id in scopes && entry in scopes[id].expiry
      requires entry.1 in states && states[entry.1].deadline != entry.0
      modifies this`states, this`scopes
      ensures Valid() && View() == old(View()) && id in scopes
      ensures |Stale(states, scopes[id])| < old(|Stale(states, scopes[id])|)
    {
      hide Sound, Stale, Backs;
      SoundEntry(limits, states, scopes, blocks, id, entry);
      MoveSound(limits, states, scopes, blocks, id, entry);
      MoveFreshens(limits, states, scopes, blocks, id, entry);
      var deadline := states[entry.1].deadline;
      scopes := scopes[id := MovedIn(scopes[id], entry, deadline)];
      states := states[entry.1 := Moved(states[entry.1])];
      assert Clocks(scopes) == old(Clocks(scopes));
    }

    /** Moves stale entries at the front of a scope's queue until the front is the session that truly expires first. */
    method Refresh(id: U32)
      requires Valid() && id in scopes
      modifies this`states, this`scopes
      ensures Valid() && View() == old(View()) && id in scopes
      ensures (scopes[id].expiry == {}) == (T.DeadlinesOn(limits, blocks, id) == {})
      ensures scopes[id].expiry != {} ==> FrontFresh(limits, scopes[id].expiry, blocks, id)
    {
      hide Sound, T.DeadlinesOn, Stale, Clocks;
      while scopes[id].expiry != {}
        invariant Valid() && id in scopes && View() == old(View())
        decreases |Stale(states, scopes[id])|
      {
        FirstEntryExists(scopes[id].expiry);
        var entry :| entry in scopes[id].expiry && Order.IsFirst(entry, scopes[id].expiry, EntryRank);
        SoundEntry(limits, states, scopes, blocks, id, entry);
        assert entry.1 in states && states[entry.1].scheduled && states[entry.1].queued == entry.0;
        if states[entry.1].deadline == entry.0 {
          FrontIsSoonest(limits, states, scopes, blocks, id, entry);
          break;
        }
        assert states[entry.1].deadline > entry.0;
        MoveEntry(id, entry);
      }
      QueueEmpty(limits, states, scopes, blocks, id);
    }

    method Unschedule(key: SessionKey)
      requires key in states && states[key].row.key == key && HasEntry(states, scopes, key)
      modifies this`states, this`scopes
      ensures states == old(states)[key := old(states)[key].(scheduled := false)]
      ensures scopes == WithoutEntry(old(scopes), old(states)[key])
    {
      if states[key].scheduled {
        var id := key.interfaceId;
        scopes := scopes[id := scopes[id].(expiry := scopes[id].expiry - {(states[key].queued, key)})];
      }
      states := states[key := states[key].(scheduled := false)];
    }

    /** Forgets a session and its queue entry. */
    method Erase(key: SessionKey)
      requires Valid() && key in states
      modifies this`states, this`scopes, this`blocks
      ensures Valid() && blocks == old(blocks) - {key} && Clocks(scopes) == old(Clocks(scopes))
    {
      hide Sound, Clocks, WithoutEntry, HasEntry;
      SoundKey(limits, states, scopes, blocks, key);
      DropSound(limits, states, scopes, blocks, key);
      DropClocks(scopes, states[key]);
      DropStates(states, states[key].(scheduled := false), key);
      Unschedule(key);
      states := states - {key};
      blocks := blocks - {key};
    }

    /** Hands out a session's row and forgets the session. */
    method Emit(key: SessionKey, reason: Reason) returns (result: Result)
      requires Valid() && key in states && key in View().sessions
      modifies this
      ensures Valid() && View() == T.Emit(old(View()), key, reason).0
      ensures Shows(result, T.Emit(old(View()), key, reason).1)
    {
      hide Sound, Clocks, RowOf, HasEntry;
      SoundKey(limits, states, scopes, blocks, key);
      result := Row(states[key].row, reason);
      Erase(key);
    }

    /** The session to give up when the table is full. */
    method Evictable(id: U32) returns (key: SessionKey)
      requires Valid() && id in scopes && states != map[] && View().sessions != map[]
      modifies this`states, this`scopes
      ensures Valid() && View() == old(View()) && id in scopes
      ensures key in states && key == T.Evictable(limits, View().sessions, id)
    {
      hide Sound, Clocks, T.Deadlines, T.DeadlinesOn, FrontFresh;
      if scopes[id].expiry != {} {
        QueueEmpty(limits, states, scopes, blocks, id);
        Refresh(id);
        var front := Front(id);
        FrontChosen(limits, states, scopes, blocks, id, front);
        return front.1;
      }
      QueueEmpty(limits, states, scopes, blocks, id);
      var soonest := SoonestAnywhere();
      SoundKeys(limits, states, scopes, blocks);
      if soonest.None? {
        FirstKeyExists(states.Keys);
        key :| key in states.Keys && Order.IsFirst(key, states.Keys, KeyRank);
        Order.FirstUnique(key, FirstKey(View().sessions.Keys), states.Keys, KeyRank);
      } else {
        key := soonest.value.1;
        Order.FirstUnique(soonest.value, FirstEntry(T.Deadlines(limits, blocks)), T.Deadlines(limits, blocks), EntryRank);
        T.EvictableOpen(limits, blocks, id);
      }
    }

    /** The first entry of a refreshed queue. */
    method Front(id: U32) returns (front: Entry)
      requires id in scopes && scopes[id].expiry != {}
      requires FrontFresh(limits, scopes[id].expiry, blocks, id)
      ensures Order.IsFirst(front, scopes[id].expiry, EntryRank)
      ensures Order.IsFirst(front, T.DeadlinesOn(limits, blocks, id), EntryRank)
    {
      hide T.DeadlinesOn;
      FirstEntryExists(scopes[id].expiry);
      front :| front in scopes[id].expiry && Order.IsFirst(front, scopes[id].expiry, EntryRank);
      ghost var due :| Order.IsFirst(due, scopes[id].expiry, EntryRank)
                         && Order.IsFirst(due, T.DeadlinesOn(limits, blocks, id), EntryRank);
      Order.FirstUnique(front, due, scopes[id].expiry, EntryRank);
    }

    /** The soonest deadline over every interface. */
    method SoonestAnywhere() returns (soonest: Option<Entry>)
      requires Valid()
      modifies this`states, this`scopes
      ensures Valid() && View() == old(View()) && scopes.Keys == old(scopes.Keys)
      ensures soonest.None? ==> T.Deadlines(limits, blocks) == {}
      ensures soonest.Some? ==> Order.IsFirst(soonest.value, T.Deadlines(limits, blocks), EntryRank)
    {
      hide Sound, T.Deadlines, T.DeadlinesOn, FrontFresh;
      soonest := None;
      var left := scopes.Keys;
      ghost var seen: set<Entry> := {};
      while left != {}
        invariant Valid() && View() == old(View()) && scopes.Keys == old(scopes.Keys) && left <= scopes.Keys
        invariant forall i | i in scopes && i !in left :: T.DeadlinesOn(limits, blocks, i) <= seen
        invariant seen <= T.Deadlines(limits, blocks)
        invariant if soonest.None? then seen == {} else Order.IsFirst(soonest.value, seen, EntryRank)
        decreases |left|
      {
        var id :| id in left;
        left := left - {id};
        ghost var before := Clocks(scopes);
        Refresh(id);
        assert Clocks(scopes) == before;
        assert scopes.Keys == Clocks(scopes).Keys;
        OnlyDeadlines(limits, blocks, id);
        if scopes[id].expiry != {} {
          var front := Front(id);
          FirstOfBoth(soonest, front, seen, T.DeadlinesOn(limits, blocks, id));
          if soonest.None? || Order.Less(EntryRank(front), EntryRank(soonest.value)) {
            soonest := Some(front);
          }
          seen := seen + T.DeadlinesOn(limits, blocks, id);
        }
      }
      AllScopesSeen(limits, states, scopes, blocks, seen);
    }

    // ------------------------------------------------------------ counting a packet

    /** Follows the handshake of a session. */
    method TrackHandshake(h: Handshake, p: Packet, isOrig: bool) returns (after: Handshake)
      ensures after == Following(h, p, isOrig)
    {
      after := h;
      if !p.tcp {
        return;
      }
      if !p.Has(SYN) && (p.Has(ACK) || p.payloadLength > 0) {
        after := after.(closed := true);
      }
      var mine, peer := h.Of(isOrig), h.Of(!isOrig);
      if p.PureSyn() {
        if peer.syn {
          after := after.(simultaneous := true);
        }
        mine := mine.(syn := true, sequence := p.seqNumber);
      } else if p.SynAck() {
        if peer.syn && p.ackNumber == Wrap32(peer.sequence + 1) {
          mine := mine.(synAck := true, sequence := p.seqNumber);
        }
      } else if p.Has(ACK) && mine.syn && peer.synAck && p.ackNumber == Wrap32(peer.sequence + 1)
                && p.seqNumber == Wrap32(mine.sequence + 1) {
        after := after.(complete := true);
      }
      after := after.With(isOrig, mine);
    }

    /** Adds the pending packet to one side's counters, unless one of them would not fit in 64 bits. */
    method AddCounts(counts: Counters, x: Seen) returns (ok: bool, after: Counters)
      requires CountersFit(counts)
      ensures ok == CountersFit(CountedIn(counts, x))
      ensures ok ==> after == CountedIn(counts, x)
    {
      after := counts;
      if 1 > U64_MAX - after.packets {
        return false, after;
      }
      after := after.(packets := after.packets + 1);
      if x.input.captured > U64_MAX - after.captured {
        return false, after;
      }
      after := after.(captured := after.captured + x.input.captured);
      if x.input.reported > U64_MAX - after.reported {
        return false, after;
      }
      after := after.(reported := after.reported + x.input.reported);
      if x.input.packet.payloadLength > U64_MAX - after.payload {
        return false, after;
      }
      after := after.(payload := after.payload + x.input.packet.payloadLength);
      if x.input.packet.tcp {
        after := after.(flags := after.flags + x.input.packet.flags);
      }
      ok := true;
    }

    /** Adds the pending packet's time to the row's times and its missing and late counts. */
    method AddTime(times: Option<(int, int)>, missing: nat, late: nat, x: Seen)
      returns (ok: bool, times': Option<(int, int)>, missing': nat, late': nat)
      requires missing <= U64_MAX && late <= U64_MAX
      ensures ok == (missing + Untimed(x) <= U64_MAX && late + Late(x) <= U64_MAX)
      ensures ok ==> times' == Widened(times, x) && missing' == missing + Untimed(x) && late' == late + Late(x)
    {
      times', missing', late' := times, missing, late;
      var stamp := x.input.stamp;
      if stamp.hasTimestamp {
        var first := if times.Some? then Min(times.value.0, stamp.timestamp) else stamp.timestamp;
        var last := if times.Some? then Max(times.value.1, stamp.timestamp) else stamp.timestamp;
        times' := Some((first, last));
        if x.late {
          if 1 > U64_MAX - late {
            return false, times', missing', late';
          }
          late' := late + 1;
        }
      } else {
        if 1 > U64_MAX - missing {
          return false, times', missing', late';
        }
        missing' := missing + 1;
      }
      ok := true;
    }

    /** Everything the pending packet adds to a row but the handshake. */
    method AccountRow(row: Summary, x: Seen, isOrig: bool) returns (ok: bool, after: Summary)
      requires Fits(row)
      ensures ok == Fits(Tallied(row, x, isOrig))
      ensures ok ==> after == Tallied(row, x, isOrig)
    {
      hide CountedIn, CountersFit, Widened, Untimed, Late;
      var fits, counts := AddCounts(if isOrig then row.orig else row.resp, x);
      if !fits {
        return false, row;
      }
      var timely, times, missing, late := AddTime(row.times, row.missing, row.late, x);
      if !timely {
        return false, row;
      }
      var p := x.input.packet;
      after := row.(lastPacket := x.input.stamp.number, times := times, missing := missing, late := late,
                    orig := if isOrig then counts else row.orig, resp := if isOrig then row.resp else counts,
                    synSeen := row.synSeen || p.Has(SYN), finSeen := row.finSeen || p.Has(FIN),
                    resetSeen := row.resetSeen || p.Has(RST));
      ok := true;
    }

    /** Counts the pending packet in a session. */
    method Account(key: SessionKey, fromLow: bool, ghost first: Seen, ghost block: Block) returns (ok: bool)
      requires key in states && Mirrors(states[key], first, block) && Fits(states[key].row)
      requires fromLow == FromLow(pendingInput)
      modifies this`states
      ensures ok == Fits(RowOf(first, block + [Seen(pendingInput, late)]))
      ensures ok ==> key in states && states == old(states)[key := states[key]]
      ensures ok ==> Mirrors(states[key], first, block + [Seen(pendingInput, late)]) && Fits(states[key].row)
      ensures ok ==> SamePlace(states[key], old(states)[key])
    {
      hide RowOf, HandshakeOf, Following, Tallied, Fits;
      var x, state := Seen(pendingInput, late), states[key];
      GrownAsTallied(first, block, x);
      var isOrig := fromLow == state.row.origIsLow;
      var fits, row := AccountRow(state.row, x, isOrig);
      if !fits {
        return false;
      }
      var h := TrackHandshake(ShakeIn(state), x.input.packet, isOrig);
      states := states[key := WithShake(state.(row := row), h)];
      ok := true;
    }

    /** Records a session's deadline after a packet; a queued session keeps its entry where it is. */
    method Schedule(key: SessionKey)
      requires key in states && states[key].row.key == key && key.interfaceId in scopes
      requires HasEntry(states, scopes, key)
      modifies this`states, this`scopes
      ensures states == old(states)[key := Rescheduled(limits, old(states)[key])]
      ensures scopes == Requeued(limits, old(scopes), old(states)[key])
    {
      var state := states[key];
      var timeout := if key.protocol == 6 then limits.tcpIdle else limits.udpIdle;
      if timeout == 0 || state.row.missing > 0 || state.row.times.None? || state.row.times.value.1 > I64_MAX - timeout {
        Unschedule(key);
        return;
      }
      var deadline := state.row.times.value.1 + timeout;
      if state.scheduled {
        states := states[key := state.(deadline := deadline)];
        return;
      }
      var id := key.interfaceId;
      states := states[key := state.(deadline := deadline, queued := deadline, scheduled := true)];
      scopes := scopes[id := scopes[id].(expiry := scopes[id].expiry + {(deadline, key)})];
    }

    /** Starts a session with nothing counted yet. */
    method Open(key: SessionKey, fromLow: bool)
      requires key == KeyOf(pendingInput) && fromLow == FromLow(pendingInput) && section == pendingInput.section
      modifies this`states
      ensures key in states && states == old(states)[key := states[key]]
      ensures Mirrors(states[key], Seen(pendingInput, late), []) && Fits(states[key].row) && !states[key].scheduled
    {
      var p := pendingInput.packet;
      var origIsLow, basis := fromLow, FirstPacket;
      if p.tcp && SYN in p.flags {
        basis := if ACK in p.flags then FromSynAck else FromSyn;
        if ACK in p.flags {
          origIsLow := !fromLow;
        }
      }
      var none, half := Counters(0, 0, 0, 0, {}), Half(false, false, 0);
      var row := Summary(key, section, pendingInput.stamp.number, 0, origIsLow, None, 0, 0, none, none,
                         false, false, key.low == key.high, false, false, false, basis);
      states := states[key := State(row, half, half, false, false, 0, 0)];
    }

    /** The session's packets once the pending one is counted. */
    ghost function With(key: SessionKey): Block
      reads this
    {
      (if key in blocks then blocks[key] else []) + [Seen(pendingInput, late)]
    }

    /** Counts the pending packet in its session, opening it when needed. */
    method AccountOrOpen(key: SessionKey, fromLow: bool) returns (ok: bool)
      requires Valid() && section == pendingInput.section
      requires key == KeyOf(pendingInput) && fromLow == FromLow(pendingInput)
      modifies this`states
      ensures ok == Fits(SummaryOf(With(key)))
      ensures ok ==> key in states && states == old(states)[key := states[key]]
      ensures ok ==> Mirrors(states[key], With(key)[0], With(key)) && Fits(states[key].row)
      ensures ok ==> if key in old(states) then SamePlace(states[key], old(states)[key]) else !states[key].scheduled
    {
      hide Sound, RowOf, Fits, Mirrors;
      SoundKeys(limits, states, scopes, blocks);
      ghost var x := Seen(pendingInput, late);
      if key in states {
        SoundKey(limits, states, scopes, blocks, key);
        SoundCounts(limits, states, scopes, blocks, key);
        assert With(key)[0] == blocks[key][0];
        ok := Account(key, fromLow, blocks[key][0], blocks[key]);
      } else {
        Open(key, fromLow);
        assert [] + [x] == [x];
        ok := Account(key, fromLow, x, []);
      }
    }

    /** Counts the pending packet and brings the session's deadline up to date. */
    method AccountAndSchedule(key: SessionKey, fromLow: bool) returns (ok: bool)
      requires Valid() && section == pendingInput.section
      requires key == KeyOf(pendingInput) && fromLow == FromLow(pendingInput) && key.interfaceId in scopes
      requires key !in states ==> |states| < limits.maxFlows
      modifies this`states, this`scopes, this`blocks
      ensures ok == Fits(SummaryOf(old(With(key))))
      ensures ok ==> Valid() && key in states && Clocks(scopes) == old(Clocks(scopes))
      ensures ok ==> blocks == old(blocks)[key := old(With(key))]
    {
      hide Sound, Clocks, RowOf, Fits, Mirrors, HasEntry, Loose, Rescheduled, Requeued;
      ghost var before := if key in blocks then blocks[key] else [];
      ok := AccountOrOpen(key, fromLow);
      if !ok {
        return;
      }
      GrownLoose(limits, old(states), scopes, blocks, key, states[key], Seen(pendingInput, late), before);
      blocks := blocks[key := With(key)];
      RescheduleSound(limits, states, scopes, blocks, key);
      Schedule(key);
      ClocksKeys(scopes, old(scopes));
    }

    /** Counts the pending packet in its session; a reset ends the session. */
    method CountPacket(key: SessionKey, fromLow: bool) returns (result: Result)
      requires Valid() && pending && prepared && section == pendingInput.section
      requires key == KeyOf(pendingInput) && fromLow == FromLow(pendingInput) && key.interfaceId in scopes
      requires key !in states ==> |states| < limits.maxFlows
      modifies this
      ensures Shows(result, T.Counted(old(View())).1)
      ensures !result.Failed? ==> Valid() && View() == T.Counted(old(View())).0
    {
      hide Sound, Clocks, RowOf, Fits, Carries;
      var ok := AccountAndSchedule(key, fromLow);
      if !ok {
        return Failed(T.CounterOverflow);
      }
      SoundKey(limits, states, scopes, blocks, key);
      RowLow(blocks[key][0], blocks[key]);
      pending := false;
      if states[key].row.resetSeen {
        result := Emit(key, Reset);
      } else {
        result := NoMore;
      }
    }

    // ------------------------------------------------------------ Next

    /** Whether the pending SYN starts a new session on a tuple already in use. */
    predicate Reused(key: SessionKey, fromLow: bool)
      requires key in states
      reads this
    {
      var state := states[key];
      Reuses(ShakeIn(state), state.row.finSeen, pendingInput.packet, fromLow == state.row.origIsLow)
    }

    /** Places an eligible record: ends the session it replaces, makes room for a new one, or counts it. */
    method Place() returns (result: Result)
      requires Valid() && pending && prepared && section == pendingInput.section
      requires pendingInput.interfaceId in scopes
      modifies this
      ensures Shows(result, T.Placed(limits, old(View())).1)
      ensures !result.Failed? ==> Valid() && View() == T.Placed(limits, old(View())).0
    {
      hide Sound, Clocks, T.Evictable, T.Counted, RowOf, Reuses;
      var fromLow, key := FromLow(pendingInput), KeyOf(pendingInput);
      SoundKeys(limits, states, scopes, blocks);
      ReopensIs(limits, states, scopes, blocks, pendingInput);
      if key in states && pendingInput.packet.PureSyn() && Reused(key, fromLow) {
        result := Emit(key, TupleReuse);
      } else if key !in states && |states| >= limits.maxFlows {
        var victim := Evictable(pendingInput.interfaceId);
        SoundKeys(limits, states, scopes, blocks);
        result := Emit(victim, Limit);
      } else {
        result := CountPacket(key, fromLow);
      }
    }

    /** Advances the pending record's interface clock. */
    method Prepare() returns (ok: bool)
      requires Valid() && pending && !prepared && haveSection && section == pendingInput.section
      modifies this`scopes, this`late, this`prepared
      ensures ok == (pendingInput.interfaceId in old(View().clocks) || |old(View().clocks)| < limits.maxScopes)
      ensures ok ==> Valid() && prepared && View() == T.Prepared(old(View())) && pendingInput.interfaceId in scopes
    {
      hide Sound;
      var id, stamp := pendingInput.interfaceId, pendingInput.stamp;
      ClocksSize(scopes);
      if id !in scopes && |scopes| >= limits.maxScopes {
        return false;
      }
      var scope := if id in scopes then scopes[id] else Scope(None, {});
      late := stamp.hasTimestamp && scope.watermark.Some? && stamp.timestamp < scope.watermark.value;
      if stamp.hasTimestamp {
        var clock := if scope.watermark.Some? then Max(scope.watermark.value, stamp.timestamp) else stamp.timestamp;
        scope := scope.(watermark := Some(clock));
      }
      TickSound(limits, states, scopes, blocks, id, scope.watermark);
      scopes := scopes[id := scope];
      prepared := true;
      assert Clocks(scopes) == old(Clocks(scopes))[id := scope.watermark];
      ok := true;
    }

    /** Hands out the first idle session of the record's interface, or goes on to place the record. */
    method ExpireOrPlace() returns (result: Result)
      requires Valid() && pending && prepared && section == pendingInput.section
      requires pendingInput.interfaceId in scopes && pendingInput.interfaceId in View().clocks
      modifies this
      ensures Shows(result, T.Clocked(limits, old(View())).1)
      ensures !result.Failed? ==> Valid() && View() == T.Clocked(limits, old(View())).0
    {
      hide Sound, Clocks, T.DeadlinesOn, T.Placed, FrontFresh, Eligible, T.IdleOn;
      var id := pendingInput.interfaceId;
      Refresh(id);
      ClockAt(scopes, id);
      if scopes[id].expiry != {} {
        var front := Front(id);
        FrontIdle(limits, states, scopes, blocks, id, front);
        if scopes[id].watermark.Some? && front.0 < scopes[id].watermark.value {
          result := Emit(front.1, IdleTimeout);
          return;
        }
      } else {
        NoneIdle(limits, blocks, id, scopes[id].watermark);
      }
      if !Eligible(pendingInput) {
        pending := false;
        return NoMore;
      }
      result := Place();
    }

    /** The first session in key order. */
    method FirstSession() returns (key: SessionKey)
      requires Valid() && states != map[]
      ensures key in states && View().sessions != map[] && key == FirstKey(View().sessions.Keys)
    {
      hide Sound, Clocks;
      SoundKeys(limits, states, scopes, blocks);
      FirstKeyExists(states.Keys);
      key :| key in states.Keys && Order.IsFirst(key, states.Keys, KeyRank);
      Order.FirstUnique(key, FirstKey(View().sessions.Keys), states.Keys, KeyRank);
    }

    /** Forgets every interface; nothing may be queued. */
    method ClearScopes()
      requires Valid() && states == map[] && !(pending && prepared)
      modifies this`scopes
      ensures Valid() && scopes == map[] && Clocks(scopes) == map[]
    {
      scopes := map[];
    }

    /** After Finish: hands out the remaining sessions in key order. */
    method Drain() returns (result: Result)
      requires Valid() && finishing && !pending
      modifies this
      ensures Valid() && View() == T.Drained(old(View()), old(finalSection)).0
      ensures Shows(result, T.Drained(old(View()), old(finalSection)).1)
    {
      hide Sound, Clocks;
      SoundKeys(limits, states, scopes, blocks);
      if states == map[] {
        ClearScopes();
        return NoMore;
      }
      var key := FirstSession();
      result := Emit(key, if finalSection == section then Eof else SectionBoundary);
    }

    /** The pending record, in its own section. */
    method InSection() returns (result: Result)
      requires Valid() && pending && haveSection && section == pendingInput.section
      modifies this
      ensures Shows(result, T.InSection(limits, old(View())).1)
      ensures !result.Failed? ==> Valid() && View() == T.InSection(limits, old(View())).0
    {
      hide Sound, T.Clocked, T.Prepared;
      if !prepared {
        var ok := Prepare();
        if !ok {
          return Failed(T.ScopeCapacity);
        }
      }
      result := ExpireOrPlace();
    }

    /** Hands out one row, or says there are no more for now. After a failure the aggregator is not used again. */
    method Next() returns (result: Result)
      requires Valid()
      modifies this
      ensures Shows(result, T.Next(limits, old(View())).1)
      ensures !result.Failed? ==> Valid() && View() == T.Next(limits, old(View())).0
    {
      hide Sound, Clocks, T.InSection, T.Drained;
      if finishing {
        result := Drain();
        return;
      }
      if !pending {
        return NoMore;
      }
      SoundKeys(limits, states, scopes, blocks);
      if haveSection && section != pendingInput.section {
        if states != map[] {
          var key := FirstSession();
          result := Emit(key, SectionBoundary);
          return;
        }
        ClearScopes();
      }
      section, haveSection := pendingInput.section, true;
      result := InSection();
    }
  }

  lemma ReopensIs(limits: Limits, states: States, scopes: Scopes, blocks: Blocks, input: FlowInput)
    requires Sound(limits, states, scopes, blocks)
    ensures var key := KeyOf(input);
      T.Reopens(blocks, input) ==
        (key in states && input.packet.PureSyn()
         && Reuses(ShakeIn(states[key]), states[key].row.finSeen, input.packet, FromLow(input) == states[key].row.origIsLow))
  {
    hide RowOf, HandshakeOf, Reuses, Carries;
    var key := KeyOf(input);
    SoundKeys(limits, states, scopes, blocks);
    if key in states {
      SoundKey(limits, states, scopes, blocks, key);
      SoundCounts(limits, states, scopes, blocks, key);
      RowLow(blocks[key][0], blocks[key]);
    }
  }

  lemma ClocksSize(scopes: Scopes)
    ensures |Clocks(scopes)| == |scopes|
  {
    assert Clocks(scopes).Keys == scopes.Keys;
    assert |Clocks(scopes)| == |Clocks(scopes).Keys| && |scopes| == |scopes.Keys|;
  }

  lemma ClockAt(scopes: Scopes, id: U32)
    requires id in scopes
    ensures id in Clocks(scopes) && Clocks(scopes)[id] == scopes[id].watermark
  {
  }

  lemma TickSound(limits: Limits, states: States, scopes: Scopes, blocks: Blocks, id: U32, watermark: Option<int>)
    requires Sound(limits, states, scopes, blocks)
    ensures Sound(limits, states, scopes[id := Scope(watermark, if id in scopes then scopes[id].expiry else {})], blocks)
  {
    hide AllCounted, AllTimed;
    var after := scopes[id := Scope(watermark, if id in scopes then scopes[id].expiry else {})];
    forall k | k in states
      ensures HasEntry(states, after, k)
    {
      assert HasEntry(states, scopes, k);
    }
    forall i, entry | i in after && entry in after[i].expiry
      ensures Backs(states, i, entry)
    {
      assert i in scopes && entry in scopes[i].expiry;
    }
  }

  /** The front of a refreshed queue decides whether any session is idle, and is the first of them. */
  lemma FrontIdle(limits: Limits, states: States, scopes: Scopes, blocks: Blocks, id: U32, front: Entry)
    requires Sound(limits, states, scopes, blocks) && id in scopes
    requires Order.IsFirst(front, T.DeadlinesOn(limits, blocks, id), EntryRank)
    ensures var clock := scopes[id].watermark;
      var idle := T.IdleOn(limits, blocks, id, clock);
      && front.1 in states && front.1 in blocks
      && (idle == {} <==> !(clock.Some? && front.0 < clock.value))
      && (idle != {} ==> front == FirstEntry(idle))
  {
    hide T.Deadlines, AllTimed, AllQueued, AllBacked, Counts, T.DeadlinesOn;
    var all, clock := T.DeadlinesOn(limits, blocks, id), scopes[id].watermark;
    var idle := T.IdleOn(limits, blocks, id, clock);
    OnlyDeadlines(limits, blocks, id);
    T.DeadlineOpen(limits, blocks, front);
    assert clock.Some? && front.0 < clock.value ==> front in idle;
    if entry :| entry in idle {
      FirstInTime(front, entry);
      Order.FirstUnique(front, FirstEntry(idle), idle, EntryRank);
    }
  }

  lemma FirstInTime(a: Entry, b: Entry)
    requires a == b || Order.Less(EntryRank(a), EntryRank(b))
    ensures a.0 <= b.0
  {
    assert EntryRank(a)[0] == a.0 && EntryRank(b)[0] == b.0;
  }

  lemma NoneIdle(limits: Limits, blocks: Blocks, id: U32, clock: Option<int>)
    requires T.DeadlinesOn(limits, blocks, id) == {}
    ensures T.IdleOn(limits, blocks, id, clock) == {}
  {
  }

  lemma ClocksKeys(a: Scopes, b: Scopes)
    requires Clocks(a) == Clocks(b)
    ensures a.Keys == b.Keys
  {
    assert Clocks(a).Keys == a.Keys && Clocks(b).Keys == b.Keys;
  }

  lemma SoundCounts(limits: Limits, states: States, scopes: Scopes, blocks: Blocks, key: SessionKey)
    requires Sound(limits, states, scopes, blocks) && key in states && key in blocks && blocks[key] != []
    ensures Mirrors(states[key], blocks[key][0], blocks[key]) && Fits(states[key].row)
    ensures KeyOf(blocks[key][0].input) == key
  {
    hide AllTimed, AllQueued, AllBacked, Mirrors, Fits;
    assert Counts(key, states[key], blocks[key]);
  }

  /** After a packet is counted, only its session's deadline may be out of date, and it can only have moved later. */
  lemma GrownLoose(limits: Limits, states: States, scopes: Scopes, blocks: Blocks, key: SessionKey, s: State, x: Seen,
                   before: Block)
    requires Sound(limits, states, scopes, blocks) && KeyOf(x.input) == key
    requires before == if key in blocks then blocks[key] else []
    requires Mirrors(s, (before + [x])[0], before + [x]) && Fits(s.row)
    requires if key in states then SamePlace(s, states[key]) else !s.scheduled
    ensures Loose(limits, states[key := s], scopes, blocks[key := before + [x]], key)
    ensures HasEntry(states[key := s], scopes, key) && s.row.key == key
    ensures s.scheduled && Deadline(limits, s.row).Some? ==> s.deadline <= Deadline(limits, s.row).value
  {
    hide AllCounted, AllQueued, AllBacked, Mirrors, Fits, Deadline;
    SoundKeys(limits, states, scopes, blocks);
    GrownCounted(states, blocks, key, s, x, before);
    GrownQueues(states, scopes, key, s);
    GrownTimes(limits, states, blocks, key, s, x, before);
  }

  lemma GrownCounted(states: States, blocks: Blocks, key: SessionKey, s: State, x: Seen, before: Block)
    requires AllCounted(states, blocks) && KeyOf(x.input) == key
    requires before == if key in blocks then blocks[key] else []
    requires Mirrors(s, (before + [x])[0], before + [x]) && Fits(s.row)
    ensures AllCounted(states[key := s], blocks[key := before + [x]]) && s.row.key == key
  {
    hide RowOf, HandshakeOf, Fits, KeyOf;
    if key in states {
      assert Counts(key, states[key], blocks[key]);
    }
    RowLow((before + [x])[0], before + [x]);
  }

  lemma GrownQueues(states: States, scopes: Scopes, key: SessionKey, s: State)
    requires AllQueued(states, scopes) && AllBacked(states, scopes)
    requires if key in states then SamePlace(s, states[key]) else !s.scheduled
    ensures AllQueued(states[key := s], scopes) && AllBacked(states[key := s], scopes)
    ensures HasEntry(states[key := s], scopes, key)
  {
    var after := states[key := s];
    forall k | k in after
      ensures HasEntry(after, scopes, k)
    {
      assert k in states ==> HasEntry(states, scopes, k);
    }
    forall id, entry | id in scopes && entry in scopes[id].expiry
      ensures Backs(after, id, entry)
    {
      assert Backs(states, id, entry);
    }
  }

  lemma GrownTimes(limits: Limits, states: States, blocks: Blocks, key: SessionKey, s: State, x: Seen, before: Block)
    requires AllCounted(states, blocks) && AllTimed(limits, states)
    requires before == if key in blocks then blocks[key] else []
    requires Mirrors(s, (before + [x])[0], before + [x])
    requires if key in states then SamePlace(s, states[key]) else !s.scheduled
    ensures s.scheduled ==> s.queued <= s.deadline
    ensures s.scheduled && Deadline(limits, s.row).Some? ==> s.deadline <= Deadline(limits, s.row).value
  {
    hide RowOf, HandshakeOf, Deadline;
    if key in states {
      assert Timed(limits, states[key]) && Counts(key, states[key], blocks[key]);
      DeadlineMonotone(limits, before, x);
    }
  }

  function Rescheduled(limits: Limits, s: State): State {
    var deadline := Deadline(limits, s.row);
    if deadline.None? then s.(scheduled := false)
    else if s.scheduled then s.(deadline := deadline.value)
    else s.(deadline := deadline.value, queued := deadline.value, scheduled := true)
  }

  function Requeued(limits: Limits, scopes: Scopes, s: State): Scopes
    requires s.row.key.interfaceId in scopes
  {
    var id, deadline := s.row.key.interfaceId, Deadline(limits, s.row);
    if deadline.None? then WithoutEntry(scopes, s)
    else if s.scheduled then scopes
    else scopes[id := scopes[id].(expiry := scopes[id].expiry + {(deadline.value, s.row.key)})]
  }

  /** Everything but one session, whose row has just changed, has its deadline right. */
  ghost predicate Loose(limits: Limits, states: States, scopes: Scopes, blocks: Blocks, key: SessionKey) {
    && AllCounted(states, blocks) && AllQueued(states, scopes) && AllBacked(states, scopes)
    && (forall k | k in states && k != key :: Timed(limits, states[k]))
    && key in states && (states[key].scheduled ==> states[key].queued <= states[key].deadline)
  }

  lemma RescheduleSound(limits: Limits, states: States, scopes: Scopes, blocks: Blocks, key: SessionKey)
    requires Loose(limits, states, scopes, blocks, key) && states[key].row.key == key && key.interfaceId in scopes
    requires states[key].scheduled && Deadline(limits, states[key].row).Some? ==>
      states[key].deadline <= Deadline(limits, states[key].row).value
    ensures Sound(limits, states[key := Rescheduled(limits, states[key])], Requeued(limits, scopes, states[key]), blocks)
    ensures Clocks(Requeued(limits, scopes, states[key])) == Clocks(scopes)
  {
    hide AllCounted, AllQueued, AllBacked, Deadline;
    var s := states[key];
    CountsKept(states, blocks, key, Rescheduled(limits, s));
    RequeueQueued(limits, states, scopes, key);
    RequeueBacked(limits, states, scopes, key);
  }

  lemma RequeueQueued(limits: Limits, states: States, scopes: Scopes, key: SessionKey)
    requires AllQueued(states, scopes) && key in states && states[key].row.key == key && key.interfaceId in scopes
    ensures AllQueued(states[key := Rescheduled(limits, states[key])], Requeued(limits, scopes, states[key]))
  {
    hide Deadline;
    var after, left := states[key := Rescheduled(limits, states[key])], Requeued(limits, scopes, states[key]);
    forall k | k in after
      ensures HasEntry(after, left, k)
    {
      assert HasEntry(states, scopes, k);
    }
  }

  lemma RequeueBacked(limits: Limits, states: States, scopes: Scopes, key: SessionKey)
    requires AllBacked(states, scopes) && key in states && states[key].row.key == key && key.interfaceId in scopes
    ensures AllBacked(states[key := Rescheduled(limits, states[key])], Requeued(limits, scopes, states[key]))
  {
    hide Deadline;
    var after, left := states[key := Rescheduled(limits, states[key])], Requeued(limits, scopes, states[key]);
    forall id, entry | id in left && entry in left[id].expiry
      ensures Backs(after, id, entry)
    {
      if id in scopes && entry in scopes[id].expiry {
        assert Backs(states, id, entry);
      }
    }
  }

  lemma GrownAsTallied(first: Seen, block: Block, x: Seen)
    ensures var low := OrigIsLow(first);
      var sent, row, h := SentBy(x, low), RowOf(first, block), HandshakeOf(block, low);
      var g := Following(h, x.input.packet, sent);
      && row.origIsLow == low
      && HandshakeOf(block + [x], low) == g
      && RowOf(first, block + [x]) ==
           Tallied(row, x, sent).(handshakeComplete := g.complete, simultaneousOpen := g.simultaneous)
      && Fits(RowOf(first, block + [x])) == Fits(Tallied(row, x, sent))
  {
    hide RowOf, HandshakeOf, Following, CountedIn, CountersFit, Widened, Untimed, Late, FromLow;
    RowMore(first, block, x);
    HandshakeMore(block, x, OrigIsLow(first));
    RowLow(first, block);
  }

  function WithShake(s: State, h: Handshake): State {
    s.(orig := h.orig, resp := h.resp, closed := h.closed,
       row := s.row.(handshakeComplete := h.complete, simultaneousOpen := h.simultaneous))
  }

  /** A session keeps its place in the queue. */
  predicate SamePlace(s: State, t: State) {
    s.scheduled == t.scheduled && s.deadline == t.deadline && s.queued == t.queued
  }

  lemma RowLow(first: Seen, block: Block)
    ensures RowOf(first, block).origIsLow == OrigIsLow(first)
    ensures RowOf(first, block).key == KeyOf(first.input)
    ensures RowOf(first, block).resetSeen == Carries(block, RST)
    ensures RowOf(first, block).finSeen == Carries(block, FIN)
  {
  }

  lemma SoundKey(limits: Limits, states: States, scopes: Scopes, blocks: Blocks, key: SessionKey)
    requires Sound(limits, states, scopes, blocks) && key in states
    ensures key in blocks && blocks[key] != [] && states[key].row == SummaryOf(blocks[key])
    ensures states[key].row.key == key && HasEntry(states, scopes, key)
    ensures states[key].scheduled ==> key.interfaceId in scopes
  {
    hide AllTimed, AllBacked, Counts;
    KeyKept(states, blocks, key);
  }

  lemma SoundKeys(limits: Limits, states: States, scopes: Scopes, blocks: Blocks)
    requires Sound(limits, states, scopes, blocks)
    ensures states.Keys == blocks.Keys && |states| == |blocks|
  {
    assert |states| == |states.Keys| && |blocks| == |blocks.Keys|;
  }

  lemma DropStates(states: States, s: State, key: SessionKey)
    requires key in states
    ensures states[key := s] - {key} == states - {key} && |states - {key}| < |states|
  {
    assert (states - {key}).Keys == states.Keys - {key};
    assert |states - {key}| == |(states - {key}).Keys| && |states| == |states.Keys|;
  }

  lemma DropClocks(scopes: Scopes, s: State)
    requires s.scheduled ==> s.row.key.interfaceId in scopes
    ensures Clocks(WithoutEntry(scopes, s)) == Clocks(scopes) && WithoutEntry(scopes, s).Keys == scopes.Keys
  {
  }

  lemma FrontChosen(limits: Limits, states: States, scopes: Scopes, blocks: Blocks, id: U32, front: Entry)
    requires Sound(limits, states, scopes, blocks)
    requires Order.IsFirst(front, T.DeadlinesOn(limits, blocks, id), EntryRank)
    ensures blocks != map[] && front.1 in states && front.1 == T.Evictable(limits, blocks, id)
  {
    hide T.Deadlines, AllTimed, AllQueued, AllBacked, Counts;
    var entries := T.DeadlinesOn(limits, blocks, id);
    Order.FirstUnique(front, FirstEntry(entries), entries, EntryRank);
    T.DeadlineOpen(limits, blocks, front);
  }

  lemma OnlyDeadlines(limits: Limits, blocks: Blocks, id: U32)
    ensures T.DeadlinesOn(limits, blocks, id) <= T.Deadlines(limits, blocks)
  {
    hide T.Deadlines;
  }

  lemma FirstOfBoth(soonest: Option<Entry>, front: Entry, seen: set<Entry>, more: set<Entry>)
    requires if soonest.None? then seen == {} else Order.IsFirst(soonest.value, seen, EntryRank)
    requires Order.IsFirst(front, more, EntryRank)
    ensures var first := if soonest.None? || Order.Less(EntryRank(front), EntryRank(soonest.value)) then front else soonest.value;
      Order.IsFirst(first, seen + more, EntryRank)
  {
    if soonest.Some? {
      var a, b := soonest.value, front;
      Order.LessTotal(EntryRank(a), EntryRank(b));
      if EntryRank(a) == EntryRank(b) {
        EntryRankInjective(a, b);
      }
      var first := if Order.Less(EntryRank(b), EntryRank(a)) then (b, a) else (a, b);
      forall y | y in seen + more
        ensures y == first.0 || Order.Less(EntryRank(first.0), EntryRank(y))
      {
        if y != first.0 && y != first.1 && Order.Less(EntryRank(first.1), EntryRank(y)) && first.0 != first.1 {
          Order.LessTransitive(EntryRank(first.0), EntryRank(first.1), EntryRank(y));
        }
      }
    }
  }

  lemma AllScopesSeen(limits: Limits, states: States, scopes: Scopes, blocks: Blocks, seen: set<Entry>)
    requires Sound(limits, states, scopes, blocks)
    requires forall i | i in scopes :: T.DeadlinesOn(limits, blocks, i) <= seen
    requires seen <= T.Deadlines(limits, blocks)
    ensures seen == T.Deadlines(limits, blocks)
  {
    hide T.Deadlines, AllCounted, AllTimed, AllBacked;
    forall entry | entry in T.Deadlines(limits, blocks)
      ensures entry in seen
    {
      DeadlinesQueued(limits, states, scopes, blocks, entry);
      assert HasEntry(states, scopes, entry.1);
      assert entry in T.DeadlinesOn(limits, blocks, entry.1.interfaceId);
    }
  }

  /** The front of the queue is the first of the true deadlines. */
  ghost predicate FrontFresh(limits: Limits, expiry: set<Entry>, blocks: Blocks, id: U32) {
    exists front :: Order.IsFirst(front, expiry, EntryRank)
                    && Order.IsFirst(front, T.DeadlinesOn(limits, blocks, id), EntryRank)
  }

  lemma SoundEntry(limits: Limits, states: States, scopes: Scopes, blocks: Blocks, id: U32, entry: Entry)
    requires Sound(limits, states, scopes, blocks) && id in scopes && entry in scopes[id].expiry
    ensures Backs(states, id, entry) && states[entry.1].deadline >= entry.0
  {
    hide AllCounted, Deadline;
    assert Backs(states, id, entry) && Timed(limits, states[entry.1]);
  }

  lemma MoveFreshens(limits: Limits, states: States, scopes: Scopes, blocks: Blocks, id: U32, entry: Entry)
    requires Sound(limits, states, scopes, blocks) && id in scopes && entry in scopes[id].expiry
    requires entry.1 in states && states[entry.1].deadline != entry.0
    ensures |Stale(states[entry.1 := Moved(states[entry.1])], MovedIn(scopes[id], entry, states[entry.1].deadline))|
      < |Stale(states, scopes[id])|
  {
    hide AllCounted, AllTimed, AllQueued;
    var scope := scopes[id];
    var after, left := states[entry.1 := Moved(states[entry.1])], MovedIn(scope, entry, states[entry.1].deadline);
    assert Backs(states, id, entry);
    assert entry.1 in Stale(states, scope);
    forall key | key in Stale(after, left)
      ensures key in Stale(states, scope) && key != entry.1
    {
      var e :| e in left.expiry && e.1 == key && e.1 in after && after[key].deadline != e.0;
      assert Backs(states, id, e);
    }
    Smaller(Stale(after, left), Stale(states, scope), entry.1);
  }

  lemma Smaller<K>(a: set<K>, b: set<K>, k: K)
    requires a <= b - {k} && k in b
    ensures |a| < |b|
  {
    var rest := b - {k} - a;
    assert b == a + rest + {k};
  }
}
