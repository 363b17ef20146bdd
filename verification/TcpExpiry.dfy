/** What idle expiry does to the table, and what every step keeps of the interface clocks. */
module TcpExpiry {
  import opened Basics
  import opened TcpTypes
  import opened StreamAssembly
  import opened TcpTable
  import Order

  // ---------------------------------------------------------------- expiry takes exactly the idle directions, in order

  /** The idle directions of a scope by (deadline, key). */
  ghost function IdleOrder(flows: map<FlowKey, Tracked>, scope: ScopeKey, watermark: int): seq<Entry>
    decreases |flows|
  {
    if IdleEntries(flows, scope, watermark) == {} then []
    else
      var first := FirstEntry(IdleEntries(flows, scope, watermark));
      [first] + IdleOrder(flows - {first.1}, scope, watermark)
  }

  /** The streams of some directions, one after another. */
  ghost function FinishedInOrder(limits: Limits, flows: map<FlowKey, Tracked>, entries: seq<Entry>): seq<Stream>
    requires forall i | 0 <= i < |entries| :: entries[i].1 in flows
  {
    if entries == [] then []
    else Finished(limits, entries[0].1, flows[entries[0].1].dir, ByIdleTimeout) + FinishedInOrder(limits, flows, entries[1..])
  }

  ghost function KeysOf(entries: seq<Entry>): set<FlowKey> {
    set i | 0 <= i < |entries| :: entries[i].1
  }

  lemma IdleListed(flows: map<FlowKey, Tracked>, scope: ScopeKey, watermark: int, key: FlowKey)
    requires Idle(flows, key, scope, watermark)
    ensures (flows[key].deadline.value, key) in IdleEntries(flows, scope, watermark)
  {
  }

  lemma IdleWithout(flows: map<FlowKey, Tracked>, scope: ScopeKey, watermark: int, entry: Entry)
    requires entry in IdleEntries(flows, scope, watermark)
    ensures IdleEntries(flows - {entry.1}, scope, watermark) == IdleEntries(flows, scope, watermark) - {entry}
  {
    var less := flows - {entry.1};
    forall other | other in IdleEntries(less, scope, watermark)
      ensures other in IdleEntries(flows, scope, watermark) - {entry}
    {
      assert Idle(less, other.1, scope, watermark);
      assert Idle(flows, other.1, scope, watermark);
    }
    forall other | other in IdleEntries(flows, scope, watermark) - {entry}
      ensures other in IdleEntries(less, scope, watermark)
    {
      assert Idle(flows, other.1, scope, watermark) && other.1 != entry.1;
      assert Idle(less, other.1, scope, watermark);
    }
  }

  ghost function Listed(entries: seq<Entry>): set<Entry> {
    set i | 0 <= i < |entries| :: entries[i]
  }

  lemma ListedMore(first: Entry, rest: seq<Entry>)
    ensures Listed([first] + rest) == {first} + Listed(rest)
  {
    var all := [first] + rest;
    forall entry | entry in {first} + Listed(rest)
      ensures entry in Listed(all)
    {
      if entry == first {
        assert all[0] == entry;
      } else {
        var i :| 0 <= i < |rest| && rest[i] == entry;
        assert all[i + 1] == entry;
      }
    }
  }

  /** The order lists each idle direction once, earliest deadline first and ties by key. */
  lemma {:induction false} IdleOrderExact(flows: map<FlowKey, Tracked>, scope: ScopeKey, watermark: int)
    ensures var order := IdleOrder(flows, scope, watermark);
      && Listed(order) == IdleEntries(flows, scope, watermark)
      && forall i, j | 0 <= i < j < |order| :: Order.Less(EntryRank(order[i]), EntryRank(order[j]))
    decreases |flows|
  {
    var idle := IdleEntries(flows, scope, watermark);
    if idle != {} {
      var first := FirstEntry(idle);
      IdleWithout(flows, scope, watermark, first);
      IdleOrderExact(flows - {first.1}, scope, watermark);
      SortedMore(first, IdleOrder(flows - {first.1}, scope, watermark), idle);
    }
  }

  lemma SortedMore(first: Entry, rest: seq<Entry>, all: set<Entry>)
    requires Order.IsFirst(first, all, EntryRank) && Listed(rest) == all - {first}
    requires forall i, j | 0 <= i < j < |rest| :: Order.Less(EntryRank(rest[i]), EntryRank(rest[j]))
    ensures Listed([first] + rest) == all
    ensures var order := [first] + rest;
      forall i, j | 0 <= i < j < |order| :: Order.Less(EntryRank(order[i]), EntryRank(order[j]))
  {
    hide Order.Less;
    ListedMore(first, rest);
    forall j | 0 <= j < |rest|
      ensures Order.Less(EntryRank(first), EntryRank(rest[j]))
    {
      assert rest[j] in Listed(rest);
    }
  }

  /** The directions of an order are gone, their streams are out in that order, and nothing else changed. */
  ghost predicate RemovedInOrder(limits: Limits, t: Table, order: seq<Entry>, after: (Table, seq<Stream>)) {
    && (forall i | 0 <= i < |order| :: order[i].1 in t.flows)
    && after.0.flows == t.flows - KeysOf(order)
    && after.1 == FinishedInOrder(limits, t.flows, order)
    && after.0.nextId == t.nextId
  }

  /** Expiry removes exactly the idle directions and emits their streams in that order; nothing else changes. */
  lemma {:induction false} ExpireAllExact(limits: Limits, t: Table, scope: ScopeKey, watermark: int)
    ensures RemovedInOrder(limits, t, IdleOrder(t.flows, scope, watermark), ExpireAll(limits, t, scope, watermark))
    decreases |t.flows|
  {
    hide *;
    var idle := IdleEntries(t.flows, scope, watermark);
    if idle == {} {
      NoneExpired(limits, t, scope, watermark);
    } else {
      var first := FirstEntry(idle);
      FirstIdleTracked(t.flows, scope, watermark);
      RemovedIs(limits, t, first.1, ByIdleTimeout);
      var removal := Removed(limits, t, first.1, ByIdleTimeout);
      FewerFlows(t.flows, first.1);
      ExpireAllExact(limits, removal.0, scope, watermark);
      ExpireStep(limits, t, scope, watermark);
      FirstRemoved(limits, t, first, IdleOrder(t.flows - {first.1}, scope, watermark), removal,
                   ExpireAll(limits, removal.0, scope, watermark));
    }
  }

  lemma FewerFlows(flows: map<FlowKey, Tracked>, key: FlowKey)
    requires key in flows
    ensures |flows - {key}| < |flows|
  {
    assert (flows - {key}).Keys == flows.Keys - {key};
    assert |flows - {key}| == |(flows - {key}).Keys| && |flows| == |flows.Keys|;
  }

  lemma NoneExpired(limits: Limits, t: Table, scope: ScopeKey, watermark: int)
    requires IdleEntries(t.flows, scope, watermark) == {}
    ensures RemovedInOrder(limits, t, IdleOrder(t.flows, scope, watermark), ExpireAll(limits, t, scope, watermark))
  {
    hide Finished, KeysOf, FinishedInOrder;
    NoneFinished(limits, t.flows);
  }

  lemma ExpireStep(limits: Limits, t: Table, scope: ScopeKey, watermark: int)
    requires IdleEntries(t.flows, scope, watermark) != {}
    ensures var first := FirstEntry(IdleEntries(t.flows, scope, watermark));
      var removal := Removed(limits, t, first.1, ByIdleTimeout);
      var rest := ExpireAll(limits, removal.0, scope, watermark);
      && ExpireAll(limits, t, scope, watermark) == (rest.0, removal.1 + rest.1)
      && IdleOrder(t.flows, scope, watermark) == [first] + IdleOrder(t.flows - {first.1}, scope, watermark)
  {
    hide Removed, IdleEntries;
  }

  lemma FirstRemoved(limits: Limits, t: Table, first: Entry, order: seq<Entry>, removal: (Table, seq<Stream>),
                     rest: (Table, seq<Stream>))
    requires first.1 in t.flows && removal.0.flows == t.flows - {first.1} && removal.0.nextId == t.nextId
    requires removal.1 == Finished(limits, first.1, t.flows[first.1].dir, ByIdleTimeout)
    requires RemovedInOrder(limits, removal.0, order, rest)
    ensures RemovedInOrder(limits, t, [first] + order, (rest.0, removal.1 + rest.1))
  {
    hide Finished, KeysOf, FinishedInOrder;
    OneMoreFinished(limits, t.flows, first, order);
  }

  lemma FirstIdleTracked(flows: map<FlowKey, Tracked>, scope: ScopeKey, watermark: int)
    requires IdleEntries(flows, scope, watermark) != {}
    ensures FirstEntry(IdleEntries(flows, scope, watermark)).1 in flows
  {
  }

  lemma NoneFinished(limits: Limits, flows: map<FlowKey, Tracked>)
    ensures FinishedInOrder(limits, flows, []) == [] && flows - KeysOf([]) == flows
  {
  }

  lemma RemovedIs(limits: Limits, t: Table, key: FlowKey, cause: Finalizer)
    requires key in t.flows
    ensures var removal := Removed(limits, t, key, cause);
      && removal.0.flows == t.flows - {key} && removal.0.nextId == t.nextId
      && removal.1 == Finished(limits, key, t.flows[key].dir, cause)
  {
    hide Finished;
  }

  lemma OneMoreFinished(limits: Limits, flows: map<FlowKey, Tracked>, first: Entry, rest: seq<Entry>)
    requires first.1 in flows
    requires forall i | 0 <= i < |rest| :: rest[i].1 in flows - {first.1}
    ensures flows - {first.1} - KeysOf(rest) == flows - KeysOf([first] + rest)
    ensures FinishedInOrder(limits, flows, [first] + rest)
         == Finished(limits, first.1, flows[first.1].dir, ByIdleTimeout) + FinishedInOrder(limits, flows - {first.1}, rest)
  {
    hide Finished;
    assert ([first] + rest)[1..] == rest;
    KeysOfMore(first, rest);
    SameFinished(limits, flows - {first.1}, flows, rest);
  }

  lemma KeysOfMore(first: Entry, rest: seq<Entry>)
    ensures KeysOf([first] + rest) == {first.1} + KeysOf(rest)
  {
    var all := [first] + rest;
    forall key | key in {first.1} + KeysOf(rest)
      ensures key in KeysOf(all)
    {
      if key == first.1 {
        assert all[0].1 == key;
      } else {
        var i :| 0 <= i < |rest| && rest[i].1 == key;
        assert all[i + 1].1 == key;
      }
    }
  }

  lemma {:induction false} SameFinished(limits: Limits, some: map<FlowKey, Tracked>, all: map<FlowKey, Tracked>, entries: seq<Entry>)
    requires forall key | key in some :: key in all && some[key] == all[key]
    requires forall i | 0 <= i < |entries| :: entries[i].1 in some
    ensures FinishedInOrder(limits, some, entries) == FinishedInOrder(limits, all, entries)
  {
    hide Finished;
    if entries != [] {
      SameFinished(limits, some, all, entries[1..]);
    }
  }

  // ---------------------------------------------------------------- clocks

  /** No scheduled direction is overdue by its interface's clock, except perhaps in one scope. */
  ghost predicate NoneOverdue(t: Table, except: Option<ScopeKey>) {
    forall key, scope | ScheduledIn(t.flows, key, scope) ::
      scope in t.clocks && (except == Some(scope) || t.clocks[scope] <= t.flows[key].deadline.value)
  }

  /** Every clock is some scheduled direction's. */
  ghost predicate ClocksUsed(t: Table) {
    forall scope | scope in t.clocks :: exists key :: ScheduledIn(t.flows, key, scope)
  }

  ghost predicate ClocksRight(t: Table) {
    NoneOverdue(t, None) && ClocksUsed(t)
  }

  lemma SettledUses(flows: map<FlowKey, Tracked>, before: Table, scope: ScopeKey)
    requires ClocksUsed(before)
    requires forall key, other | ScheduledIn(before.flows, key, other) && other != scope :: ScheduledIn(flows, key, other)
    ensures ClocksUsed(before.(flows := flows, clocks := Settled(flows, before.clocks, scope)))
  {
    var clocks := Settled(flows, before.clocks, scope);
    forall other | other in clocks
      ensures exists key :: ScheduledIn(flows, key, other)
    {
      if other != scope {
        var key :| ScheduledIn(before.flows, key, other);
        assert ScheduledIn(flows, key, other);
      }
    }
  }

  lemma RemovedClocks(limits: Limits, t: Table, key: FlowKey, cause: Finalizer, except: Option<ScopeKey>)
    requires NoneOverdue(t, except) && ClocksUsed(t)
    ensures NoneOverdue(Removed(limits, t, key, cause).0, except)
    ensures ClocksUsed(Removed(limits, t, key, cause).0)
  {
    hide Finished;
    if key in t.flows {
      var flows, scope := t.flows - {key}, key.Scope();
      forall other, place | ScheduledIn(t.flows, other, place) && place != scope
        ensures ScheduledIn(flows, other, place)
      {
      }
      SettledUses(flows, t, scope);
      forall other, place | ScheduledIn(flows, other, place)
        ensures ScheduledIn(t.flows, other, place)
      {
      }
    }
  }

  lemma {:induction false} ExpireAllClocks(limits: Limits, t: Table, scope: ScopeKey)
    requires scope in t.clocks ==> NoneOverdue(t, Some(scope))
    requires scope !in t.clocks ==> NoneOverdue(t, None)
    requires ClocksUsed(t)
    ensures scope in t.clocks ==> ClocksRight(ExpireAll(limits, t, scope, t.clocks[scope]).0)
    decreases |t.flows|
  {
    hide Finished;
    if scope in t.clocks {
      var watermark := t.clocks[scope];
      var idle := IdleEntries(t.flows, scope, watermark);
      if idle == {} {
        forall key, place | ScheduledIn(t.flows, key, place)
          ensures place in t.clocks && t.clocks[place] <= t.flows[key].deadline.value
        {
          if Idle(t.flows, key, scope, watermark) {
            IdleListed(t.flows, scope, watermark, key);
          }
        }
      } else {
        var first := FirstEntry(idle);
        var next := Removed(limits, t, first.1, ByIdleTimeout).0;
        RemovedClocks(limits, t, first.1, ByIdleTimeout, Some(scope));
        if scope in next.clocks {
          ExpireAllClocks(limits, next, scope);
        } else {
          forall key, place | ScheduledIn(next.flows, key, place)
            ensures place in next.clocks && next.clocks[place] <= next.flows[key].deadline.value
          {
          }
          assert IdleEntries(next.flows, scope, watermark) == {} by {
            assert forall key :: !ScheduledIn(next.flows, key, scope);
          }
        }
      }
    }
  }

  /** Expiry leaves no direction overdue, even when the clock stepped back. */
  lemma ExpiredClocks(limits: Limits, t: Table, key: FlowKey, stamp: PacketStamp)
    requires ClocksRight(t)
    ensures ClocksRight(Expired(limits, t, key, stamp).0)
    ensures stamp.hasTimestamp && key.Scope() in Expired(limits, t, key, stamp).0.clocks ==>
              stamp.timestamp <= Expired(limits, t, key, stamp).0.clocks[key.Scope()] <= stamp.timestamp + limits.tcpIdle
  {
    var scope := key.Scope();
    if stamp.hasTimestamp && scope in t.clocks {
      var clock := Advanced(limits, t.clocks[scope], stamp.timestamp);
      var ticked := t.(clocks := t.clocks[scope := clock]);
      ExpireAllClocks(limits, ticked, scope);
      ExpireAllClock(limits, ticked, scope, clock);
    }
  }

  /** Expiry itself moves no clock. */
  lemma {:induction false} ExpireAllClock(limits: Limits, t: Table, scope: ScopeKey, watermark: int)
    ensures var after := ExpireAll(limits, t, scope, watermark).0;
      forall place | place in after.clocks :: place in t.clocks && after.clocks[place] == t.clocks[place]
    decreases |t.flows|
  {
    hide Finished;
    if IdleEntries(t.flows, scope, watermark) != {} {
      var next := Removed(limits, t, FirstEntry(IdleEntries(t.flows, scope, watermark)).1, ByIdleTimeout).0;
      ExpireAllClock(limits, next, scope, watermark);
    }
  }

  /** Scheduling keeps the clocks right, given what expiry just left of this packet's clock. */
  lemma ScheduledClocks(limits: Limits, t: Table, key: FlowKey, stamp: PacketStamp)
    requires ClocksRight(t) && key in t.flows
    requires stamp.hasTimestamp && key.Scope() in t.clocks ==>
      stamp.timestamp <= t.clocks[key.Scope()] <= stamp.timestamp + limits.tcpIdle
    ensures ClocksRight(Scheduled(limits, t, key, stamp))
  {
    var f := t.flows[key].(untimed := t.flows[key].untimed || !stamp.hasTimestamp);
    var deadline, scope := stamp.timestamp + limits.tcpIdle, key.Scope();
    var after := Scheduled(limits, t, key, stamp);
    forall other, place | place != scope || other != key
      ensures ScheduledIn(after.flows, other, place) == ScheduledIn(t.flows, other, place)
    {
    }
    if f.untimed || limits.tcpIdle <= 0 || deadline > I64_MAX {
      if f.deadline.Some? {
        SettledUses(after.flows, t, scope);
      }
      assert ClocksUsed(after);
      assert NoneOverdue(after, None);
    } else {
      assert ScheduledIn(after.flows, key, scope);
      assert ClocksUsed(after);
      assert NoneOverdue(after, None);
    }
  }
}
