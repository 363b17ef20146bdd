/** Whole runs of the TLS assembler: what is reported, what is kept, and when eviction can fail. */
module TlsRuns {
  import opened Basics
  import opened TcpTypes
  import opened TlsMerge
  import opened TlsTable
  import A = TlsAssembler
  import MapSum

  // ---------------------------------------------------------------- the place a direction is held from

  /** Whether a direction gets as far as being held for its peer. */
  predicate ReachesHold(t: Table, d: TlsDirection) {
    if d.key !in t.pending then true
    else
      var held := t.pending[d.key];
      if held.client == d.client then !(d.needsConfirmation && !held.needsConfirmation)
      else Unpaired(held, d) && (held.last.number < d.first.number || !d.needsConfirmation)
  }

  function BeforeHold(t: Table, d: TlsDirection): seq<Pair> {
    if d.key !in t.pending then []
    else
      var held := t.pending[d.key];
      if held.client == d.client || held.last.number < d.first.number then Alone(held) else []
  }

  /** Every path that holds a direction does so from the table without its tuple. */
  lemma PlacedReaches(maxPending: nat, t: Table, d: TlsDirection)
    requires ReachesHold(t, d)
    ensures Placed(maxPending, t, d) == Waiting(maxPending, Released(t, d.key), d, BeforeHold(t, d))
  {
    hide Waiting, Unpaired, Alone;
    if d.key !in t.pending {
      assert t.pending - {d.key} == t.pending;
    }
  }

  predicate Arrives(t: Table, stream: Arrival) {
    stream.direction.hellos != [] && !(stream.direction.needsConfirmation && Refuted(t.refuters, stream.direction))
  }

  // ---------------------------------------------------------------- what every reachable table keeps

  /** Held directions sit under their own key, have hellos, and no remembered stream refutes a find among them. */
  ghost predicate Proper(t: Table) {
    forall key | key in t.pending ::
      && t.pending[key].key == key && t.pending[key].hellos != []
      && (t.pending[key].needsConfirmation ==> !Refuted(t.refuters, t.pending[key]))
  }

  /** The share of finds and the size of the table stay within their limits. */
  ghost predicate Bounded(maxPending: nat, t: Table) {
    && UnconfirmedCount(t.pending) <= UnconfirmedRoom(maxPending)
    && |t.pending| <= maxPending
    && |t.refuters| <= Max(1, maxPending)
  }

  lemma ReleasedKeeps(maxPending: nat, t: Table, key: FlowKey)
    requires Proper(t) && Bounded(maxPending, t)
    ensures Proper(Released(t, key)) && Bounded(maxPending, Released(t, key))
  {
    hide UnconfirmedCount, Refuted;
    if key in t.pending {
      A.CountWithout(t.pending, key);
    } else {
      assert t.pending - {key} == t.pending;
    }
  }

  lemma {:induction false} EvictedKeeps(maxPending: nat, t: Table)
    requires Proper(t) && Bounded(maxPending, t)
    ensures Proper(Evicted(t)) && Bounded(maxPending, Evicted(t)) && Evicted(t).refuters == t.refuters
    ensures forall key | key in Evicted(t).pending :: key in t.pending
    decreases |t.order|
  {
    hide Proper, Bounded, Unconfirmed;
    if t.order != [] {
      var rest := t.(order := t.order[1..]);
      OrderKeeps(maxPending, t, t.order[1..]);
      if Unconfirmed(t.pending, t.order[0]) {
        ReleasedKeeps(maxPending, rest, t.order[0]);
      } else {
        EvictedKeeps(maxPending, rest);
      }
    }
  }

  lemma OrderKeeps(maxPending: nat, t: Table, order: seq<FlowKey>)
    requires Proper(t) && Bounded(maxPending, t)
    ensures Proper(t.(order := order)) && Bounded(maxPending, t.(order := order))
  {
  }

  lemma HeldKeeps(maxPending: nat, t: Table, d: TlsDirection)
    requires Proper(t) && Bounded(maxPending, t) && d.key !in t.pending && |t.pending| < maxPending
    requires d.hellos != [] && (d.needsConfirmation ==> !Refuted(t.refuters, d))
    requires d.needsConfirmation ==> UnconfirmedCount(t.pending) < UnconfirmedRoom(maxPending)
    ensures Proper(t.(pending := t.pending[d.key := d])) && Bounded(maxPending, t.(pending := t.pending[d.key := d]))
  {
    hide UnconfirmedCount, Refuted;
    A.CountWith(t.pending, d);
  }

  lemma HoldKeeps(maxPending: nat, t: Table, d: TlsDirection)
    requires Proper(t) && Bounded(maxPending, t) && d.key !in t.pending
    requires d.hellos != [] && (d.needsConfirmation ==> !Refuted(t.refuters, d))
    ensures Hold(maxPending, t, d).Held? ==>
      Proper(Hold(maxPending, t, d).table) && Bounded(maxPending, Hold(maxPending, t, d).table)
  {
    hide Proper, Bounded, UnconfirmedCount, Evicted, Refuted, Compacted;
    if Hold(maxPending, t, d).Held? {
      var full := |t.pending| >= maxPending;
      var freed := if full then Evicted(t) else t;
      EvictedKeeps(maxPending, t);
      var queued := if d.needsConfirmation then Queued(maxPending, freed, d.key) else freed;
      OrderKeeps(maxPending, freed, queued.order);
      HeldKeeps(maxPending, queued, d);
    }
  }

  lemma PlacedKeeps(maxPending: nat, t: Table, d: TlsDirection)
    requires Proper(t) && Bounded(maxPending, t)
    requires d.hellos != [] && (d.needsConfirmation ==> !Refuted(t.refuters, d))
    ensures Proper(Placed(maxPending, t, d).0) && Bounded(maxPending, Placed(maxPending, t, d).0)
  {
    hide Proper, Bounded, Hold, Alone, Refuted, Confirms;
    ReleasedKeeps(maxPending, t, d.key);
    if ReachesHold(t, d) {
      PlacedReaches(maxPending, t, d);
      HoldKeeps(maxPending, Released(t, d.key), d);
    }
  }

  lemma RefuteSideKeeps(maxPending: nat, t: Table, stream: Arrival, clientSide: bool)
    requires Proper(t) && Bounded(maxPending, t)
    ensures Proper(RefuteSide(maxPending, t, stream, clientSide)) && Bounded(maxPending, RefuteSide(maxPending, t, stream, clientSide))
  {
    hide UnconfirmedCount;
    var key := if clientSide then stream.key.Reverse() else stream.key;
    if Unconfirmed(t.pending, key) && t.pending[key].client == clientSide
       && Overlaps(stream.first, stream.last, t.pending[key].first, t.pending[key].last) {
      ReleasedKeeps(maxPending, t, key);
    } else {
      forall k | k in t.pending && t.pending[k].needsConfirmation
        ensures !Refuted(RefuteSide(maxPending, t, stream, clientSide).refuters, t.pending[k])
      {
        RememberedRefutes(maxPending, t.refuters, Refuter(key, clientSide, stream.first, stream.last), t.pending[k]);
      }
    }
  }

  lemma RememberedRefutes(maxPending: nat, refuters: seq<Refuter>, refuter: Refuter, found: TlsDirection)
    ensures Refuted(Remember(maxPending, refuters, refuter), found) ==> Refuted(refuters, found) || RefutedBy(refuter, found)
  {
    var after := Remember(maxPending, refuters, refuter);
    if Refuted(after, found) {
      var i :| 0 <= i < |after| && RefutedBy(after[i], found);
      assert after[i] == refuter || after[i] in refuters;
      if after[i] in refuters {
        var j :| 0 <= j < |refuters| && refuters[j] == after[i];
      }
    }
  }

  /** Every call keeps the table proper and within its limits: the finds held are at most their share of the room,
      the table never outgrows it, and a find whose peer was plainly not TLS is not held, whichever came first. */
  lemma AddKeeps(maxPending: nat, t: Table, stream: Arrival)
    requires Proper(t) && Bounded(maxPending, t)
    ensures Proper(Add(maxPending, t, stream).0) && Bounded(maxPending, Add(maxPending, t, stream).0)
  {
    hide Proper, Bounded, RefuteSide, Placed, Refuted;
    if Arrives(t, stream) {
      PlacedKeeps(maxPending, t, stream.direction);
    } else if stream.direction.hellos == [] {
      RefuteSideKeeps(maxPending, t, stream, true);
      RefuteSideKeeps(maxPending, RefuteSide(maxPending, t, stream, true), stream, false);
    }
  }

  // ---------------------------------------------------------------- the queue of finds

  ghost predicate AllQueued(t: Table) {
    forall key | Unconfirmed(t.pending, key) :: key in t.order
  }

  /** Eviction frees a place exactly when some queued key is a find still held. */
  lemma {:induction false} EvictedFrees(t: Table)
    ensures |Evicted(t).pending| < |t.pending| <==> exists i | 0 <= i < |t.order| :: Unconfirmed(t.pending, t.order[i])
    ensures !(exists i | 0 <= i < |t.order| :: Unconfirmed(t.pending, t.order[i])) ==> Evicted(t).pending == t.pending
    decreases |t.order|
  {
    if t.order != [] {
      if Unconfirmed(t.pending, t.order[0]) {
        A.CountWithout(t.pending, t.order[0]);
      } else {
        var rest := t.(order := t.order[1..]);
        EvictedFrees(rest);
        forall i | 0 <= i < |t.order| && Unconfirmed(t.pending, t.order[i])
          ensures exists j | 0 <= j < |rest.order| :: Unconfirmed(rest.pending, rest.order[j])
        {
          assert rest.order[i - 1] == t.order[i];
        }
      }
    }
  }

  lemma {:induction false} EvictedQueued(t: Table)
    requires AllQueued(t)
    ensures AllQueued(Evicted(t))
    decreases |t.order|
  {
    if t.order != [] {
      var rest := t.(order := t.order[1..]);
      if Unconfirmed(t.pending, t.order[0]) {
        forall key | Unconfirmed(Evicted(t).pending, key)
          ensures key in rest.order
        {
          assert Unconfirmed(t.pending, key);
        }
      } else {
        EvictedQueued(rest);
      }
    }
  }

  lemma {:induction false} CompactedKeeps(pending: map<FlowKey, TlsDirection>, order: seq<FlowKey>, key: FlowKey)
    ensures key in Compacted(pending, order) <==> key in order && Unconfirmed(pending, key)
  {
    if order != [] {
      CompactedKeeps(pending, order[..|order| - 1], key);
      assert order == order[..|order| - 1] + [order[|order| - 1]];
    }
  }

  /** Compaction looks at the table before the new find is in it, so it drops the key just queued. */
  lemma QueuedOrNot(maxPending: nat, t: Table, key: FlowKey)
    requires key !in t.pending
    ensures key in Queued(maxPending, t, key).order <==> |t.order| < 2 * maxPending
    ensures forall k | k in t.order && Unconfirmed(t.pending, k) :: k in Queued(maxPending, t, key).order
  {
    hide Compacted;
    var order := t.order + [key];
    forall k
      ensures k in Compacted(t.pending, order) <==> k in order && Unconfirmed(t.pending, k)
    {
      CompactedKeeps(t.pending, order, k);
    }
  }

  /** Whether holding a direction compacts the queue. */
  ghost predicate Compacts(maxPending: nat, t: Table, d: TlsDirection) {
    d.needsConfirmation && Hold(maxPending, t, d).Held? && |t.order| >= 2 * maxPending
  }

  /** Holding keeps every find queued exactly when it does not compact the queue. */
  lemma HoldQueued(maxPending: nat, t: Table, d: TlsDirection)
    requires AllQueued(t) && d.key !in t.pending && Hold(maxPending, t, d).Held?
    ensures AllQueued(Hold(maxPending, t, d).table) <==> !Compacts(maxPending, t, d)
  {
    hide UnconfirmedCount, Evicted, Compacted;
    var after := Hold(maxPending, t, d).table;
    if d.needsConfirmation {
      QueuedOrNot(maxPending, t, d.key);
      assert Unconfirmed(after.pending, d.key);
      forall key | Unconfirmed(after.pending, key) && key != d.key
        ensures key in after.order
      {
        assert Unconfirmed(t.pending, key);
      }
    } else {
      EvictedQueued(t);
      var freed := if |t.pending| >= maxPending then Evicted(t) else t;
      forall key | Unconfirmed(after.pending, key)
        ensures key in after.order
      {
        assert Unconfirmed(freed.pending, key);
      }
    }
  }

  /** The assertion that a place was freed fails exactly when a direction that stands on its own meets a full table
      holding finds of which none is queued. */
  lemma HoldStuck(maxPending: nat, t: Table, d: TlsDirection)
    requires Bounded(maxPending, t)
    ensures Hold(maxPending, t, d) == Stuck <==>
      && maxPending > 0 && !d.needsConfirmation && |t.pending| >= maxPending && UnconfirmedCount(t.pending) > 0
      && forall i | 0 <= i < |t.order| :: !Unconfirmed(t.pending, t.order[i])
  {
    hide UnconfirmedCount, Evicted, Compacted;
    EvictedFrees(t);
    A.EvictedCount(t);
  }

  /** Someone needs confirmation when the count says so. */
  lemma {:induction false} SomeUnconfirmed(pending: map<FlowKey, TlsDirection>)
    requires UnconfirmedCount(pending) > 0
    ensures exists key :: Unconfirmed(pending, key)
    decreases |pending|
  {
    if pending != map[] {
      var key :| key in pending;
      A.CountWithout(pending, key);
      if !Unconfirmed(pending, key) {
        SomeUnconfirmed(pending - {key});
        var k :| Unconfirmed(pending - {key}, k);
        assert Unconfirmed(pending, k);
      }
    }
  }

  /** While every held find is queued, eviction always frees a place. */
  lemma QueuedNeverStuck(maxPending: nat, t: Table, d: TlsDirection)
    requires Bounded(maxPending, t) && AllQueued(t)
    ensures Hold(maxPending, t, d) != Stuck
  {
    hide UnconfirmedCount, Hold;
    HoldStuck(maxPending, t, d);
    if UnconfirmedCount(t.pending) > 0 {
      SomeUnconfirmed(t.pending);
      var key :| Unconfirmed(t.pending, key);
      var i :| 0 <= i < |t.order| && t.order[i] == key;
    }
  }
}
