/** The assembler that pairs TLS directions, with its running count of unconfirmed finds (src/tls_handshake.cpp). */
module TlsAssembler {
  import opened Basics
  import opened TcpTypes
  import opened TlsMerge
  import T = TlsTable
  import Order
  import MapSum

  /** The rows of a list of merges, in order. */
  function AllRows(pairs: seq<Pair>): seq<TlsRow> {
    if pairs == [] then [] else AllRows(pairs[..|pairs| - 1]) + RowsOf(pairs[|pairs| - 1])
  }

  lemma {:induction false} AllRowsJoin(a: seq<Pair>, b: seq<Pair>)
    ensures AllRows(a + b) == AllRows(a) + AllRows(b)
  {
    hide RowsOf;
    if b == [] {
      assert a + b == a;
    } else {
      var n := |b| - 1;
      AllRowsJoin(a, b[..n]);
      assert (a + b)[..|a + b| - 1] == a + b[..n];
    }
  }

  lemma OneMerge(pair: Pair)
    ensures AllRows([pair]) == RowsOf(pair)
  {
    hide RowsOf;
    assert [pair][..0] == [];
  }

  datatype HoldResult = Kept | Full | AssertionFailed

  datatype AddResult = Rows(rows: seq<TlsRow>) | Failed

  /** How a call's result shows the outcome of the plain table. */
  ghost predicate Shows(result: AddResult, outcome: T.Outcome) {
    match outcome
    case Reported(pairs) => result == Rows(AllRows(pairs))
    case AssertionFailed => result == Failed
  }

  lemma CountWithout(pending: map<FlowKey, TlsDirection>, key: FlowKey)
    requires key in pending
    ensures T.UnconfirmedCount(pending) == T.UnconfirmedCount(pending - {key}) + T.NeedsPlace(pending[key])
    ensures |pending - {key}| == |pending| - 1
  {
    MapSum.SumWithout(pending, T.NeedsPlace, key);
    assert (pending - {key}).Keys == pending.Keys - {key};
    assert |pending - {key}| == |(pending - {key}).Keys| && |pending| == |pending.Keys|;
  }

  lemma CountWith(pending: map<FlowKey, TlsDirection>, d: TlsDirection)
    requires d.key !in pending
    ensures T.UnconfirmedCount(pending[d.key := d]) == T.UnconfirmedCount(pending) + T.NeedsPlace(d)
    ensures |pending[d.key := d]| == |pending| + 1
  {
    MapSum.SumUpdate(pending, T.NeedsPlace, d.key, d);
    MapSum.SumAbsent(pending, T.NeedsPlace, d.key);
    assert pending[d.key := d].Keys == pending.Keys + {d.key};
    assert |pending[d.key := d]| == |pending[d.key := d].Keys| && |pending| == |pending.Keys|;
  }

  /** Giving up a find frees exactly one place. */
  lemma {:induction false} EvictedCount(t: T.Table)
    ensures T.UnconfirmedCount(T.Evicted(t).pending) <= T.UnconfirmedCount(t.pending)
    ensures |T.Evicted(t).pending| <= |t.pending|
    ensures forall key | key in T.Evicted(t).pending :: key in t.pending
    decreases |t.order|
  {
    hide T.UnconfirmedCount;
    if t.order != [] {
      if T.Unconfirmed(t.pending, t.order[0]) {
        CountWithout(t.pending, t.order[0]);
      } else {
        EvictedCount(t.(order := t.order[1..]));
      }
    }
  }

  class Assembler {
    const maxPending: nat
    var pending: map<FlowKey, TlsDirection>
    var unconfirmed: nat
    var order: seq<FlowKey>
    var refuters: seq<T.Refuter>

    /** The count is exact, finds keep to their share of the room, and nothing outgrows its limit. */
    ghost predicate Valid()
      reads this
    {
      && unconfirmed == T.UnconfirmedCount(pending)
      && unconfirmed <= T.UnconfirmedRoom(maxPending)
      && |pending| <= maxPending
      && |refuters| <= Max(1, maxPending)
    }

    ghost function View(): T.Table
      reads this
    {
      T.Table(pending, order, refuters)
    }

    constructor (maxPending: nat)
      ensures this.maxPending == maxPending && Valid() && View() == T.EMPTY
    {
      this.maxPending := maxPending;
      pending, unconfirmed, order, refuters := map[], 0, [], [];
    }

    method Release(key: FlowKey)
      requires Valid() && key in pending
      modifies this`pending, this`unconfirmed
      ensures Valid() && View() == T.Released(old(View()), key) && |pending| == |old(pending)| - 1
    {
      hide T.UnconfirmedCount;
      CountWithout(pending, key);
      if pending[key].needsConfirmation {
        assert unconfirmed > 0;
        unconfirmed := unconfirmed - 1;
      }
      pending := pending - {key};
    }

    method ReportAlone(d: TlsDirection) returns (rows: seq<TlsRow>)
      ensures rows == AllRows(T.Alone(d))
    {
      hide RowsOf;
      if d.needsConfirmation {
        return [];
      }
      OneMerge(T.Alone(d)[0]);
      if d.client {
        rows := Merge(d, None);
      } else {
        rows := Merge(NO_DIRECTION, Some(d));
      }
    }

    /** Remembers a stream that was plainly not TLS, or drops the find waiting on its other side. */
    method Refute(stream: T.Arrival)
      requires Valid()
      modifies this
      ensures Valid() && View() == T.Refute(maxPending, old(View()), stream)
    {
      hide T.RefuteSide;
      RefuteSide(stream, true);
      RefuteSide(stream, false);
    }

    method RefuteSide(stream: T.Arrival, clientSide: bool)
      requires Valid()
      modifies this
      ensures Valid() && View() == T.RefuteSide(maxPending, old(View()), stream, clientSide)
    {
      hide T.UnconfirmedCount, T.UnconfirmedRoom;
      var room := Max(1, maxPending);
      var key := if clientSide then stream.key.Reverse() else stream.key;
      if key in pending && pending[key].needsConfirmation && pending[key].client == clientSide
         && T.Overlaps(stream.first, stream.last, pending[key].first, pending[key].last) {
        Release(key);
        return;
      }
      if |refuters| >= room {
        refuters := refuters[1..];
      }
      refuters := refuters + [T.Refuter(key, clientSide, stream.first, stream.last)];
    }

    method Refuted(found: TlsDirection) returns (refuted: bool)
      ensures refuted == T.Refuted(refuters, found)
    {
      for i := 0 to |refuters|
        invariant forall j | 0 <= j < i :: !T.RefutedBy(refuters[j], found)
      {
        if T.RefutedBy(refuters[i], found) {
          return true;
        }
      }
      return false;
    }

    /** Gives up the oldest find still held. */
    method EvictOldest()
      requires Valid()
      modifies this`pending, this`unconfirmed, this`order
      ensures Valid() && View() == T.Evicted(old(View())) && |pending| <= |old(pending)|
    {
      hide T.UnconfirmedCount, T.UnconfirmedRoom;
      while order != []
        invariant Valid() && pending == old(pending) && refuters == old(refuters)
        invariant T.Evicted(View()) == T.Evicted(old(View()))
        decreases |order|
      {
        var oldest := order[0];
        order := order[1..];
        if oldest in pending && pending[oldest].needsConfirmation {
          Release(oldest);
          break;
        }
      }
    }

    /** Drops from the queue the keys of finds no longer held. */
    method Compact()
      modifies this`order
      ensures order == T.Compacted(pending, old(order))
    {
      var live: seq<FlowKey> := [];
      for i := 0 to |order|
        invariant order == old(order) && live == T.Compacted(pending, order[..i])
      {
        assert order[..i + 1][..i] == order[..i];
        if order[i] in pending && pending[order[i]].needsConfirmation {
          live := live + [order[i]];
        }
      }
      assert order[..|order|] == order;
      order := live;
    }

    /** Holds a direction for its peer, if there is room. */
    method Hold(d: TlsDirection) returns (result: HoldResult)
      requires Valid() && d.key !in pending
      modifies this
      ensures result == match T.Hold(maxPending, old(View()), d) case Held(_) => Kept case NoRoom => Full case Stuck => AssertionFailed
      ensures result == Kept ==> Valid() && View() == T.Hold(maxPending, old(View()), d).table
      ensures result == Full ==> Valid() && View() == old(View())
    {
      hide T.UnconfirmedCount, T.Evicted, T.Compacted;
      if maxPending == 0 || (d.needsConfirmation && unconfirmed >= T.UnconfirmedRoom(maxPending)) {
        return Full;
      }
      if |pending| >= maxPending {
        if d.needsConfirmation || unconfirmed == 0 {
          return Full;
        }
        EvictedCount(View());
        EvictOldest();
      }
      CountWith(pending, d);
      if d.needsConfirmation {
        unconfirmed := unconfirmed + 1;
        order := order + [d.key];
        if |order| > 2 * maxPending {
          Compact();
        }
      }
      if |pending| >= maxPending {
        return AssertionFailed;
      }
      pending := pending[d.key := d];
      return Kept;
    }

    /** Holds a direction whose peer is not waiting, or reports it when there is no room. */
    method HoldOrReport(d: TlsDirection, rows: seq<TlsRow>, ghost before: seq<Pair>) returns (result: AddResult)
      requires Valid() && d.key !in pending && rows == AllRows(before)
      modifies this
      ensures Shows(result, T.Waiting(maxPending, old(View()), d, before).1)
      ensures result.Rows? ==> Valid() && View() == T.Waiting(maxPending, old(View()), d, before).0
    {
      hide T.Hold, T.Alone, AllRows;
      var held := Hold(d);
      if held == AssertionFailed {
        return Failed;
      }
      if held == Kept {
        return Rows(rows);
      }
      var alone := ReportAlone(d);
      AllRowsJoin(before, T.Alone(d));
      return Rows(rows + alone);
    }

    /** Takes a finished stream and returns the handshakes it completes. */
    method Add(stream: T.Arrival) returns (result: AddResult)
      requires Valid()
      modifies this
      ensures Shows(result, T.Add(maxPending, old(View()), stream).1)
      ensures result.Rows? ==> Valid() && View() == T.Add(maxPending, old(View()), stream).0
    {
      hide T.Refute, T.Placed, T.Refuted, T.UnconfirmedCount;
      var d := stream.direction;
      if d.hellos == [] {
        if stream.plainlyNotTls {
          Refute(stream);
        }
        return Rows([]);
      }
      if d.needsConfirmation {
        var refuted := Refuted(d);
        if refuted {
          return Rows([]);
        }
      }
      result := Place(d);
    }

    method Place(d: TlsDirection) returns (result: AddResult)
      requires Valid()
      modifies this
      ensures Shows(result, T.Placed(maxPending, old(View()), d).1)
      ensures result.Rows? ==> Valid() && View() == T.Placed(maxPending, old(View()), d).0
    {
      hide T.Waiting, T.Meets, T.Alone, T.UnconfirmedCount;
      if d.key !in pending {
        result := HoldOrReport(d, [], []);
      } else if pending[d.key].client == d.client {
        var held := pending[d.key];
        if d.needsConfirmation && !held.needsConfirmation {
          return Rows([]);
        }
        var rows := ReportAlone(held);
        Release(d.key);
        result := HoldOrReport(d, rows, T.Alone(held));
      } else {
        result := Meet(d);
      }
    }

    /** Pairs a direction with the other side of its tuple, unless one of them stays unconfirmed. */
    method Meet(d: TlsDirection) returns (result: AddResult)
      requires Valid() && d.key in pending
      modifies this
      ensures Shows(result, T.Meets(maxPending, old(View()), d).1)
      ensures result.Rows? ==> Valid() && View() == T.Meets(maxPending, old(View()), d).0
    {
      hide T.Waiting, T.Confirms, T.Alone, T.UnconfirmedCount, RowsOf;
      var held := pending[d.key];
      var unconfirmedPair := (d.needsConfirmation && !T.Confirms(held, d)) || (held.needsConfirmation && !T.Confirms(d, held));
      if unconfirmedPair {
        if held.last.number < d.first.number {
          var rows := ReportAlone(held);
          Release(d.key);
          result := HoldOrReport(d, rows, T.Alone(held));
        } else if d.needsConfirmation {
          result := Rows([]);
        } else {
          Release(d.key);
          result := HoldOrReport(d, [], []);
        }
        return;
      }
      OneMerge(T.Together(d, held));
      var merged;
      if d.client {
        merged := Merge(d, Some(held));
      } else {
        merged := Merge(held, Some(d));
      }
      Release(d.key);
      result := Rows(merged);
    }

    /** Reports every direction still waiting, in key order, and forgets everything. */
    method Finish() returns (rows: seq<TlsRow>)
      requires Valid()
      modifies this
      ensures Valid() && View() == T.Finish(old(View())).0
      ensures rows == AllRows(T.Finish(old(View())).1)
    {
      hide T.UnconfirmedCount, T.Remaining, T.Alone, AllRows;
      rows := [];
      var left := pending;
      ghost var done: seq<Pair> := [];
      NoRows();
      while left != map[]
        invariant rows == AllRows(done)
        invariant T.Remaining(old(pending)) == done + T.Remaining(left)
        decreases |left|
      {
        FirstKeyExists(left.Keys);
        var key :| key in left.Keys && Order.IsFirst(key, left.Keys, KeyRank);
        Order.FirstUnique(key, FirstKey(left.Keys), left.Keys, KeyRank);
        var alone := ReportAlone(left[key]);
        RemainingStep(left, key);
        AllRowsJoin(done, T.Alone(left[key]));
        assert done + (T.Alone(left[key]) + T.Remaining(left - {key})) == done + T.Alone(left[key]) + T.Remaining(left - {key});
        rows, done := rows + alone, done + T.Alone(left[key]);
        CountWithout(left, key);
        left := left - {key};
      }
      NoneRemaining();
      assert done + [] == done;
      pending, unconfirmed, order, refuters := map[], 0, [], [];
      NoneCounted();
    }
  }

  lemma NoRows()
    ensures AllRows([]) == []
  {
  }

  lemma NoneRemaining()
    ensures T.Remaining(map[]) == []
  {
  }

  lemma NoneCounted()
    ensures T.UnconfirmedCount(map[]) == 0
  {
  }

  lemma RemainingStep(left: map<FlowKey, TlsDirection>, key: FlowKey)
    requires left != map[] && key == FirstKey(left.Keys)
    ensures T.Remaining(left) == T.Alone(left[key]) + T.Remaining(left - {key})
  {
    hide T.Alone;
  }
}
