/** Which packets a range of a chunk came from (src/tcp_reassembly.cpp:459-488). */
module Provenance {
  import opened Basics
  import opened TcpTypes
  import opened StreamProperties

  predicate Overlaps(origin: ByteOrigin, from: int, to: int) {
    origin.offset < to && from < origin.offset + origin.length
  }

  /** The stamps of every origin that overlaps `[from, to)`, by scanning all of them. */
  function Overlapping(origins: seq<ByteOrigin>, from: int, to: int): seq<PacketStamp> {
    if origins == [] then []
    else
      var rest, origin := Overlapping(origins[..|origins| - 1], from, to), origins[|origins| - 1];
      if Overlaps(origin, from, to) then rest + [origin.stamp] else rest
  }

  /** The stamp with the smallest packet number, the first of them when several share it. */
  function Earliest(stamps: seq<PacketStamp>): (stamp: PacketStamp)
    requires stamps != []
    ensures stamp in stamps
    ensures forall other | other in stamps :: stamp.number <= other.number
  {
    if |stamps| == 1 then stamps[0]
    else
      var best, stamp := Earliest(stamps[..|stamps| - 1]), stamps[|stamps| - 1];
      if stamp.number < best.number then stamp else best
  }

  /** The stamp with the largest packet number, the first of them when several share it. */
  function Latest(stamps: seq<PacketStamp>): (stamp: PacketStamp)
    requires stamps != []
    ensures stamp in stamps
    ensures forall other | other in stamps :: stamp.number >= other.number
  {
    if |stamps| == 1 then stamps[0]
    else
      var best, stamp := Latest(stamps[..|stamps| - 1]), stamps[|stamps| - 1];
      if stamp.number > best.number then stamp else best
  }

  /** The packets that supplied a range, found by scanning every origin. */
  function PacketsOf(chunk: Chunk, offset: nat, length: nat): (PacketStamp, PacketStamp) {
    var stamps := Overlapping(chunk.origins, offset, offset + length);
    if length == 0 || offset + length > |chunk.data| || stamps == [] then (NO_STAMP, NO_STAMP)
    else (Earliest(stamps), Latest(stamps))
  }

  // ---------------------------------------------------------------- tiles are in offset order

  lemma {:induction false} TileAt(origins: seq<ByteOrigin>, from: int, to: int, a: nat)
    requires Tile(origins, from, to) && a < |origins|
    ensures origins[a].length > 0
    ensures origins[0].offset == from
    ensures a + 1 < |origins| ==> origins[a + 1].offset == origins[a].offset + origins[a].length
    ensures a + 1 == |origins| ==> origins[a].offset + origins[a].length == to
  {
    var rest := origins[1..];
    if a > 0 {
      TileAt(rest, from + origins[0].length, to, a - 1);
    } else if rest != [] {
      assert rest[0] == origins[1];
      assert Tile(rest, from + origins[0].length, to);
    }
  }

  lemma {:induction false} TileSorted(origins: seq<ByteOrigin>, from: int, to: int, a: nat, b: nat)
    requires Tile(origins, from, to) && a < b < |origins|
    ensures origins[a].offset + origins[a].length <= origins[b].offset
    decreases b
  {
    TileAt(origins, from, to, b - 1);
    if a < b - 1 {
      TileSorted(origins, from, to, a, b - 1);
    }
  }

  /** Every position of the tiled range is in some origin. */
  lemma {:induction false} TileCovers(origins: seq<ByteOrigin>, from: int, to: int, p: int)
    requires Tile(origins, from, to) && from <= p < to
    ensures exists a | 0 <= a < |origins| :: origins[a].offset <= p < origins[a].offset + origins[a].length
  {
    if p < from + origins[0].length {
      assert origins[0].offset <= p;
    } else {
      TileCovers(origins[1..], from + origins[0].length, to, p);
      var a :| 0 <= a < |origins[1..]| && origins[1..][a].offset <= p < origins[1..][a].offset + origins[1..][a].length;
      assert origins[a + 1] == origins[1..][a];
    }
  }

  lemma {:induction false} NoneOverlap(origins: seq<ByteOrigin>, k: nat, n: nat, from: int, to: int)
    requires k <= n <= |origins|
    requires forall a | k <= a < n :: !Overlaps(origins[a], from, to)
    ensures Overlapping(origins[..n], from, to) == Overlapping(origins[..k], from, to)
    decreases n
  {
    if k < n {
      NoneOverlap(origins, k, n - 1, from, to);
      assert origins[..n][..n - 1] == origins[..n - 1];
    }
  }

  /** The first origin that starts past `offset`. */
  method UpperBound(origins: seq<ByteOrigin>, offset: nat) returns (index: nat)
    requires forall a, b | 0 <= a < b < |origins| :: origins[a].offset <= origins[b].offset
    ensures index <= |origins|
    ensures forall a | 0 <= a < index :: origins[a].offset <= offset
    ensures forall a | index <= a < |origins| :: offset < origins[a].offset
  {
    var low, high := 0, |origins|;
    while low < high
      invariant 0 <= low <= high <= |origins|
      invariant forall a | 0 <= a < low :: origins[a].offset <= offset
      invariant forall a | high <= a < |origins| :: offset < origins[a].offset
    {
      var middle := (low + high) / 2;
      if offset < origins[middle].offset {
        high := middle;
      } else {
        low := middle + 1;
      }
    }
    index := low;
  }

  /** Binary search for the first overlapping origin, then only the ones that overlap. */
  method Find(chunk: Chunk, offset: nat, length: nat) returns (first: PacketStamp, last: PacketStamp)
    requires Tile(chunk.origins, 0, |chunk.data|)
    ensures first == PacketsOf(chunk, offset, length).0 && last == PacketsOf(chunk, offset, length).1
  {
    if length == 0 || offset > |chunk.data| || length > |chunk.data| - offset {
      return NO_STAMP, NO_STAMP;
    }
    var origins := chunk.origins;
    forall a, b | 0 <= a < b < |origins|
      ensures origins[a].offset <= origins[b].offset
    {
      TileSorted(origins, 0, |chunk.data|, a, b);
    }
    var index := UpperBound(origins, offset);
    TileAt(origins, 0, |chunk.data|, 0);
    assert index != 0;
    FirstOverlap(origins, |chunk.data|, offset, offset + length, index - 1);
    NoneOverlap(origins, 0, index - 1, offset, offset + length);
    first, last := Widen(origins, |chunk.data|, offset, offset + length, index - 1);
  }

  /** What has been found once the origins before `index` are seen. */
  ghost predicate FoundUpTo(origins: seq<ByteOrigin>, from: int, to: int, index: nat, found: bool,
                            first: PacketStamp, last: PacketStamp)
    requires index <= |origins|
  {
    var stamps := Overlapping(origins[..index], from, to);
    if found then stamps != [] && first == Earliest(stamps) && last == Latest(stamps) else stamps == []
  }

  lemma FoundOneMore(origins: seq<ByteOrigin>, from: int, to: int, index: nat, found: bool,
                     first: PacketStamp, last: PacketStamp)
    requires index < |origins| && Overlaps(origins[index], from, to)
    requires FoundUpTo(origins, from, to, index, found, first, last)
    ensures var stamp := origins[index].stamp;
      FoundUpTo(origins, from, to, index + 1, true,
                if !found || stamp.number < first.number then stamp else first,
                if !found || stamp.number > last.number then stamp else last)
  {
    assert origins[..index + 1][..index] == origins[..index];
    var before, after := Overlapping(origins[..index], from, to), Overlapping(origins[..index + 1], from, to);
    assert after == before + [origins[index].stamp];
    assert after[..|after| - 1] == before;
  }

  /** The loop of Find, from the first origin that overlaps. */
  method Widen(origins: seq<ByteOrigin>, size: nat, from: nat, to: nat, start: nat)
    returns (first: PacketStamp, last: PacketStamp)
    requires Tile(origins, 0, size)
    requires start < |origins| && Overlaps(origins[start], from, to)
    requires Overlapping(origins[..start], from, to) == []
    ensures var stamps := Overlapping(origins, from, to);
      stamps != [] && first == Earliest(stamps) && last == Latest(stamps)
  {
    first, last := NO_STAMP, NO_STAMP;
    var found := false;
    var index, expected := start, origins[start].offset;
    while index < |origins| && origins[index].offset < to
      invariant start <= index <= |origins|
      invariant index < |origins| ==> origins[index].offset == expected
      invariant from < expected + (if index < |origins| then origins[index].length else 0)
      invariant FoundUpTo(origins, from, to, index, found, first, last)
      invariant found == (start < index)
    {
      TileAt(origins, 0, size, index);
      var origin := origins[index];
      assert origin.offset == expected;
      assert origin.length > 0;
      expected := origin.offset + origin.length;
      FoundOneMore(origins, from, to, index, found, first, last);
      first, last := if !found || origin.stamp.number < first.number then origin.stamp else first,
                     if !found || origin.stamp.number > last.number then origin.stamp else last;
      found := true;
      if index + 1 < |origins| {
        TileAt(origins, 0, size, index + 1);
      }
      index := index + 1;
    }
    assert found;
    forall a | index <= a < |origins|
      ensures !Overlaps(origins[a], from, to)
    {
      if index < a {
        TileSorted(origins, 0, size, index, a);
      }
    }
    NoneOverlap(origins, index, |origins|, from, to);
    assert origins[..|origins|] == origins;
  }

  /** The origin found holds `offset`, and none before it reaches that far. */
  lemma FirstOverlap(origins: seq<ByteOrigin>, size: nat, offset: nat, to: nat, index: nat)
    requires Tile(origins, 0, size) && offset < to <= size
    requires index < |origins| && origins[index].offset <= offset
    requires forall a | index < a < |origins| :: offset < origins[a].offset
    ensures offset < origins[index].offset + origins[index].length
    ensures forall a | 0 <= a < index :: !Overlaps(origins[a], offset, to)
  {
    TileAt(origins, 0, size, index);
    forall a | 0 <= a < index
      ensures !Overlaps(origins[a], offset, to)
    {
      TileSorted(origins, 0, size, a, index);
    }
  }

  // ---------------------------------------------------------------- what the stamps mean

  lemma {:induction false} OverlappingHolds(origins: seq<ByteOrigin>, from: int, to: int)
    ensures forall a | 0 <= a < |origins| && Overlaps(origins[a], from, to) ::
              origins[a].stamp in Overlapping(origins, from, to)
    ensures forall stamp | stamp in Overlapping(origins, from, to) ::
              exists a | 0 <= a < |origins| :: Overlaps(origins[a], from, to) && origins[a].stamp == stamp
  {
    if origins != [] {
      var front := origins[..|origins| - 1];
      OverlappingHolds(front, from, to);
      forall stamp | stamp in Overlapping(origins, from, to)
        ensures exists a | 0 <= a < |origins| :: Overlaps(origins[a], from, to) && origins[a].stamp == stamp
      {
        if stamp in Overlapping(front, from, to) {
          var a :| 0 <= a < |front| && Overlaps(front[a], from, to) && front[a].stamp == stamp;
          assert origins[a] == front[a];
        } else {
          assert Overlaps(origins[|origins| - 1], from, to);
        }
      }
    }
  }

  /** Every byte of a range of a chunk is attributed to one of the overlapping stamps. */
  lemma ByteAttributed(segments: seq<Segment>, owners: seq<U32>, chunk: Chunk, from: nat, to: nat, p: nat)
    returns (stamp: PacketStamp)
    requires Tile(chunk.origins, 0, |chunk.data|)
    requires forall a | 0 <= a < |chunk.origins| :: NamesFirstSuppliers(segments, owners, chunk.offset, chunk.origins[a])
    requires from <= p < to <= |chunk.data|
    ensures stamp in Overlapping(chunk.origins, from, to)
    ensures SuppliedBy(segments, owners, chunk.offset + p, stamp)
  {
    var origins := chunk.origins;
    TileCovers(origins, 0, |chunk.data|, p);
    var a :| 0 <= a < |origins| && origins[a].offset <= p < origins[a].offset + origins[a].length;
    stamp := origins[a].stamp;
    assert NamesFirstSuppliers(segments, owners, chunk.offset, origins[a]);
    assert Overlaps(origins[a], from, to);
    OverlappingHolds(origins, from, to);
  }

  /** Each overlapping stamp supplied some byte of the range first. */
  lemma StampAttributed(segments: seq<Segment>, owners: seq<U32>, chunk: Chunk, from: nat, to: nat, stamp: PacketStamp)
    returns (p: nat)
    requires Tile(chunk.origins, 0, |chunk.data|)
    requires forall a | 0 <= a < |chunk.origins| :: NamesFirstSuppliers(segments, owners, chunk.offset, chunk.origins[a])
    requires from < to && stamp in Overlapping(chunk.origins, from, to)
    ensures from <= p < to && SuppliedBy(segments, owners, chunk.offset + p, stamp)
  {
    var origins := chunk.origins;
    OverlappingHolds(origins, from, to);
    var a :| 0 <= a < |origins| && Overlaps(origins[a], from, to) && origins[a].stamp == stamp;
    p := if from < origins[a].offset then origins[a].offset else from;
    TileAt(origins, 0, |chunk.data|, a);
    assert NamesFirstSuppliers(segments, owners, chunk.offset, origins[a]);
  }

  /** For a chunk of a reconstructed stream, the two stamps are the smallest and the largest packet number
      among the first segments to supply each byte of the range. */
  lemma PacketsBoundFirstSuppliers(segments: seq<Segment>, owners: seq<U32>, chunk: Chunk, offset: nat, length: nat)
    returns (p: nat, q: nat)
    requires Tile(chunk.origins, 0, |chunk.data|)
    requires forall a | 0 <= a < |chunk.origins| :: NamesFirstSuppliers(segments, owners, chunk.offset, chunk.origins[a])
    requires 0 < length && offset + length <= |chunk.data|
    ensures forall r, stamp | chunk.offset + offset <= r < chunk.offset + offset + length
                           && SuppliedBy(segments, owners, r, stamp) ::
              PacketsOf(chunk, offset, length).0.number <= stamp.number <= PacketsOf(chunk, offset, length).1.number
    ensures offset <= p < offset + length
    ensures SuppliedBy(segments, owners, chunk.offset + p, PacketsOf(chunk, offset, length).0)
    ensures offset <= q < offset + length
    ensures SuppliedBy(segments, owners, chunk.offset + q, PacketsOf(chunk, offset, length).1)
  {
    var stamps := Overlapping(chunk.origins, offset, offset + length);
    forall r, stamp | chunk.offset + offset <= r < chunk.offset + offset + length
                   && SuppliedBy(segments, owners, r, stamp)
      ensures stamp in stamps
    {
      var other := ByteAttributed(segments, owners, chunk, offset, offset + length, r - chunk.offset);
    }
    var some := ByteAttributed(segments, owners, chunk, offset, offset + length, offset);
    p := StampAttributed(segments, owners, chunk, offset, offset + length, Earliest(stamps));
    q := StampAttributed(segments, owners, chunk, offset, offset + length, Latest(stamps));
  }
}
