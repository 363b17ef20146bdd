/** The parsed hellos of a TLS connection's two directions and the rows they are merged into
    (src/tls_handshake.cpp). What a hello says beyond its version and session id is kept as one opaque value. */
module TlsMerge {
  import opened Basics
  import opened TcpTypes

  datatype Status = Unset | Complete | OneSided | Incomplete | Unanchored | Invalid | Conflicting | LimitReached

  /** A reassembly status and the text that explains it. */
  datatype Verdict = Verdict(status: Status, error: string)

  const UNDECIDED := Verdict(Unset, [])

  const TLS_VERSION_1_3: U16 := 0x0304

  datatype Hello = Hello(verdict: Verdict, version: Option<U16>, sessionId: seq<U8>, first: PacketStamp,
                         last: PacketStamp, fields: nat)

  /** One direction's hellos. A direction found by searching a stream whose SYN was missed needs confirmation. */
  datatype TlsDirection = TlsDirection(key: FlowKey, streamId: U64, client: bool, first: PacketStamp, last: PacketStamp,
                                       verdict: Verdict, needsConfirmation: bool, hellos: seq<Hello>)

  datatype TlsRow = TlsRow(key: FlowKey, number: nat, clientStream: Option<U64>, serverStream: Option<U64>,
                           client: Option<Hello>, server: Option<Hello>, first: PacketStamp, last: PacketStamp,
                           verdict: Verdict, resumed: Option<bool>,
                           clientUnanchored: bool, serverUnanchored: bool)

  /** The other direction when only a server was captured. */
  const NO_ADDRESS: Address := [0, 0, 0, 0, 0, 0, 0, 0, 0, 0, 0, 0, 0, 0, 0, 0]
  const NO_DIRECTION := TlsDirection(FlowKey(0, 0, 0, NO_ADDRESS, NO_ADDRESS, 0, 0, []), 0, false,
                                     NO_STAMP, NO_STAMP, UNDECIDED, false, [])

  /** The two sides of a merge. */
  datatype Pair = Pair(client: TlsDirection, server: Option<TlsDirection>)
  {
    function Hellos(client: bool): seq<Hello> {
      if client then this.client.hellos else if server.Some? then server.value.hellos else []
    }

    function Hello(client: bool, index: nat): Option<Hello> {
      if index < |Hellos(client)| then Some(Hellos(client)[index]) else None
    }

    function StreamOf(client: bool): Option<U64> {
      if Hellos(client) == [] then None
      else if client then Some(this.client.streamId) else Some(server.value.streamId)
    }

    predicate Searched(client: bool) {
      if client then this.client.needsConfirmation else server.Some? && server.value.needsConfirmation
    }

    function DirectionVerdict(client: bool): Verdict {
      if client then this.client.verdict else if server.Some? then server.value.verdict else UNDECIDED
    }
  }

  function Count(pair: Pair): nat {
    Max(|pair.Hellos(true)|, |pair.Hellos(false)|)
  }

  /** The key of a merge's rows: the client's, unless only the server has hellos. */
  function MergedKey(pair: Pair): FlowKey {
    if pair.Hellos(true) == [] && pair.server.Some? then pair.server.value.key else pair.client.key
  }

  /** The first decided of two verdicts. */
  function OrElse(a: Verdict, b: Verdict): Verdict {
    if a.status == Unset then b else a
  }

  /** A hello's own verdict wins, then its direction's; only then is the row judged on which sides were captured. */
  function RowVerdict(pair: Pair, index: nat): Verdict {
    var c, s := pair.Hello(true, index), pair.Hello(false, index);
    var own := if c.Some? then c.value.verdict else UNDECIDED;
    var answered := if own.status == Unset && s.Some? then s.value.verdict else own;
    var wide := if c.Some? && pair.DirectionVerdict(true).status != Unset
                then OrElse(answered, pair.DirectionVerdict(true)) else answered;
    var wider := if s.Some? && pair.DirectionVerdict(false).status != Unset
                 then OrElse(wide, pair.DirectionVerdict(false)) else wide;
    if wider.status != Unset then wider
    else wider.(status := if c.None? || s.None? then OneSided else Complete)
  }

  /** A server echoing a non-empty session id resumed the session; TLS 1.3 and an unknown version cannot say. */
  function Resumed(pair: Pair, index: nat): Option<bool> {
    var c, s := pair.Hello(true, index), pair.Hello(false, index);
    if c.None? || s.None? || s.value.version.None? || s.value.version.value == TLS_VERSION_1_3 then None
    else Some(c.value.sessionId != [] && c.value.sessionId == s.value.sessionId)
  }

  function FirstStamp(pair: Pair, index: nat): PacketStamp {
    var c, s := pair.Hello(true, index), pair.Hello(false, index);
    if c.Some? then c.value.first else if s.Some? then s.value.first else NO_STAMP
  }

  function LastStamp(pair: Pair, index: nat): PacketStamp {
    var c, s := pair.Hello(true, index), pair.Hello(false, index);
    if c.None? then if s.Some? then s.value.last else NO_STAMP
    else if s.Some? && s.value.last.number > c.value.last.number then s.value.last
    else c.value.last
  }

  /** The row of the nth hello of each side. */
  function RowAt(pair: Pair, index: nat): TlsRow {
    var c, s := pair.Hello(true, index), pair.Hello(false, index);
    TlsRow(MergedKey(pair), index + 1, pair.StreamOf(true), pair.StreamOf(false), c, s,
           FirstStamp(pair, index), LastStamp(pair, index), RowVerdict(pair, index), Resumed(pair, index),
           c.Some? && pair.Searched(true), s.Some? && pair.Searched(false))
  }

  function RowsOf(pair: Pair): seq<TlsRow> {
    seq(Count(pair), i requires 0 <= i < Count(pair) => RowAt(pair, i))
  }

  /** Joins two directions by position: the nth hello of one is answered by the nth of the other. */
  method Merge(client: TlsDirection, server: Option<TlsDirection>) returns (rows: seq<TlsRow>)
    ensures rows == RowsOf(Pair(client, server))
  {
    hide RowAt;
    rows := [];
    ghost var pair := Pair(client, server);
    var count := Max(|client.hellos|, if server.Some? then |server.value.hellos| else 0);
    for index := 0 to count
      invariant |rows| == index && forall i | 0 <= i < index :: rows[i] == RowAt(pair, i)
    {
      var row := MergeAt(client, server, index);
      rows := rows + [row];
    }
  }

  /** One row: the fields of each side's hello moved onto it, then the row judged as a whole. */
  method MergeAt(client: TlsDirection, server: Option<TlsDirection>, index: nat) returns (row: TlsRow)
    ensures row == RowAt(Pair(client, server), index)
  {
    var others := if server.Some? then server.value.hellos else [];
    var key := if client.hellos == [] && server.Some? then server.value.key else client.key;
    row := TlsRow(key, index + 1, None, None, None, None, NO_STAMP, NO_STAMP, UNDECIDED, None, false, false);
    var c := if index < |client.hellos| then Some(client.hellos[index]) else None;
    var s := if index < |others| then Some(others[index]) else None;
    if c.Some? {
      row := MergeClient(row, c.value, client.needsConfirmation);
    }
    if s.Some? {
      row := MergeServer(row, s.value, c.Some?, server.value.needsConfirmation);
    }
    var clientStream := if client.hellos != [] then Some(client.streamId) else None;
    var serverStream := if others != [] then Some(server.value.streamId) else None;
    var resumed := None;
    if c.Some? && s.Some? && s.value.version.Some? && s.value.version.value != TLS_VERSION_1_3 {
      resumed := Some(c.value.sessionId != [] && c.value.sessionId == s.value.sessionId);
    }
    var verdict := row.verdict;
    if verdict.status == Unset && c.Some? && client.verdict.status != Unset {
      verdict := client.verdict;
    }
    if verdict.status == Unset && s.Some? && server.value.verdict.status != Unset {
      verdict := server.value.verdict;
    }
    if verdict.status == Unset {
      verdict := verdict.(status := if c.None? || s.None? then OneSided else Complete);
    }
    row := row.(clientStream := clientStream, serverStream := serverStream, resumed := resumed, verdict := verdict);
  }

  method MergeClient(row: TlsRow, hello: Hello, searched: bool) returns (after: TlsRow)
    ensures after == row.(client := Some(hello), first := hello.first, last := hello.last, verdict := hello.verdict,
                          clientUnanchored := searched)
  {
    after := row.(client := Some(hello), first := hello.first, last := hello.last);
    after := after.(verdict := hello.verdict, clientUnanchored := searched);
  }

  method MergeServer(row: TlsRow, hello: Hello, hasClient: bool, searched: bool) returns (after: TlsRow)
    ensures after == row.(server := Some(hello), serverUnanchored := searched,
                          first := if hasClient then row.first else hello.first,
                          last := if hasClient && hello.last.number <= row.last.number then row.last else hello.last,
                          verdict := OrElse(row.verdict, hello.verdict))
  {
    after := row.(server := Some(hello), serverUnanchored := searched);
    if !hasClient {
      after := after.(first := hello.first, last := hello.last);
    } else if hello.last.number > row.last.number {
      after := after.(last := hello.last);
    }
    if row.verdict.status == Unset {
      after := after.(verdict := hello.verdict);
    }
  }

  // ---------------------------------------------------------------- every hello is on exactly one row

  /** One hello on one row: which side, stream and position, what it said, and whether it was found by searching. */
  datatype Mention = Mention(client: bool, streamId: U64, number: nat, hello: Hello, searched: bool)

  /** How often a direction's own hellos are this one: once if it holds it there, else never. */
  function Holds(d: TlsDirection, m: Mention): nat {
    if m.client == d.client && m.streamId == d.streamId && m.searched == d.needsConfirmation
       && 0 < m.number <= |d.hellos| && d.hellos[m.number - 1] == m.hello
    then 1 else 0
  }

  function OnSide(row: TlsRow, m: Mention): nat {
    var hello, stream, searched :=
      if m.client then row.client else row.server, if m.client then row.clientStream else row.serverStream,
      if m.client then row.clientUnanchored else row.serverUnanchored;
    if hello == Some(m.hello) && stream == Some(m.streamId) && row.number == m.number && searched == m.searched then 1 else 0
  }

  /** How many rows carry a hello. */
  function Carried(rows: seq<TlsRow>, m: Mention): nat {
    if rows == [] then 0 else Carried(rows[..|rows| - 1], m) + OnSide(rows[|rows| - 1], m)
  }

  lemma {:induction false} CarriedJoin(a: seq<TlsRow>, b: seq<TlsRow>, m: Mention)
    ensures Carried(a + b, m) == Carried(a, m) + Carried(b, m)
  {
    if b == [] {
      assert a + b == a;
    } else {
      var n := |b| - 1;
      CarriedJoin(a, b[..n], m);
      assert (a + b)[..|a + b| - 1] == a + b[..n];
    }
  }

  function SideHolds(side: Option<TlsDirection>, m: Mention): nat {
    if side.Some? then Holds(side.value, m) else 0
  }

  predicate SidesRight(pair: Pair) {
    (pair.client.client || pair.client.hellos == []) && (pair.server.Some? ==> !pair.server.value.client)
  }

  lemma {:induction false} CarriedUpTo(pair: Pair, m: Mention, n: nat)
    requires n <= Count(pair)
    ensures Carried(RowsOf(pair)[..n], m) ==
      if 0 < m.number <= n then OnSide(RowAt(pair, m.number - 1), m) else 0
  {
    hide RowAt;
    if n > 0 {
      CarriedUpTo(pair, m, n - 1);
      var rows := RowsOf(pair)[..n];
      assert rows[..n - 1] == RowsOf(pair)[..n - 1];
      assert rows[n - 1] == RowAt(pair, n - 1);
      RowNumber(pair, n - 1, m);
    }
  }

  lemma RowNumber(pair: Pair, index: nat, m: Mention)
    ensures RowAt(pair, index).number == index + 1
    ensures m.number != index + 1 ==> OnSide(RowAt(pair, index), m) == 0
  {
  }

  lemma RowCarries(pair: Pair, m: Mention)
    requires SidesRight(pair) && m.number > 0
    ensures OnSide(RowAt(pair, m.number - 1), m) == Holds(pair.client, m) + SideHolds(pair.server, m)
  {
    hide MergedKey, RowVerdict, Resumed, FirstStamp, LastStamp;
  }

  /** A merge puts every hello of both directions on exactly one row, in its own place. */
  lemma MergeCarriesAll(pair: Pair, m: Mention)
    requires SidesRight(pair)
    ensures Carried(RowsOf(pair), m) == Holds(pair.client, m) + SideHolds(pair.server, m)
  {
    hide RowAt, OnSide;
    var rows := RowsOf(pair);
    assert rows[..Count(pair)] == rows;
    CarriedUpTo(pair, m, Count(pair));
    if 0 < m.number <= Count(pair) {
      RowCarries(pair, m);
    }
  }
}
