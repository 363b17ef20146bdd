/** The record and message layers under the TLS assembler (src/tls_handshake.cpp; section 5.1 of RFC 8446). */
module TlsFraming {
  import opened Basics

  const HEADER_LENGTH := 5
  const MAX_RECORD_LENGTH := 16384 + 2048
  const CHANGE_CIPHER_SPEC: U8 := 20
  const HANDSHAKE: U8 := 22
  const CLIENT_HELLO: U8 := 1
  const SERVER_HELLO: U8 := 2

  type Bytes = seq<U8>

  /** Where one record's body sits in the chunk. */
  type Span = (nat, nat)

  datatype Collection = Collection(bytes: Bytes, spans: seq<Span>, truncated: bool)

  // ---------------------------------------------------------------- records

  function LengthAt(data: Bytes, offset: nat): nat
    requires offset + HEADER_LENGTH <= |data|
  {
    Big16(data[offset + 3], data[offset + 4])
  }

  predicate HeaderValid(data: Bytes, offset: nat)
    requires offset + HEADER_LENGTH <= |data|
  {
    data[offset + 1] == 3 && data[offset + 2] <= 4 && 0 < LengthAt(data, offset) <= MAX_RECORD_LENGTH
  }

  /** Reading goes on past this offset: a whole header of a record other than the one that starts encryption. */
  predicate Readable(data: Bytes, offset: nat) {
    offset + HEADER_LENGTH <= |data| && HeaderValid(data, offset) && data[offset] != CHANGE_CIPHER_SPEC
  }

  /** The handshake bytes of the records from an offset, where each came from, and whether a record was cut off. */
  function Collected(data: Bytes, offset: nat): Collection
    decreases |data| - offset
  {
    if !Readable(data, offset) then Collection([], [], false)
    else
      var begin, length := offset + HEADER_LENGTH, LengthAt(data, offset);
      if begin + length > |data| then Collection([], [], true)
      else
        var rest := Collected(data, begin + length);
        if data[offset] != HANDSHAKE then rest
        else Collection(data[begin..begin + length] + rest.bytes, [(begin, length)] + rest.spans, rest.truncated)
  }

  /** What was collected before, and the rest. */
  function Joined(bytes: Bytes, spans: seq<Span>, rest: Collection): Collection {
    Collection(bytes + rest.bytes, spans + rest.spans, rest.truncated)
  }

  lemma CollectedNext(data: Bytes, offset: nat, bytes: Bytes, spans: seq<Span>)
    requires Readable(data, offset) && offset + HEADER_LENGTH + LengthAt(data, offset) <= |data|
    ensures var begin, length := offset + HEADER_LENGTH, LengthAt(data, offset);
      var rest := Collected(data, begin + length);
      Joined(bytes, spans, Collected(data, offset)) ==
        if data[offset] == HANDSHAKE then Joined(bytes + data[begin..begin + length], spans + [(begin, length)], rest)
        else Joined(bytes, spans, rest)
  {
    var begin, length := offset + HEADER_LENGTH, LengthAt(data, offset);
    var rest := Collected(data, begin + length);
    assert bytes + (data[begin..begin + length] + rest.bytes) == bytes + data[begin..begin + length] + rest.bytes;
    assert spans + ([(begin, length)] + rest.spans) == spans + [(begin, length)] + rest.spans;
  }

  lemma CollectedEnd(data: Bytes, offset: nat, bytes: Bytes, spans: seq<Span>)
    requires !Readable(data, offset) || offset + HEADER_LENGTH + LengthAt(data, offset) > |data|
    ensures Joined(bytes, spans, Collected(data, offset)) == Collection(bytes, spans, Readable(data, offset))
  {
  }

  method CollectHandshakeBytes(data: Bytes, start: nat) returns (collection: Collection)
    requires start <= |data|
    ensures collection == Collected(data, start)
  {
    hide Collected, Joined, HeaderValid, LengthAt;
    var offset := start;
    var bytes: Bytes, spans: seq<Span> := [], [];
    JoinedNone(Collected(data, start));
    while |data| - offset >= HEADER_LENGTH
      invariant start <= offset <= |data|
      invariant Collected(data, start) == Joined(bytes, spans, Collected(data, offset))
      decreases |data| - offset
    {
      var kind, length := data[offset], LengthAt(data, offset);
      if !HeaderValid(data, offset) || kind == CHANGE_CIPHER_SPEC {
        break;
      }
      if length > |data| - offset - HEADER_LENGTH {
        CollectedEnd(data, offset, bytes, spans);
        return Collection(bytes, spans, true);
      }
      CollectedNext(data, offset, bytes, spans);
      var begin := offset + HEADER_LENGTH;
      if kind == HANDSHAKE {
        bytes := bytes + data[begin..begin + length];
        spans := spans + [(begin, length)];
      }
      offset := begin + length;
    }
    CollectedEnd(data, offset, bytes, spans);
    collection := Collection(bytes, spans, false);
  }

  lemma JoinedNone(rest: Collection)
    ensures Joined([], [], rest) == rest
  {
  }

  datatype AnyRecord = Record(kind: U8, minor: U8, body: Bytes)

  /** A record any peer may send: an SSL 3.0 to TLS 1.3 version and a non-empty body within the length limit. */
  type Record = r: AnyRecord | r.minor <= 4 && 0 < |r.body| <= MAX_RECORD_LENGTH witness Record(22, 1, [0])

  function Encoded(r: Record): Bytes {
    [r.kind, 3, r.minor, |r.body| / 256, |r.body| % 256] + r.body
  }

  function EncodedAll(records: seq<Record>): Bytes {
    if records == [] then [] else Encoded(records[0]) + EncodedAll(records[1..])
  }

  /** The handshake stream the records carry. */
  function Carried(records: seq<Record>): Bytes {
    if records == [] then []
    else (if records[0].kind == HANDSHAKE then records[0].body else []) + Carried(records[1..])
  }

  function SpansFrom(records: seq<Record>, offset: nat): seq<Span> {
    if records == [] then []
    else
      var begin, length := offset + HEADER_LENGTH, |records[0].body|;
      (if records[0].kind == HANDSHAKE then [(begin, length)] else []) + SpansFrom(records[1..], begin + length)
  }

  /** The data holds this record at this offset. */
  predicate HoldsAt(data: Bytes, offset: nat, r: Record) {
    offset + HEADER_LENGTH + |r.body| <= |data|
    && data[offset..offset + HEADER_LENGTH + |r.body|] == Encoded(r)
  }

  lemma RecordRead(data: Bytes, offset: nat, r: Record)
    requires HoldsAt(data, offset, r)
    ensures offset + HEADER_LENGTH <= |data| && HeaderValid(data, offset)
    ensures data[offset] == r.kind && LengthAt(data, offset) == |r.body|
    ensures data[offset + HEADER_LENGTH..offset + HEADER_LENGTH + |r.body|] == r.body
  {
    var whole := data[offset..offset + HEADER_LENGTH + |r.body|];
    assert forall i | 0 <= i < |whole| :: data[offset + i] == whole[i];
    assert data[offset + 0] == whole[0] && data[offset + 1] == whole[1] && data[offset + 2] == whole[2];
    assert data[offset + 3] == whole[3] && data[offset + 4] == whole[4];
    assert whole[HEADER_LENGTH..] == r.body;
  }

  /** The data holds these records one after another from this offset. */
  predicate AllHeldAt(data: Bytes, offset: nat, records: seq<Record>)
    decreases |records|
  {
    records == []
    || (HoldsAt(data, offset, records[0]) && AllHeldAt(data, offset + HEADER_LENGTH + |records[0].body|, records[1..]))
  }

  function End(offset: nat, records: seq<Record>): nat
    decreases |records|
  {
    if records == [] then offset else End(offset + HEADER_LENGTH + |records[0].body|, records[1..])
  }

  lemma {:induction false} EncodedHeld(prefix: Bytes, records: seq<Record>, tail: Bytes)
    ensures AllHeldAt(prefix + EncodedAll(records) + tail, |prefix|, records)
    ensures End(|prefix|, records) == |prefix| + |EncodedAll(records)|
    decreases |records|
  {
    if records != [] {
      hide HoldsAt, Encoded;
      var r, rest := records[0], EncodedAll(records[1..]);
      EncodedLength(r);
      EncodedHeld(prefix + Encoded(r), records[1..], tail);
      HeldFirst(prefix, r, rest + tail);
      Regroup(prefix, Encoded(r), rest, tail);
    }
  }

  lemma {:induction false} HeldCollected(data: Bytes, offset: nat, records: seq<Record>)
    requires AllHeldAt(data, offset, records) && !Readable(data, End(offset, records))
    requires forall i | 0 <= i < |records| :: records[i].kind != CHANGE_CIPHER_SPEC
    ensures Collected(data, offset) == Collection(Carried(records), SpansFrom(records, offset), false)
    decreases |records|
  {
    if records == [] {
      assert End(offset, records) == offset;
    } else {
      hide HoldsAt, Readable, Collected;
      HeldCollected(data, offset + HEADER_LENGTH + |records[0].body|, records[1..]);
      RecordStep(data, offset, records[0]);
    }
  }

  /** Records one after another, then something that ends the reading, give back exactly the handshake stream they
      carry, each body at its own place. */
  lemma CollectRecovers(prefix: Bytes, records: seq<Record>, tail: Bytes)
    requires forall i | 0 <= i < |records| :: records[i].kind != CHANGE_CIPHER_SPEC
    requires !Readable(prefix + EncodedAll(records) + tail, |prefix| + |EncodedAll(records)|)
    ensures Collected(prefix + EncodedAll(records) + tail, |prefix|) ==
      Collection(Carried(records), SpansFrom(records, |prefix|), false)
  {
    hide *;
    EncodedHeld(prefix, records, tail);
    HeldCollected(prefix + EncodedAll(records) + tail, |prefix|, records);
  }

  lemma EncodedLength(r: Record)
    ensures |Encoded(r)| == HEADER_LENGTH + |r.body|
  {
  }

  lemma HeldFirst(prefix: Bytes, r: Record, rest: Bytes)
    ensures HoldsAt(prefix + Encoded(r) + rest, |prefix|, r)
  {
    hide Encoded;
    EncodedLength(r);
  }

  lemma RecordStep(data: Bytes, offset: nat, r: Record)
    requires HoldsAt(data, offset, r) && r.kind != CHANGE_CIPHER_SPEC
    ensures var begin := offset + HEADER_LENGTH;
      var rest := Collected(data, begin + |r.body|);
      Collected(data, offset) ==
        if r.kind != HANDSHAKE then rest
        else Collection(r.body + rest.bytes, [(begin, |r.body|)] + rest.spans, rest.truncated)
  {
    RecordRead(data, offset, r);
  }

  /** Reading ends exactly at too few bytes for a header, a record that starts encryption, or a header of another
      version or of a length no record has. */
  lemma EndsReading(before: Bytes, tail: Bytes)
    ensures !Readable(before + tail, |before|) <==>
      || |tail| < HEADER_LENGTH || tail[0] == CHANGE_CIPHER_SPEC || tail[1] != 3 || tail[2] > 4
      || Big16(tail[3], tail[4]) == 0 || Big16(tail[3], tail[4]) > MAX_RECORD_LENGTH
  {
    if |tail| >= HEADER_LENGTH {
      HeaderAt(before, tail);
    }
  }

  lemma HeaderAt(before: Bytes, tail: Bytes)
    requires |tail| >= HEADER_LENGTH
    ensures forall i | 0 <= i < HEADER_LENGTH :: (before + tail)[|before| + i] == tail[i]
    ensures LengthAt(before + tail, |before|) == Big16(tail[3], tail[4])
  {
    assert (before + tail)[|before| + 3] == tail[3] && (before + tail)[|before| + 4] == tail[4];
  }

  /** Reading goes on exactly at the header of some record a peer may send, other than one that starts encryption. */
  lemma ReadsOn(before: Bytes, tail: Bytes)
    ensures Readable(before + tail, |before|) <==>
      && |tail| >= HEADER_LENGTH
      && exists r: Record :: r.kind != CHANGE_CIPHER_SPEC && tail[..HEADER_LENGTH] == Encoded(r)[..HEADER_LENGTH]
  {
    EndsReading(before, tail);
    if Readable(before + tail, |before|) {
      var length := Big16(tail[3], tail[4]);
      var r: Record := Record(tail[0], tail[2], seq(length, _ => 0));
      assert tail[..HEADER_LENGTH] == Encoded(r)[..HEADER_LENGTH];
    } else if |tail| >= HEADER_LENGTH {
      forall r: Record | tail[..HEADER_LENGTH] == Encoded(r)[..HEADER_LENGTH]
        ensures r.kind == CHANGE_CIPHER_SPEC
      {
        var header := Encoded(r)[..HEADER_LENGTH];
        assert tail[0] == header[0] && tail[1] == header[1] && tail[2] == header[2];
        assert tail[3] == header[3] && tail[4] == header[4];
      }
    }
  }

  /** A record cut off after its header is reported as truncated and adds nothing. */
  lemma CutRecord(before: Bytes, r: Record, n: nat)
    requires r.kind != CHANGE_CIPHER_SPEC && HEADER_LENGTH <= n < |Encoded(r)|
    ensures Collected(before + Encoded(r)[..n], |before|) == Collection([], [], true)
  {
    var data := before + Encoded(r)[..n];
    assert forall i | 0 <= i < n :: data[|before| + i] == Encoded(r)[i];
    assert data[|before| + 0] == Encoded(r)[0] && data[|before| + 1] == 3 && data[|before| + 2] == Encoded(r)[2];
    assert data[|before| + 3] == Encoded(r)[3] && data[|before| + 4] == Encoded(r)[4];
  }

  // ---------------------------------------------------------------- where a handshake byte came from

  /** The offset of a span in the handshake bytes. */
  function StartOf(spans: seq<Span>, i: nat): nat
    requires i <= |spans|
  {
    if i == 0 then 0 else StartOf(spans, i - 1) + spans[i - 1].1
  }

  /** The chunk offset of a handshake byte, walking the spans one by one. */
  function Walk(spans: seq<Span>, i: nat, k: nat): nat
    requires i <= |spans|
    decreases |spans| - i
  {
    if i == |spans| then 0
    else if k < spans[i].1 then spans[i].0 + k
    else Walk(spans, i + 1, k - spans[i].1)
  }

  predicate NonEmpty(spans: seq<Span>) {
    forall i | 0 <= i < |spans| :: spans[i].1 > 0
  }

  /** Spans follow each other in the chunk. */
  predicate InOrder(spans: seq<Span>) {
    forall i, j | 0 <= i < j < |spans| :: spans[i].0 + spans[i].1 <= spans[j].0
  }

  lemma {:induction false} StartMonotone(spans: seq<Span>, i: nat, j: nat)
    requires i <= j <= |spans|
    ensures StartOf(spans, i) <= StartOf(spans, j)
    ensures NonEmpty(spans) && i < j ==> StartOf(spans, i) < StartOf(spans, j)
    decreases j - i
  {
    if i < j {
      StartMonotone(spans, i, j - 1);
    }
  }

  lemma {:induction false} WalkFinds(spans: seq<Span>, i: nat, j: nat, k: nat)
    requires i <= j < |spans| && StartOf(spans, j) <= k + StartOf(spans, i) < StartOf(spans, j + 1)
    ensures Walk(spans, i, k) == spans[j].0 + (k + StartOf(spans, i) - StartOf(spans, j))
    decreases j - i
  {
    if i < j {
      StartMonotone(spans, i + 1, j);
      WalkFinds(spans, i + 1, j, k - spans[i].1);
    }
  }

  /** The offsets of all spans, as the locator's constructor sums them. */
  method Starts(spans: seq<Span>) returns (starts: seq<nat>)
    ensures |starts| == |spans| && forall i | 0 <= i < |spans| :: starts[i] == StartOf(spans, i)
  {
    starts := [];
    var total := 0;
    for i := 0 to |spans|
      invariant |starts| == i && total == StartOf(spans, i)
      invariant forall j | 0 <= j < i :: starts[j] == StartOf(spans, j)
    {
      starts := starts + [total];
      total := total + spans[i].1;
    }
  }

  /** How many starts are at or before a position. */
  method UpperBound(starts: seq<nat>, begin: nat) returns (index: nat)
    requires forall i, j | 0 <= i < j < |starts| :: starts[i] <= starts[j]
    ensures index <= |starts|
    ensures forall i | 0 <= i < index :: starts[i] <= begin
    ensures forall i | index <= i < |starts| :: starts[i] > begin
  {
    var low, high := 0, |starts|;
    while low < high
      invariant 0 <= low <= high <= |starts|
      invariant forall i | 0 <= i < low :: starts[i] <= begin
      invariant forall i | high <= i < |starts| :: starts[i] > begin
    {
      var middle := (low + high) / 2;
      if starts[middle] <= begin {
        low := middle + 1;
      } else {
        high := middle;
      }
    }
    index := low;
  }

  /** The chunk range covering a range of the handshake bytes: found by binary search, it begins at the first byte's
      place and ends just past the last byte's, as a walk over the spans finds them. */
  method Locate(spans: seq<Span>, begin: nat, length: nat) returns (range: Span)
    requires NonEmpty(spans) && InOrder(spans)
    requires length > 0 && begin + length <= StartOf(spans, |spans|)
    ensures range.0 == Walk(spans, 0, begin)
    ensures range.0 + range.1 == Walk(spans, 0, begin + length - 1) + 1
    ensures range.1 > 0
  {
    hide *;
    var starts := Starts(spans);
    StartsSorted(spans, starts);
    var index := UpperBound(starts, begin);
    FirstStart(spans, starts, index, begin);
    index := index - 1;
    var first := spans[index].0 + (begin - starts[index]);
    LocatedAt(spans, index, begin);
    var last, at := FindEnd(spans, starts, index, first, begin + length);
    EndsAt(spans, starts, at, begin + length);
    Forward(spans, index, at - 1, begin, begin + length - 1);
    range := (first, last - first);
  }

  /** Walks on from a span to the last one a range touches. */
  method FindEnd(spans: seq<Span>, starts: seq<nat>, from: nat, first: nat, end: nat) returns (last: nat, ghost at: nat)
    requires |starts| == |spans| && from < |spans| && starts[from] < end
    ensures from < at <= |spans| && starts[at - 1] < end && (at == |spans| || starts[at] >= end)
    ensures last == spans[at - 1].0 + Min(spans[at - 1].1, end - starts[at - 1])
  {
    last := first;
    var index := from;
    while index < |spans| && starts[index] < end
      invariant from <= index <= |spans|
      invariant index > from ==> starts[index - 1] < end
      invariant index > from ==> last == spans[index - 1].0 + Min(spans[index - 1].1, end - starts[index - 1])
    {
      var covered := Min(spans[index].1, end - starts[index]);
      last := spans[index].0 + covered;
      index := index + 1;
    }
    at := index;
  }

  lemma StartsSorted(spans: seq<Span>, starts: seq<nat>)
    requires |starts| == |spans| && forall i | 0 <= i < |spans| :: starts[i] == StartOf(spans, i)
    ensures forall i, j | 0 <= i < j < |starts| :: starts[i] <= starts[j]
  {
    forall i, j | 0 <= i < j < |starts|
      ensures starts[i] <= starts[j]
    {
      StartMonotone(spans, i, j);
    }
  }

  lemma FirstStart(spans: seq<Span>, starts: seq<nat>, index: nat, begin: nat)
    requires |starts| == |spans| && forall i | 0 <= i < |spans| :: starts[i] == StartOf(spans, i)
    requires begin < StartOf(spans, |spans|) && index <= |starts|
    requires forall i | 0 <= i < index :: starts[i] <= begin
    requires forall i | index <= i < |starts| :: starts[i] > begin
    ensures index > 0 && StartOf(spans, index - 1) <= begin < StartOf(spans, index)
  {
    if |spans| > 0 {
      assert starts[0] == StartOf(spans, 0) == 0;
    }
  }

  lemma LocatedAt(spans: seq<Span>, j: nat, k: nat)
    requires j < |spans| && StartOf(spans, j) <= k < StartOf(spans, j + 1)
    ensures Walk(spans, 0, k) == spans[j].0 + (k - StartOf(spans, j))
  {
    WalkFinds(spans, 0, j, k);
  }

  lemma EndsAt(spans: seq<Span>, starts: seq<nat>, index: nat, end: nat)
    requires |starts| == |spans| && forall i | 0 <= i < |spans| :: starts[i] == StartOf(spans, i)
    requires 0 < index <= |spans| && starts[index - 1] < end <= StartOf(spans, |spans|)
    requires index == |spans| || starts[index] >= end
    ensures StartOf(spans, index - 1) <= end - 1 < StartOf(spans, index)
    ensures Walk(spans, 0, end - 1) + 1 == spans[index - 1].0 + Min(spans[index - 1].1, end - starts[index - 1])
  {
    hide Walk;
    LocatedAt(spans, index - 1, end - 1);
  }

  /** Later handshake bytes sit later in the chunk. */
  lemma Forward(spans: seq<Span>, i: nat, j: nat, k: nat, l: nat)
    requires InOrder(spans) && i <= j < |spans| && k <= l
    requires StartOf(spans, i) <= k < StartOf(spans, i + 1) && StartOf(spans, j) <= l < StartOf(spans, j + 1)
    ensures Walk(spans, 0, k) <= Walk(spans, 0, l)
  {
    hide Walk;
    LocatedAt(spans, i, k);
    LocatedAt(spans, j, l);
  }

  /** The spans lie in order inside the data from an offset on, and a walk over them leads to each byte itself. */
  ghost predicate Truthful(data: Bytes, offset: nat, bytes: Bytes, spans: seq<Span>) {
    && NonEmpty(spans) && InOrder(spans)
    && (forall i | 0 <= i < |spans| :: offset <= spans[i].0 && spans[i].0 + spans[i].1 <= |data|)
    && StartOf(spans, |spans|) == |bytes|
    && (forall k | 0 <= k < |bytes| :: Walk(spans, 0, k) < |data| && data[Walk(spans, 0, k)] == bytes[k])
  }

  lemma MoreTruthful(data: Bytes, offset: nat, begin: nat, length: nat, bytes: Bytes, spans: seq<Span>)
    requires Truthful(data, begin + length, bytes, spans) && offset <= begin && length > 0 && begin + length <= |data|
    ensures Truthful(data, offset, data[begin..begin + length] + bytes, [(begin, length)] + spans)
  {
    var more, all := [(begin, length)] + spans, data[begin..begin + length] + bytes;
    StartShift((begin, length), spans, |spans|);
    forall k | 0 <= k < |all|
      ensures Walk(more, 0, k) < |data| && data[Walk(more, 0, k)] == all[k]
    {
      if k >= length {
        WalkShift((begin, length), spans, 0, k - length);
        assert all[k] == bytes[k - length];
      }
    }
  }

  lemma EarlierTruthful(data: Bytes, offset: nat, later: nat, bytes: Bytes, spans: seq<Span>)
    requires Truthful(data, later, bytes, spans) && offset <= later
    ensures Truthful(data, offset, bytes, spans)
  {
  }

  /** Collecting notes every handshake byte's true place. */
  lemma {:induction false} SpansTrue(data: Bytes, offset: nat)
    ensures Truthful(data, offset, Collected(data, offset).bytes, Collected(data, offset).spans)
    decreases |data| - offset
  {
    if Readable(data, offset) && offset + HEADER_LENGTH + LengthAt(data, offset) <= |data| {
      hide Truthful;
      var begin, length := offset + HEADER_LENGTH, LengthAt(data, offset);
      SpansTrue(data, begin + length);
      var rest := Collected(data, begin + length);
      if data[offset] == HANDSHAKE {
        MoreTruthful(data, offset, begin, length, rest.bytes, rest.spans);
      } else {
        EarlierTruthful(data, offset, begin + length, rest.bytes, rest.spans);
      }
    }
  }

  lemma {:induction false} StartShift(head: Span, spans: seq<Span>, i: nat)
    requires i <= |spans|
    ensures StartOf([head] + spans, i + 1) == head.1 + StartOf(spans, i)
  {
    if i > 0 {
      StartShift(head, spans, i - 1);
    }
  }

  lemma {:induction false} WalkShift(head: Span, spans: seq<Span>, i: nat, k: nat)
    requires i <= |spans|
    ensures Walk([head] + spans, i + 1, k) == Walk(spans, i, k)
    decreases |spans| - i
  {
    if i < |spans| && k >= spans[i].1 {
      WalkShift(head, spans, i + 1, k - spans[i].1);
    }
  }

  // ---------------------------------------------------------------- messages

  /** A framed handshake message: its type, where it starts in the handshake bytes, and its body. */
  datatype Message = Message(kind: U8, offset: nat, body: Bytes)

  /** Why framing stopped: nothing more to frame, a message past the bytes, or a limit. */
  datatype Stop = Ended | RunsOn | MessageTooLong | TooManyHandshakes

  datatype Framing = Framing(messages: seq<Message>, stop: Stop)

  datatype FramingLimits = FramingLimits(maxMessageBytes: nat, maxHandshakes: nat)

  function Big24(high: U8, middle: U8, low: U8): nat {
    65536 * (high as int) + 256 * (middle as int) + (low as int)
  }

  predicate IsHello(kind: U8) {
    kind == CLIENT_HELLO || kind == SERVER_HELLO
  }

  function WithMessage(message: Message, rest: Framing): Framing {
    rest.(messages := [message] + rest.messages)
  }

  /** The messages from an offset, when `hellos` of them were hellos already. */
  function Framed(limits: FramingLimits, bytes: Bytes, offset: nat, hellos: nat): Framing
    decreases |bytes| - offset
  {
    if offset + 4 > |bytes| then Framing([], Ended)
    else
      var kind, length := bytes[offset], Big24(bytes[offset + 1], bytes[offset + 2], bytes[offset + 3]);
      if length > limits.maxMessageBytes then Framing([], MessageTooLong)
      else if offset + 4 + length > |bytes| then Framing([], RunsOn)
      else if IsHello(kind) && hellos >= limits.maxHandshakes then Framing([], TooManyHandshakes)
      else
        WithMessage(Message(kind, offset, bytes[offset + 4..offset + 4 + length]),
                    Framed(limits, bytes, offset + 4 + length, hellos + if IsHello(kind) then 1 else 0))
  }

  function After(messages: seq<Message>, rest: Framing): Framing {
    rest.(messages := messages + rest.messages)
  }

  lemma AfterMessage(messages: seq<Message>, message: Message, rest: Framing)
    ensures After(messages, WithMessage(message, rest)) == After(messages + [message], rest)
  {
    assert messages + ([message] + rest.messages) == messages + [message] + rest.messages;
  }

  lemma AfterNone(messages: seq<Message>, rest: Framing)
    ensures After([], rest) == rest
    ensures rest.messages == [] ==> After(messages, rest) == Framing(messages, rest.stop)
  {
  }

  /** The framing loop: each pass consumes a whole message or stops. */
  method ParseMessages(limits: FramingLimits, bytes: Bytes) returns (framing: Framing)
    ensures framing == Framed(limits, bytes, 0, 0)
  {
    hide After, WithMessage, IsHello, Big24;
    var offset, hellos := 0, 0;
    var messages: seq<Message> := [];
    AfterNone([], Framed(limits, bytes, 0, 0));
    while |bytes| - offset >= 4
      invariant 0 <= offset <= |bytes|
      invariant Framed(limits, bytes, 0, 0) == After(messages, Framed(limits, bytes, offset, hellos))
      decreases |bytes| - offset
    {
      AfterNone(messages, Framed(limits, bytes, offset, hellos));
      var kind, length := bytes[offset], Big24(bytes[offset + 1], bytes[offset + 2], bytes[offset + 3]);
      if length > limits.maxMessageBytes {
        return Framing(messages, MessageTooLong);
      }
      if length > |bytes| - offset - 4 {
        return Framing(messages, RunsOn);
      }
      if IsHello(kind) && hellos >= limits.maxHandshakes {
        return Framing(messages, TooManyHandshakes);
      }
      var message := Message(kind, offset, bytes[offset + 4..offset + 4 + length]);
      AfterMessage(messages, message, Framed(limits, bytes, offset + 4 + length, hellos + if IsHello(kind) then 1 else 0));
      if IsHello(kind) {
        hellos := hellos + 1;
      }
      messages := messages + [message];
      offset := offset + 4 + length;
    }
    AfterNone(messages, Framed(limits, bytes, offset, hellos));
    framing := Framing(messages, Ended);
  }

  /** A message as it is sent. */
  type Sent = m: (U8, Bytes) | |m.1| < 0x100_0000 witness (0, [])

  function EncodedMessage(m: Sent): Bytes {
    [m.0, |m.1| / 65536, |m.1| / 256 % 256, |m.1| % 256] + m.1
  }

  function EncodedMessages(sent: seq<Sent>): Bytes {
    if sent == [] then [] else EncodedMessage(sent[0]) + EncodedMessages(sent[1..])
  }

  function MessagesAt(sent: seq<Sent>, offset: nat): seq<Message>
    decreases |sent|
  {
    if sent == [] then []
    else [Message(sent[0].0, offset, sent[0].1)] + MessagesAt(sent[1..], offset + 4 + |sent[0].1|)
  }

  function Hellos(sent: seq<Sent>): nat {
    if sent == [] then 0 else (if IsHello(sent[0].0) then 1 else 0) + Hellos(sent[1..])
  }

  /** The bytes hold this message at this offset. */
  predicate MessageAt(bytes: Bytes, offset: nat, m: Sent) {
    offset + 4 + |m.1| <= |bytes| && bytes[offset..offset + 4 + |m.1|] == EncodedMessage(m)
  }

  /** The bytes hold these messages one after another from this offset to their end. */
  predicate AllMessagesAt(bytes: Bytes, offset: nat, sent: seq<Sent>)
    decreases |sent|
  {
    if sent == [] then offset == |bytes|
    else MessageAt(bytes, offset, sent[0]) && AllMessagesAt(bytes, offset + 4 + |sent[0].1|, sent[1..])
  }

  lemma MessageStep(limits: FramingLimits, bytes: Bytes, offset: nat, m: Sent, hellos: nat)
    requires MessageAt(bytes, offset, m)
    requires |m.1| <= limits.maxMessageBytes && (IsHello(m.0) ==> hellos < limits.maxHandshakes)
    ensures Framed(limits, bytes, offset, hellos) ==
      WithMessage(Message(m.0, offset, m.1),
                  Framed(limits, bytes, offset + 4 + |m.1|, hellos + if IsHello(m.0) then 1 else 0))
  {
    hide IsHello, WithMessage;
    var whole := bytes[offset..offset + 4 + |m.1|];
    assert forall i | 0 <= i < |whole| :: bytes[offset + i] == whole[i];
    assert bytes[offset + 0] == whole[0] && bytes[offset + 1] == whole[1];
    assert bytes[offset + 2] == whole[2] && bytes[offset + 3] == whole[3];
    assert whole[4..] == m.1;
    ByteSum(|m.1|);
  }

  lemma ByteSum(n: nat)
    requires n < 0x100_0000
    ensures n / 65536 < 256 && Big24(n / 65536, n / 256 % 256, n % 256) == n
  {
    assert n / 256 == 256 * (n / 65536) + n / 256 % 256;
  }

  lemma {:induction false} MessagesHeld(before: Bytes, sent: seq<Sent>)
    ensures AllMessagesAt(before + EncodedMessages(sent), |before|, sent)
    decreases |sent|
  {
    if sent != [] {
      hide EncodedMessage, MessageAt;
      var head, rest := EncodedMessage(sent[0]), EncodedMessages(sent[1..]);
      MessageLength(sent[0]);
      MessagesHeld(before + head, sent[1..]);
      MessageFirst(before, sent[0], rest);
      assert before + (head + rest) == before + head + rest;
    }
  }

  lemma MessageFirst(before: Bytes, m: Sent, rest: Bytes)
    ensures MessageAt(before + EncodedMessage(m) + rest, |before|, m)
  {
    hide EncodedMessage;
    MessageLength(m);
  }

  predicate AllFit(limits: FramingLimits, sent: seq<Sent>) {
    forall i | 0 <= i < |sent| :: |sent[i].1| <= limits.maxMessageBytes
  }

  lemma FitsOn(limits: FramingLimits, sent: seq<Sent>)
    requires AllFit(limits, sent) && sent != []
    ensures |sent[0].1| <= limits.maxMessageBytes && AllFit(limits, sent[1..])
  {
  }

  lemma FramedEnd(limits: FramingLimits, bytes: Bytes, offset: nat, hellos: nat)
    requires AllMessagesAt(bytes, offset, [])
    ensures Framed(limits, bytes, offset, hellos) == Framing(MessagesAt([], offset), Ended)
  {
  }

  lemma {:induction false} HeldFramed(limits: FramingLimits, bytes: Bytes, offset: nat, sent: seq<Sent>, hellos: nat)
    requires AllMessagesAt(bytes, offset, sent)
    requires AllFit(limits, sent)
    requires hellos + Hellos(sent) <= limits.maxHandshakes
    ensures Framed(limits, bytes, offset, hellos) == Framing(MessagesAt(sent, offset), Ended)
    decreases |sent|
  {
    hide *;
    if sent == [] {
      FramedEnd(limits, bytes, offset, hellos);
    } else {
      var head, rest := sent[0], sent[1..];
      FitsOn(limits, sent);
      var next := offset + 4 + |head.1|;
      HeldUnfolded(bytes, offset, sent);
      Unfolded(sent, offset);
      MessageStep(limits, bytes, offset, head, hellos);
      HeldFramed(limits, bytes, next, rest, hellos + if IsHello(head.0) then 1 else 0);
      Prepended(Message(head.0, offset, head.1), MessagesAt(rest, next));
    }
  }

  /** Messages within the limits are framed back exactly, at their own offsets. */
  lemma FramesRecovered(limits: FramingLimits, sent: seq<Sent>)
    requires AllFit(limits, sent)
    requires Hellos(sent) <= limits.maxHandshakes
    ensures Framed(limits, EncodedMessages(sent), 0, 0) == Framing(MessagesAt(sent, 0), Ended)
  {
    hide *;
    MessagesHeld([], sent);
    assert [] + EncodedMessages(sent) == EncodedMessages(sent);
    HeldFramed(limits, EncodedMessages(sent), 0, sent, 0);
  }

  lemma HeldUnfolded(bytes: Bytes, offset: nat, sent: seq<Sent>)
    requires AllMessagesAt(bytes, offset, sent) && sent != []
    ensures MessageAt(bytes, offset, sent[0]) && AllMessagesAt(bytes, offset + 4 + |sent[0].1|, sent[1..])
  {
    hide MessageAt;
  }

  lemma Prepended(message: Message, rest: seq<Message>)
    ensures WithMessage(message, Framing(rest, Ended)) == Framing([message] + rest, Ended)
  {
  }

  lemma Unfolded(sent: seq<Sent>, offset: nat)
    requires sent != []
    ensures EncodedMessages(sent) == EncodedMessage(sent[0]) + EncodedMessages(sent[1..])
    ensures MessagesAt(sent, offset) ==
      [Message(sent[0].0, offset, sent[0].1)] + MessagesAt(sent[1..], offset + 4 + |sent[0].1|)
    ensures Hellos(sent) == (if IsHello(sent[0].0) then 1 else 0) + Hellos(sent[1..])
  {
    hide EncodedMessage, IsHello;
  }

  lemma MessageLength(m: Sent)
    ensures |EncodedMessage(m)| == 4 + |m.1|
  {
  }

  /** Framing does not depend on record boundaries: however the messages are cut into legal records, with other
      records between, and whatever ends the reading after them, the same messages come back at the same offsets. */
  lemma CutIndependent(limits: FramingLimits, prefix: Bytes, records: seq<Record>, tail: Bytes, sent: seq<Sent>)
    requires forall i | 0 <= i < |records| :: records[i].kind != CHANGE_CIPHER_SPEC
    requires !Readable(prefix + EncodedAll(records) + tail, |prefix| + |EncodedAll(records)|)
    requires Carried(records) == EncodedMessages(sent)
    requires AllFit(limits, sent)
    requires Hellos(sent) <= limits.maxHandshakes
    ensures var c := Collected(prefix + EncodedAll(records) + tail, |prefix|);
      !c.truncated && Framed(limits, c.bytes, 0, 0) == Framing(MessagesAt(sent, 0), Ended)
  {
    hide *;
    CollectRecovers(prefix, records, tail);
    FramesRecovered(limits, sent);
  }
}
