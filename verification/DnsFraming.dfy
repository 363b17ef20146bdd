/** Length-prefixed DNS messages over a reconstructed stream (src/dns_tcp_framer.cpp). */
module DnsFraming {
  import opened Basics
  import opened TcpTypes
  import opened StreamProperties
  import Provenance

  datatype FrameStatus = Complete | Incomplete | Invalid | AlignmentLost | StreamConflict | OverLimit

  datatype FrameError =
    | NoFrameError
    | TransportFailed(cause: StreamError)
    | AlignmentUnknown
    | ShorterThanHeader
    | TooManyMessages
    | SequenceGap
    | CutAtIdleTimeout
    | CutAtEnd

  datatype DnsMessage = DnsMessage(key: FlowKey, streamId: nat, number: nat, sequence: U32,
                                   first: PacketStamp, last: PacketStamp,
                                   status: FrameStatus, error: FrameError, data: seq<U8>)

  /** One whole frame: where its length prefix starts and how long the message is. */
  datatype Frame = Frame(offset: nat, length: nat)

  /** Whole frames, then where framing stopped and whether a bad length stopped it. */
  datatype Framing = Framing(frames: seq<Frame>, end: nat, malformed: bool)

  function LengthAt(data: seq<U8>, offset: nat): U16
    requires offset + 2 <= |data|
  {
    Big16(data[offset], data[offset + 1])
  }

  function FramesFrom(data: seq<U8>, offset: nat): (framing: Framing)
    requires offset <= |data|
    ensures offset <= framing.end <= |data|
    ensures forall i | 0 <= i < |framing.frames| ::
              offset <= framing.frames[i].offset && framing.frames[i].offset + framing.frames[i].length + 2 <= |data|
    decreases |data| - offset
  {
    if |data| - offset < 2 then Framing([], offset, false)
    else
      var length := LengthAt(data, offset);
      if length < 12 then Framing([], offset, true)
      else if length > |data| - offset - 2 then Framing([], offset, false)
      else
        var rest := FramesFrom(data, offset + length + 2);
        Framing([Frame(offset, length)] + rest.frames, rest.end, rest.malformed)
  }

  function Diagnostic(stream: Stream, status: FrameStatus, error: FrameError, offset: nat): DnsMessage {
    DnsMessage(stream.key, stream.streamId, 0, Wrap32(stream.sequence + offset), stream.first, stream.last, status, error, [])
  }

  /** The chunk that starts the stream, if its first bytes were captured. */
  function Head(stream: Stream): Chunk {
    if stream.chunks != [] && stream.chunks[0].offset == 0 then stream.chunks[0] else Chunk(0, 0, [], [])
  }

  function MessageOf(stream: Stream, frame: Frame, number: nat): DnsMessage
    requires frame.offset + frame.length + 2 <= |Head(stream).data|
  {
    var data := Head(stream).data;
    var packets := Provenance.PacketsOf(Head(stream), frame.offset, frame.length + 2);
    DnsMessage(stream.key, stream.streamId, number, Wrap32(stream.sequence + frame.offset), packets.0, packets.1,
               Complete, NoFrameError, data[frame.offset + 2..frame.offset + frame.length + 2])
  }

  function MessagesOf(stream: Stream, frames: seq<Frame>): (messages: seq<DnsMessage>)
    requires forall i | 0 <= i < |frames| :: frames[i].offset + frames[i].length + 2 <= |Head(stream).data|
    ensures |messages| == |frames|
  {
    seq(|frames|, i requires 0 <= i < |frames| => MessageOf(stream, frames[i], i + 1))
  }

  function Tail(stream: Stream, framing: Framing): seq<DnsMessage> {
    if framing.malformed then [Diagnostic(stream, Invalid, ShorterThanHeader, framing.end)]
    else if framing.end == stream.expectedBytes then []
    else
      var error := if stream.gaps != [] then SequenceGap
                   else if stream.finalizedBy == ByIdleTimeout then CutAtIdleTimeout
                   else CutAtEnd;
      [Diagnostic(stream, Incomplete, error, framing.end)]
  }

  function Framed(stream: Stream, maxMessages: nat): seq<DnsMessage> {
    if stream.status == Conflict then [Diagnostic(stream, StreamConflict, TransportFailed(stream.error), 0)]
    else if stream.status == Limit then [Diagnostic(stream, OverLimit, TransportFailed(stream.error), 0)]
    else if !stream.synSeen then [Diagnostic(stream, AlignmentLost, AlignmentUnknown, 0)]
    else
      var framing := FramesFrom(Head(stream).data, 0);
      if |framing.frames| > maxMessages then [Diagnostic(stream, OverLimit, TooManyMessages, 0)]
      else MessagesOf(stream, framing.frames) + Tail(stream, framing)
  }

  method FrameTcpDns(stream: Stream, maxMessages: nat) returns (result: seq<DnsMessage>)
    requires forall chunk | chunk in stream.chunks :: Tile(chunk.origins, 0, |chunk.data|)
    ensures result == Framed(stream, maxMessages)
  {
    if stream.status == Conflict {
      return [Diagnostic(stream, StreamConflict, TransportFailed(stream.error), 0)];
    }
    if stream.status == Limit {
      return [Diagnostic(stream, OverLimit, TransportFailed(stream.error), 0)];
    }
    if !stream.synSeen {
      return [Diagnostic(stream, AlignmentLost, AlignmentUnknown, 0)];
    }
    var chunk := Head(stream);
    var offset, number := 0, 0;
    result := [];
    while |chunk.data| - offset >= 2
      invariant 0 <= offset <= |chunk.data|
      invariant FramedUpTo(stream, offset, number, result)
      invariant number <= maxMessages
      decreases |chunk.data| - offset
    {
      var length := Big16(chunk.data[offset], chunk.data[offset + 1]);
      if length < 12 {
        return result + [Diagnostic(stream, Invalid, ShorterThanHeader, offset)];
      }
      if length > |chunk.data| - offset - 2 {
        break;
      }
      FramedOneMore(stream, offset, number, result);
      if number >= maxMessages {
        return [Diagnostic(stream, OverLimit, TooManyMessages, 0)];
      }
      number := number + 1;
      var message := ReadMessage(stream, chunk, offset, length, number);
      result := result + [message];
      offset := offset + length + 2;
    }
    if offset != stream.expectedBytes {
      var error := if stream.gaps != [] then SequenceGap
                   else if stream.finalizedBy == ByIdleTimeout then CutAtIdleTimeout
                   else CutAtEnd;
      result := result + [Diagnostic(stream, Incomplete, error, offset)];
    }
  }

  method ReadMessage(stream: Stream, chunk: Chunk, offset: nat, length: nat, number: nat) returns (message: DnsMessage)
    requires chunk == Head(stream) && offset + length + 2 <= |chunk.data|
    requires Tile(chunk.origins, 0, |chunk.data|)
    ensures message == MessageOf(stream, Frame(offset, length), number)
  {
    var first, last := Provenance.Find(chunk, offset, length + 2);
    message := DnsMessage(stream.key, stream.streamId, number, Wrap32(stream.sequence + offset), first, last,
                          Complete, NoFrameError, chunk.data[offset + 2..offset + length + 2]);
  }

  /** The first `number` frames end at `offset` and were reported as `result`. */
  ghost predicate FramedUpTo(stream: Stream, offset: nat, number: nat, result: seq<DnsMessage>) {
    var data := Head(stream).data;
    && offset <= |data|
    && RestOf(FramesFrom(data, 0), number, FramesFrom(data, offset))
    && result == MessagesOf(stream, FramesFrom(data, 0).frames)[..number]
  }

  lemma FramedOneMore(stream: Stream, offset: nat, number: nat, result: seq<DnsMessage>)
    requires FramedUpTo(stream, offset, number, result)
    requires offset + 2 <= |Head(stream).data|
    requires 12 <= LengthAt(Head(stream).data, offset) <= |Head(stream).data| - offset - 2
    ensures var length := LengthAt(Head(stream).data, offset);
      && FramedUpTo(stream, offset + length + 2, number + 1,
                    result + [MessageOf(stream, Frame(offset, length), number + 1)])
      && number < |FramesFrom(Head(stream).data, 0).frames|
  {
    var data, length := Head(stream).data, LengthAt(Head(stream).data, offset);
    var all, rest := FramesFrom(data, 0), FramesFrom(data, offset);
    assert all.frames[number] == rest.frames[0] == Frame(offset, length);
    assert all.frames[number + 1..] == rest.frames[1..];
  }

  /** `rest` is what remains of `framing` after its first `n` frames. */
  ghost predicate RestOf(framing: Framing, n: nat, rest: Framing) {
    && n <= |framing.frames| && framing.frames[n..] == rest.frames
    && framing.end == rest.end && framing.malformed == rest.malformed
  }

  // ---------------------------------------------------------------- framing undoes encoding

  /** A message long enough for the DNS header and short enough for the length prefix. */
  type Payload = m: seq<U8> | 12 <= |m| <= 65535 witness seq(12, _ => 0)

  /** The TCP encoding of section 4.2.2 of RFC 1035: each message after its two-byte length. */
  function Encoded(messages: seq<Payload>): seq<U8> {
    if messages == [] then [] else Prefixed(messages[0]) + Encoded(messages[1..])
  }

  function Prefixed(message: Payload): seq<U8> {
    [|message| / 256, |message| % 256] + message
  }

  /** How many messages the first `n` bytes of the encoding hold whole. */
  function WholeMessages(messages: seq<Payload>, n: nat): (k: nat)
    ensures k <= |messages|
  {
    if messages == [] || n < |messages[0]| + 2 then 0
    else 1 + WholeMessages(messages[1..], n - |messages[0]| - 2)
  }

  lemma {:induction false} EncodedPrefix(messages: seq<Payload>, k: nat)
    requires k <= |messages|
    ensures |Encoded(messages[..k])| <= |Encoded(messages)|
    ensures Encoded(messages)[..|Encoded(messages[..k])|] == Encoded(messages[..k])
  {
    if k > 0 {
      EncodedPrefix(messages[1..], k - 1);
      assert messages[..k][1..] == messages[1..][..k - 1];
      var head := Prefixed(messages[0]);
      assert Encoded(messages) == head + Encoded(messages[1..]);
      assert Encoded(messages[..k]) == head + Encoded(messages[1..][..k - 1]);
    }
  }

  /** All of the encoding holds all of the messages, and only then. */
  lemma {:induction false} WholeEncoding(messages: seq<Payload>, n: nat)
    requires n <= |Encoded(messages)|
    ensures WholeMessages(messages, n) == |messages| <==> n == |Encoded(messages)|
  {
    if messages != [] && n >= |messages[0]| + 2 {
      WholeEncoding(messages[1..], n - |messages[0]| - 2);
    }
  }

  /** From `at` on, `data` is the first `n` bytes of `bytes`. */
  ghost predicate PrefixAt(data: seq<U8>, at: nat, bytes: seq<U8>, n: nat) {
    |data| == at + n && n <= |bytes| && forall j | 0 <= j < n :: data[at + j] == bytes[j]
  }

  lemma FirstLength(data: seq<U8>, at: nat, messages: seq<Payload>, n: nat)
    requires messages != [] && 2 <= n
    requires PrefixAt(data, at, Encoded(messages), n)
    ensures LengthAt(data, at) == |messages[0]|
  {
    assert data[at + 0] == Encoded(messages)[0] == |messages[0]| / 256;
    assert data[at + 1] == Encoded(messages)[1] == |messages[0]| % 256;
  }

  /** What follows the first message of a prefix of the encoding is a prefix of the rest. */
  lemma AfterFirst(data: seq<U8>, at: nat, messages: seq<Payload>, n: nat)
    requires messages != [] && |messages[0]| + 2 <= n
    requires PrefixAt(data, at, Encoded(messages), n)
    ensures PrefixAt(data, at + |messages[0]| + 2, Encoded(messages[1..]), n - |messages[0]| - 2)
  {
    var skip, rest := |messages[0]| + 2, Encoded(messages[1..]);
    forall j | 0 <= j < n - skip
      ensures data[at + skip + j] == rest[j]
    {
      assert Encoded(messages)[skip + j] == rest[j];
      assert data[at + (skip + j)] == Encoded(messages)[skip + j];
    }
  }

  /** Framing a prefix of the encoding finds each whole message where it was put, and nothing else. */
  lemma {:induction false} FramesOfEncoding(data: seq<U8>, at: nat, messages: seq<Payload>, n: nat)
    requires PrefixAt(data, at, Encoded(messages), n)
    ensures FramesFrom(data, at) == Framing(FramesOf(at, messages[..WholeMessages(messages, n)]),
                                            at + |Encoded(messages[..WholeMessages(messages, n)])|, false)
    decreases |messages|
  {
    var k := WholeMessages(messages, n);
    if k == 0 {
      assert messages[..0] == [];
      if n >= 2 {
        FirstLength(data, at, messages, n);
      }
      NoFrame(data, at);
    } else {
      FirstLength(data, at, messages, n);
      AfterFirst(data, at, messages, n);
      FramesOfEncoding(data, at + |messages[0]| + 2, messages[1..], n - |messages[0]| - 2);
      WholeAfterFirst(messages, n);
      FramesOfOneMore(data, at, messages, k);
    }
  }

  lemma WholeAfterFirst(messages: seq<Payload>, n: nat)
    requires WholeMessages(messages, n) > 0
    ensures messages != [] && |messages[0]| + 2 <= n
    ensures WholeMessages(messages[1..], n - |messages[0]| - 2) == WholeMessages(messages, n) - 1
  {
  }

  lemma FramesOfOneMore(data: seq<U8>, at: nat, messages: seq<Payload>, k: nat)
    requires 0 < k <= |messages|
    requires at + 2 <= |data| && LengthAt(data, at) == |messages[0]| <= |data| - at - 2
    requires var next, rest := at + |messages[0]| + 2, messages[1..][..k - 1];
      FramesFrom(data, next) == Framing(FramesOf(next, rest), next + |Encoded(rest)|, false)
    ensures FramesFrom(data, at) == Framing(FramesOf(at, messages[..k]), at + |Encoded(messages[..k])|, false)
  {
    FramesOfMore(at, messages, k);
    OneFrame(data, at, |messages[0]|);
  }

  lemma OneFrame(data: seq<U8>, at: nat, length: nat)
    requires at + 2 <= |data| && LengthAt(data, at) == length && 12 <= length <= |data| - at - 2
    ensures var rest := FramesFrom(data, at + length + 2);
      FramesFrom(data, at) == Framing([Frame(at, length)] + rest.frames, rest.end, rest.malformed)
  {
  }

  lemma NoFrame(data: seq<U8>, at: nat)
    requires at <= |data|
    requires at + 2 <= |data| ==> 12 <= LengthAt(data, at) && |data| - at - 2 < LengthAt(data, at)
    ensures FramesFrom(data, at) == Framing([], at, false)
  {
  }

  lemma FramesOfMore(at: nat, messages: seq<Payload>, k: nat)
    requires 0 < k <= |messages|
    ensures FramesOf(at, messages[..k])
         == [Frame(at, |messages[0]|)] + FramesOf(at + |messages[0]| + 2, messages[1..][..k - 1])
    ensures |Encoded(messages[..k])| == |messages[0]| + 2 + |Encoded(messages[1..][..k - 1])|
  {
    assert messages[..k][1..] == messages[1..][..k - 1];
  }

  /** Where the frames of the encoding lie when it starts at `at`. */
  function FramesOf(at: nat, messages: seq<Payload>): (frames: seq<Frame>)
    ensures |frames| == |messages|
    decreases |messages|
  {
    if messages == [] then [] else [Frame(at, |messages[0]|)] + FramesOf(at + |messages[0]| + 2, messages[1..])
  }

  lemma {:induction false} FrameAt(at: nat, messages: seq<Payload>, i: nat)
    requires i < |messages|
    ensures FramesOf(at, messages)[i] == Frame(at + |Encoded(messages[..i])|, |messages[i]|)
    decreases |messages|
  {
    if i > 0 {
      FrameAt(at + |messages[0]| + 2, messages[1..], i - 1);
      assert messages[..i][1..] == messages[1..][..i - 1];
    }
  }

  /** The message bytes at each frame are the message that was encoded there. */
  lemma {:induction false} EncodedBytes(messages: seq<Payload>, i: nat)
    requires i < |messages|
    ensures var at := |Encoded(messages[..i])|;
      && at + |messages[i]| + 2 <= |Encoded(messages)|
      && Encoded(messages)[at + 2..at + |messages[i]| + 2] == messages[i]
  {
    if i > 0 {
      EncodedBytes(messages[1..], i - 1);
      assert messages[..i][1..] == messages[1..][..i - 1];
      var head := Prefixed(messages[0]);
      assert Encoded(messages) == head + Encoded(messages[1..]);
      var at := |Encoded(messages[1..][..i - 1])|;
      assert Encoded(messages)[|head| + at + 2..|head| + at + |messages[i]| + 2]
          == Encoded(messages[1..])[at + 2..at + |messages[i]| + 2];
    }
  }

  /** `row` reports message `i` of `messages` whole, at its place in sequence space. */
  ghost predicate Reports(row: DnsMessage, stream: Stream, messages: seq<Payload>, i: nat)
    requires i < |messages|
  {
    && row.status == Complete && row.error == NoFrameError
    && row.number == i + 1 && row.data == messages[i]
    && row.sequence == Wrap32(stream.sequence + |Encoded(messages[..i])|)
    && row.key == stream.key && row.streamId == stream.streamId
  }

  /** A stream whose first bytes are a prefix of the encoding yields exactly the messages whole in it,
      numbered from 1, and one diagnostic unless that prefix was everything. */
  lemma FramedEncoding(stream: Stream, maxMessages: nat, messages: seq<Payload>, n: nat)
    requires n <= |Encoded(messages)|
    requires stream.synSeen && stream.status != Conflict && stream.status != Limit
    requires Head(stream).data == Encoded(messages)[..n]
    requires |messages| <= maxMessages
    ensures var rows, k := Framed(stream, maxMessages), WholeMessages(messages, n);
      && k <= |rows| <= k + 1
      && (forall i: nat | i < k :: Reports(rows[i], stream, messages, i))
      && (|rows| == k + 1 ==> rows[k].status == Incomplete)
      && (|rows| == k <==> stream.expectedBytes == |Encoded(messages[..k])|)
  {
    var data, k := Head(stream).data, WholeMessages(messages, n);
    FramesOfEncoding(data, 0, messages, n);
    var framing, rows := FramesFrom(data, 0), Framed(stream, maxMessages);
    forall i: nat | i < k
      ensures Reports(rows[i], stream, messages, i)
    {
      ReportedMessage(stream, messages, n, i);
      assert rows[i] == MessagesOf(stream, framing.frames)[i];
    }
  }

  lemma ReportedMessage(stream: Stream, messages: seq<Payload>, n: nat, i: nat)
    requires n <= |Encoded(messages)|
    requires Head(stream).data == Encoded(messages)[..n]
    requires i < WholeMessages(messages, n)
    ensures var frame := FramesOf(0, messages[..WholeMessages(messages, n)])[i];
      frame.offset + frame.length + 2 <= |Head(stream).data| && Reports(MessageOf(stream, frame, i + 1), stream, messages, i)
  {
    var data, k := Head(stream).data, WholeMessages(messages, n);
    FrameInside(data, messages, n, i);
    var at := |Encoded(messages[..i])|;
    assert data[at + 2..at + |messages[i]| + 2] == messages[i] by {
      EncodedBytes(messages, i);
      assert data[at + 2..at + |messages[i]| + 2] == Encoded(messages)[at + 2..at + |messages[i]| + 2];
    }
  }

  lemma FrameInside(data: seq<U8>, messages: seq<Payload>, n: nat, i: nat)
    requires n <= |Encoded(messages)| && data == Encoded(messages)[..n]
    requires i < WholeMessages(messages, n)
    ensures var at := |Encoded(messages[..i])|;
      && FramesOf(0, messages[..WholeMessages(messages, n)])[i] == Frame(at, |messages[i]|)
      && at + |messages[i]| + 2 <= n
  {
    var k := WholeMessages(messages, n);
    FrameAt(0, messages[..k], i);
    assert messages[..k][..i] == messages[..i];
    FramesOfEncoding(data, 0, messages, n);
    assert FramesFrom(data, 0).frames[i] == Frame(|Encoded(messages[..i])|, |messages[i]|);
  }
}
