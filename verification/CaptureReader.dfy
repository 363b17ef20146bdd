/** Reading a capture file that does not change: through the handle's cursor, through a local window, or through a
    remote window (src/packetquapture_extension.cpp). */
module CaptureReader {
  import opened Basics

  type Bytes = seq<U8>

  const LOCAL_WINDOW := 256 * 1024
  const LOCAL_SKIP_THRESHOLD := 4 * 1024
  const REMOTE_WINDOW := 4 * 1024 * 1024
  const SKIP_STEP := 8192

  /** How the file is reached: a stream that cannot seek, a seekable handle read at its cursor, a local file with a
      window, or a remote file read in cached windows. */
  datatype Mode = Streamed | Seekable | Local | Remote

  /** Bytes of the file kept in memory, and where they start. */
  datatype Window = Window(start: nat, bytes: Bytes)

  /** A read or skip either happens or meets the end of the file. */
  datatype Outcome = Done | Ended

  predicate Mirrors(file: Bytes, w: Window) {
    w.start + |w.bytes| <= |file| && w.bytes == file[w.start..w.start + |w.bytes|]
  }

  predicate Covers(w: Window, offset: nat) {
    w.start <= offset < w.start + |w.bytes|
  }

  /** What reading `length` bytes at a position means for the file alone. */
  function ReadAt(file: Bytes, position: nat, length: nat): Option<Bytes> {
    if position + length <= |file| then Some(file[position..position + length]) else None
  }

  class Reader {
    const file: Bytes
    const mode: Mode
    var position: nat
    var cursor: nat
    var worthwhile: bool
    var window: Window
    var truncatedTail: bool

    /** The handle's cursor is where reading goes on whenever reads use it, and the window mirrors its range. */
    ghost predicate Valid()
      reads this
    {
      && position <= |file|
      && Mirrors(file, window)
      && (UsesCursor() ==> cursor == position)
    }

    predicate UsesCursor()
      reads this
    {
      mode.Streamed? || mode.Seekable? || (mode.Local? && !worthwhile)
    }

    constructor (file: Bytes, mode: Mode)
      ensures this.file == file && this.mode == mode && Valid() && position == 0 && !truncatedTail
    {
      this.file, this.mode := file, mode;
      position, cursor, worthwhile, window, truncatedTail := 0, 0, false, Window(0, []), false;
    }

    /** The handle reads some of the bytes asked for, and none only at the end of the file. */
    method HandleRead(length: nat) returns (bytes: Bytes)
      requires length > 0 && cursor <= |file|
      modifies this`cursor
      ensures |bytes| <= length && cursor == old(cursor) + |bytes| <= |file|
      ensures bytes == file[old(cursor)..cursor]
      ensures |bytes| == 0 <==> old(cursor) == |file|
    {
      var room := Min(length, |file| - cursor);
      var count: nat :| count <= room && (room > 0 ==> count > 0);
      bytes := file[cursor..cursor + count];
      cursor := cursor + count;
    }

    /** Copies from the window as much as it holds of what is asked for. */
    method CopyFromWindow(length: nat, offset: nat) returns (bytes: Bytes)
      requires length > 0 && Mirrors(file, window) && Covers(window, offset)
      ensures 0 < |bytes| <= length && offset + |bytes| <= |file| && bytes == file[offset..offset + |bytes|]
    {
      var within := offset - window.start;
      var count := Min(length, |window.bytes| - within);
      bytes := window.bytes[within..within + count];
      assert forall k | 0 <= k < count :: bytes[k] == window.bytes[within + k] == file[offset + k];
    }

    method ReadRemoteWindow(length: nat, offset: nat) returns (bytes: Bytes)
      requires length > 0 && Mirrors(file, window)
      modifies this`window
      ensures Mirrors(file, window)
      ensures |bytes| <= length && offset + |bytes| <= Max(offset, |file|)
      ensures |bytes| == 0 <==> offset >= |file|
      ensures |bytes| > 0 ==> bytes == file[offset..offset + |bytes|]
    {
      if offset >= |file| {
        return [];
      }
      if !Covers(window, offset) {
        var start := offset - offset % REMOTE_WINDOW;
        var size := Min(REMOTE_WINDOW, |file| - start);
        window := Window(start, file[start..start + size]);
      }
      bytes := CopyFromWindow(length, offset);
    }

    method ReadLocalWindow(length: nat, offset: nat) returns (bytes: Bytes)
      requires length > 0 && Mirrors(file, window)
      requires !worthwhile ==> cursor == offset && cursor <= |file|
      modifies this`window, this`cursor
      ensures Mirrors(file, window)
      ensures |bytes| <= length && offset + |bytes| <= Max(offset, |file|)
      ensures |bytes| == 0 <==> offset >= |file|
      ensures |bytes| > 0 ==> bytes == file[offset..offset + |bytes|]
      ensures if worthwhile then cursor == old(cursor) else cursor == offset + |bytes|
    {
      if offset >= |file| {
        return [];
      }
      if !worthwhile {
        bytes := HandleRead(length);
        return;
      }
      if !Covers(window, offset) {
        if length >= LOCAL_WINDOW {
          var direct := Min(length, |file| - offset);
          return file[offset..offset + direct];
        }
        var size := Min(LOCAL_WINDOW, |file| - offset);
        window := Window(offset, file[offset..offset + size]);
      }
      bytes := CopyFromWindow(length, offset);
    }

    /** One read from wherever the mode reads. */
    method ReadSome(length: nat, offset: nat) returns (bytes: Bytes)
      requires length > 0 && Mirrors(file, window) && (UsesCursor() ==> cursor == offset && cursor <= |file|)
      modifies this`window, this`cursor
      ensures Mirrors(file, window)
      ensures |bytes| <= length && offset + |bytes| <= Max(offset, |file|)
      ensures |bytes| == 0 <==> offset >= |file|
      ensures |bytes| > 0 ==> bytes == file[offset..offset + |bytes|]
      ensures UsesCursor() ==> cursor == offset + |bytes|
    {
      if mode.Remote? {
        bytes := ReadRemoteWindow(length, offset);
      } else if mode.Local? {
        bytes := ReadLocalWindow(length, offset);
      } else {
        bytes := HandleRead(length);
      }
    }

    /** Reads exactly the bytes at the position, or finds fewer and notes whether the file stopped partway. */
    method ReadMaybe(length: nat) returns (data: Option<Bytes>)
      requires Valid()
      modifies this
      ensures data == ReadAt(file, old(position), length)
      ensures data.Some? ==> Valid() && position == old(position) + length && truncatedTail == old(truncatedTail)
      ensures data.None? ==> position == old(position) && truncatedTail == (old(truncatedTail) || position < |file|)
      ensures worthwhile == old(worthwhile)
    {
      var buffer: Bytes, total := [], 0;
      while total < length
        invariant |buffer| == total <= length && position == old(position)
        invariant position + total <= |file| && buffer == file[position..position + total]
        invariant Mirrors(file, window) && (UsesCursor() ==> cursor == position + total)
        invariant truncatedTail == old(truncatedTail) && worthwhile == old(worthwhile)
      {
        var bytes := ReadSome(length - total, position + total);
        if |bytes| == 0 {
          if total > 0 {
            truncatedTail := true;
          }
          return None;
        }
        buffer := buffer + bytes;
        total := total + |bytes|;
      }
      position := position + length;
      data := Some(buffer);
    }

    /** Passes over bytes without keeping them. */
    method Skip(length: nat) returns (outcome: Outcome)
      requires Valid()
      modifies this
      ensures outcome == Done <==> old(position) + length <= |file|
      ensures outcome == Done ==> Valid() && position == old(position) + length && truncatedTail == old(truncatedTail)
    {
      if length == 0 {
        return Done;
      }
      if mode.Streamed? {
        outcome := SkipByReading(length);
        return;
      }
      if length > |file| - position {
        return Ended;
      }
      if mode.Local? {
        worthwhile := length <= LOCAL_SKIP_THRESHOLD;
        if !worthwhile {
          cursor := position + length;
        }
      } else if mode.Seekable? {
        cursor := position + length;
      }
      position := position + length;
      outcome := Done;
    }

    method SkipByReading(length: nat) returns (outcome: Outcome)
      requires Valid() && mode.Streamed?
      modifies this
      ensures outcome == Done <==> old(position) + length <= |file|
      ensures outcome == Done ==> Valid() && position == old(position) + length && truncatedTail == old(truncatedTail)
    {
      var left := length;
      while left > 0
        invariant 0 <= left <= length && Valid() && position == old(position) + (length - left)
        invariant truncatedTail == old(truncatedTail)
        decreases left
      {
        var step := Min(left, SKIP_STEP);
        var data := ReadMaybe(step);
        if data.None? {
          return Ended;
        }
        left := left - step;
      }
      outcome := Done;
    }
  }

  // ---------------------------------------------------------------- any interleaving of reads and skips

  datatype Op = Read(length: nat) | Skip(length: nat)

  /** What a list of reads and skips yields, for the file alone; nothing after the first that meets the end. */
  function Results(file: Bytes, position: nat, ops: seq<Op>): seq<Option<Bytes>>
    decreases |ops|
  {
    if ops == [] then []
    else
      var data := ReadAt(file, position, ops[0].length);
      if data.None? then [None]
      else [if ops[0].Read? then data else Some([])] + Results(file, position + ops[0].length, ops[1..])
  }

  /** In every mode, any interleaving of reads and skips returns the file's own bytes at the logical position. */
  method Perform(reader: Reader, ops: seq<Op>) returns (results: seq<Option<Bytes>>)
    requires reader.Valid()
    modifies reader
    ensures results == Results(reader.file, old(reader.position), ops)
  {
    results := [];
    var i := 0;
    assert ops[0..] == ops;
    while i < |ops|
      invariant 0 <= i <= |ops| && reader.Valid()
      invariant Results(reader.file, old(reader.position), ops) == results + Results(reader.file, reader.position, ops[i..])
    {
      ghost var before := reader.position;
      assert ops[i..][0] == ops[i] && ops[i..][1..] == ops[i + 1..];
      if ops[i].Read? {
        var data := reader.ReadMaybe(ops[i].length);
        results := results + [data];
        if data.None? {
          return;
        }
      } else {
        var outcome := reader.Skip(ops[i].length);
        results := results + [if outcome == Done then Some([]) else None];
        if outcome == Ended {
          return;
        }
      }
      i := i + 1;
    }
  }
}
