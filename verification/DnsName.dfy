/** DNS name decompression (src/dns_decoder.cpp; sections 3.1 and 4.1.4 of RFC 1035). */
module DnsName {
  import opened Basics

  type Bytes = seq<U8>

  const MAX_LABELS := 127
  const MAX_POINTERS := 127
  const STEPS_MAX := MAX_LABELS + MAX_POINTERS + 1
  const MAX_OCTETS := 255
  const WORK_LIMIT := 262144
  const MESSAGE_HEADER := 12

  /** A label's octets: at least one, at most 63. */
  type Label = l: Bytes | 0 < |l| <= 63 witness [0]

  // ---------------------------------------------------------------- the expansion

  /** What a name stands for: its labels, how many pointers led to them, and where the name ends where it was read. */
  datatype Expansion = Expansion(labels: seq<Label>, pointers: nat, end: nat)

  function Target(high: U8, low: U8): nat
    requires high >= 0xC0
  {
    256 * (high - 0xC0) + low
  }

  /** The name at `cursor`, in a segment that starts at `segment`: labels up to a terminator, or up to a pointer to a
      name that starts before this segment and after the message header. */
  function Expanded(data: Bytes, cursor: nat, segment: nat): Option<Expansion>
    decreases segment, |data| - cursor
  {
    if cursor >= |data| then None
    else if data[cursor] >= 0xC0 then
      if cursor + 1 >= |data| then None
      else
        var target := Target(data[cursor], data[cursor + 1]);
        if target < MESSAGE_HEADER || target >= segment then None
        else
          var rest := Expanded(data, target, target);
          if rest.None? then None
          else Some(Expansion(rest.value.labels, rest.value.pointers + 1, cursor + 2))
    else
      var next := cursor + 1 + data[cursor];
      if data[cursor] > 63 || next > |data| then None
      else if data[cursor] == 0 then Some(Expansion([], 0, cursor + 1))
      else
        var rest := Expanded(data, next, segment);
        if rest.None? then None
        else
          var part: Label := data[cursor + 1..next];
          Some(rest.value.(labels := [part] + rest.value.labels))
  }

  /** The octets a name takes on the wire: each label with its length, and the terminator. */
  function Octets(labels: seq<Label>): nat {
    if labels == [] then 1 else Octets(labels[..|labels| - 1]) + |labels[|labels| - 1]| + 1
  }

  /** How many bytes of length or pointer are read to expand a name. */
  function Steps(e: Expansion): nat {
    |e.labels| + e.pointers + 1
  }

  /** A name within every limit, given the work done before it. */
  predicate Acceptable(e: Option<Expansion>, work: nat) {
    e.Some? && Octets(e.value.labels) <= MAX_OCTETS && e.value.pointers <= MAX_POINTERS && work + Steps(e.value) <= WORK_LIMIT
  }

  // ---------------------------------------------------------------- the text

  const DOT: U8 := 46
  const BACKSLASH: U8 := 92

  predicate Plain(ch: U8) {
    33 <= ch <= 126 && ch != DOT && ch != BACKSLASH
  }

  /** A byte as printed: itself, or a backslash and three decimal digits. */
  function Escaped(ch: U8): Bytes {
    if Plain(ch) then [ch] else [BACKSLASH, 48 + ch / 100, 48 + ch / 10 % 10, 48 + ch % 10]
  }

  function LabelText(part: Bytes): Bytes {
    if part == [] then [] else LabelText(part[..|part| - 1]) + Escaped(part[|part| - 1])
  }

  /** Labels joined by dots. */
  function Joined(labels: seq<Label>): Bytes {
    if labels == [] then []
    else if |labels| == 1 then LabelText(labels[0])
    else Joined(labels[..|labels| - 1]) + [DOT] + LabelText(labels[|labels| - 1])
  }

  /** A name as text; the root is a dot. */
  function TextOf(labels: seq<Label>): Bytes {
    if labels == [] then [DOT] else Joined(labels)
  }

  // ---------------------------------------------------------------- the parser

  lemma {:induction false} OctetsBound(labels: seq<Label>)
    ensures Octets(labels) >= 1 + 2 * |labels|
  {
    if labels != [] {
      OctetsBound(labels[..|labels| - 1]);
    }
  }

  /** `done` labels and `pointers` are behind; what is left at the cursor completes the name. */
  ghost predicate Underway(whole: Option<Expansion>, done: seq<Label>, pointers: nat, jumped: bool, end: nat, left: Option<Expansion>) {
    && (whole.None? <==> left.None?)
    && (whole.Some? ==>
          && whole.value.labels == done + left.value.labels
          && whole.value.pointers == pointers + left.value.pointers
          && whole.value.end == if jumped then end else left.value.end)
  }

  lemma {:induction false} OctetsGrow(a: seq<Label>, b: seq<Label>)
    ensures Octets(a) <= Octets(a + b)
    ensures b != [] ==> Octets(a) + |b[0]| + 1 <= Octets(a + b)
  {
    if b != [] {
      var n := |b| - 1;
      OctetsGrow(a, b[..n]);
      assert (a + b)[..|a + b| - 1] == a + b[..n];
    } else {
      assert a + b == a;
    }
  }

  /** How far reading a name has come: the labels and pointers behind, whether a pointer was followed, where the name
      then ends, and where reading goes on. */
  datatype Progress = Progress(done: seq<Label>, pointers: nat, jumped: bool, end: nat, cursor: nat, segment: nat)

  ghost predicate On(data: Bytes, whole: Option<Expansion>, p: Progress) {
    Underway(whole, p.done, p.pointers, p.jumped, p.end, Expanded(data, p.cursor, p.segment))
  }

  lemma Starts(data: Bytes, offset: nat)
    ensures On(data, Expanded(data, offset, offset), Progress([], 0, false, offset, offset, offset))
  {
    hide Expanded;
  }

  /** Reading one more byte is work, and every byte read so far was needed. */
  lemma Worked(data: Bytes, whole: Option<Expansion>, p: Progress, work: nat)
    requires On(data, whole, p) && work + |p.done| + p.pointers + 1 > WORK_LIMIT
    ensures !Acceptable(whole, work)
  {
    hide Expanded, Octets;
  }

  lemma Broken(data: Bytes, whole: Option<Expansion>, p: Progress, work: nat)
    requires On(data, whole, p) && Expanded(data, p.cursor, p.segment).None?
    ensures !Acceptable(whole, work)
  {
    hide Expanded;
  }

  /** The progress once the pointer at the cursor is followed. */
  function Followed(data: Bytes, p: Progress): Progress
    requires p.cursor + 1 < |data| && data[p.cursor] >= 0xC0
  {
    var target := Target(data[p.cursor], data[p.cursor + 1]);
    Progress(p.done, p.pointers + 1, true, if p.jumped then p.end else p.cursor + 2, target, target)
  }

  lemma PointerFollowed(data: Bytes, whole: Option<Expansion>, p: Progress)
    requires On(data, whole, p) && p.cursor + 1 < |data| && data[p.cursor] >= 0xC0
    requires MESSAGE_HEADER <= Target(data[p.cursor], data[p.cursor + 1]) < p.segment
    ensures On(data, whole, Followed(data, p))
  {
    var target := Target(data[p.cursor], data[p.cursor + 1]);
    var left, rest := Expanded(data, p.cursor, p.segment), Expanded(data, target, target);
    assert left == if rest.None? then None else Some(Expansion(rest.value.labels, rest.value.pointers + 1, p.cursor + 2));
  }

  lemma TooManyPointers(data: Bytes, whole: Option<Expansion>, p: Progress, work: nat)
    requires On(data, whole, p) && p.pointers > MAX_POINTERS
    ensures !Acceptable(whole, work)
  {
    hide Expanded;
  }

  /** The progress once the label at the cursor is read. */
  function Read(data: Bytes, p: Progress): Progress
    requires p.cursor < |data| && 0 < data[p.cursor] <= 63 && p.cursor + 1 + data[p.cursor] <= |data|
  {
    var next := p.cursor + 1 + data[p.cursor];
    var part: Label := data[p.cursor + 1..next];
    p.(done := p.done + [part], cursor := next)
  }

  lemma LabelRead(data: Bytes, whole: Option<Expansion>, p: Progress)
    requires On(data, whole, p)
    requires p.cursor < |data| && 0 < data[p.cursor] <= 63 && p.cursor + 1 + data[p.cursor] <= |data|
    ensures On(data, whole, Read(data, p))
  {
    var next := p.cursor + 1 + data[p.cursor];
    var part: Label := data[p.cursor + 1..next];
    var left, rest := Expanded(data, p.cursor, p.segment), Expanded(data, next, p.segment);
    assert left == if rest.None? then None else Some(rest.value.(labels := [part] + rest.value.labels));
    if rest.Some? {
      assert p.done + ([part] + rest.value.labels) == p.done + [part] + rest.value.labels;
    }
  }

  lemma TooLong(data: Bytes, whole: Option<Expansion>, p: Progress, work: nat)
    requires On(data, whole, p) && Octets(p.done) > MAX_OCTETS
    ensures !Acceptable(whole, work)
  {
    hide Expanded;
    if whole.Some? {
      OctetsGrow(p.done, Expanded(data, p.cursor, p.segment).value.labels);
    }
  }

  /** At the terminator everything is behind. */
  lemma Terminated(data: Bytes, whole: Option<Expansion>, p: Progress)
    requires On(data, whole, p) && p.cursor < |data| && data[p.cursor] == 0
    ensures whole == Some(Expansion(p.done, p.pointers, if p.jumped then p.end else p.cursor + 1))
  {
    assert p.done + [] == p.done;
  }

  lemma JoinedMore(labels: seq<Label>, part: Label)
    ensures Joined(labels + [part]) == if labels == [] then LabelText(part) else Joined(labels) + [DOT] + LabelText(part)
  {
    assert (labels + [part])[..|labels|] == labels;
  }

  lemma {:induction false} TextNonEmpty(part: Bytes)
    ensures |LabelText(part)| >= |part|
  {
    if part != [] {
      TextNonEmpty(part[..|part| - 1]);
    }
  }

  lemma JoinedNonEmpty(labels: seq<Label>)
    requires labels != []
    ensures Joined(labels) != []
  {
    TextNonEmpty(labels[|labels| - 1]);
  }

  class Parser {
    const data: Bytes
    var work: nat

    constructor (data: Bytes)
      ensures this.data == data && work == 0
    {
      this.data := data;
      work := 0;
    }

    predicate Has(offset: nat, length: nat) {
      offset <= |data| && length <= |data| - offset
    }

    /** Reads the name at an offset. Within the work budget it succeeds exactly on names that expand within the limits,
        prints their labels, and moves the offset past the first pointer or the terminator. */
    method Name(offset: nat) returns (ok: bool, next: nat, name: Bytes)
      modifies this
      ensures ok == Acceptable(Expanded(data, offset, offset), old(work))
      ensures ok ==>
        var e := Expanded(data, offset, offset).value;
        next == e.end && name == TextOf(e.labels) && work == old(work) + Steps(e)
      ensures old(work) <= work <= old(work) + STEPS_MAX
    {
      hide Expanded, On, Acceptable, Octets, Joined, Underway, LabelText;
      var cursor: nat, segment: nat, jumped := offset, offset, false;
      var expanded, labels, pointers, step := 1, 0, 0, 0;
      next, name := offset, [];
      ghost var whole, p := Expanded(data, offset, offset), Progress([], 0, false, offset, offset, offset);
      Starts(data, offset);
      NothingYet();
      while true
        invariant p == Progress(p.done, pointers, jumped, next, cursor, segment) && On(data, whole, p)
        invariant |p.done| == labels && labels <= MAX_LABELS && pointers <= MAX_POINTERS
        invariant step == labels + pointers && work == old(work) + step
        invariant expanded == Octets(p.done) <= MAX_OCTETS && name == Joined(p.done)
        decreases STEPS_MAX - step
      {
        // The source's loop runs while this holds; the labels and pointers counted below keep it true.
        assert step < STEPS_MAX;
        step := step + 1;
        work := work + 1;
        if work > WORK_LIMIT {
          Worked(data, whole, p, old(work));
          return false, next, name;
        }
        Malformed(data, cursor, segment);
        if !Has(cursor, 1) {
          Broken(data, whole, p, old(work));
          return false, next, name;
        }
        var length := data[cursor];
        if length >= 0xC0 {
          if !Has(cursor + 1, 1) {
            Broken(data, whole, p, old(work));
            return false, next, name;
          }
          var target := Target(length, data[cursor + 1]);
          if target < MESSAGE_HEADER || target >= segment {
            Broken(data, whole, p, old(work));
            return false, next, name;
          }
          PointerFollowed(data, whole, p);
          p := Followed(data, p);
          pointers := pointers + 1;
          if pointers > MAX_POINTERS {
            TooManyPointers(data, whole, p, old(work));
            return false, next, name;
          }
          if !jumped {
            next, jumped := cursor + 2, true;
          }
          cursor, segment := target, target;
          continue;
        }
        if length > 63 || !Has(cursor + 1, length) {
          Broken(data, whole, p, old(work));
          return false, next, name;
        }
        if length == 0 {
          if !jumped {
            next := cursor + 1;
          }
          Terminated(data, whole, p);
          NameEnds(p.done);
          Fitting(whole, old(work));
          if name == [] {
            name := [DOT];
          }
          return true, next, name;
        }
        expanded := expanded + length + 1;
        LabelRead(data, whole, p);
        LabelDone(p.done, data[cursor + 1..cursor + 1 + length]);
        p := Read(data, p);
        if expanded > MAX_OCTETS {
          TooLong(data, whole, p, old(work));
          return false, next, name;
        }
        labels := labels + 1;
        assert labels <= MAX_LABELS;
        if name != [] {
          name := name + [DOT];
        }
        name := AppendLabel(name, cursor + 1, length);
        cursor := cursor + 1 + length;
      }
    }

    /** Appends a label's bytes as text. */
    method AppendLabel(name: Bytes, cursor: nat, length: nat) returns (text: Bytes)
      requires Has(cursor, length)
      ensures text == name + LabelText(data[cursor..cursor + length])
    {
      hide LabelText, Escaped;
      text := name;
      NoText();
      assert data[cursor..cursor + 0] == [] && name + [] == name;
      for i := 0 to length
        invariant text == name + LabelText(data[cursor..cursor + i])
      {
        var ch := data[cursor + i];
        MoreText(data[cursor..cursor + i], ch);
        assert data[cursor..cursor + i + 1] == data[cursor..cursor + i] + [ch];
        assert name + (LabelText(data[cursor..cursor + i]) + Escaped(ch)) == text + Escaped(ch);
        text := text + Escaped(ch);
      }
    }
  }

  lemma NoText()
    ensures LabelText([]) == []
  {
  }

  lemma MoreText(part: Bytes, ch: U8)
    ensures LabelText(part + [ch]) == LabelText(part) + Escaped(ch)
  {
    assert (part + [ch])[..|part|] == part;
  }

  lemma NothingYet()
    ensures Octets([]) == 1 && Joined([]) == []
  {
  }

  lemma Fitting(e: Option<Expansion>, work: nat)
    requires e.Some? && Octets(e.value.labels) <= MAX_OCTETS && e.value.pointers <= MAX_POINTERS
    ensures Acceptable(e, work) == (work + Steps(e.value) <= WORK_LIMIT)
  {
  }

  /** Every way a name can be malformed at the cursor. */
  lemma Malformed(data: Bytes, cursor: nat, segment: nat)
    ensures cursor >= |data| ==> Expanded(data, cursor, segment).None?
    ensures cursor < |data| && data[cursor] >= 0xC0 && cursor + 1 >= |data| ==> Expanded(data, cursor, segment).None?
    ensures cursor + 1 < |data| && data[cursor] >= 0xC0 ==>
      !(MESSAGE_HEADER <= Target(data[cursor], data[cursor + 1]) < segment) ==> Expanded(data, cursor, segment).None?
    ensures cursor < |data| && data[cursor] < 0xC0 && (data[cursor] > 63 || cursor + 1 + data[cursor] > |data|) ==>
      Expanded(data, cursor, segment).None?
  {
  }

  lemma NameEnds(done: seq<Label>)
    ensures done == [] <==> Joined(done) == []
    ensures done + [] == done
  {
    if done != [] {
      JoinedNonEmpty(done);
    }
  }

  lemma LabelDone(done: seq<Label>, part: Label)
    ensures Octets(done + [part]) == Octets(done) + |part| + 1
    ensures Octets(done + [part]) >= 1 + 2 * (|done| + 1)
    ensures done == [] <==> Joined(done) == []
    ensures Joined(done + [part]) == if done == [] then LabelText(part) else Joined(done) + [DOT] + LabelText(part)
  {
    assert (done + [part])[..|done|] == done;
    OctetsBound(done + [part]);
    NameEnds(done);
    JoinedMore(done, part);
  }

  // ---------------------------------------------------------------- the text determines the labels

  predicate EndsLabel(rest: Bytes) {
    rest == [] || rest[0] == DOT
  }

  /** The digits of an escape give the byte back, and no plain byte is a backslash. */
  lemma EscapedPrefix(a: U8, b: U8, x: Bytes, y: Bytes)
    requires Escaped(a) + x == Escaped(b) + y
    ensures a == b && x == y
  {
    var left, right := Escaped(a) + x, Escaped(b) + y;
    assert left[0] == Escaped(a)[0] && right[0] == Escaped(b)[0];
    if !Plain(a) && !Plain(b) {
      assert left[1] == 48 + a / 100 && right[1] == 48 + b / 100;
      assert left[2] == 48 + a / 10 % 10 && right[2] == 48 + b / 10 % 10;
      assert left[3] == 48 + a % 10 && right[3] == 48 + b % 10;
      Digits(a);
      Digits(b);
    }
    assert x == left[|Escaped(a)|..] && y == right[|Escaped(b)|..];
  }

  lemma Digits(n: U8)
    ensures n == 100 * (n / 100) + 10 * (n / 10 % 10) + n % 10
  {
    assert n / 10 == 10 * (n / 100) + n / 10 % 10;
  }

  lemma EscapedStart(ch: U8)
    ensures |Escaped(ch)| > 0 && Escaped(ch)[0] != DOT
  {
  }

  lemma {:induction false} FirstText(part: Bytes)
    requires part != []
    ensures LabelText(part) == Escaped(part[0]) + LabelText(part[1..])
  {
    hide Escaped;
    var n := |part| - 1;
    if n == 0 {
      assert part[..0] == [] && part[1..] == [];
    } else {
      FirstText(part[..n]);
      assert part[..n][1..] == part[1..][..n - 1];
      assert part[..n][0] == part[0] && part[1..][n - 1] == part[n];
    }
  }

  lemma {:induction false} LabelTextInjective(a: Bytes, b: Bytes, x: Bytes, y: Bytes)
    requires LabelText(a) + x == LabelText(b) + y && EndsLabel(x) && EndsLabel(y)
    ensures a == b && x == y
  {
    hide LabelText, Escaped;
    if a != [] && b != [] {
      FirstText(a);
      FirstText(b);
      var p, q := LabelText(a[1..]) + x, LabelText(b[1..]) + y;
      assert Escaped(a[0]) + p == LabelText(a) + x;
      assert Escaped(b[0]) + q == LabelText(b) + y;
      EscapedPrefix(a[0], b[0], p, q);
      LabelTextInjective(a[1..], b[1..], x, y);
      assert a == [a[0]] + a[1..] && b == [b[0]] + b[1..];
    } else {
      NoText();
      assert [] + x == x && [] + y == y;
      if a != [] {
        StartsPlainly(a, x);
      }
      if b != [] {
        StartsPlainly(b, y);
      }
    }
  }

  lemma StartsPlainly(part: Bytes, rest: Bytes)
    requires part != []
    ensures |LabelText(part) + rest| > 0 && (LabelText(part) + rest)[0] != DOT
  {
    hide LabelText, Escaped;
    FirstText(part);
    EscapedStart(part[0]);
  }

  /** Joining from the front: the first label, then a dot and the rest. */
  lemma {:induction false} JoinedFirst(labels: seq<Label>)
    requires |labels| > 1
    ensures Joined(labels) == LabelText(labels[0]) + ([DOT] + Joined(labels[1..]))
  {
    hide LabelText;
    var n := |labels| - 1;
    if n == 1 {
      assert labels[..1] == [labels[0]] && labels[1..] == [labels[1]];
    } else {
      JoinedFirst(labels[..n]);
      assert labels[..n][1..] == labels[1..][..n - 1] && labels[1..][n - 1] == labels[n];
    }
  }

  function Tail(labels: seq<Label>): Bytes {
    if |labels| <= 1 then [] else [DOT] + Joined(labels[1..])
  }

  lemma Split(labels: seq<Label>)
    requires labels != []
    ensures Joined(labels) == LabelText(labels[0]) + Tail(labels) && EndsLabel(Tail(labels))
  {
    hide LabelText;
    if |labels| > 1 {
      JoinedFirst(labels);
    }
  }

  lemma {:induction false} JoinedInjective(a: seq<Label>, b: seq<Label>)
    requires a != [] && b != [] && Joined(a) == Joined(b)
    ensures a == b
    decreases |a|
  {
    hide Joined, LabelText;
    Split(a);
    Split(b);
    LabelTextInjective(a[0], b[0], Tail(a), Tail(b));
    if |a| > 1 && |b| > 1 {
      assert Tail(a)[1..] == Joined(a[1..]) && Tail(b)[1..] == Joined(b[1..]);
      JoinedInjective(a[1..], b[1..]);
    }
    assert a == [a[0]] + a[1..] && b == [b[0]] + b[1..];
  }

  /** Distinct names print as distinct text, so the text determines the list of labels. */
  lemma TextInjective(a: seq<Label>, b: seq<Label>)
    requires TextOf(a) == TextOf(b)
    ensures a == b
  {
    hide Joined, LabelText;
    if a != [] {
      Split(a);
      StartsPlainly(a[0], Tail(a));
    }
    if b != [] {
      Split(b);
      StartsPlainly(b[0], Tail(b));
    }
    if a != [] && b != [] {
      JoinedInjective(a, b);
    }
  }

  // ---------------------------------------------------------------- names on the wire

  /** Labels as sent, each behind its length. */
  function Wire(labels: seq<Label>): Bytes {
    if labels == [] then [] else [|labels[0]|] + labels[0] + Wire(labels[1..])
  }

  /** The data holds this label behind its length. */
  predicate LabelAt(data: Bytes, offset: nat, part: Label) {
    offset + 1 + |part| <= |data| && data[offset] == |part| && data[offset + 1..offset + 1 + |part|] == part
  }

  /** The data holds these labels one after another. */
  predicate LabelsAt(data: Bytes, offset: nat, labels: seq<Label>)
    decreases |labels|
  {
    labels == [] || (LabelAt(data, offset, labels[0]) && LabelsAt(data, offset + 1 + |labels[0]|, labels[1..]))
  }

  lemma {:induction false} WireHeld(before: Bytes, labels: seq<Label>, rest: Bytes)
    ensures LabelsAt(before + Wire(labels) + rest, |before|, labels)
    decreases |labels|
  {
    if labels != [] {
      hide LabelAt;
      var head, more := [|labels[0]|] + labels[0], Wire(labels[1..]);
      WireHeld(before + head, labels[1..], rest);
      WireFirst(before, labels[0], more + rest);
      Regroup(before, head, more, rest);
    }
  }

  lemma WireFirst(before: Bytes, part: Label, rest: Bytes)
    ensures LabelAt(before + ([|part|] + part) + rest, |before|, part)
  {
  }

  /** The expansion with more labels in front. */
  function Prefixed(labels: seq<Label>, left: Option<Expansion>): Option<Expansion> {
    if left.None? then None else Some(left.value.(labels := labels + left.value.labels))
  }

  lemma LabelExpands(data: Bytes, offset: nat, part: Label, segment: nat)
    requires LabelAt(data, offset, part)
    ensures Expanded(data, offset, segment) == Prefixed([part], Expanded(data, offset + 1 + |part|, segment))
  {
  }

  lemma PrefixedTwice(part: Label, labels: seq<Label>, left: Option<Expansion>)
    ensures Prefixed([], left) == left
    ensures Prefixed([part], Prefixed(labels, left)) == Prefixed([part] + labels, left)
  {
    if left.Some? {
      assert [] + left.value.labels == left.value.labels;
      assert [part] + (labels + left.value.labels) == [part] + labels + left.value.labels;
    }
  }

  lemma {:induction false} LabelsExpand(data: Bytes, offset: nat, labels: seq<Label>, segment: nat)
    requires LabelsAt(data, offset, labels)
    ensures Expanded(data, offset, segment) == Prefixed(labels, Expanded(data, offset + |Wire(labels)|, segment))
    decreases |labels|
  {
    hide Expanded, Prefixed, LabelAt;
    if labels == [] {
      PrefixedTwice([0], [], Expanded(data, offset, segment));
    } else {
      var next := offset + 1 + |labels[0]|;
      LabelExpands(data, offset, labels[0], segment);
      LabelsExpand(data, next, labels[1..], segment);
      PrefixedTwice(labels[0], labels[1..], Expanded(data, next + |Wire(labels[1..])|, segment));
      assert labels == [labels[0]] + labels[1..];
    }
  }

  /** The name at an offset starts with these labels and goes on right after them. */
  lemma WireExpands(before: Bytes, labels: seq<Label>, rest: Bytes, segment: nat)
    ensures var data := before + Wire(labels) + rest;
      Expanded(data, |before|, segment) == Prefixed(labels, Expanded(data, |before| + |Wire(labels)|, segment))
  {
    hide *;
    WireHeld(before, labels, rest);
    LabelsExpand(before + Wire(labels) + rest, |before|, labels, segment);
  }

  /** An uncompressed name reads back as its labels and ends after its terminator. */
  lemma PlainNameReads(before: Bytes, labels: seq<Label>, rest: Bytes)
    ensures Expanded(before + Wire(labels) + ([0] + rest), |before|, |before|)
         == Some(Expansion(labels, 0, |before| + |Wire(labels)| + 1))
  {
    hide Expanded, Wire;
    var tail := [0] + rest;
    ReadsTail(before, Wire(labels), tail);
    TerminatorReads(before + Wire(labels) + tail, |before| + |Wire(labels)|, |before|);
    WireExpands(before, labels, tail, |before|);
    assert labels + [] == labels;
  }

  lemma ReadsTail(a: Bytes, b: Bytes, tail: Bytes)
    ensures |tail| > 0 ==> (a + b + tail)[|a| + |b|] == tail[0]
    ensures |tail| > 1 ==> (a + b + tail)[|a| + |b| + 1] == tail[1]
  {
  }

  lemma TerminatorReads(data: Bytes, at: nat, segment: nat)
    requires at < |data| && data[at] == 0
    ensures Expanded(data, at, segment) == Some(Expansion([], 0, at + 1))
  {
  }

  /** A name whose ending is replaced by a pointer to an earlier name stands for its labels followed by that name's. */
  lemma CompressedNameReads(before: Bytes, labels: seq<Label>, target: nat, rest: Bytes)
    requires MESSAGE_HEADER <= target < |before| && target < 0x4000
    ensures var data := before + Wire(labels) + ([0xC0 + target / 256, target % 256] + rest);
      var earlier := Expanded(data, target, target);
      Expanded(data, |before|, |before|) ==
        if earlier.None? then None
        else Some(Expansion(labels + earlier.value.labels, earlier.value.pointers + 1, |before| + |Wire(labels)| + 2))
  {
    hide Expanded, Wire;
    var tail := [0xC0 + target / 256, target % 256] + rest;
    ReadsTail(before, Wire(labels), tail);
    PointerReads(before + Wire(labels) + tail, |before| + |Wire(labels)|, |before|, target);
    WireExpands(before, labels, tail, |before|);
  }

  lemma PointerReads(data: Bytes, at: nat, segment: nat, target: nat)
    requires at + 1 < |data| && data[at] == 0xC0 + target / 256 && data[at + 1] == target % 256
    requires MESSAGE_HEADER <= target < segment && target < 0x4000
    ensures var earlier := Expanded(data, target, target);
      Expanded(data, at, segment) ==
        if earlier.None? then None else Some(Expansion(earlier.value.labels, earlier.value.pointers + 1, at + 2))
  {
    assert Target(data[at], data[at + 1]) == target;
  }
}
