/** The interface clocks of the flow aggregator over whole runs: what a clock shows, and which packets are late. */
module FlowClocks {
  import opened Basics
  import opened FlowTypes
  import opened FlowRows
  import opened FlowTable
  import opened FlowRuns

  // ---------------------------------------------------------------- clocks from the records alone

  /** Whether record `i` belongs to the run of records of one section that ends with the last one. */
  predicate InLastSection(inputs: seq<FlowInput>, i: nat)
    requires i < |inputs|
  {
    forall j | i <= j < |inputs| :: inputs[j].section == inputs[|inputs| - 1].section
  }

  /** Records of that run on an interface, timed and at a given time. */
  predicate Ticks(inputs: seq<FlowInput>, id: U32, i: nat, time: int) {
    i < |inputs| && InLastSection(inputs, i) && inputs[i].interfaceId == id
    && inputs[i].stamp.hasTimestamp && inputs[i].stamp.timestamp == time
  }

  function LatestOn(inputs: seq<FlowInput>, id: U32): Option<int> {
    if inputs == [] then None
    else
      var n := |inputs| - 1;
      var before := if n > 0 && inputs[n - 1].section == inputs[n].section then LatestOn(inputs[..n], id) else None;
      if inputs[n].interfaceId == id then Later(before, inputs[n].stamp) else before
  }

  ghost predicate IsLatest(inputs: seq<FlowInput>, id: U32, latest: Option<int>) {
    && (latest.Some? ==> exists i: nat :: Ticks(inputs, id, i, latest.value))
    && (forall i: nat, time | Ticks(inputs, id, i, time) :: latest.Some? && time <= latest.value)
  }

  lemma TicksBefore(inputs: seq<FlowInput>, id: U32, i: nat, time: int)
    requires |inputs| > 0 && i < |inputs| - 1
    ensures Ticks(inputs, id, i, time) <==>
      inputs[|inputs| - 2].section == inputs[|inputs| - 1].section && Ticks(inputs[..|inputs| - 1], id, i, time)
  {
    var n := |inputs| - 1;
    var front := inputs[..n];
    assert forall j | 0 <= j < n :: front[j] == inputs[j];
    if Ticks(inputs, id, i, time) {
      assert inputs[n - 1].section == inputs[n].section;
    }
    if inputs[n - 1].section == inputs[n].section && InLastSection(front, i) {
      forall j | i <= j < |inputs|
        ensures inputs[j].section == inputs[n].section
      {
        if j < n {
          assert front[j].section == front[n - 1].section;
        }
      }
    }
  }

  /** LatestOn is the latest time of the records of the current section on the interface, eligible or not. */
  lemma {:induction false} LatestIs(inputs: seq<FlowInput>, id: U32)
    ensures IsLatest(inputs, id, LatestOn(inputs, id))
  {
    if inputs != [] {
      var n := |inputs| - 1;
      var same := n > 0 && inputs[n - 1].section == inputs[n].section;
      var before := if same then LatestOn(inputs[..n], id) else None;
      LatestIs(inputs[..n], id);
      hide Ticks, InLastSection, LatestOn;
      LatestStep(inputs, id, before);
      LatestUnfold(inputs, id);
    }
  }

  lemma LatestUnfold(inputs: seq<FlowInput>, id: U32)
    requires inputs != []
    ensures var n := |inputs| - 1;
      var before := if n > 0 && inputs[n - 1].section == inputs[n].section then LatestOn(inputs[..n], id) else None;
      LatestOn(inputs, id) == if inputs[n].interfaceId == id then Later(before, inputs[n].stamp) else before
  {
  }

  lemma LatestStep(inputs: seq<FlowInput>, id: U32, before: Option<int>)
    requires inputs != []
    requires var n := |inputs| - 1;
      if n > 0 && inputs[n - 1].section == inputs[n].section then IsLatest(inputs[..n], id, before) else before == None
    ensures var n := |inputs| - 1;
      IsLatest(inputs, id, if inputs[n].interfaceId == id then Later(before, inputs[n].stamp) else before)
  {
    hide InLastSection;
    var n := |inputs| - 1;
    var last := inputs[n];
    var latest := if last.interfaceId == id then Later(before, last.stamp) else before;
    LastTicks(inputs, id);
    forall i: nat, time | Ticks(inputs, id, i, time)
      ensures latest.Some? && time <= latest.value
    {
      if i < n {
        TicksBefore(inputs, id, i, time);
      }
    }
    if before.Some? {
      var i: nat :| Ticks(inputs[..n], id, i, before.value);
      TicksBefore(inputs, id, i, before.value);
    }
  }

  lemma LastTicks(inputs: seq<FlowInput>, id: U32)
    requires inputs != []
    ensures var n := |inputs| - 1;
      inputs[n].interfaceId == id && inputs[n].stamp.hasTimestamp ==> Ticks(inputs, id, n, inputs[n].stamp.timestamp)
  {
  }

  // ---------------------------------------------------------------- one record's effect on the clocks

  lemma ClockedClocks(limits: Limits, t: Table)
    requires t.pending.Some? && t.pending.value.input.interfaceId in t.clocks && t.pending.value.prepared
    requires t.haveSection && t.section == t.pending.value.input.section && t.finishing.None?
    requires !Clocked(limits, t).1.Failed?
    ensures Clocked(limits, t).0 == t.(sessions := Clocked(limits, t).0.sessions, pending := Clocked(limits, t).0.pending)
    ensures Clocked(limits, t).0.pending == t.pending || Clocked(limits, t).0.pending == None
  {
    hide IdleOn, Evictable, Reopens, Eligible, KeyOf, SummaryOf, Fits, Carries;
    var input := t.pending.value.input;
    var idle := IdleOn(limits, t.sessions, input.interfaceId, t.clocks[input.interfaceId]);
    if idle != {} {
      IdleOpen(limits, t.sessions, input.interfaceId, t.clocks[input.interfaceId]);
    }
  }

  /** Whatever rows a record yields first, the clocks end up as when it was readied. */
  lemma NextClocks(limits: Limits, t: Table)
    requires t.pending.Some? && t.finishing.None? && !Next(limits, t).1.Failed?
    ensures var after := Next(limits, t).0;
      if after.pending.Some? then Readied(after).clocks == Readied(t).clocks && after.pending.value.input == t.pending.value.input
      else after.clocks == Readied(t).clocks && after.haveSection && after.section == t.pending.value.input.section
  {
    hide Clocked;
    if t.haveSection && t.section != t.pending.value.input.section && t.sessions != map[] {
      var after := Next(limits, t).0;
      assert after == t.(sessions := after.sessions);
    } else {
      ReadiedIs(limits, t);
      ClockedClocks(limits, Readied(t));
    }
  }

  lemma {:induction false} DrainClocks(limits: Limits, t: Table)
    requires t.pending.Some? && t.finishing.None? && !Drain(limits, t).failed
    ensures var after := Drain(limits, t).table;
      after.clocks == Readied(t).clocks && after.haveSection && after.section == t.pending.value.input.section
    decreases Measure(t)
  {
    hide Next, Readied, Measure;
    NextClocks(limits, t);
    EmittedKeepsFinishing(limits, t);
    var next := Next(limits, t);
    if next.1.Emitted? {
      NextShrinks(limits, t);
      if next.0.pending.Some? {
        DrainClocks(limits, next.0);
      } else {
        NothingPending(limits, next.0);
      }
    } else {
      DoneWhenTaken(limits, t);
    }
  }

  lemma NothingPending(limits: Limits, t: Table)
    requires t.pending.None? && t.finishing.None?
    ensures Drain(limits, t) == Drainage(t, [], false)
  {
  }

  lemma DoneWhenTaken(limits: Limits, t: Table)
    requires t.finishing.None? && Next(limits, t).1 == Done
    ensures Next(limits, t).0.pending.None?
  {
    DoneIsDone(limits, t);
  }

  // ---------------------------------------------------------------- whole runs

  function ClockOf(clocks: map<U32, Option<int>>, id: U32): Option<int> {
    if id in clocks then clocks[id] else None
  }

  ghost predicate ClocksShow(t: Table, inputs: seq<FlowInput>) {
    && (forall id :: ClockOf(t.clocks, id) == LatestOn(inputs, id))
    && (t.haveSection <==> inputs != [])
    && (inputs != [] ==> t.section == inputs[|inputs| - 1].section)
  }

  lemma PushedClocks(t: Table, inputs: seq<FlowInput>, input: FlowInput, id: U32)
    requires ClocksShow(t, inputs) && t.pending.None? && t.finishing.None? && input.stamp.number != 0
    ensures ClockOf(Readied(Push(t, input).0).clocks, id) == LatestOn(inputs + [input], id)
  {
    hide LatestOn;
    var more := inputs + [input];
    LatestUnfold(more, id);
    assert more[..|inputs|] == inputs && more[|inputs|] == input;
    assert inputs != [] ==> more[|inputs| - 1] == inputs[|inputs| - 1];
    if inputs == [] {
      NoLatest(id);
    }
  }

  lemma NoLatest(id: U32)
    ensures LatestOn([], id) == None
  {
  }

  /** At any time in a run, each interface's clock is the latest time among the records of the current section seen on
      it, whether or not they belong to any session. */
  lemma {:induction false} RunClocks(limits: Limits, inputs: seq<FlowInput>)
    requires !Run(limits, inputs).failed
    ensures ClocksShow(Run(limits, inputs).table, inputs)
  {
    hide *;
    if inputs == [] {
      StartClocks(limits);
    } else {
      var n := |inputs| - 1;
      var before, input := Run(limits, inputs[..n]), inputs[n];
      RunUnfold(limits, inputs);
      RunClocks(limits, inputs[..n]);
      RunReady(limits, inputs[..n]);
      var t := Push(before.table, input).0;
      DrainClocks(limits, t);
      ClocksShown(before.table, inputs[..n], input, Drain(limits, t).table);
      assert inputs[..n] + [input] == inputs;
    }
  }

  lemma StartClocks(limits: Limits)
    ensures ClocksShow(Run(limits, []).table, [])
  {
  }

  lemma RunUnfold(limits: Limits, inputs: seq<FlowInput>)
    requires inputs != [] && !Run(limits, inputs).failed
    ensures var n := |inputs| - 1;
      var before := Run(limits, inputs[..n]);
      var t := Push(before.table, inputs[n]).0;
      && !before.failed && inputs[n].stamp.number != 0 && t.finishing == before.table.finishing
      && t.pending.Some? && t.pending.value.input == inputs[n]
      && !Drain(limits, t).failed && Run(limits, inputs).table == Drain(limits, t).table
  {
    hide Drain;
  }

  lemma ClocksShown(t: Table, inputs: seq<FlowInput>, input: FlowInput, after: Table)
    requires ClocksShow(t, inputs) && t.pending.None? && t.finishing.None? && input.stamp.number != 0
    requires after.clocks == Readied(Push(t, input).0).clocks && after.haveSection && after.section == input.section
    ensures ClocksShow(after, inputs + [input])
  {
    hide LatestOn, Readied;
    forall id
      ensures ClockOf(after.clocks, id) == LatestOn(inputs + [input], id)
    {
      PushedClocks(t, inputs, input, id);
    }
  }

  /** A record is late exactly when an earlier record of its section on its interface has a later time. */
  lemma LateExactly(limits: Limits, inputs: seq<FlowInput>, input: FlowInput)
    requires !Run(limits, inputs).failed && input.stamp.number != 0
    ensures Push(Run(limits, inputs).table, input).1.None?
    ensures Readied(Push(Run(limits, inputs).table, input).0).pending.value.late <==>
      && input.stamp.hasTimestamp && inputs != [] && inputs[|inputs| - 1].section == input.section
      && exists i: nat, time :: Ticks(inputs, input.interfaceId, i, time) && time > input.stamp.timestamp
  {
    hide Run, Ticks, LatestOn;
    var t := Run(limits, inputs).table;
    RunReady(limits, inputs);
    RunClocks(limits, inputs);
    LatestIs(inputs, input.interfaceId);
    if inputs == [] {
      NoLatest(input.interfaceId);
    }
    assert ClockOf(t.clocks, input.interfaceId) == LatestOn(inputs, input.interfaceId);
  }
}
