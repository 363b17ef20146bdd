/** The flow scan of one capture file: the aggregator drained after every record (src/packetquapture_extension.cpp). */
module FlowScan {
  import opened Basics
  import opened FlowTypes
  import opened FlowRows
  import opened FlowHandshake
  import opened FlowTable
  import opened FlowRuns
  import A = FlowAggregator

  ghost predicate ShowsAll(results: seq<A.Result>, rows: seq<Outcome>) {
    |results| == |rows| && forall i | 0 <= i < |rows| :: A.Shows(results[i], rows[i])
  }

  /** `done` rows are out and draining `t` completes `whole`. */
  ghost predicate Ahead(limits: Limits, whole: Drainage, done: seq<Outcome>, t: Table) {
    whole == Drain(limits, t).(rows := done + Drain(limits, t).rows)
  }

  lemma AheadEmits(limits: Limits, whole: Drainage, done: seq<Outcome>, t: Table)
    requires Ahead(limits, whole, done, t) && Next(limits, t).1.Emitted?
    ensures Ahead(limits, whole, done + [Next(limits, t).1], Next(limits, t).0)
  {
    hide Next;
    var rest := Drain(limits, Next(limits, t).0).rows;
    assert done + ([Next(limits, t).1] + rest) == done + [Next(limits, t).1] + rest;
  }

  lemma AheadDone(limits: Limits, whole: Drainage, done: seq<Outcome>, t: Table)
    requires Ahead(limits, whole, done, t) && !Next(limits, t).1.Emitted?
    ensures whole.rows == done && whole.failed == Next(limits, t).1.Failed?
    ensures whole.table == Next(limits, t).0
  {
    hide Next;
  }

  lemma {:induction false} FailsOn(limits: Limits, inputs: seq<FlowInput>, i: nat)
    requires i <= |inputs| && Run(limits, inputs[..i]).failed
    ensures Run(limits, inputs).failed && Run(limits, inputs).rows == Run(limits, inputs[..i]).rows
  {
    hide Drain;
    if i == |inputs| {
      assert inputs[..i] == inputs;
    } else {
      var n := |inputs| - 1;
      assert inputs[..n][..i] == inputs[..i];
      FailsOn(limits, inputs[..n], i);
    }
  }

  lemma StartsAhead(limits: Limits)
    ensures Ahead(limits, Run(limits, []), [], EMPTY)
  {
  }

  lemma PushedAhead(limits: Limits, inputs: seq<FlowInput>, i: nat, t: Table)
    requires i < |inputs| && !Run(limits, inputs[..i]).failed && Run(limits, inputs[..i]).table == t
    ensures Push(t, inputs[i]).1.Some? ==>
      Run(limits, inputs[..i + 1]).failed && Run(limits, inputs[..i + 1]).rows == Run(limits, inputs[..i]).rows
    ensures Push(t, inputs[i]).1.None? ==>
      Ahead(limits, Run(limits, inputs[..i + 1]), Run(limits, inputs[..i]).rows, Push(t, inputs[i]).0)
  {
    hide Drain;
    assert inputs[..i + 1][..i] == inputs[..i];
  }

  /** The results are the rows of the whole run, up to where it failed if it did. */
  ghost predicate Outcomes(limits: Limits, inputs: seq<FlowInput>, final: U32, results: seq<A.Result>, ok: bool) {
    && ok == !Finished(limits, inputs, final).failed
    && ShowsAll(results, Finished(limits, inputs, final).rows)
  }

  lemma EarlyFailure(limits: Limits, inputs: seq<FlowInput>, final: U32, i: nat, results: seq<A.Result>)
    requires i <= |inputs| && Run(limits, inputs[..i]).failed && ShowsAll(results, Run(limits, inputs[..i]).rows)
    ensures Outcomes(limits, inputs, final, results, false)
  {
    hide Run, Drain;
    FailsOn(limits, inputs, i);
  }

  lemma FinishedAhead(limits: Limits, inputs: seq<FlowInput>, final: U32, t: Table)
    requires !Run(limits, inputs).failed && Run(limits, inputs).table == t
    ensures Finish(t, final).1.None?
    ensures Ahead(limits, Finished(limits, inputs, final), Run(limits, inputs).rows, Finish(t, final).0)
  {
    hide Drain, Run, AllProper;
    RunReady(limits, inputs);
  }

  /** Pushes every record of a file, drains the aggregator after each, and finishes it.
      The rows are those of the whole run of the plain table, each the summary of its block of packets. */
  method ScanFile(limits: Limits, inputs: seq<FlowInput>, final: U32) returns (results: seq<A.Result>, ok: bool)
    ensures Outcomes(limits, inputs, final, results, ok)
  {
    hide *;
    var aggregator := new A.Aggregator(limits);
    results := [];
    var i, finished := 0, false;
    ghost var done: seq<Outcome> := [];
    StartsAhead(limits);
    ShowsNone();
    assert inputs[..0] == [];
    while true
      invariant aggregator.limits == limits && fresh(aggregator) && aggregator.Valid()
      invariant 0 <= i <= |inputs| && (finished ==> i == |inputs|)
      invariant ShowsAll(results, done)
      invariant Ahead(limits, if finished then Finished(limits, inputs, final) else Run(limits, inputs[..i]), done, aggregator.View())
      decreases |inputs| - i, if finished then 0 else 1, Measure(aggregator.View())
    {
      ghost var t := aggregator.View();
      var result := aggregator.Next();
      ShowsKind(result, Next(limits, t).1);
      if result.Row? {
        NextShrinks(limits, t);
        AheadEmits(limits, if finished then Finished(limits, inputs, final) else Run(limits, inputs[..i]), done, t);
        ShowsMore(results, done, result, Next(limits, t).1);
        results, done := results + [result], done + [Next(limits, t).1];
        continue;
      }
      AheadDone(limits, if finished then Finished(limits, inputs, final) else Run(limits, inputs[..i]), done, t);
      if finished {
        Completed(limits, inputs, final, results, done, result.Failed?);
        return results, !result.Failed?;
      }
      if result.Failed? {
        EarlyFailure(limits, inputs, final, i, results);
        return results, false;
      }
      if i == |inputs| {
        assert inputs[..i] == inputs;
        FinishedAhead(limits, inputs, final, aggregator.View());
        var error := aggregator.Finish(final);
        finished := true;
      } else {
        PushedAhead(limits, inputs, i, aggregator.View());
        var error := aggregator.Push(inputs[i]);
        if error.Some? {
          EarlyFailure(limits, inputs, final, i + 1, results);
          return results, false;
        }
        i := i + 1;
      }
    }
  }

  lemma Completed(limits: Limits, inputs: seq<FlowInput>, final: U32, results: seq<A.Result>, done: seq<Outcome>, failed: bool)
    requires ShowsAll(results, done)
    requires Finished(limits, inputs, final).rows == done && Finished(limits, inputs, final).failed == failed
    ensures Outcomes(limits, inputs, final, results, !failed)
  {
    hide Finished;
  }

  lemma ShowsNone()
    ensures ShowsAll([], [])
  {
  }

  lemma ShowsMore(results: seq<A.Result>, rows: seq<Outcome>, result: A.Result, row: Outcome)
    requires ShowsAll(results, rows) && A.Shows(result, row)
    ensures ShowsAll(results + [result], rows + [row])
  {
    hide A.Shows;
  }

  lemma ShowsKind(result: A.Result, outcome: Outcome)
    requires A.Shows(result, outcome)
    ensures result.Row? == outcome.Emitted? && result.Failed? == outcome.Failed?
  {
  }

  /** Every row is the summary of a block of packets of one section and session, and one that says its handshake
      completed covers the three segments of one, in order. */
  ghost predicate Accounts(results: seq<A.Result>, rows: seq<Outcome>) {
    && ShowsAll(results, rows) && ProperRows(rows)
    && forall i | 0 <= i < |rows| ::
         && results[i].Row? && rows[i].Emitted? && rows[i].block != []
         && (results[i].row.handshakeComplete ==> Handshaken(rows[i].block, OrigIsLow(rows[i].block[0])))
  }

  lemma RowsAccounted(results: seq<A.Result>, rows: seq<Outcome>)
    requires ShowsAll(results, rows) && ProperRows(rows)
    ensures Accounts(results, rows)
  {
    hide SummaryOf, Handshaken, ProperRow, OrigIsLow;
    forall i | 0 <= i < |rows|
      ensures results[i].Row? && rows[i].Emitted? && rows[i].block != []
      ensures results[i].row.handshakeComplete ==> Handshaken(rows[i].block, OrigIsLow(rows[i].block[0]))
    {
      assert A.Shows(results[i], rows[i]);
      HandshakeInRow(rows[i]);
    }
  }

  /** In every scan, also one that fails, the rows handed out are accounted for. */
  lemma ScanHandshakes(limits: Limits, inputs: seq<FlowInput>, final: U32, results: seq<A.Result>, ok: bool)
    requires Outcomes(limits, inputs, final, results, ok)
    ensures Accounts(results, Finished(limits, inputs, final).rows)
  {
    hide Finished, ShowsAll, ProperRows, Accounts;
    FinishedProper(limits, inputs, final);
    RowsAccounted(results, Finished(limits, inputs, final).rows);
  }

  /** In a completed scan the rows are summaries of blocks of packets, each block of one section and session, such
      that for every section and session its blocks joined in the order of the rows are exactly its eligible packets
      in capture order. */
  lemma ScanConserves(limits: Limits, inputs: seq<FlowInput>, final: U32, results: seq<A.Result>)
    requires Outcomes(limits, inputs, final, results, true)
    ensures exists rows ::
      && Accounts(results, rows)
      && forall section, key :: RowsPart(rows, section, key) == Matching(inputs, section, key)
  {
    hide Finished, ShowsAll, RowsPart, Matching, ProperRows, Accounts;
    var rows := Finished(limits, inputs, final).rows;
    ScanHandshakes(limits, inputs, final, results, true);
    forall section, key
      ensures RowsPart(rows, section, key) == Matching(inputs, section, key)
    {
      FinishedConserves(limits, inputs, final, section, key);
    }
  }
}
