/**
 * run_for (xau_once.py:172-195) and the group loop of main (xau_once.py:197-202):
 * fetch, augment, classify the last two rows, report, and send an alert only
 * for a fresh BUY or SELL. Console lines and the alert text are values here.
 */
module Runner {
  import opened Wrappers
  import opened Frames
  import opened BarSource
  import opened Indicators
  import opened Signal
  import opened Freshness

  /** The indicator library: what it computes for each bar of a series. */
  type Library = seq<Bar> -> seq<IndicatorValues>

  /** The console line "<time> TH | <sym>/5m close <c> [(stale)] -> <side>". */
  datatype Report = Report(symbol: string, time: int, close: real, stale: bool, side: Side)

  /** The message handed to send_tg. */
  datatype Alert = Alert(symbol: string, side: Side, row: Row)

  /** What one run_for call does: raise, return silently, or print a report and
      possibly send an alert. */
  datatype Outcome = Failed(error: Error) | Skipped | Reported(report: Report, alert: Option<Alert>)

  /** The augmented frame for a fetched series. */
  function Augmented(series: Series, ta: Library): seq<Row> {
    AddIndicators(series.bars, ta(series.bars))
  }

  /** run_for after fetch_df has returned or raised. */
  function Evaluate(fetched: Result<Series, Error>, ta: Library, nowNs: int): (o: Outcome)
    ensures o.Failed? <==> fetched.Failure?
    ensures o.Skipped? <==> fetched.Success? && |Augmented(fetched.value, ta)| < 2
    ensures o.Reported? ==>
      var rows := Augmented(fetched.value, ta);
      var prev, now := rows[|rows| - 2], rows[|rows| - 1];
      && o.report == Report(fetched.value.symbol, now.bar.time, now.bar.c,
                            !IsFresh(now.bar.time, nowNs), GenerateSignal(prev, now))
      && (o.alert.Some? <==> IsFresh(now.bar.time, nowNs) && GenerateSignal(prev, now) != Wait)
      && (o.alert.Some? ==> o.alert.value == Alert(fetched.value.symbol, GenerateSignal(prev, now), now))
  {
    match fetched
    case Failure(e) => Failed(e)
    case Success(series) =>
      var rows := Augmented(series, ta);
      if |rows| < 2 then Skipped
      else
        var prev, now := rows[|rows| - 2], rows[|rows| - 1];
        var side := GenerateSignal(prev, now);
        if !IsFresh(now.bar.time, nowNs) then
          Reported(Report(series.symbol, now.bar.time, now.bar.c, true, side), None)
        else
          Reported(Report(series.symbol, now.bar.time, now.bar.c, false, side),
                   if side == Buy || side == Sell then Some(Alert(series.symbol, side, now)) else None)
  }

  /** run_for(candidates), with the clock reading it takes. */
  function RunFor(cands: seq<Candidate>, ta: Library, nowNs: int): Outcome {
    Evaluate(Fetch(cands), ta, nowNs)
  }

  /** run_for raises exactly when every candidate fails, with the last one's error. */
  lemma RunForFailsIff(cands: seq<Candidate>, ta: Library, nowNs: int)
    ensures RunFor(cands, ta, nowNs).Failed? <==> forall i :: 0 <= i < |cands| ==> Attempt(cands[i]).Failure?
    ensures RunFor(cands, ta, nowNs).Failed? ==> RunFor(cands, ta, nowNs).error == AllFailed(LastError(Attempt, cands))
  {
    FetchSucceedsIff(Attempt, cands);
    FetchFailureCarriesLast(Attempt, cands);
  }

  /** An alert goes out exactly for a fresh BUY or SELL on the last two rows. */
  lemma AlertIff(fetched: Result<Series, Error>, ta: Library, nowNs: int)
    ensures var o := Evaluate(fetched, ta, nowNs);
      (o.Reported? && o.alert.Some?) <==>
        && fetched.Success?
        && var rows := Augmented(fetched.value, ta);
           && |rows| >= 2
           && IsFresh(rows[|rows| - 1].bar.time, nowNs)
           && GenerateSignal(rows[|rows| - 2], rows[|rows| - 1]) in {Buy, Sell}
  {
  }

  /** A stale bar is still reported, marked stale, and nothing is sent. */
  lemma StaleIsReportedNotSent(fetched: Result<Series, Error>, ta: Library, nowNs: int)
    requires fetched.Success?
    requires var rows := Augmented(fetched.value, ta);
      |rows| >= 2 && !IsFresh(rows[|rows| - 1].bar.time, nowNs)
    ensures var o := Evaluate(fetched, ta, nowNs);
      o.Reported? && o.report.stale && o.alert.None?
  {
  }

  /** An alert is only ever a BUY or a SELL for the symbol that was fetched. */
  lemma AlertIsActionable(cands: seq<Candidate>, ta: Library, nowNs: int)
    ensures RunFor(cands, ta, nowNs).Reported? && RunFor(cands, ta, nowNs).alert.Some? ==>
      var a := RunFor(cands, ta, nowNs).alert.value;
      a.side != Wait && Fetch(cands).Success? && a.symbol == Fetch(cands).value.symbol
  {
  }

  /** The loop of main: every group is run, whether or not an earlier one raised. */
  method RunGroups(groups: seq<seq<Candidate>>, ta: Library, clock: seq<int>) returns (outcomes: seq<Outcome>)
    requires |clock| == |groups|
    ensures |outcomes| == |groups|
    ensures forall i :: 0 <= i < |groups| ==> outcomes[i] == RunFor(groups[i], ta, clock[i])
  {
    outcomes := [];
    for i := 0 to |groups|
      invariant |outcomes| == i
      invariant forall j :: 0 <= j < i ==> outcomes[j] == RunFor(groups[j], ta, clock[j])
    {
      outcomes := outcomes + [RunFor(groups[i], ta, clock[i])];
    }
  }
}
