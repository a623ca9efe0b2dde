/**
 * The candidate loop of fetch_df (xau_once.py:82-142): try each candidate symbol
 * in order and return the first normalised series, or raise with the last
 * candidate's error.
 *
 * The data source is not called: each candidate carries what yf.download and
 * Ticker.history return for it.
 */
module BarSource {
  import opened Wrappers
  import opened Columns
  import opened Frames
  import Config

  /** What one call to the data source gave: an exception, None, or a frame. */
  datatype Fetched = Raised(message: string) | NoFrame | Frame(frame: RawFrame)

  /** A candidate symbol with what yf.download and Ticker.history return for it. */
  datatype Candidate = Candidate(symbol: string, download: Fetched, history: Fetched)

  /** The exceptions a candidate can fail with, and the aggregate one. */
  datatype Error =
    | SourceError(message: string)    // raised by the data source itself
    | EmptyDownload                   // RuntimeError("empty")
    | EmptyHistory                    // RuntimeError("history empty")
    | MissingColumn(key: string)      // KeyError from _pick on the history frame
    | BadTime                         // pd.to_datetime could not parse the time column
    | AllFailed(last: Option<Error>)  // RuntimeError("all candidates failed: <last>")

  /** The cleaned frame with attrs["symbol"]. */
  datatype Series = Series(symbol: string, bars: seq<Bar>)

  /** The "[fetch] <sym> failed: <e>" line printed for a failed candidate. */
  datatype Diagnostic = Diagnostic(symbol: string, error: Error)

  /** A data-source result that passes the emptiness check. */
  predicate Usable(f: Fetched) {
    f.Frame? && !IsEmpty(f.frame)
  }

  /** All four price columns are found in the table. */
  predicate Priced(t: Table) {
    PickAll(t.labels, PriceKeys).Success?
  }

  function Prices(t: Table): (p: seq<nat>)
    requires Priced(t)
    ensures |p| == 4
  {
    PickAll(t.labels, PriceKeys).value
  }

  /** The data-source result gives a series: usable, priced, with a time column
      that parses. */
  predicate Yields(f: Fetched) {
    Usable(f) && Priced(Prepare(f.frame)) && TimesParse(Prepare(f.frame))
  }

  /** The cleaned bars of a result that yields a series. */
  function BarsOf(f: Fetched): seq<Bar>
    requires Yields(f)
  {
    CleanBars(Prepare(f.frame), Prices(Prepare(f.frame)))
  }

  /** Builds the cleaned series from a table whose price columns were found. */
  function Normalize(symbol: string, t: Table, prices: seq<nat>): (r: Result<Series, Error>)
    requires |prices| == 4
    ensures r.Failure? <==> !TimesParse(t)
    ensures r.Failure? ==> r.error == BadTime
    ensures r.Success? ==> r.value == Series(symbol, CleanBars(t, prices)) && |r.value.bars| <= Config.Bars
  {
    TimesParseIff(t);
    var vol := Resolve(t.labels, "volume");
    match ParseTimes(Column(t, TimeIndex(t)))
    case None => Failure(BadTime)
    case Some(times) => Success(Series(symbol, Clean(Rows(t, prices, vol, times))))
  }

  /** The `except KeyError` branch: fetch history() and pick the prices again,
      letting a KeyError escape this time. */
  function FromHistory(symbol: string, history: Fetched): (r: Result<Series, Error>)
    ensures r.Success? <==> Yields(history)
    ensures r.Success? ==> r.value == Series(symbol, BarsOf(history)) && |r.value.bars| <= Config.Bars
    ensures r.Failure? && r.error.MissingColumn? ==>
      Usable(history) && PickAll(Prepare(history.frame).labels, PriceKeys) == Failure(r.error.key)
    ensures history.Raised? ==> r == Failure(SourceError(history.message))
    ensures history.NoFrame? || (history.Frame? && IsEmpty(history.frame)) ==> r == Failure(EmptyHistory)
    ensures Usable(history) && Priced(Prepare(history.frame)) && !TimesParse(Prepare(history.frame)) ==>
      r == Failure(BadTime)
  {
    match history
    case Raised(m) => Failure(SourceError(m))
    case NoFrame => Failure(EmptyHistory)
    case Frame(g) =>
      if IsEmpty(g) then Failure(EmptyHistory)
      else
        var th := Prepare(g);
        match PickAll(th.labels, PriceKeys)
        case Success(prices) => Normalize(symbol, th, prices)
        case Failure(key) => Failure(MissingColumn(key))
  }

  /** The body of the `try` for one candidate: download, pick the prices, fall back
      to history() on a KeyError, then normalise. The series comes from the
      download when it has all four price columns, and from history() otherwise. */
  function Attempt(c: Candidate): (r: Result<Series, Error>)
    ensures r.Success? <==>
      || Yields(c.download)
      || (Usable(c.download) && !Priced(Prepare(c.download.frame)) && Yields(c.history))
    ensures r.Success? ==>
      r.value == Series(c.symbol, if Yields(c.download) then BarsOf(c.download) else BarsOf(c.history))
    ensures r.Success? ==> |r.value.bars| <= Config.Bars
  {
    match c.download
    case Raised(m) => Failure(SourceError(m))
    case NoFrame => Failure(EmptyDownload)
    case Frame(f) =>
      if IsEmpty(f) then Failure(EmptyDownload)
      else
        var t := Prepare(f);
        match PickAll(t.labels, PriceKeys)
        case Success(prices) => Normalize(c.symbol, t, prices)
        case Failure(_) => FromHistory(c.symbol, c.history)
  }

  /** A download without all four price columns hands the candidate to history(). */
  lemma MissingPriceFallsBack(c: Candidate)
    ensures Usable(c.download) && !Priced(Prepare(c.download.frame)) ==> Attempt(c) == FromHistory(c.symbol, c.history)
  {
  }

  /** A priced download whose time column does not parse fails the candidate with
      BadTime, without trying history(). */
  lemma DownloadBadTimeIsFinal(c: Candidate)
    ensures Usable(c.download) && Priced(Prepare(c.download.frame)) && !TimesParse(Prepare(c.download.frame)) ==>
      Attempt(c) == Failure(BadTime)
  {
  }

  /** history() is consulted only when the downloaded frame lacks a price column. */
  lemma HistoryOnlyOnMissingPrice(c: Candidate, h: Fetched)
    requires c.download.Frame? && !IsEmpty(c.download.frame)
    requires forall k :: 0 <= k < 4 ==> Resolve(Prepare(c.download.frame).labels, PriceKeys[k]).Some?
    ensures Attempt(c) == Attempt(c.(history := h))
  {
    PickEachFinds(PickerOn(Prepare(c.download.frame).labels), PriceKeys);
  }

  /** A failed download or an empty frame fails the candidate without history(). */
  lemma DownloadFailureIsFinal(c: Candidate)
    requires !c.download.Frame? || IsEmpty(c.download.frame)
    ensures Attempt(c) == if c.download.Raised? then Failure(SourceError(c.download.message)) else Failure(EmptyDownload)
  {
  }

  /** A KeyError escapes only from the history frame, and names the first of
      open, high, low, close that `_pick` cannot find there. */
  lemma MissingColumnIsFirstAbsentKey(c: Candidate)
    ensures Attempt(c).Failure? && Attempt(c).error.MissingColumn? ==>
      && Usable(c.history)
      && var labels := Prepare(c.history.frame).labels;
         exists k :: 0 <= k < 4 && PriceKeys[k] == Attempt(c).error.key && Resolve(labels, PriceKeys[k]).None?
           && (forall m :: 0 <= m < k ==> Resolve(labels, PriceKeys[m]).Some?)
  {
    if Attempt(c).Failure? && Attempt(c).error.MissingColumn? {
      var k := PickEachFirstMissing(PickerOn(Prepare(c.history.frame).labels), PriceKeys);
    }
  }

  // ---------------------------------------------------------------- the candidate loop
  //
  // The loop is stated for any per-candidate try; fetch_df's is Attempt.

  type Try = Candidate -> Result<Series, Error>

  /** The loop from candidate `from` on, with the error of the last failure so far. */
  function FetchFrom(attempt: Try, cands: seq<Candidate>, from: nat, last: Option<Error>): (r: Result<Series, Error>)
    requires from <= |cands|
    decreases |cands| - from
    ensures r.Success? ==> exists i :: from <= i < |cands| && attempt(cands[i]) == r
    ensures r.Failure? ==> r.error.AllFailed?
  {
    if from == |cands| then Failure(AllFailed(last))
    else
      match attempt(cands[from])
      case Success(s) => Success(s)
      case Failure(e) => FetchFrom(attempt, cands, from + 1, Some(e))
  }

  /** What fetch_df returns, or the RuntimeError it raises. */
  function Fetch(cands: seq<Candidate>): Result<Series, Error> {
    FetchFrom(Attempt, cands, 0, None)
  }

  /** i is the first candidate that succeeds. */
  predicate FirstSuccess(attempt: Try, cands: seq<Candidate>, i: nat) {
    i < |cands| && attempt(cands[i]).Success?
    && forall j :: 0 <= j < i ==> attempt(cands[j]).Failure?
  }

  /** The error of the last candidate, the one the aggregate error reports. */
  function LastError(attempt: Try, cands: seq<Candidate>): Option<Error> {
    if |cands| == 0 then None
    else match attempt(cands[|cands| - 1])
      case Failure(e) => Some(e)
      case Success(_) => None
  }

  lemma {:induction false} FetchFromFirstSuccess(attempt: Try, cands: seq<Candidate>, from: nat, last: Option<Error>, i: nat)
    requires from <= i && FirstSuccess(attempt, cands, i)
    decreases i - from
    ensures FetchFrom(attempt, cands, from, last) == attempt(cands[i])
  {
    if from < i {
      FetchFromFirstSuccess(attempt, cands, from + 1, Some(attempt(cands[from]).error), i);
    }
  }

  lemma {:induction false} FetchFromAllFail(attempt: Try, cands: seq<Candidate>, from: nat, last: Option<Error>)
    requires from <= |cands|
    requires forall j :: 0 <= j < |cands| ==> attempt(cands[j]).Failure?
    decreases |cands| - from
    ensures FetchFrom(attempt, cands, from, last)
            == Failure(AllFailed(if from == |cands| then last else LastError(attempt, cands)))
  {
    if from < |cands| {
      FetchFromAllFail(attempt, cands, from + 1, Some(attempt(cands[from]).error));
    }
  }

  /** Candidates are tried in order: the result is the first success, untouched. */
  lemma FetchFirstSuccess(attempt: Try, cands: seq<Candidate>, i: nat)
    requires FirstSuccess(attempt, cands, i)
    ensures FetchFrom(attempt, cands, 0, None) == attempt(cands[i])
  {
    FetchFromFirstSuccess(attempt, cands, 0, None, i);
  }

  /** When every candidate fails, the raised error carries the last one's error. */
  lemma FetchAllFail(attempt: Try, cands: seq<Candidate>)
    requires forall j :: 0 <= j < |cands| ==> attempt(cands[j]).Failure?
    ensures FetchFrom(attempt, cands, 0, None) == Failure(AllFailed(LastError(attempt, cands)))
  {
    FetchFromAllFail(attempt, cands, 0, None);
  }

  lemma FirstSucceeding(attempt: Try, cands: seq<Candidate>) returns (i: nat)
    requires exists i :: 0 <= i < |cands| && attempt(cands[i]).Success?
    ensures FirstSuccess(attempt, cands, i)
  {
    i := 0;
    while attempt(cands[i]).Failure?
      invariant i < |cands|
      invariant forall j :: 0 <= j < i ==> attempt(cands[j]).Failure?
      invariant exists k :: i <= k < |cands| && attempt(cands[k]).Success?
      decreases |cands| - i
    {
      i := i + 1;
    }
  }

  /** The error fetch_df raises always reports the last candidate's error. */
  lemma FetchFailureCarriesLast(attempt: Try, cands: seq<Candidate>)
    ensures FetchFrom(attempt, cands, 0, None).Failure? ==>
      FetchFrom(attempt, cands, 0, None).error == AllFailed(LastError(attempt, cands))
  {
    FetchSucceedsIff(attempt, cands);
    if FetchFrom(attempt, cands, 0, None).Failure? {
      FetchAllFail(attempt, cands);
    }
  }

  /** fetch_df succeeds exactly when some candidate does. */
  lemma FetchSucceedsIff(attempt: Try, cands: seq<Candidate>)
    ensures FetchFrom(attempt, cands, 0, None).Success? <==> exists i :: 0 <= i < |cands| && attempt(cands[i]).Success?
  {
    if exists i :: 0 <= i < |cands| && attempt(cands[i]).Success? {
      var i := FirstSucceeding(attempt, cands);
      FetchFirstSuccess(attempt, cands, i);
    } else {
      FetchAllFail(attempt, cands);
    }
  }

  /** The series fetch_df returns is tagged with the first candidate that succeeds
      and holds that candidate's cleaned rows only. */
  lemma FetchTagged(cands: seq<Candidate>)
    ensures Fetch(cands).Success? ==>
      exists i: nat :: FirstSuccess(Attempt, cands, i) && Fetch(cands) == Attempt(cands[i])
                    && Fetch(cands).value.symbol == cands[i].symbol
  {
    FetchSucceedsIff(Attempt, cands);
    if Fetch(cands).Success? {
      var i := FirstSucceeding(Attempt, cands);
      FetchFirstSuccess(Attempt, cands, i);
    }
  }

  /** The `for sym in candidates` loop of fetch_df, with the diagnostic lines it prints. */
  method FetchDf(attempt: Try, cands: seq<Candidate>) returns (r: Result<Series, Error>, log: seq<Diagnostic>)
    ensures r == FetchFrom(attempt, cands, 0, None)
    ensures r.Success? ==> FirstSuccess(attempt, cands, |log|) && r == attempt(cands[|log|])
    ensures r.Failure? ==> |log| == |cands| && r.error == AllFailed(LastError(attempt, cands))
    ensures forall j :: 0 <= j < |log| ==>
      j < |cands| && attempt(cands[j]).Failure? && log[j] == Diagnostic(cands[j].symbol, attempt(cands[j]).error)
  {
    var lastErr: Option<Error> := None;
    log := [];
    for i := 0 to |cands|
      invariant |log| == i
      invariant forall j :: 0 <= j < i ==>
        attempt(cands[j]).Failure? && log[j] == Diagnostic(cands[j].symbol, attempt(cands[j]).error)
      invariant lastErr == if i == 0 then None else Some(attempt(cands[i - 1]).error)
      invariant FetchFrom(attempt, cands, i, lastErr) == FetchFrom(attempt, cands, 0, None)
    {
      var outcome := attempt(cands[i]);
      if outcome.Success? {
        return outcome, log;
      }
      lastErr := Some(outcome.error);
      log := log + [Diagnostic(cands[i].symbol, outcome.error)];
    }
    FetchAllFail(attempt, cands);
    r := Failure(AllFailed(lastErr));
  }
}
