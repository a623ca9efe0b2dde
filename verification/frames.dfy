/**
 * The frames fetch_df works on (xau_once.py:86-133): cells as pandas coerces
 * them, the frame a data source returns, the table left by
 * `_flatten(df).reset_index()`, the o/h/l/c/v rows built from it and the
 * cleanup (dropna, then tail(Bars)).
 */
module Frames {
  import opened Wrappers
  import opened Columns
  import Config

  /** One cell of a downloaded frame, as pandas' coercions see it. */
  datatype Cell =
    | Num(x: real)        // a number
    | Stamp(ns: int)      // a timestamp, nanoseconds since the epoch, UTC
    | Missing             // None, NaN or NaT
    | Text(s: string)     // a string that reads neither as a number nor as a date

  /** pd.to_numeric(errors="coerce") on one cell; None is NaN. */
  function ToNumeric(c: Cell): Option<real> {
    match c
    case Num(x) => Some(x)
    case Stamp(ns) => Some(ns as real)
    case Missing => None
    case Text(_) => None
  }

  /** pd.to_datetime(utc=True) on one cell. */
  datatype Parsed = Instant(ns: int) | NaT | Unparsable

  function ToInstant(c: Cell): Parsed {
    match c
    case Stamp(ns) => Instant(ns)
    case Missing => NaT
    case _ => Unparsable
  }

  /** A frame as the data source returns it: a named row index and its columns.
      ("index" is the name pandas gives an unnamed index.) */
  datatype RawFrame = RawFrame(indexName: string, index: seq<Cell>, header: Header, data: seq<seq<Cell>>)

  /** df.empty: the frame has no rows or no columns. */
  predicate IsEmpty(f: RawFrame) {
    |f.index| == 0 || Width(f.header) == 0
  }

  /** A frame after `_flatten(df).reset_index()`: the index has become column 0. */
  datatype Table = Table(labels: seq<string>, columns: seq<seq<Cell>>, height: nat)

  function Prepare(f: RawFrame): (t: Table)
    ensures |t.labels| == 1 + Width(f.header) && t.labels[0] == f.indexName
    ensures t.labels[1..] == Flatten(f.header)
    ensures |t.columns| == 1 + |f.data| && t.columns[0] == f.index && t.columns[1..] == f.data
    ensures t.height == |f.index|
  {
    Table([f.indexName] + Flatten(f.header), [f.index] + f.data, |f.index|)
  }

  /** Cell i of column j. pandas frames are rectangular; a cell this model's
      table lacks reads as missing, as pandas' alignment on the index would. */
  function CellAt(t: Table, j: nat, i: nat): Cell {
    if j < |t.columns| && i < |t.columns[j]| then t.columns[j][i] else Missing
  }

  function Column(t: Table, j: nat): (col: seq<Cell>)
    ensures |col| == t.height
  {
    seq(t.height, i requires 0 <= i < t.height => CellAt(t, j, i))
  }

  /** One row of `out` after the numeric coercion; None marks NaN or NaT. */
  datatype RawRow = RawRow(time: Option<int>, o: Option<real>, h: Option<real>,
                           l: Option<real>, c: Option<real>, v: Option<real>)

  /** One cleaned bar: every field present. */
  datatype Bar = Bar(time: int, o: real, h: real, l: real, c: real, v: real)

  const PriceKeys: seq<string> := ["open", "high", "low", "close"]

  /** A column lookup by key; `_pick` on a frame's labels is `PickerOn(labels)`. */
  type Picker = string -> Option<nat>

  function PickerOn(labels: seq<string>): Picker {
    key => Resolve(labels, key)
  }

  /** Looks the keys up in order, as consecutive `_pick` calls do; the first key
      that is not found is the KeyError. */
  function PickEach(pick: Picker, keys: seq<string>): (r: Result<seq<nat>, string>)
    ensures r.Success? ==> |r.value| == |keys|
  {
    if |keys| == 0 then Success([])
    else
      match pick(keys[0])
      case None => Failure(keys[0])
      case Some(j) =>
        match PickEach(pick, keys[1..])
        case Success(rest) => Success([j] + rest)
        case Failure(key) => Failure(key)
  }

  /** The price picks of fetch_df on a frame with these labels. */
  function PickAll(labels: seq<string>, keys: seq<string>): Result<seq<nat>, string> {
    PickEach(PickerOn(labels), keys)
  }

  /** The lookups all succeed exactly when each key is found, and then give each
      key's column. */
  lemma {:induction false} PickEachFinds(pick: Picker, keys: seq<string>)
    ensures PickEach(pick, keys).Success? <==> forall k :: 0 <= k < |keys| ==> pick(keys[k]).Some?
    ensures PickEach(pick, keys).Success? ==>
      forall k :: 0 <= k < |keys| ==> pick(keys[k]) == Some(PickEach(pick, keys).value[k])
  {
    if |keys| > 0 {
      PickEachFinds(pick, keys[1..]);
      assert forall k :: 1 <= k < |keys| ==> keys[k] == keys[1..][k - 1];
    }
  }

  /** A failed lookup reports the first key that is not found. */
  lemma {:induction false} PickEachFirstMissing(pick: Picker, keys: seq<string>) returns (k: nat)
    requires PickEach(pick, keys).Failure?
    ensures k < |keys| && keys[k] == PickEach(pick, keys).error && pick(keys[k]).None?
    ensures forall m :: 0 <= m < k ==> pick(keys[m]).Some?
  {
    if pick(keys[0]).None? {
      k := 0;
    } else {
      var j := PickEachFirstMissing(pick, keys[1..]);
      k := j + 1;
      assert keys[k] == keys[1..][j];
      forall m | 0 <= m < k ensures pick(keys[m]).Some? {
        if m > 0 {
          assert keys[m] == keys[1..][m - 1];
        }
      }
    }
  }

  /** The first position of x in s. */
  function IndexOf(s: seq<string>, x: string): (r: nat)
    requires x in s
    ensures r < |s| && s[r] == x && forall m :: 0 <= m < r ==> s[m] != x
  {
    if s[0] == x then 0 else 1 + IndexOf(s[1..], x)
  }

  /** The column read as time: "Datetime", else "Date" (exact, case-sensitive
      labels), else the first column. */
  function TimeColumn(labels: seq<string>): (r: nat)
    requires 0 < |labels|
    ensures r < |labels|
    ensures "Datetime" in labels ==> labels[r] == "Datetime"
    ensures "Datetime" !in labels && "Date" in labels ==> labels[r] == "Date"
    ensures "Datetime" !in labels && "Date" !in labels ==> r == 0
  {
    if "Datetime" in labels then IndexOf(labels, "Datetime")
    else if "Date" in labels then IndexOf(labels, "Date")
    else 0
  }

  /** The column read as time in a table; a table always has its index column. */
  function TimeIndex(t: Table): nat {
    if |t.labels| == 0 then 0 else TimeColumn(t.labels)
  }

  /** pd.to_datetime over a whole column: a number or a string raises, a missing
      cell is NaT and a timestamp is its instant. */
  function ParseTimes(col: seq<Cell>): (r: Option<seq<Option<int>>>)
    ensures r.None? <==> exists i :: 0 <= i < |col| && (col[i].Num? || col[i].Text?)
    ensures r.Some? ==> |r.value| == |col|
    ensures r.Some? ==> forall i :: 0 <= i < |col| ==>
      (r.value[i].Some? <==> col[i].Stamp?) && (col[i].Stamp? ==> r.value[i] == Some(col[i].ns))
  {
    if exists i :: 0 <= i < |col| && ToInstant(col[i]).Unparsable? then None
    else Some(seq(|col|, i requires 0 <= i < |col| =>
                  match ToInstant(col[i]) case Instant(ns) => Some(ns) case _ => None))
  }

  /** The time column of the table parses: none of its cells is a number or a string. */
  predicate TimesParse(t: Table) {
    forall i :: 0 <= i < t.height ==> !CellAt(t, TimeIndex(t), i).Num? && !CellAt(t, TimeIndex(t), i).Text?
  }

  lemma TimesParseIff(t: Table)
    ensures ParseTimes(Column(t, TimeIndex(t))).Some? <==> TimesParse(t)
  {
    var col := Column(t, TimeIndex(t));
    assert forall i :: 0 <= i < t.height ==> col[i] == CellAt(t, TimeIndex(t), i);
  }

  /** A cell that pd.to_numeric turns into a number. */
  predicate Numeric(c: Cell) {
    c.Num? || c.Stamp?
  }

  /** The rows of `out` once each of o/h/l/c/v has gone through pd.to_numeric;
      without a volume column, v is the synthesised zero. */
  function Rows(t: Table, prices: seq<nat>, vol: Option<nat>, times: seq<Option<int>>): (rows: seq<RawRow>)
    requires |prices| == 4 && |times| == t.height
    ensures |rows| == t.height
    ensures forall i :: 0 <= i < t.height ==>
      && rows[i].time == times[i]
      && rows[i].o == ToNumeric(CellAt(t, prices[0], i)) && rows[i].h == ToNumeric(CellAt(t, prices[1], i))
      && rows[i].l == ToNumeric(CellAt(t, prices[2], i)) && rows[i].c == ToNumeric(CellAt(t, prices[3], i))
      && rows[i].v == (if vol.Some? then ToNumeric(CellAt(t, vol.value, i)) else Some(0.0))
  {
    seq(t.height, i requires 0 <= i < t.height =>
      RawRow(times[i],
             ToNumeric(CellAt(t, prices[0], i)), ToNumeric(CellAt(t, prices[1], i)),
             ToNumeric(CellAt(t, prices[2], i)), ToNumeric(CellAt(t, prices[3], i)),
             if vol.Some? then ToNumeric(CellAt(t, vol.value, i)) else Some(0.0)))
  }

  /** The drop rule on cells: a row is kept exactly when its time parsed and each
      of its price cells, and its volume cell when there is a volume column, is a
      number or a timestamp; a string or a missing cell anywhere drops it. */
  lemma RowCompleteIff(t: Table, prices: seq<nat>, vol: Option<nat>, times: seq<Option<int>>, i: nat)
    requires |prices| == 4 && |times| == t.height && i < t.height
    ensures Complete(Rows(t, prices, vol, times)[i]) <==>
      && times[i].Some?
      && (forall k :: 0 <= k < 4 ==> Numeric(CellAt(t, prices[k], i)))
      && (vol.Some? ==> Numeric(CellAt(t, vol.value, i)))
  {
    var r := Rows(t, prices, vol, times)[i];
    assert r.o.Some? <==> Numeric(CellAt(t, prices[0], i));
    assert r.h.Some? <==> Numeric(CellAt(t, prices[1], i));
    assert r.l.Some? <==> Numeric(CellAt(t, prices[2], i));
    assert r.c.Some? <==> Numeric(CellAt(t, prices[3], i));
  }

  // ---------------------------------------------------------------- cleanup

  /** A row that dropna keeps. */
  predicate Complete(r: RawRow) {
    r.time.Some? && r.o.Some? && r.h.Some? && r.l.Some? && r.c.Some? && r.v.Some?
  }

  function ToBar(r: RawRow): Bar
    requires Complete(r)
  {
    Bar(r.time.value, r.o.value, r.h.value, r.l.value, r.c.value, r.v.value)
  }

  /** What dropna leaves of one row. */
  function Kept(r: RawRow): seq<Bar> {
    if Complete(r) then [ToBar(r)] else []
  }

  /** out.dropna(): the complete rows, in order. */
  function Survivors(rows: seq<RawRow>): (r: seq<Bar>)
    ensures |r| <= |rows|
  {
    if |rows| == 0 then [] else Kept(rows[0]) + Survivors(rows[1..])
  }

  /** out.tail(n) when there are more than n rows. */
  function TakeLast(s: seq<Bar>, n: nat): seq<Bar> {
    if |s| > n then s[|s| - n..] else s
  }

  /** dropna followed by the truncation to the last Bars rows. */
  function Clean(rows: seq<RawRow>): (r: seq<Bar>)
    ensures |r| <= Config.Bars
  {
    TakeLast(Survivors(rows), Config.Bars)
  }

  /** Dropping rows keeps their relative order: it splits over concatenation. */
  lemma {:induction false} SurvivorsAppend(a: seq<RawRow>, b: seq<RawRow>)
    ensures Survivors(a + b) == Survivors(a) + Survivors(b)
  {
    if |a| == 0 {
      assert a + b == b;
    } else {
      assert (a + b)[0] == a[0];
      assert (a + b)[1..] == a[1..] + b;
      SurvivorsAppend(a[1..], b);
      calc {
        Survivors(a + b);
        Kept(a[0]) + Survivors(a[1..] + b);
        Kept(a[0]) + (Survivors(a[1..]) + Survivors(b));
        (Kept(a[0]) + Survivors(a[1..])) + Survivors(b);
      }
    }
  }

  /** A bar survives exactly when it comes from a complete row. */
  lemma {:induction false} SurvivorsExactly(rows: seq<RawRow>, b: Bar)
    ensures b in Survivors(rows) <==> exists k :: 0 <= k < |rows| && Complete(rows[k]) && ToBar(rows[k]) == b
  {
    if |rows| > 0 {
      SurvivorsExactly(rows[1..], b);
      if b in Survivors(rows[1..]) {
        var k :| 0 <= k < |rows[1..]| && Complete(rows[1..][k]) && ToBar(rows[1..][k]) == b;
        assert rows[k + 1] == rows[1..][k];
      }
      if exists k :: 0 <= k < |rows| && Complete(rows[k]) && ToBar(rows[k]) == b {
        var k :| 0 <= k < |rows| && Complete(rows[k]) && ToBar(rows[k]) == b;
        if k > 0 {
          assert rows[1..][k - 1] == rows[k];
        }
      }
    }
  }

  /** Nothing is dropped from rows that are all complete. */
  lemma {:induction false} SurvivorsOfComplete(rows: seq<RawRow>)
    requires forall k :: 0 <= k < |rows| ==> Complete(rows[k])
    ensures |Survivors(rows)| == |rows|
    ensures forall k :: 0 <= k < |rows| ==> Survivors(rows)[k] == ToBar(rows[k])
  {
    if |rows| > 0 {
      SurvivorsOfComplete(rows[1..]);
    }
  }

  /** The cleaned rows number at most Bars and are the last survivors, in order. */
  lemma CleanIsLastSurvivors(rows: seq<RawRow>)
    ensures var s := Survivors(rows);
      |Clean(rows)| == (if |s| <= Config.Bars then |s| else Config.Bars)
      && Clean(rows) == s[|s| - |Clean(rows)|..]
  {
  }

  /** A missing volume column never drops a row: v is then zero everywhere. */
  lemma ZeroVolumeNeverDrops(t: Table, prices: seq<nat>, times: seq<Option<int>>, i: nat)
    requires |prices| == 4 && |times| == t.height && i < t.height
    ensures var r := Rows(t, prices, None, times)[i];
      r.v == Some(0.0)
      && (Complete(r) <==> r.time.Some? && r.o.Some? && r.h.Some? && r.l.Some? && r.c.Some?)
  {
  }

  /** The cleaned bars fetch_df builds from a table, given its price columns and
      a time column that parses. */
  function CleanBars(t: Table, prices: seq<nat>): seq<Bar>
    requires |prices| == 4 && TimesParse(t)
  {
    TimesParseIff(t);
    Clean(Rows(t, prices, Resolve(t.labels, "volume"), ParseTimes(Column(t, TimeIndex(t))).value))
  }

  /** A bar of the cleaned series is one row of the table: its time cell is that
      timestamp, its price cells are numeric and the close is the close cell. */
  lemma CleanBarIsTableRow(t: Table, prices: seq<nat>, b: Bar)
    requires |prices| == 4 && TimesParse(t) && b in CleanBars(t, prices)
    ensures exists i ::
      && 0 <= i < t.height
      && CellAt(t, TimeIndex(t), i) == Stamp(b.time)
      && (forall k :: 0 <= k < 4 ==> Numeric(CellAt(t, prices[k], i)))
      && ToNumeric(CellAt(t, prices[3], i)) == Some(b.c)
  {
    TimesParseIff(t);
    var col := Column(t, TimeIndex(t));
    var times := ParseTimes(col).value;
    var vol := Resolve(t.labels, "volume");
    var rows := Rows(t, prices, vol, times);
    var s := Survivors(rows);
    CleanIsLastSurvivors(rows);
    assert b in s;
    SurvivorsExactly(rows, b);
    var i :| 0 <= i < |rows| && Complete(rows[i]) && ToBar(rows[i]) == b;
    RowCompleteIff(t, prices, vol, times, i);
    assert col[i] == CellAt(t, TimeIndex(t), i);
  }
}
