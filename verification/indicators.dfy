/**
 * The part of add_indicators (xau_once.py:145-155) that is not library numerics:
 * the histogram column macd - macd_signal and the final dropna, which keeps
 * only the bars where every indicator is defined, in order.
 */
module Indicators {
  import opened Wrappers
  import opened Frames

  /** What the indicator library gives for one bar; None is NaN (warm-up). */
  datatype IndicatorValues = IndicatorValues(emaFast: Option<real>, emaSlow: Option<real>, rsi: Option<real>,
                                             macd: Option<real>, macdSignal: Option<real>, atr: Option<real>)

  const Undefined: IndicatorValues := IndicatorValues(None, None, None, None, None, None)

  /** One row of the augmented frame: a bar with all of its indicators. */
  datatype Row = Row(bar: Bar, emaFast: real, emaSlow: real, rsi: real,
                     macd: real, macdSignal: real, macdHist: real, atr: real)

  predicate Defined(iv: IndicatorValues) {
    iv.emaFast.Some? && iv.emaSlow.Some? && iv.rsi.Some? && iv.macd.Some? && iv.macdSignal.Some? && iv.atr.Some?
  }

  /** The values assigned to bar k; a library series shorter than the bars
      leaves the rest NaN, as pandas aligns columns on the index. */
  function ValuesAt(ind: seq<IndicatorValues>, k: nat): IndicatorValues {
    if k < |ind| then ind[k] else Undefined
  }

  /** The augmented row of one bar, or None when dropna removes it. */
  function Augment(b: Bar, iv: IndicatorValues): (r: Option<Row>)
    ensures r.Some? <==> Defined(iv)
    ensures r.Some? ==> r.value.bar == b && r.value.macdHist == r.value.macd - r.value.macdSignal
    ensures r.Some? ==>
      && Some(r.value.emaFast) == iv.emaFast && Some(r.value.emaSlow) == iv.emaSlow
      && Some(r.value.rsi) == iv.rsi && Some(r.value.macd) == iv.macd
      && Some(r.value.macdSignal) == iv.macdSignal && Some(r.value.atr) == iv.atr
  {
    if Defined(iv) then
      Some(Row(b, iv.emaFast.value, iv.emaSlow.value, iv.rsi.value, iv.macd.value, iv.macdSignal.value,
               iv.macd.value - iv.macdSignal.value, iv.atr.value))
    else None
  }

  function Present(r: Option<Row>): seq<Row> {
    if r.Some? then [r.value] else []
  }

  /** add_indicators on bars whose library output is `ind`. */
  function AddIndicators(bars: seq<Bar>, ind: seq<IndicatorValues>): (rows: seq<Row>)
    ensures |rows| <= |bars|
  {
    if |bars| == 0 then []
    else Present(Augment(bars[0], ValuesAt(ind, 0)))
         + AddIndicators(bars[1..], if |ind| > 0 then ind[1..] else [])
  }

  lemma ValuesAtShift(ind: seq<IndicatorValues>, k: nat)
    ensures ValuesAt(if |ind| > 0 then ind[1..] else [], k) == ValuesAt(ind, k + 1)
  {
  }

  /** Row i of `rows` is the augmented bar idx[i], and idx is strictly increasing. */
  predicate Indexes(bars: seq<Bar>, ind: seq<IndicatorValues>, rows: seq<Row>, idx: seq<nat>) {
    && |idx| == |rows|
    && (forall i :: 0 <= i < |idx| ==> idx[i] < |bars| && Augment(bars[idx[i]], ValuesAt(ind, idx[i])) == Some(rows[i]))
    && (forall i, j :: 0 <= i < j < |idx| ==> idx[i] < idx[j])
  }

  function Shift(idx: seq<nat>): (r: seq<nat>)
    ensures |r| == |idx| && forall i :: 0 <= i < |idx| ==> r[i] == idx[i] + 1
  {
    seq(|idx|, i requires 0 <= i < |idx| => idx[i] + 1)
  }

  lemma ShiftMembers(idx: seq<nat>, k: nat)
    ensures k in Shift(idx) <==> k > 0 && k - 1 in idx
  {
    if k > 0 && k - 1 in idx {
      var i :| 0 <= i < |idx| && idx[i] == k - 1;
      assert Shift(idx)[i] == k;
    }
  }

  /** Positions found in the tail of the bars move up by one in the whole. */
  lemma IndexesShift(bars: seq<Bar>, ind: seq<IndicatorValues>, rows: seq<Row>, idx: seq<nat>)
    requires |bars| > 0 && Indexes(bars[1..], if |ind| > 0 then ind[1..] else [], rows, idx)
    ensures Indexes(bars, ind, rows, Shift(idx))
    ensures forall i :: 0 <= i < |idx| ==> Shift(idx)[i] > 0
  {
    var tail := if |ind| > 0 then ind[1..] else [];
    forall i | 0 <= i < |idx|
      ensures Augment(bars[Shift(idx)[i]], ValuesAt(ind, Shift(idx)[i])) == Some(rows[i])
    {
      ValuesAtShift(ind, idx[i]);
      assert bars[Shift(idx)[i]] == bars[1..][idx[i]];
    }
  }

  /** The first bar's row goes in front, at position 0. */
  lemma IndexesCons(bars: seq<Bar>, ind: seq<IndicatorValues>, row: Row, rows: seq<Row>, idx: seq<nat>)
    requires |bars| > 0 && Augment(bars[0], ValuesAt(ind, 0)) == Some(row)
    requires Indexes(bars, ind, rows, idx) && forall i :: 0 <= i < |idx| ==> idx[i] > 0
    ensures Indexes(bars, ind, [row] + rows, [0] + idx)
  {
    var idx2, rows2 := [0] + idx, [row] + rows;
    forall i | 0 <= i < |idx2|
      ensures idx2[i] < |bars| && Augment(bars[idx2[i]], ValuesAt(ind, idx2[i])) == Some(rows2[i])
    {
      if i > 0 {
        assert idx2[i] == idx[i - 1] && rows2[i] == rows[i - 1];
      }
    }
    forall i, j | 0 <= i < j < |idx2| ensures idx2[i] < idx2[j] {
      if i > 0 {
        assert idx2[i] == idx[i - 1] && idx2[j] == idx[j - 1];
      }
    }
  }

  /** The rows kept are those of the bars whose indicators are all defined, in
      their original order: row i comes from bar idx[i], and idx is increasing. */
  lemma {:induction false} AddIndicatorsInOrder(bars: seq<Bar>, ind: seq<IndicatorValues>) returns (idx: seq<nat>)
    ensures Indexes(bars, ind, AddIndicators(bars, ind), idx)
    ensures forall k: nat :: k < |bars| ==> (k in idx <==> Defined(ValuesAt(ind, k)))
  {
    if |bars| == 0 {
      idx := [];
    } else {
      var tail := if |ind| > 0 then ind[1..] else [];
      var rest := AddIndicatorsInOrder(bars[1..], tail);
      var tailRows := AddIndicators(bars[1..], tail);
      IndexesShift(bars, ind, tailRows, rest);
      var r0 := Augment(bars[0], ValuesAt(ind, 0));
      if r0.Some? {
        IndexesCons(bars, ind, r0.value, tailRows, Shift(rest));
        idx := [0] + Shift(rest);
      } else {
        idx := Shift(rest);
      }
      forall k: nat | k < |bars| ensures k in idx <==> Defined(ValuesAt(ind, k)) {
        ShiftMembers(rest, k);
        if k > 0 {
          ValuesAtShift(ind, k - 1);
        }
      }
    }
  }

  /** A bar whose indicators are all defined keeps its row. */
  lemma {:induction false} AddIndicatorsKeepsDefined(bars: seq<Bar>, ind: seq<IndicatorValues>, k: nat)
    requires k < |bars| && Defined(ValuesAt(ind, k))
    ensures Augment(bars[k], ValuesAt(ind, k)).value in AddIndicators(bars, ind)
    decreases k
  {
    if k > 0 {
      var tail := if |ind| > 0 then ind[1..] else [];
      ValuesAtShift(ind, k - 1);
      assert bars[1..][k - 1] == bars[k];
      AddIndicatorsKeepsDefined(bars[1..], tail, k - 1);
    }
  }

  /** Once the warm-up is over for every bar, nothing is dropped. */
  lemma {:induction false} AddIndicatorsAllDefined(bars: seq<Bar>, ind: seq<IndicatorValues>)
    requires forall k :: 0 <= k < |bars| ==> Defined(ValuesAt(ind, k))
    ensures |AddIndicators(bars, ind)| == |bars|
    ensures forall k :: 0 <= k < |bars| ==> AddIndicators(bars, ind)[k].bar == bars[k]
  {
    if |bars| > 0 {
      var tail := if |ind| > 0 then ind[1..] else [];
      forall k | 0 <= k < |bars| - 1 ensures Defined(ValuesAt(tail, k)) {
        ValuesAtShift(ind, k);
      }
      AddIndicatorsAllDefined(bars[1..], tail);
    }
  }
}
