/**
 * generate_signal (xau_once.py:157-165): an EMA crossover between the previous
 * and the current row, confirmed by a strict filter on RSI, the MACD histogram
 * and MACD against its signal line.
 */
module Signal {
  import opened Frames
  import opened Indicators
  import opened Config

  datatype Side = Buy | Sell | Wait

  /** cross_up: at or below on the previous bar, strictly above on the current one. */
  predicate CrossUp(prev: Row, now: Row) {
    prev.emaFast <= prev.emaSlow && now.emaFast > now.emaSlow
  }

  /** cross_dn: at or above on the previous bar, strictly below on the current one. */
  predicate CrossDown(prev: Row, now: Row) {
    prev.emaFast >= prev.emaSlow && now.emaFast < now.emaSlow
  }

  predicate BuyOk(now: Row) {
    now.rsi >= RsiBuyMin && now.macdHist >= MacdHistMin && now.macd > now.macdSignal
  }

  predicate SellOk(now: Row) {
    now.rsi <= RsiSellMax && now.macdHist <= -MacdHistMin && now.macd < now.macdSignal
  }

  /** BUY and SELL each need their crossover and all three of their filters. */
  function GenerateSignal(prev: Row, now: Row): (side: Side)
    ensures side == Buy <==>
      prev.emaFast <= prev.emaSlow && now.emaFast > now.emaSlow
      && now.rsi >= 55.0 && now.macdHist >= 0.02 && now.macd > now.macdSignal
    ensures side == Sell <==>
      prev.emaFast >= prev.emaSlow && now.emaFast < now.emaSlow
      && now.rsi <= 45.0 && now.macdHist <= -0.02 && now.macd < now.macdSignal
  {
    if CrossUp(prev, now) && BuyOk(now) then Buy
    else if CrossDown(prev, now) && SellOk(now) then Sell
    else Wait
  }

  /** The current bar cannot be both above and below: the crossovers exclude each other. */
  lemma CrossesExclusive(prev: Row, now: Row)
    ensures !(CrossUp(prev, now) && CrossDown(prev, now))
  {
  }

  /** Without a crossover the answer is WAIT, whatever RSI and MACD say. */
  lemma NoCrossIsWait(prev: Row, now: Row)
    requires !CrossUp(prev, now) && !CrossDown(prev, now)
    ensures GenerateSignal(prev, now) == Wait
  {
  }

  /** A tie on the current bar never signals. */
  lemma CurrentTieIsWait(prev: Row, now: Row)
    requires now.emaFast == now.emaSlow
    ensures GenerateSignal(prev, now) == Wait
  {
  }

  /** A tie on the previous bar counts for both crossovers. */
  lemma PreviousTieAllowsBoth(prev: Row, now: Row)
    requires prev.emaFast == prev.emaSlow
    ensures GenerateSignal(prev, now) == Buy <==> now.emaFast > now.emaSlow && BuyOk(now)
    ensures GenerateSignal(prev, now) == Sell <==> now.emaFast < now.emaSlow && SellOk(now)
  {
  }

  /** On rows built by add_indicators the histogram is macd - macd_signal, so the
      histogram threshold already forces the MACD comparison. */
  lemma HistogramDecidesMomentum(prev: Row, now: Row)
    requires now.macdHist == now.macd - now.macdSignal
    ensures GenerateSignal(prev, now) == Buy <==>
      CrossUp(prev, now) && now.rsi >= RsiBuyMin && now.macd - now.macdSignal >= MacdHistMin
    ensures GenerateSignal(prev, now) == Sell <==>
      CrossDown(prev, now) && now.rsi <= RsiSellMax && now.macd - now.macdSignal <= -MacdHistMin
  {
  }

  // Worked cases of the rule.

  function Sample(fast: real, slow: real, rsi: real, macd: real, macdSignal: real): Row {
    Row(Bar(0, 0.0, 0.0, 0.0, 0.0, 0.0), fast, slow, rsi, macd, macdSignal, macd - macdSignal, 0.0)
  }

  lemma ScenarioBuy()
    ensures GenerateSignal(Sample(100.0, 101.0, 50.0, 0.0, 0.0), Sample(102.0, 101.0, 60.0, 0.5, 0.2)) == Buy
  {
  }

  lemma ScenarioSell()
    ensures GenerateSignal(Sample(101.0, 100.0, 50.0, 0.0, 0.0), Sample(99.0, 100.0, 40.0, -0.4, -0.1)) == Sell
  {
  }

  lemma ScenarioWeakRsi()
    ensures GenerateSignal(Sample(100.0, 101.0, 50.0, 0.0, 0.0), Sample(102.0, 101.0, 50.0, 0.5, 0.2)) == Wait
  {
  }

  lemma ScenarioNoCross(rsi: real, macd: real, macdSignal: real)
    ensures GenerateSignal(Sample(102.0, 100.0, 50.0, 0.0, 0.0), Sample(103.0, 100.0, rsi, macd, macdSignal)) == Wait
  {
  }
}
