/** The static configuration block of xau_once.py (lines 20-33). */
module Config {

  /** Number of most recent bars kept after cleanup (BARS). */
  const Bars: nat := 220

  /** Largest bar age, in minutes, for which an alert is sent (FRESH_WINDOW_MIN). */
  const FreshWindowMin: real := 4.0

  /** Strict filter thresholds of the signal rule (RSI_BUY_MIN, RSI_SELL_MAX, MACD_HIST_MIN). */
  const RsiBuyMin: real := 55.0
  const RsiSellMax: real := 45.0
  const MacdHistMin: real := 0.02
}
