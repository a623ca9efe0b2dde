/**
 * last_bar_is_fresh (xau_once.py:167-170): the latest bar may be acted on when
 * its age in minutes lies in [0, FreshWindowMin]. The current instant is a
 * parameter; instants are nanoseconds since the epoch, UTC.
 */
module Freshness {
  import opened Config

  const NanosPerMinute: int := 60_000_000_000

  /** (now - last).total_seconds() / 60.0 */
  function AgeMinutes(lastNs: int, nowNs: int): real {
    (nowNs - lastNs) as real / NanosPerMinute as real
  }

  function IsFresh(lastNs: int, nowNs: int): (r: bool)
    ensures r <==> 0 <= nowNs - lastNs <= 4 * NanosPerMinute
  {
    0.0 <= AgeMinutes(lastNs, nowNs) <= FreshWindowMin
  }

  /** Exactly four minutes old is fresh, one nanosecond more is not, a bar from
      the future is not, and neither is a bar ten minutes old. */
  lemma FreshBoundaries(t: int)
    ensures IsFresh(t, t)
    ensures IsFresh(t, t + 4 * NanosPerMinute)
    ensures !IsFresh(t, t + 4 * NanosPerMinute + 1)
    ensures !IsFresh(t, t - 1)
    ensures !IsFresh(t, t + 10 * NanosPerMinute)
  {
  }
}
