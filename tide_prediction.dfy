/** The tide prediction record shared by the tide analysis and the tide chart
    (models/tidePrediction.ts), with its timestamp already resolved against GMT. */
module TidePrediction {

  /** One prediction: `time` in epoch milliseconds, `height` in feet. */
  datatype Pred = Pred(time: int, height: real)

  /** A value that may be absent (the source's `T | null`). */
  datatype Option<+T> = None | Some(value: T)

  /** Non-decreasing in time. */
  predicate SortedByTime(s: seq<Pred>) {
    forall i, j :: 0 <= i < j < |s| ==> s[i].time <= s[j].time
  }

  /** `Math.abs(t - now)` on integer milliseconds. */
  function Dist(t: int, now: int): nat {
    if t >= now then t - now else now - t
  }
}
