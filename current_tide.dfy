/** The "Current Tide" estimate (components/app-page.tsx:248-257): a `reduce` over the
    predictions, in input order, that keeps the entry nearest in time to `now`. */
module CurrentTide {
  import opened TidePrediction

  /** The reducer: the current entry replaces the one kept so far when nothing is kept
      yet or when it is strictly nearer to `now`. */
  function Closer(closest: Option<Pred>, current: Pred, now: int): Option<Pred> {
    if closest.None? || Dist(current.time, now) < Dist(closest.value.time, now) then Some(current)
    else closest
  }

  /** `predictions.reduce(Closer, null)`: a left fold, written on the last element. */
  function NearestTide(predictions: seq<Pred>, now: int): (r: Option<Pred>)
    ensures r.None? <==> predictions == []
    ensures r.Some? ==> r.value in predictions
    decreases |predictions|
  {
    if predictions == [] then None
    else Closer(NearestTide(predictions[..|predictions| - 1], now), predictions[|predictions| - 1], now)
  }

  /** Entry `i` is at least as near to `now` as every entry of `s`. */
  predicate Nearest(s: seq<Pred>, i: int, now: int)
    requires 0 <= i < |s|
  {
    forall j :: 0 <= j < |s| ==> Dist(s[i].time, now) <= Dist(s[j].time, now)
  }

  /** Entry `i` is strictly nearer to `now` than every entry before it. */
  predicate NearerThanEarlier(s: seq<Pred>, i: int, now: int)
    requires 0 <= i < |s|
  {
    forall j :: 0 <= j < i ==> Dist(s[j].time, now) > Dist(s[i].time, now)
  }

  /** Absent exactly on empty input; otherwise some entry `i` at least as near to `now` as
      every entry, and strictly nearer than every entry before it (the first of equally
      near entries wins). */
  lemma {:induction false} NearestTideIsFirstNearest(predictions: seq<Pred>, now: int)
    ensures NearestTide(predictions, now).None? <==> predictions == []
    ensures NearestTide(predictions, now).Some? ==>
      exists i :: 0 <= i < |predictions| && NearestTide(predictions, now).value == predictions[i]
        && Nearest(predictions, i, now) && NearerThanEarlier(predictions, i, now)
    decreases |predictions|
  {
    if predictions != [] {
      var n := |predictions| - 1;
      var init, last := predictions[..n], predictions[n];
      NearestTideIsFirstNearest(init, now);
      if init == [] {
        assert NearestTide(predictions, now) == Some(last);
        assert Nearest(predictions, 0, now) && NearerThanEarlier(predictions, 0, now);
      } else {
        var i :| 0 <= i < |init| && NearestTide(init, now).value == init[i]
          && Nearest(init, i, now) && NearerThanEarlier(init, i, now);
        var d := Dist(init[i].time, now);
        if Dist(last.time, now) < d {
          assert NearestTide(predictions, now).value == predictions[n];
          forall j | 0 <= j < n ensures Dist(predictions[j].time, now) > Dist(last.time, now) {
            assert predictions[j] == init[j];
          }
          assert Nearest(predictions, n, now) && NearerThanEarlier(predictions, n, now);
        } else {
          assert NearestTide(predictions, now).value == predictions[i];
          forall j | 0 <= j <= n ensures d <= Dist(predictions[j].time, now) {
            if j < n { assert predictions[j] == init[j]; }
          }
          forall j | 0 <= j < i ensures Dist(predictions[j].time, now) > d {
            assert predictions[j] == init[j];
          }
          assert Nearest(predictions, i, now) && NearerThanEarlier(predictions, i, now);
        }
      }
    }
  }
}
