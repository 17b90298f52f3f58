/** Next high and next low tide (components/app-page.tsx:127-162): a scan of the
    chronologically sorted copy of all predictions for the first strict local
    maximum and the first strict local minimum stamped after the current time. */
module TideExtrema {
  import opened TidePrediction
  import opened TimeSort

  /** The pair of results; `None` is the source's `null`. */
  datatype Extrema = Extrema(high: Option<Pred>, low: Option<Pred>)

  /** Interior index `i` of `s` is a strict local maximum stamped after `now`. */
  predicate IsHighAt(s: seq<Pred>, i: int, now: int) {
    1 <= i < |s| - 1 && s[i].time > now
    && s[i].height > s[i - 1].height && s[i].height > s[i + 1].height
  }

  /** Interior index `i` of `s` is a strict local minimum stamped after `now`. */
  predicate IsLowAt(s: seq<Pred>, i: int, now: int) {
    1 <= i < |s| - 1 && s[i].time > now
    && s[i].height < s[i - 1].height && s[i].height < s[i + 1].height
  }

  /** No index of `s` from `lo` up to, not including, `k` is a qualifying high. */
  predicate NoHighBetween(s: seq<Pred>, lo: int, k: int, now: int) {
    forall j :: lo <= j < k ==> !IsHighAt(s, j, now)
  }

  /** No index of `s` from `lo` up to, not including, `k` is a qualifying low. */
  predicate NoLowBetween(s: seq<Pred>, lo: int, k: int, now: int) {
    forall j :: lo <= j < k ==> !IsLowAt(s, j, now)
  }

  /** One iteration of the loop body at interior index `i`: a qualifying entry
      fills a slot only while that slot is still empty. */
  function Step(s: seq<Pred>, now: int, i: int, acc: Extrema): Extrema
    requires 1 <= i < |s| - 1
  {
    Extrema(if IsHighAt(s, i, now) && acc.high.None? then Some(s[i]) else acc.high,
            if IsLowAt(s, i, now) && acc.low.None? then Some(s[i]) else acc.low)
  }

  /** The loop over interior indices `i, i+1, …, |s|-2` run to the end, without the early exit. */
  function Scan(s: seq<Pred>, now: int, i: nat, acc: Extrema): Extrema
    requires 1 <= i
    decreases |s| - i
  {
    if i >= |s| - 1 then acc else Scan(s, now, i + 1, Step(s, now, i, acc))
  }

  /** The value of the memoised computation: nothing for fewer than three predictions,
      otherwise a full scan of the sorted copy. */
  function NextExtrema(predictions: seq<Pred>, currentTime: int): (r: Extrema)
    ensures |predictions| < 3 ==> r.high.None? && r.low.None?
    ensures r.high.Some? ==> r.high.value in predictions && r.high.value.time > currentTime
    ensures r.low.Some? ==> r.low.value in predictions && r.low.value.time > currentTime
  {
    if |predictions| >= 3 then
      var s := SortByTime(predictions);
      var r := Scan(s, currentTime, 1, Extrema(None, None));
      ScanHighFirst(s, currentTime, 1, Extrema(None, None));
      ScanLowFirst(s, currentTime, 1, Extrema(None, None));
      SortByTimeSortedPermutation(predictions);
      assert r.high.Some? ==> r.high.value in multiset(s);
      assert r.low.Some? ==> r.low.value in multiset(s);
      r
    else Extrema(None, None)
  }

  /** Once both slots are filled, the rest of the scan changes nothing. */
  lemma {:induction false} ScanSettled(s: seq<Pred>, now: int, i: nat, acc: Extrema)
    requires 1 <= i && acc.high.Some? && acc.low.Some?
    ensures Scan(s, now, i, acc) == acc
    decreases |s| - i
  {
    if i < |s| - 1 {
      ScanSettled(s, now, i + 1, Step(s, now, i, acc));
    }
  }

  /** What a scan from index `i` yields for the high slot: a slot already set is kept;
      an empty slot receives the first qualifying index at or after `i`, if any. */
  lemma {:induction false} ScanHighFirst(s: seq<Pred>, now: int, i: nat, acc: Extrema)
    requires 1 <= i
    ensures acc.high.Some? ==> Scan(s, now, i, acc).high == acc.high
    ensures acc.high.None? && Scan(s, now, i, acc).high.Some? ==>
      exists k :: i <= k && IsHighAt(s, k, now) && Scan(s, now, i, acc).high.value == s[k]
        && NoHighBetween(s, i, k, now)
    ensures acc.high.None? && Scan(s, now, i, acc).high.None? ==>
      forall k :: i <= k ==> !IsHighAt(s, k, now)
    decreases |s| - i
  {
    if i < |s| - 1 {
      ScanHighFirst(s, now, i + 1, Step(s, now, i, acc));
    }
  }

  /** The same for the low slot. */
  lemma {:induction false} ScanLowFirst(s: seq<Pred>, now: int, i: nat, acc: Extrema)
    requires 1 <= i
    ensures acc.low.Some? ==> Scan(s, now, i, acc).low == acc.low
    ensures acc.low.None? && Scan(s, now, i, acc).low.Some? ==>
      exists k :: i <= k && IsLowAt(s, k, now) && Scan(s, now, i, acc).low.value == s[k]
        && NoLowBetween(s, i, k, now)
    ensures acc.low.None? && Scan(s, now, i, acc).low.None? ==>
      forall k :: i <= k ==> !IsLowAt(s, k, now)
    decreases |s| - i
  {
    if i < |s| - 1 {
      ScanLowFirst(s, now, i + 1, Step(s, now, i, acc));
    }
  }

  /** The next high tide is the first interior entry of the sorted copy, in time order,
      that is stamped after `currentTime` and is strictly higher than both neighbours
      (so a plateau never qualifies); it is absent exactly when no such entry exists. */
  lemma NextHighIsFirstPeak(predictions: seq<Pred>, currentTime: int, s: seq<Pred>, r: Option<Pred>)
    requires s == SortByTime(predictions) && r == NextExtrema(predictions, currentTime).high
    ensures r.Some? ==>
      exists k :: 1 <= k < |s| - 1 && r.value == s[k]
        && s[k].time > currentTime
        && s[k].height > s[k - 1].height && s[k].height > s[k + 1].height
        && NoHighBetween(s, 1, k, currentTime)
    ensures r.None? <==> forall k :: !IsHighAt(s, k, currentTime)
  {
    if |predictions| >= 3 {
      ScanHighFirst(s, currentTime, 1, Extrema(None, None));
      if r.Some? {
        var k :| 1 <= k && IsHighAt(s, k, currentTime) && r.value == s[k]
          && NoHighBetween(s, 1, k, currentTime);
        assert IsHighAt(s, k, currentTime);
      }
    }
  }

  /** The next low tide is the first interior entry of the sorted copy, in time order,
      that is stamped after `currentTime` and is strictly lower than both neighbours;
      it is absent exactly when no such entry exists. */
  lemma NextLowIsFirstTrough(predictions: seq<Pred>, currentTime: int, s: seq<Pred>, r: Option<Pred>)
    requires s == SortByTime(predictions) && r == NextExtrema(predictions, currentTime).low
    ensures r.Some? ==>
      exists k :: 1 <= k < |s| - 1 && r.value == s[k]
        && s[k].time > currentTime
        && s[k].height < s[k - 1].height && s[k].height < s[k + 1].height
        && NoLowBetween(s, 1, k, currentTime)
    ensures r.None? <==> forall k :: !IsLowAt(s, k, currentTime)
  {
    if |predictions| >= 3 {
      ScanLowFirst(s, currentTime, 1, Extrema(None, None));
      if r.Some? {
        var k :| 1 <= k && IsLowAt(s, k, currentTime) && r.value == s[k]
          && NoLowBetween(s, 1, k, currentTime);
        assert IsLowAt(s, k, currentTime);
      }
    }
  }

  /** The loop as the source writes it: a sorted copy, ascending interior indices,
      and an early `break` once both results are set. */
  method FindNextTides(predictions: seq<Pred>, currentTime: int)
    returns (nextHigh: Option<Pred>, nextLow: Option<Pred>)
    ensures Extrema(nextHigh, nextLow) == NextExtrema(predictions, currentTime)
    ensures |predictions| < 3 ==> nextHigh.None? && nextLow.None?
  {
    nextHigh, nextLow := None, None;
    if |predictions| >= 3 {
      var sorted := SortByTime(predictions);
      var i := 1;
      while i < |sorted| - 1
        invariant 1 <= i <= |sorted| - 1
        invariant Scan(sorted, currentTime, i, Extrema(nextHigh, nextLow))
               == Scan(sorted, currentTime, 1, Extrema(None, None))
      {
        var prevHeight := sorted[i - 1].height;
        var currentHeight := sorted[i].height;
        var nextHeight := sorted[i + 1].height;
        if sorted[i].time > currentTime {
          if currentHeight > prevHeight && currentHeight > nextHeight && nextHigh.None? {
            nextHigh := Some(sorted[i]);
          }
          if currentHeight < prevHeight && currentHeight < nextHeight && nextLow.None? {
            nextLow := Some(sorted[i]);
          }
        }
        if nextHigh.Some? && nextLow.Some? {
          ScanSettled(sorted, currentTime, i + 1, Extrema(nextHigh, nextLow));
          break;
        }
        i := i + 1;
      }
    }
  }
}
