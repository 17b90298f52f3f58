/** The analysis window around the current time (components/app-page.tsx:88-93) and the
    chart data kept from the predictions (components/app-page.tsx:165-174). */
module TideWindow {
  import opened TidePrediction

  /** Twelve hours in milliseconds. */
  const HalfWindowMs: int := 12 * 60 * 60 * 1000

  datatype Window = Window(begin: int, end: int)

  /** `beginDate` and `endDate`: a window centred on `currentTime`, twelve hours each way. */
  function AnalysisWindow(currentTime: int): (w: Window)
    ensures w.begin < currentTime < w.end
    ensures currentTime - w.begin == w.end - currentTime == 43_200_000
  {
    Window(currentTime - HalfWindowMs, currentTime + HalfWindowMs)
  }

  /** The filter test: inclusive at both ends. */
  predicate InWindow(w: Window, p: Pred) {
    w.begin <= p.time <= w.end
  }

  /** `chartData`: the predictions inside the window, in input order. The `map` step only
      turns the parsed time into a number, which is the identity on this model's
      timestamps, so each kept entry is unchanged. */
  function ChartData(predictions: seq<Pred>, w: Window): (r: seq<Pred>)
    ensures |r| <= |predictions|
    ensures forall p :: p in r <==> p in predictions && InWindow(w, p)
    ensures forall p :: multiset(r)[p] == if InWindow(w, p) then multiset(predictions)[p] else 0
    decreases |predictions|
  {
    if predictions == [] then []
    else
      assert predictions == [predictions[0]] + predictions[1..];
      (if InWindow(w, predictions[0]) then [predictions[0]] else [])
      + ChartData(predictions[1..], w)
  }

  /** Filtering respects concatenation, so the kept entries stay in input order. */
  lemma {:induction false} ChartDataAppend(a: seq<Pred>, b: seq<Pred>, w: Window)
    ensures ChartData(a + b, w) == ChartData(a, w) + ChartData(b, w)
    decreases |a|
  {
    if a == [] {
      assert a + b == b;
    } else {
      assert (a + b)[1..] == a[1..] + b;
      ChartDataAppend(a[1..], b, w);
    }
  }

  /** A series that lies wholly inside the window passes the filter unchanged. */
  lemma {:induction false} ChartDataKeepsInside(s: seq<Pred>, w: Window)
    requires forall i :: 0 <= i < |s| ==> InWindow(w, s[i])
    ensures ChartData(s, w) == s
    decreases |s|
  {
    if s != [] {
      ChartDataKeepsInside(s[1..], w);
    }
  }

  /** Filtering an already filtered series to the same window changes nothing. */
  lemma ChartDataIdempotent(predictions: seq<Pred>, w: Window)
    ensures ChartData(ChartData(predictions, w), w) == ChartData(predictions, w)
  {
    var r := ChartData(predictions, w);
    forall i | 0 <= i < |r| ensures InWindow(w, r[i]) {
      assert r[i] in r;
    }
    ChartDataKeepsInside(r, w);
  }
}
