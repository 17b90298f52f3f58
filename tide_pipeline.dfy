/** How the analysis feeds the chart: the chart data of components/app-page.tsx:165-174
    is what TideChart.tsx measures for its extents. */
module TidePipeline {
  import opened TidePrediction
  import opened TideWindow
  import opened TideChart

  /** The chart's time extents stay inside the analysis window around `currentTime`. */
  lemma ChartExtentsWithinWindow(predictions: seq<Pred>, currentTime: int)
    requires ChartData(predictions, AnalysisWindow(currentTime)) != []
    ensures var d := ComputeDomain(ChartData(predictions, AnalysisWindow(currentTime)));
      currentTime - HalfWindowMs <= d.minTime <= d.maxTime <= currentTime + HalfWindowMs
  {
    var data := ChartData(predictions, AnalysisWindow(currentTime));
    var d := ComputeDomain(data);
    var i :| 0 <= i < |data| && data[i].time == d.minTime;
    var j :| 0 <= j < |data| && data[j].time == d.maxTime;
    assert data[i] in data && data[j] in data;
  }
}
