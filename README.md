# Tide analysis and tide chart geometry

A Dafny model of the tide pipeline of a small weather-and-tide page for an 800×480
e-ink display. The page receives a list of tide predictions (`{ time, height }`) and
computes:

- the analysis window, twelve hours either side of the current time;
- the chart data, which is the predictions inside that window;
- the next high tide and the next low tide, found by scanning a time-sorted copy of all
  predictions for the first strict local maximum or minimum after the current time;
- the current tide, which is the prediction nearest in time to "now";
- the moon phase name for a lunation fraction.

The chart component then turns the chart data into pixel geometry on an 800×120
canvas. It computes the extents (heights snapped to whole feet), a time→x map that
stops at `MaxDrawableX = 757.5` so the 3-pixel stroke never crosses the right margin,
an inverted height→y map, the polyline, five x-ticks, one y-tick per whole foot, and a
"now" marker. Empty data takes a separate no-data branch.

Timestamps are integer epoch milliseconds, already resolved against GMT. Heights and
pixel coordinates are exact `real`s.

Modules, one per component:

- `TidePrediction` (`tide_prediction.dfy`): the `Pred` record and `Option`.
- `TimeSort` (`time_sort.dfy`): the stable chronological sort of the copied list.
- `TideWindow` (`tide_window.dfy`): the window and the chart-data filter.
- `TideExtrema` (`tide_extrema.dfy`): the next-high/next-low scan. This is the one
  imperative piece: a method with the source's loop and early `break`. Its result is
  proved equal to a full-scan specification function, and that function is proved to
  pick the first qualifying peak and trough.
- `CurrentTide` (`current_tide.dfy`): the nearest-prediction `reduce`.
- `MoonPhase` (`moon_phase.dfy`): the moon phase classifier.
- `TideChart` (`tide_chart.dfy`): the chart geometry.
- `TidePipeline` (`tide_pipeline.dfy`): how the window bounds the chart's extents.

Three facts about the code shape the model:

- The current tide is taken over all predictions, not only over the chart data.
- The extrema scan uses all predictions, not the windowed ones.
- An unparsable time string raises no error; it becomes an invalid date.

## Model

| member | source | states |
|---|---|---|
| `MoonPhase.MapMoonPhaseToType` | components/app-page.tsx:16-26 | A total classifier, stated one phase at a time as an if-and-only-if. 0, 1 and anything outside (0, 1) give `New`. Exactly 0.25, 0.5 and 0.75 give the three quarter phases. Each open interval between those points gives its crescent or gibbous phase. |
| `TideWindow.AnalysisWindow` | components/app-page.tsx:88-93 | The window is symmetric around `currentTime`: it starts 43,200,000 ms (12 h) before it and ends 12 h after it, so `begin < currentTime < end`. |
| `TideWindow.ChartData` | components/app-page.tsx:165-174 | Keeps exactly the predictions whose time is in `[begin, end]`, both ends included. Each kept prediction appears as often as it does in the input. Every other prediction is dropped. The result is never longer than the input. |
| `TideWindow.ChartDataAppend` | components/app-page.tsx:165-169 | Filtering a concatenation gives the concatenation of the filtered parts, so the kept entries stay in input order. |
| `TideWindow.ChartDataKeepsInside` | components/app-page.tsx:165-169 | A series lying wholly inside the window passes the filter unchanged. |
| `TideWindow.ChartDataIdempotent` | components/app-page.tsx:165-174 | Filtering the chart data again with the same window returns it unchanged. |
| `TimeSort.SortByTime` | components/app-page.tsx:133 | The sorted copy has as many entries as the input. Its order and stability are proved in the lemmas below. |
| `TimeSort.SortByTimeSortedPermutation` | components/app-page.tsx:133 | The sorted copy is non-decreasing in time and is a permutation of the input (equal multisets). |
| `TimeSort.SortByTimeStable` | components/app-page.tsx:133 | For every timestamp, the entries with that timestamp keep their input order: the sort is stable, like `Array.prototype.sort`. |
| `TimeSort.StableSortUnique` | components/app-page.tsx:133 | Two time-sorted sequences that agree, timestamp by timestamp, on the order of their entries are equal. |
| `TimeSort.SortByTimeIsTheStableSort` | components/app-page.tsx:133 | Any sequence that is sorted by time and keeps equal-time entries in input order is `SortByTime` of the input. So the results do not depend on which stable sort algorithm runs. |
| `TideExtrema.NextExtrema` | components/app-page.tsx:127-162 | The full scan (built from `Step`, one loop iteration at components/app-page.tsx:135-152, and `Scan`, the loop at components/app-page.tsx:135-158) of the sorted copy. With fewer than 3 predictions both results are null. A result that is set is one of the input predictions and lies after `currentTime`. |
| `TideExtrema.ScanSettled` | components/app-page.tsx:155-158 | Once both the high and the low are set, the rest of the scan changes neither, so the early `break` is harmless. |
| `TideExtrema.ScanHighFirst` | components/app-page.tsx:135-147 | Scanning from index `i`, a high slot that is already set stays set. An empty slot receives the first qualifying strict local maximum at or after `i`, or stays empty exactly when no such maximum exists. |
| `TideExtrema.ScanLowFirst` | components/app-page.tsx:135-152 | The same as `ScanHighFirst` for the low slot and strict local minima. |
| `TideExtrema.NextHighIsFirstPeak` | components/app-page.tsx:128-151 | A next high, when set, is an interior entry `k` of the sorted copy. Its time is after `currentTime` and its height is strictly above both neighbours, so plateaus never qualify. No earlier interior index qualifies. The next high is absent iff no index qualifies, which covers fewer than 3 predictions. |
| `TideExtrema.NextLowIsFirstTrough` | components/app-page.tsx:128-152 | The same as `NextHighIsFirstPeak` for the next low, with the height strictly below both neighbours. |
| `TideExtrema.FindNextTides` | components/app-page.tsx:127-162 | The loop with its early `break` returns the same result as a full scan of the sorted copy (`NextExtrema`). With fewer than 3 predictions, both results are null. |
| `CurrentTide.NearestTide` | components/app-page.tsx:248-257 | The reduce, with `Closer` (components/app-page.tsx:249-256) as its step: the result is null exactly when the input is empty, and otherwise it is one of the input predictions. |
| `CurrentTide.NearestTideIsFirstNearest` | components/app-page.tsx:248-257 | The reduce returns null exactly when the input is empty. Otherwise it returns an entry `i` whose distance in time to `now` is at most that of every entry and strictly less than that of every earlier entry, so the first of several equally near entries wins. |
| `TideChart.MinTime` | components/TideChart.tsx:43 | Gives a time that belongs to the data and is at or below every time in it. |
| `TideChart.MaxTime` | components/TideChart.tsx:44 | Gives a time that belongs to the data and is at or above every time in it. |
| `TideChart.LowestHeight` | components/TideChart.tsx:45 | Gives a height that belongs to the data and is at or below every height in it. |
| `TideChart.HighestHeight` | components/TideChart.tsx:46 | Gives a height that belongs to the data and is at or above every height in it. |
| `TideChart.Floor` | components/TideChart.tsx:45 | `Math.floor`: the integer `n` with `n <= x < n + 1`. |
| `TideChart.Ceil` | components/TideChart.tsx:46 | `Math.ceil`: the integer `n` with `n - 1 < x <= n`. |
| `TideChart.ComputeDomain` | components/TideChart.tsx:41-46 | For non-empty data: `minTime <= maxTime` and `minHeight <= maxHeight`. Every entry lies inside the extents and both time bounds are attained. The height bounds are the tightest whole feet: some height is below `minHeight + 1` and some is above `maxHeight - 1`. |
| `TideChart.TimeDivisor` | components/TideChart.tsx:54 | The divisor is the time span, or 1 when the span is zero; it is never zero. |
| `TideChart.HeightDivisor` | components/TideChart.tsx:58 | The divisor is the height span, or 1 when the span is zero; it is never zero. |
| `TideChart.XScale` | components/TideChart.tsx:50-56 | Always `<= MaxDrawableX` (757.5). `minTime` maps to the left margin (40). When `maxTime > minTime`, `maxTime` maps to 757.5. Times from `minTime` on never map left of 40. With a zero span the divisor is 1, so one millisecond past `minTime` already reaches 757.5. Linearity is `XScaleEqualSteps`. |
| `TideChart.YScale` | components/TideChart.tsx:57-58 | `minHeight` maps to the plot bottom (100). When `maxHeight > minHeight`, `maxHeight` maps to the top margin (20). With a zero span the divisor is 1, so `minHeight + 1` maps to 20. Linearity is `YScaleEqualSteps`. |
| `TideChart.XScaleMonotone` | components/TideChart.tsx:53-56 | `xScale` is non-decreasing in time. |
| `TideChart.YScaleStrictlyDecreasing` | components/TideChart.tsx:57-58 | `yScale` is strictly decreasing in height. |
| `TideChart.XScaleEqualSteps` | components/TideChart.tsx:50-56 | Inside the time extents `xScale` is linear: equal steps in time give equal steps in x. So the `Math.min` clamp never applies there. |
| `TideChart.YScaleEqualSteps` | components/TideChart.tsx:57-58 | `yScale` is linear for every height: equal steps in height give equal steps in y. |
| `TideChart.PlotContains` | components/TideChart.tsx:50-58 | A time and height inside the extents map into the plot box `[40, 757.5] × [20, 100]`. |
| `TideChart.Points` | components/TideChart.tsx:61 | One polyline point per chart-data entry, in input order. Point `i` is entry `i` mapped through `xScale` and `yScale`. |
| `TideChart.PointsInsidePlot` | components/TideChart.tsx:41-61 | For non-empty data, every polyline point lies inside the plot box, so the stroke never passes `MaxDrawableX`. |
| `TideChart.XTicks` | components/TideChart.tsx:63-67 | Exactly 5 ticks. The first is `minTime`, the last is `maxTime`, and consecutive ticks are `(maxTime - minTime) / 4` apart. |
| `TideChart.XTicksInsidePlot` | components/TideChart.tsx:131-132 | Every x-tick lies in `[minTime, maxTime]`, and its tick mark is placed in `[40, 757.5]`. |
| `TideChart.YTicks` | components/TideChart.tsx:70 | `maxHeight - minHeight + 1` ticks: consecutive integers from `minHeight` to `maxHeight`. An integer is a tick iff it lies in that range. |
| `TideChart.RangeListed` | components/TideChart.tsx:70 | A run of consecutive integers from `lo` to `hi` contains every integer in between. |
| `TideChart.NowMarker` | components/TideChart.tsx:76-79 | The marker is present iff `minTime <= now <= maxTime`. When present it is at `xScale(now)`, which lies in `[40, 757.5]`. |
| `TideChart.RenderChart` | components/TideChart.tsx:25-70 | The no-data branch is taken exactly for empty data, and then nothing is computed. Otherwise the chart uses the data's extents and has one in-box point per entry, 5 x-ticks and one y-tick per whole foot. Its now marker is present iff `now` lies in the time extents. The points, ticks and marker are exactly `Points`, `XTicks`, `YTicks` and `NowMarker` of the data's extents. |
| `TidePipeline.ChartExtentsWithinWindow` | components/app-page.tsx:165-174 | The chart's time extents, computed from non-empty chart data, lie within 12 h of `currentTime`. |

## Left out

- React state, hooks and effects, and the `Promise.all` fetch orchestration (components/app-page.tsx:63-118): UI lifecycle and asynchronous I/O.
- JSX and SVG markup, the e-ink colour constants and `getWeatherIcon`: presentation only. The points are a sequence of `(x, y)` values; they are not joined into an SVG attribute string.
- Parsing `time + ' GMT'` into a `Date`: a JavaScript library call. Every timestamp is an integer already resolved against GMT, so the chart-data `map` step (components/app-page.tsx:170-174) is the identity here. An unparsable time string, which JavaScript turns into `NaN`, is not representable.
- The `console.log` calls (components/app-page.tsx:122, components/app-page.tsx:176, components/TideChart.tsx:23): debug output with no effect on the results.
- `toLocaleTimeString` labels, `toFixed` roundings and the display time zone: text formatting through the JavaScript `Intl` library.
- IEEE floating point: all chart arithmetic and heights are exact reals. Rounding and `NaN` are not captured, so `mapMoonPhaseToType(NaN)` is not represented.
- Clocks: `Date.now()` is a parameter `now`. The current-tide reduce calls `Date.now()` again at every step (components/app-page.tsx:251); the model uses one `now` for the whole reduce. The chart's `now` (components/TideChart.tsx:77) and the memoised `currentTime` are separate parameters.
- Absent inputs: the predictions are always a sequence here, and empty chart data takes the no-data branch. The page stores the tide response without checking its status (components/app-page.tsx:104-107). An error body such as `{ error }` has no `predictions`. The optional chain `tides?.predictions.filter` (components/app-page.tsx:165) guards only `tides`, so `.filter` on `undefined` throws a `TypeError`, and rendering fails before the no-data branch or the reduce is reached. The model does not represent that exception path. The `null` test on `chartData` (components/TideChart.tsx:25) is folded into the empty case.
- The engine's sort algorithm: the sort is given by its result. `TimeSort.SortByTimeIsTheStableSort` shows that every stable sort by time yields that result. The copy is a value, so "the input is unchanged" holds by construction and no aliasing is modelled.
- `plotWidth` (components/TideChart.tsx:37) is computed by the source but never used.
- The moon phase SVG component, the API route handlers, the screenshot and frame-generation scripts, and configuration: I/O, hardware and constants outside this computation.
