# Bandwidth monitor: history and chart geometry

A Dafny model of the data-handling core of `bandwidth_monitor.py`. This is a
single-shot script that measures download and upload rates. It keeps a
rolling history of the last 120 measurements and draws that history as two
line charts on an e-paper screen. The model covers:

- the measurement record and the fixed key order that the CSV row depends on (`measurement.dfy`);
- the bounded history: the list is appended in place, then cut back to its
  most recent `HISTORY_MAX_LENGTH = 120` entries (`history.dfy`, a class whose `Append` method
  changes the list);
- `pairwise`, the loop that yields consecutive pairs (`pairwise.dfy`);
- Python's `round` (half to even), `math.ceil`, `round(x, 2)` and the
  conversion from bit/s to Mbit/s, all on exact real numbers (`rounding.dfy`);
- the geometry of `_display_chart` (`chart.dfy`). `DisplayChart` computes what
  the drawing calls receive: the integer axis labels and their anchors, the
  two axis lines, one pixel point per value and the segments between
  consecutive points. It does this step by step, as the source does.
- the placement of the download and upload charts on the screen (`report.dfy`).

A series shorter than two values draws nothing. A series whose labels
coincide (every value converts to the same whole number of Mbit/s) makes the
vertical scaling divide by zero. The code then raises `ZeroDivisionError`,
and the model returns that as an explicit outcome. The code draws no
fallback for this case, such as a flat line at mid-height, so the model
invents none; one would be a change of behaviour.

A strictly faster reading is not always drawn strictly higher. Rounding to
two decimals already merges nearby rates (`Chart.FasterNotAlwaysHigher`), so
the model proves only that a larger rate is never drawn lower. The history
update is not a pure function in the code: the loaded list is appended to in
place and then replaced by its tail, and the history file is overwritten
directly, not swapped in atomically. The model follows the code for the
update and leaves out the file write.

## Model

| member | source | states |
|---|---|---|
| `Measurement.Lookup` | bandwidth_monitor.py:75-81 | exactly the five keys ping, download, upload, server and timestamp are present in a record |
| `Measurement.Row` | bandwidth_monitor.py:179 | the exported row has five cells, and cell i is the record's value under the i-th key in insertion order |
| `Measurement.RowRoundTrip` | bandwidth_monitor.py:179 | reading a row back positionally gives the record that was written, and only the row written from a record reads back as that record |
| `History.MostRecent` | bandwidth_monitor.py:171 | `s[-120:]` has length min(len(s), 120) and is a suffix of `s` |
| `History.Appended` | bandwidth_monitor.py:170-171 | one run's update as a value: the history grows by one entry until it holds 120, then stays at 120 |
| `History.History.Load` | bandwidth_monitor.py:157-162 | the history starts as the stored list, or as the empty list when there is no history file |
| `History.History.Append` | bandwidth_monitor.py:170-171 | the new history is `Appended(old, r)`, that is `(old + [r])[-120:]`: its length is min(len(old) + 1, 120), `r` is its last entry, the rest are the most recent old entries in order, and the length never exceeds 120 |
| `History.AppendedKeepsNewest` | bandwidth_monitor.py:170-171 | the appended record is always kept, as the newest entry |
| `History.AppendedBelowCapacity` | bandwidth_monitor.py:170-171 | below 120 entries nothing is dropped |
| `History.AppendedAtCapacity` | bandwidth_monitor.py:170-171 | at exactly 120 entries only the oldest entry is dropped |
| `History.MostRecentTwice` | bandwidth_monitor.py:171 | cutting back early does not change what a later cut keeps |
| `History.AppendAllIsMostRecent` | bandwidth_monitor.py:170-171 | a series of runs, each appending and cutting back, leaves the most recent 120 of all entries, as one cut at the end would |
| `History.RunsFromEmpty` | bandwidth_monitor.py:170-171 | after N runs from an empty history, it holds the min(N, 120) latest measurements in the order taken |
| `Pairs.Pairwise` | bandwidth_monitor.py:44-50 | yields max(0, n-1) pairs, pair i being (s[i], s[i+1]); empty and one-element inputs yield nothing |
| `Rounding.RoundHalfEven` | bandwidth_monitor.py:130-131 | `round(x)` is an integer within one half of x, and even when x lies halfway between two integers |
| `Rounding.RoundHalfEvenUnique` | bandwidth_monitor.py:130-131 | those two properties determine the rounded value |
| `Rounding.RoundHalfEvenMonotone` | bandwidth_monitor.py:130-131 | rounding never reverses the order of two values |
| `Rounding.RoundHalfEvenBetween` | bandwidth_monitor.py:130-131 | a value between two integers rounds to an integer between them |
| `Rounding.RoundHalfEvenOfInt` | bandwidth_monitor.py:130 | an integer rounds to itself |
| `Rounding.Ceil` | bandwidth_monitor.py:118 | `math.ceil(x)` is the least integer not below x |
| `Rounding.RoundTo2` | bandwidth_monitor.py:116 | `round(x, 2)` is a whole number of hundredths, within half a hundredth of x, and an even number of hundredths when x lies halfway between two |
| `Rounding.RoundTo2Unique` | bandwidth_monitor.py:116 | those three properties determine `round(x, 2)`: any value that has them is the rounded one |
| `Rounding.ToMbps` | bandwidth_monitor.py:116 | the converted rate is a whole number of hundredths within 0.005 of bit/s divided by one million, an even number of hundredths on a tie |
| `Rounding.ToMbpsMonotone` | bandwidth_monitor.py:116 | a faster rate never converts to a smaller number |
| `Rounding.ToMbpsWhole` | bandwidth_monitor.py:116 | a whole number of Mbit/s converts exactly |
| `Chart.Converted` | bandwidth_monitor.py:116 | the converted series has one value per rate, each a whole number of hundredths within 0.005 of the rate in Mbit/s, and the even number of hundredths when the rate lies exactly halfway (as `round(v / 1e6, 2)`; with `Rounding.RoundTo2Unique` this fixes every value) |
| `Chart.Min` | bandwidth_monitor.py:117 | `min(values)` is an element of the series and is not above any element |
| `Chart.Max` | bandwidth_monitor.py:118 | `max(values)` is an element of the series and is not below any element |
| `Chart.LowLabel` | bandwidth_monitor.py:117 | `minv` is not above any converted value, and some converted value is below `minv + 1`: the greatest such integer |
| `Chart.HighLabel` | bandwidth_monitor.py:118 | `maxv` is not below any converted value, and some converted value is above `maxv - 1`: the least such integer |
| `Chart.LabelsEnclose` | bandwidth_monitor.py:116-118 | `minv <= c <= maxv` for every converted value c, with integer labels |
| `Chart.LabelsCoincide` | bandwidth_monitor.py:117-131 | `maxv == minv` (the division by zero) holds exactly when every converted value is the same whole number |
| `Chart.WholeRatesLabels` | bandwidth_monitor.py:116-118 | 1, 2 and 3 Mbit/s convert to 1.0, 2.0 and 3.0, labelled from 1 to 3 |
| `Chart.FlatWholeSeriesCoincides` | bandwidth_monitor.py:117-118 | two readings of the same whole rate make both labels equal |
| `Chart.FasterNotAlwaysHigher` | bandwidth_monitor.py:116 | 1000000 and 1000001 bit/s both convert to 1.0, so a strictly faster reading may be drawn at the same height |
| `Chart.XPos` | bandwidth_monitor.py:127-130 | the exact x position: index 0 is at `start_x`, and index n would be at `end_x`, since `offset_x` is the width cut into n steps |
| `Chart.XAt` | bandwidth_monitor.py:130 | the pixel column: index 0 is on `start_x`, and index n would be on `end_x` |
| `Chart.Lift` | bandwidth_monitor.py:131 | the unrounded `offset_y`: 0 for a value on `minv`, `height` for a value on `maxv` |
| `Chart.YAt` | bandwidth_monitor.py:131-132 | the pixel row: `start_y` for a value on `minv`, `start_y - height` for a value on `maxv` |
| `Chart.XAtFirst` | bandwidth_monitor.py:125-130 | the first point is at x0 = start_x + 30 |
| `Chart.XPosOrdered` | bandwidth_monitor.py:127-130 | before rounding, the x positions are nondecreasing in the index and stay in [x0, end_x] |
| `Chart.XAtOrdered` | bandwidth_monitor.py:127-130 | the pixel x coordinates are nondecreasing in the index and stay in [x0, end_x] |
| `Chart.LiftMonotone` | bandwidth_monitor.py:131 | with a nonnegative height, the scaled offset grows with the value |
| `Chart.LiftEnds` | bandwidth_monitor.py:131 | the lower label scales to 0 and the upper label to height |
| `Chart.YAtWithin` | bandwidth_monitor.py:131-132 | y lies in [y0 - height, y0], with the lower label on y0 and the upper label on y0 - height |
| `Chart.YAtMonotone` | bandwidth_monitor.py:131-132 | a larger value never gets a larger y |
| `Chart.PointsPlaced` | bandwidth_monitor.py:125-133 | for a whole series between two distinct enclosing labels: the first x is x0, x is ordered and within the box, y is within the box, and a faster rate is never drawn lower |
| `Chart.PlotPoints` | bandwidth_monitor.py:127-133 | one point per value, in input order: point k is at x = round(x0 + k * (end_x - x0) / n) and y = y0 - round(height * (c_k - minv) / (maxv - minv)) |
| `Chart.DrawSeries` | bandwidth_monitor.py:119-135 | once the labels differ and enclose every converted value: the label anchors and the two axes as drawn, one point per value placed as above (with the first-x, ordering, range and monotonicity facts), and the segments are exactly the consecutive pairs of points |
| `Chart.DisplayChart` | bandwidth_monitor.py:114-135 | no geometry when there are fewer than 2 values. ZeroDivisionError exactly when the labels coincide. Otherwise the labels are floor(min) < ceil(max), and the label anchors and the two axes are as drawn. There is one point per value, in order, placed as above. The segments are exactly the consecutive pairs of points |
| `Report.Downloads` | bandwidth_monitor.py:138 | one value per record, in order, each the value the record holds under the key `download` |
| `Report.Uploads` | bandwidth_monitor.py:141 | one value per record, in order, each the value the record holds under the key `upload` |
| `Report.HistoryEnclosed` | bandwidth_monitor.py:116-118 | for every record, floor(min) <= its converted download rate <= ceil(max) of the download series, and likewise for uploads |
| `Report.ChartsStacked` | bandwidth_monitor.py:137-141 | for two charts placed as `display_results` places them, with labels lo < hi that enclose every converted rate, every download point lies in x 35..390, y 105..175 and every upload point in x 35..390, y 185..255, so every download point is above every upload point |
| `Report.DisplayCharts` | bandwidth_monitor.py:137-141 | the run stops with the division error exactly when either series has two or more values and coinciding labels. Otherwise both charts are drawn exactly when there are two or more records: the download chart with labels floor(min) < ceil(max) of the download rates, label anchors (5, 168) and (5, 105), axes at x 25 from y 110 to 180 and along y 180 to x 390, point i at (XAt(35, 390, n, i), YAt(175, 70, labels, rate i)), and n - 1 segments, segment i joining points i and i + 1; the upload chart likewise with baseline 260, anchors (5, 248) and (5, 185) and points on 255. The box bounds of `Report.ChartsStacked` hold for the result |

## Left out

- The speed test itself (`run_speedtest`) is left out: the network call, its retry on failure, the fake random values, the time-zone conversion and the timestamp formatting. It is foreign code and randomness. A record enters the model as a value.
- Reading and writing the history file is file I/O. `History.History.Load` takes the parsed content, or none when the file does not exist. A malformed file and the JSON encoding are not modelled.
- Appending to the CSV file and catching its errors is file I/O. Only the order of the row's values is modelled.
- Image creation, fonts, the header, the three readouts, the footer text and the number formatting are rendering. So are the line widths and fill colours, and the chart title's anchor `(start_x, start_y - height/2 - 17)`, whose y is not whole for an odd height.
- The e-paper display, the mock window, the sleep, argument parsing and logging are left out as I/O and process setup.
- Floating point: every value is an exact real. Python rounds the binary float nearest to a value, so for example `round(2.675, 2)` gives 2.67. The model rounds the exact value.
- `Chart.DisplayChart`: the source raises the division error in the first round of its point loop, before any point is stored. The model checks the same condition before it draws the series (`Chart.DrawSeries`, whose loop is `Chart.PlotPoints`). The outcome is the same.
- `Chart.DisplayChart`: when the labels coincide, the source draws the labels and axes before it raises. The model returns only the error, because the image is never shown once the run stops.
- `Chart.DisplayChart`: x ordering is stated only when `end_x >= start_x + 30`, and the y range and monotonicity only for a nonnegative height. Outside those cases the same formulas apply, but the inequalities turn around.
