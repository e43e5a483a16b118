/** The two trend charts of the screen: download rates in the upper box,
    upload rates in the lower one, both drawn from the stored history. The
    header, the three readouts, the footer text and the hand-off to the
    display are not modelled. */
module Report {
  import opened Measurement
  import opened Rounding
  import opened Chart

  /** The download rate of every record, oldest first (the list
      comprehension over `h['download']`). */
  function Downloads(history: seq<Record>): (s: seq<real>)
    ensures |s| == |history|
    ensures forall i :: 0 <= i < |history| ==> Lookup(history[i], "download") == Some(Number(s[i]))
  {
    seq(|history|, i requires 0 <= i < |history| => history[i].download)
  }

  /** The upload rate of every record, oldest first (the list
      comprehension over `h['upload']`). */
  function Uploads(history: seq<Record>): (s: seq<real>)
    ensures |s| == |history|
    ensures forall i :: 0 <= i < |history| ==> Lookup(history[i], "upload") == Some(Number(s[i]))
  {
    seq(|history|, i requires 0 <= i < |history| => history[i].upload)
  }

  /** The labels of each chart enclose the converted rate of every record. */
  lemma HistoryEnclosed(history: seq<Record>)
    requires history != []
    ensures forall i :: 0 <= i < |history| ==>
      LowLabel(Downloads(history)) as real <= ToMbps(history[i].download) <= HighLabel(Downloads(history)) as real
    ensures forall i :: 0 <= i < |history| ==>
      LowLabel(Uploads(history)) as real <= ToMbps(history[i].upload) <= HighLabel(Uploads(history)) as real
  {
    var dv, uv := Downloads(history), Uploads(history);
    LabelsEnclose(dv);
    LabelsEnclose(uv);
    assert forall i :: 0 <= i < |history| ==> dv[i] == history[i].download && uv[i] == history[i].upload;
  }

  /** The two drawn charts are stacked: when each chart's labels differ and
      enclose its converted rates, every download point lies in the upper
      box (rows 105 to 175), every upload point in the lower one (rows 185
      to 255), so no download point is drawn at or below an upload point. */
  lemma ChartsStacked(history: seq<Record>, download: Geometry, upload: Geometry)
    requires download.minLabel < download.maxLabel && upload.minLabel < upload.maxLabel
    requires forall i :: 0 <= i < |history| ==>
      && download.minLabel as real <= ToMbps(history[i].download) <= download.maxLabel as real
      && upload.minLabel as real <= ToMbps(history[i].upload) <= upload.maxLabel as real
    requires |download.points| == |history| && |upload.points| == |history|
    requires forall i :: 0 <= i < |history| ==>
      download.points[i] ==
        Point(XAt(35, 390, |history|, i), YAt(175, 70, download.minLabel, download.maxLabel, ToMbps(history[i].download)))
    requires forall i :: 0 <= i < |history| ==>
      upload.points[i] ==
        Point(XAt(35, 390, |history|, i), YAt(255, 70, upload.minLabel, upload.maxLabel, ToMbps(history[i].upload)))
    ensures forall i :: 0 <= i < |history| ==>
      35 <= download.points[i].x <= 390 && 105 <= download.points[i].y <= 175
    ensures forall i :: 0 <= i < |history| ==>
      35 <= upload.points[i].x <= 390 && 185 <= upload.points[i].y <= 255
    ensures forall i, j :: 0 <= i < |history| && 0 <= j < |history| ==>
      download.points[i].y < upload.points[j].y
  {
    var n := |history|;
    forall i | 0 <= i < n
      ensures 35 <= download.points[i].x <= 390 && 105 <= download.points[i].y <= 175
      ensures 35 <= upload.points[i].x <= 390 && 185 <= upload.points[i].y <= 255
    {
      XAtOrdered(35, 390, n, i, i);
      YAtWithin(175, 70, download.minLabel, download.maxLabel, ToMbps(history[i].download));
      YAtWithin(255, 70, upload.minLabel, upload.maxLabel, ToMbps(history[i].upload));
    }
  }

  /** The charts of one screen, or the ZeroDivisionError that stops the run
      before the screen is shown. The upload chart is only projected when the
      download chart did not raise. */
  datatype Screen = ZeroDivisionRaised | Charts(download: Projection, upload: Projection)

  /** The chart part of `display_results(history, speedtest_data)`. */
  method DisplayCharts(history: seq<Record>) returns (s: Screen)
    ensures s.ZeroDivisionRaised? <==>
      |history| >= 2 && (LowLabel(Downloads(history)) == HighLabel(Downloads(history)) ||
                         LowLabel(Uploads(history)) == HighLabel(Uploads(history)))
    ensures s.Charts? ==>
      && (s.download.Drawn? <==> |history| >= 2) && (s.download.NothingToDraw? <==> |history| < 2)
      && (s.upload.Drawn? <==> |history| >= 2) && (s.upload.NothingToDraw? <==> |history| < 2)
    ensures s.Charts? && s.download.Drawn? ==>
      && s.download.geometry.minLabel == LowLabel(Downloads(history)) < s.download.geometry.maxLabel == HighLabel(Downloads(history))
      && s.download.geometry.minLabelAt == Point(5, 168) && s.download.geometry.maxLabelAt == Point(5, 105)
      && s.download.geometry.yAxis == (Point(25, 110), Point(25, 180))
      && s.download.geometry.xAxis == (Point(25, 180), Point(390, 180))
      && |s.download.geometry.points| == |history|
      && (forall i :: 0 <= i < |history| ==>
            s.download.geometry.points[i] ==
              Point(XAt(35, 390, |history|, i),
                    YAt(175, 70, s.download.geometry.minLabel, s.download.geometry.maxLabel, ToMbps(history[i].download))))
      && |s.download.geometry.segments| == |history| - 1
      && forall i :: 0 <= i < |history| - 1 ==>
           s.download.geometry.segments[i] == (s.download.geometry.points[i], s.download.geometry.points[i + 1])
    ensures s.Charts? && s.upload.Drawn? ==>
      && s.upload.geometry.minLabel == LowLabel(Uploads(history)) < s.upload.geometry.maxLabel == HighLabel(Uploads(history))
      && s.upload.geometry.minLabelAt == Point(5, 248) && s.upload.geometry.maxLabelAt == Point(5, 185)
      && s.upload.geometry.yAxis == (Point(25, 190), Point(25, 260))
      && s.upload.geometry.xAxis == (Point(25, 260), Point(390, 260))
      && |s.upload.geometry.points| == |history|
      && (forall i :: 0 <= i < |history| ==>
            s.upload.geometry.points[i] ==
              Point(XAt(35, 390, |history|, i),
                    YAt(255, 70, s.upload.geometry.minLabel, s.upload.geometry.maxLabel, ToMbps(history[i].upload))))
      && |s.upload.geometry.segments| == |history| - 1
      && forall i :: 0 <= i < |history| - 1 ==>
           s.upload.geometry.segments[i] == (s.upload.geometry.points[i], s.upload.geometry.points[i + 1])
    ensures s.Charts? && s.download.Drawn? ==>
      forall i :: 0 <= i < |history| ==>
        35 <= s.download.geometry.points[i].x <= 390 && 105 <= s.download.geometry.points[i].y <= 175
    ensures s.Charts? && s.upload.Drawn? ==>
      forall i :: 0 <= i < |history| ==>
        35 <= s.upload.geometry.points[i].x <= 390 && 185 <= s.upload.geometry.points[i].y <= 255
    ensures s.Charts? && s.download.Drawn? && s.upload.Drawn? ==>
      && s.download.geometry.xAxis.0.y < s.upload.geometry.yAxis.0.y
      && forall i, j :: 0 <= i < |history| && 0 <= j < |history| ==>
           s.download.geometry.points[i].y < s.upload.geometry.points[j].y
  {
    var download := DisplayChart(Downloads(history), 5, 180, 390, 70);
    if download.ZeroDivisionError? {
      return ZeroDivisionRaised;
    }
    var upload := DisplayChart(Uploads(history), 5, 260, 390, 70);
    if upload.ZeroDivisionError? {
      return ZeroDivisionRaised;
    }
    if download.Drawn? && upload.Drawn? {
      HistoryEnclosed(history);
      ChartsStacked(history, download.geometry, upload.geometry);
    }
    return Charts(download, upload);
  }
}
