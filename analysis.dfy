// Analytics_Layer/AnalysisLayer.py: the FastAPI analysis helpers. Zones are rectangles in
// the metre plane with x on the longitude and y on the latitude; the 3D surface applies an
// hour window only when both of its ends are given.
module AnalysisLayer {
  import opened Base
  import opened Frames

  /** `ZONES`: xmin, xmax, ymin, ymax of each named zone. */
  const Zones: map<string, Zone> := map[
    "Cafe" := Zone(336.0, 400.0, 260.0, 310.0),
    "Biblio" := Zone(392.0, 425.0, 165.0, 218.0),
    "A1A2" := Zone(404.0, 539.0, 170.0, 267.0),
    "Life" := Zone(540.0, 700.0, 0.0, 200.0),
    "Aulas4" := Zone(50.0, 400.0, 367.0, 591.0)]

  /** The mask of `filter_by_zone`: longitude within x, latitude within y, both inclusive. */
  predicate InZone(z: Zone, s: Sample)
  {
    Between(s.lon, z.xmin, z.xmax) && Between(s.lat, z.ymin, z.ymax)
  }

  /** `filter_by_zone`: an unknown zone raises, otherwise the rows inside the zone. */
  function FilterByZone(rows: seq<Sample>, zone: string): Result<seq<Sample>, Raised>
  {
    if zone !in Zones then Err(ValueError("Unknown zone: " + zone))
    else Ok(Filter(rows, (s: Sample) => InZone(Zones[zone], s)))
  }

  /**
   * Only the five zone names are known; for those the result is the input with exactly the
   * rows whose coordinates lie in the rectangle kept, in their order.
   */
  lemma {:induction false} FilterByZoneSpec(rows: seq<Sample>, zone: string)
    ensures FilterByZone(rows, zone).Err? <==> zone !in {"Cafe", "Biblio", "A1A2", "Life", "Aulas4"}
    ensures FilterByZone(rows, zone).Err? ==> FilterByZone(rows, zone).error == ValueError("Unknown zone: " + zone)
    ensures FilterByZone(rows, zone).Ok? ==>
      var out := FilterByZone(rows, zone).value; var z := Zones[zone];
      Subsequence(out, rows)
      && (forall s :: s in out <==> s in rows && s.lon.Some? && s.lat.Some?
                                    && z.xmin <= s.lon.value <= z.xmax && z.ymin <= s.lat.value <= z.ymax)
      && (forall s :: s in out ==> multiset(out)[s] == multiset(rows)[s])
  {
    if zone in Zones {
      var keep := (s: Sample) => InZone(Zones[zone], s);
      FilterSubsequence(rows, keep);
      FilterCounts(rows, keep);
      forall s {
        FilterMembers(rows, keep, s);
      }
    }
  }

  /** Filtering a concatenation filters each part: no row moves across another. */
  lemma {:induction false} FilterByZoneAppend(a: seq<Sample>, b: seq<Sample>, zone: string)
    requires zone in Zones
    ensures FilterByZone(a + b, zone).value == FilterByZone(a, zone).value + FilterByZone(b, zone).value
  {
    FilterAppend(a, b, (s: Sample) => InZone(Zones[zone], s));
  }

  /** The `dropna` subset of `load_data`: a row needs lat, lon, down and up. */
  predicate Complete(s: Sample)
  {
    s.lat.Some? && s.lon.Some? && s.down.Some? && s.up.Some?
  }

  /** The cleaning step of `load_data` (an empty frame is returned as it is). */
  function LoadData(rows: seq<Sample>): seq<Sample>
  {
    if rows == [] then rows else Filter(rows, Complete)
  }

  /** A row survives `load_data` exactly when lat, lon, down and up are all present; rssi may be missing. */
  lemma {:induction false} LoadDataSpec(rows: seq<Sample>)
    ensures Subsequence(LoadData(rows), rows)
    ensures forall s :: s in LoadData(rows) <==> s in rows && s.lat.Some? && s.lon.Some? && s.down.Some? && s.up.Some?
    ensures forall s :: s in LoadData(rows) ==> multiset(LoadData(rows))[s] == multiset(rows)[s]
  {
    FilterSubsequence(rows, Complete);
    FilterCounts(rows, Complete);
    forall s {
      FilterMembers(rows, Complete, s);
    }
  }

  /** What pandas raises when `.dt` meets a column that holds no datetimes. */
  const NotDatetimelike: string := "Can only use .dt accessor with datetimelike values"

  /**
   * `compute_hourly_stats` on the frame `load_data` returns for the fetched rows. An empty
   * query result is returned before `ts` goes through `pd.to_datetime`, so once the metric
   * has passed its check, `.dt.hour` meets a column of plain objects and raises.
   */
  function HourlyStatsLoaded(fetched: seq<Sample>, metric: string): Result<seq<HourMean>, Raised>
  {
    match ParseMetric(metric)
    case Err(e) => Err(e)
    case Ok(_) => if fetched == [] then Err(AttributeError(NotDatetimelike)) else HourlyStats(LoadData(fetched), metric)
  }

  /**
   * The hourly table of loaded data fails for a bad metric and for an empty query result;
   * rows that were fetched but all dropped as incomplete give an empty table instead.
   */
  lemma {:induction false} HourlyStatsLoadedSpec(fetched: seq<Sample>, metric: string)
    ensures HourlyStatsLoaded(fetched, metric).Err? <==> metric !in ["down", "up", "rssi"] || fetched == []
    ensures metric in ["down", "up", "rssi"] && fetched == [] ==>
      HourlyStatsLoaded(fetched, metric) == Err(AttributeError(NotDatetimelike))
    ensures fetched != [] ==> HourlyStatsLoaded(fetched, metric) == HourlyStats(LoadData(fetched), metric)
    ensures metric in ["down", "up", "rssi"] && fetched != [] && LoadData(fetched) == [] ==>
      HourlyStatsLoaded(fetched, metric) == Ok([])
  {
    ParseMetricAccepts(metric);
    if metric in ["down", "up", "rssi"] && fetched != [] && LoadData(fetched) == [] {
      StatsFromNone(ParseMetric(metric).value, 0);
    }
  }

  /** The two fixed pages of `generate_3d_surface`. */
  const NoData: string := "<h1>No data to show</h1>"
  const NoWindowData: string := "<h1>No data in this hour window</h1>"

  /** The hour window: applied only when both ends are given, and then inclusive on both. */
  function Windowed(rows: seq<Sample>, start: Option<int>, end: Option<int>): seq<Sample>
  {
    if start.Some? && end.Some? then Filter(rows, (s: Sample) => start.value <= s.hour <= end.value) else rows
  }

  /**
   * `generate_3d_surface`: `draw` stands for the plotly figure and its HTML. The empty check
   * comes first, then the metric check, then the window and its own empty check.
   */
  function Surface(rows: seq<Sample>, metric: string, start: Option<int>, end: Option<int>,
                   draw: (seq<Sample>, Metric) -> string): Result<string, Raised>
  {
    if rows == [] then Ok(NoData)
    else match ParseMetric(metric)
      case Err(e) => Err(e)
      case Ok(m) =>
        var w := Windowed(rows, start, end);
        if w == [] then Ok(NoWindowData) else Ok(draw(w, m))
  }

  /** An empty frame gives the no-data page whatever the metric, even one that is not valid. */
  lemma {:induction false} SurfaceEmpty(metric: string, start: Option<int>, end: Option<int>, draw: (seq<Sample>, Metric) -> string)
    ensures Surface([], metric, start, end, draw) == Ok(NoData)
  {
  }

  /** A non-empty frame with another metric raises. */
  lemma {:induction false} SurfaceMetric(rows: seq<Sample>, metric: string, start: Option<int>, end: Option<int>,
                      draw: (seq<Sample>, Metric) -> string)
    requires rows != []
    ensures Surface(rows, metric, start, end, draw).Err? <==> metric !in ["down", "up", "rssi"]
  {
    ParseMetricAccepts(metric);
  }

  /** With a missing end the window is ignored and every row is drawn. */
  lemma {:induction false} SurfaceNoWindow(rows: seq<Sample>, metric: string, start: Option<int>, end: Option<int>,
                        draw: (seq<Sample>, Metric) -> string)
    requires rows != [] && ParseMetric(metric).Ok? && (start.None? || end.None?)
    ensures Surface(rows, metric, start, end, draw) == Ok(draw(rows, ParseMetric(metric).value))
  {
  }

  /**
   * With both ends exactly the rows with an hour in [start, end] are drawn, in their order;
   * when no row has such an hour the page says the window is empty.
   */
  lemma {:induction false} SurfaceWindow(rows: seq<Sample>, metric: string, start: int, end: int, draw: (seq<Sample>, Metric) -> string)
    requires rows != [] && ParseMetric(metric).Ok?
    ensures var w := Windowed(rows, Some(start), Some(end));
      Subsequence(w, rows)
      && (forall s :: s in w <==> s in rows && start <= s.hour <= end)
      && (forall s :: s in w ==> multiset(w)[s] == multiset(rows)[s])
      && (w == [] <==> forall s :: s in rows ==> !(start <= s.hour <= end))
      && (w == [] ==> Surface(rows, metric, Some(start), Some(end), draw) == Ok(NoWindowData))
      && (w != [] ==> Surface(rows, metric, Some(start), Some(end), draw) == Ok(draw(w, ParseMetric(metric).value)))
  {
    var keep := (s: Sample) => start <= s.hour <= end;
    var w := Windowed(rows, Some(start), Some(end));
    FilterSubsequence(rows, keep);
    FilterCounts(rows, keep);
    forall s {
      FilterMembers(rows, keep, s);
    }
    if w != [] {
      assert w[0] in w;
    }
  }
}
