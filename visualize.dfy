// Analytics_Layer/VisualizeData.py: the plotting variant of the analytics. Its zones put
// the latitude on x and the longitude on y, the opposite of AnalysisLayer.py, and its
// `load_data` keeps rows that lack a download or upload speed.
module VisualizeData {
  import opened Base
  import opened Frames
  import AnalysisLayer

  /** `ZONES`: xmin, xmax, ymin, ymax of each named zone. */
  const Zones: map<string, Zone> := map[
    "cafeteria" := Zone(178.0, 190.0, 476.0, 486.0),
    "library" := Zone(170.0, 180.0, 460.0, 475.0),
    "campus" := Zone(1000.0, 1000.0, 0.0, 0.0)]

  /** The mask of `filter_by_zone`: latitude within x, longitude within y, both inclusive. */
  predicate InZone(z: Zone, s: Sample)
  {
    Between(s.lat, z.xmin, z.xmax) && Between(s.lon, z.ymin, z.ymax)
  }

  /** `filter_by_zone`: an unknown zone raises, otherwise the rows inside the zone. */
  function FilterByZone(rows: seq<Sample>, zone: string): Result<seq<Sample>, Raised>
  {
    if zone !in Zones then Err(ValueError("Unknown zone: " + zone))
    else Ok(Filter(rows, (s: Sample) => InZone(Zones[zone], s)))
  }

  /**
   * Only the three zone names are known; for those the result is the input with exactly the
   * rows whose latitude lies in [xmin, xmax] and longitude in [ymin, ymax] kept, in their order.
   */
  lemma {:induction false} FilterByZoneSpec(rows: seq<Sample>, zone: string)
    ensures FilterByZone(rows, zone).Err? <==> zone !in {"cafeteria", "library", "campus"}
    ensures FilterByZone(rows, zone).Err? ==> FilterByZone(rows, zone).error == ValueError("Unknown zone: " + zone)
    ensures FilterByZone(rows, zone).Ok? ==>
      var out := FilterByZone(rows, zone).value; var z := Zones[zone];
      Subsequence(out, rows)
      && (forall s :: s in out <==> s in rows && s.lat.Some? && s.lon.Some?
                                    && z.xmin <= s.lat.value <= z.xmax && z.ymin <= s.lon.value <= z.ymax)
      && (forall s :: s in out ==> multiset(out)[s] == multiset(rows)[s])
  {
    if zone in Zones {
      var keep := (s: Sample) => InZone(Zones[zone], s);
      FilterSubsequence(rows, keep);
      FilterCounts(rows, keep);
      forall s {
        FilterMembers(rows, keep, s);
      }
    }
  }

  /** The "campus" rectangle has no area: it admits only the point lat = 1000, lon = 0. */
  lemma {:induction false} CampusDegenerate(rows: seq<Sample>)
    ensures forall s :: s in FilterByZone(rows, "campus").value <==> s in rows && s.lat == Some(1000.0) && s.lon == Some(0.0)
  {
    FilterByZoneSpec(rows, "campus");
  }

  /** The same zone bounds select swapped points in the two files: a row is inside here exactly when its mirror is inside there. */
  lemma {:induction false} AxesSwapped(z: Zone, s: Sample)
    ensures InZone(z, s) <==> AnalysisLayer.InZone(z, s.(lat := s.lon, lon := s.lat))
  {
  }

  /** The `dropna` subset of `load_data`: a row needs lat and lon only. */
  predicate Located(s: Sample)
  {
    s.lat.Some? && s.lon.Some?
  }

  /** The cleaning step of `load_data`. */
  function LoadData(rows: seq<Sample>): seq<Sample>
  {
    Filter(rows, Located)
  }

  /** A row survives exactly when it has both coordinates, even with no download or upload speed. */
  lemma {:induction false} LoadDataSpec(rows: seq<Sample>)
    ensures Subsequence(LoadData(rows), rows)
    ensures forall s :: s in LoadData(rows) <==> s in rows && s.lat.Some? && s.lon.Some?
    ensures forall s :: s in LoadData(rows) ==> multiset(LoadData(rows))[s] == multiset(rows)[s]
  {
    FilterSubsequence(rows, Located);
    FilterCounts(rows, Located);
    forall s {
      FilterMembers(rows, Located, s);
    }
  }

  /** So a located row without speeds passes here but not through AnalysisLayer's `load_data`. */
  lemma {:induction false} LoadDataKeepsMoreRows(s: Sample)
    requires s.lat.Some? && s.lon.Some? && s.down.None?
    ensures LoadData([s]) == [s] && AnalysisLayer.LoadData([s]) == []
  {
    LoadDataSpec([s]);
    FilterAll([s], Located);
    assert s in LoadData([s]);
    AnalysisLayer.LoadDataSpec([s]);
    assert forall i :: 0 <= i < |AnalysisLayer.LoadData([s])| ==> AnalysisLayer.LoadData([s])[i] in AnalysisLayer.LoadData([s]);
  }

  /** `generate_plot`: the empty check comes before the metric check; `draw` stands for the plotly figure. */
  function GeneratePlot(rows: seq<Sample>, metric: string, draw: (seq<Sample>, Metric) -> string): Result<string, Raised>
  {
    if rows == [] then Ok("<h1>No data to show</h1>")
    else match ParseMetric(metric)
      case Err(e) => Err(e)
      case Ok(m) => Ok(draw(rows, m))
  }

  /**
   * `generate_heatmap`: an empty frame gives its own page; otherwise `grid` stands for the
   * interpolation and figure, which fail on their own when the metric names no column.
   */
  function GenerateHeatmap(rows: seq<Sample>, metric: string, grid: (seq<Sample>, string) -> Result<string, Raised>)
    : Result<string, Raised>
  {
    if rows == [] then Ok("<h1>No data</h1>") else grid(rows, metric)
  }

  /**
   * An empty frame never raises in `generate_plot`, whatever the metric; a non-empty one raises
   * exactly for a metric other than down, up and rssi, and is drawn whole otherwise.
   */
  lemma {:induction false} GeneratePlotChecks(rows: seq<Sample>, metric: string, draw: (seq<Sample>, Metric) -> string)
    ensures rows == [] ==> GeneratePlot(rows, metric, draw) == Ok("<h1>No data to show</h1>")
    ensures rows != [] ==> (GeneratePlot(rows, metric, draw).Err? <==> metric !in ["down", "up", "rssi"])
    ensures rows != [] && ParseMetric(metric).Ok? ==> GeneratePlot(rows, metric, draw) == Ok(draw(rows, ParseMetric(metric).value))
  {
    ParseMetricAccepts(metric);
  }

  /** The heatmap's empty page differs from the plot's, and a non-empty frame goes to the grid unchanged. */
  lemma {:induction false} GenerateHeatmapChecks(rows: seq<Sample>, metric: string, grid: (seq<Sample>, string) -> Result<string, Raised>,
                              draw: (seq<Sample>, Metric) -> string)
    ensures rows == [] ==> GenerateHeatmap(rows, metric, grid) == Ok("<h1>No data</h1>")
                           && GenerateHeatmap(rows, metric, grid) != GeneratePlot(rows, metric, draw)
    ensures rows != [] ==> GenerateHeatmap(rows, metric, grid) == grid(rows, metric)
  {
  }
}
