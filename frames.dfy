// The data frames of the analytics layer (Analytics_Layer/AnalysisLayer.py and
// Analytics_Layer/VisualizeData.py): one `network_data` row per sample, boolean-mask
// filters, the metric check and the per-hour grouping both files share.
module Frames {
  import opened Base
  import opened Averages

  /** `ts.dt.hour`. */
  type Hour = h: nat | h < 24

  /** One row of the frame; a None column is a NaN after `to_numeric(errors="coerce")`, and `ts` is represented by its hour. */
  datatype Sample = Sample(deviceId: string, rssi: Option<real>, down: Option<real>, up: Option<real>,
                           lat: Option<real>, lon: Option<real>, hour: Hour)

  /** The exceptions the analytics raise, with their messages. */
  datatype Raised = ValueError(message: string) | AttributeError(message: string)

  /** A zone of the `ZONES` table. */
  datatype Zone = Zone(xmin: real, xmax: real, ymin: real, ymax: real)

  /** `df[mask]`: the rows the mask keeps, in their order. */
  function Filter<T>(xs: seq<T>, keep: T -> bool): seq<T>
  {
    if xs == [] then [] else (if keep(xs[0]) then [xs[0]] else []) + Filter(xs[1..], keep)
  }

  /** A row is kept exactly when it is in the input and the mask holds for it. */
  lemma {:induction false} FilterMembers<T>(xs: seq<T>, keep: T -> bool, x: T)
    ensures x in Filter(xs, keep) <==> x in xs && keep(x)
  {
    if xs != [] {
      FilterMembers(xs[1..], keep, x);
      assert xs == [xs[0]] + xs[1..];
    }
  }

  /** Every row of the result satisfies the mask. */
  lemma {:induction false} FilterAll<T>(xs: seq<T>, keep: T -> bool)
    ensures forall i :: 0 <= i < |Filter(xs, keep)| ==> keep(Filter(xs, keep)[i])
    ensures |Filter(xs, keep)| <= |xs|
  {
    if xs != [] {
      FilterAll(xs[1..], keep);
    }
  }

  /** The result keeps the input's order: it is a subsequence of it. */
  lemma {:induction false} FilterSubsequence<T>(xs: seq<T>, keep: T -> bool)
    ensures Subsequence(Filter(xs, keep), xs)
  {
    if xs != [] {
      FilterSubsequence(xs[1..], keep);
      var rest := Filter(xs[1..], keep);
      if keep(xs[0]) {
        assert Filter(xs, keep) == [xs[0]] + rest;
        assert ([xs[0]] + rest)[1..] == rest;
      } else {
        assert Filter(xs, keep) == rest;
        SubsequenceSkip(rest, xs);
      }
    }
  }

  /** A kept row appears in the result as often as in the input, a dropped one not at all. */
  lemma {:induction false} FilterCounts<T>(xs: seq<T>, keep: T -> bool)
    ensures forall x :: multiset(Filter(xs, keep))[x] == (if keep(x) then multiset(xs)[x] else 0)
  {
    if xs != [] {
      FilterCounts(xs[1..], keep);
      assert xs == [xs[0]] + xs[1..];
      assert multiset(xs) == multiset([xs[0]]) + multiset(xs[1..]);
      assert Filter(xs, keep) == (if keep(xs[0]) then [xs[0]] else []) + Filter(xs[1..], keep);
    }
  }

  /** Masking distributes over concatenation, so no row moves across another. */
  lemma {:induction false} FilterAppend<T>(a: seq<T>, b: seq<T>, keep: T -> bool)
    ensures Filter(a + b, keep) == Filter(a, keep) + Filter(b, keep)
  {
    if a != [] {
      FilterAppend(a[1..], b, keep);
      assert (a + b)[1..] == a[1..] + b;
    } else {
      assert a + b == b;
    }
  }

  /** Applying the same mask twice changes nothing. */
  lemma {:induction false} FilterTwice<T>(xs: seq<T>, keep: T -> bool)
    ensures Filter(Filter(xs, keep), keep) == Filter(xs, keep)
  {
    if xs != [] {
      FilterTwice(xs[1..], keep);
      var rest := Filter(xs[1..], keep);
      if keep(xs[0]) {
        var ys := [xs[0]] + rest;
        assert Filter(xs, keep) == ys;
        assert ys[0] == xs[0] && ys[1..] == rest;
        assert Filter(ys, keep) == [xs[0]] + Filter(rest, keep);
      } else {
        assert Filter(xs, keep) == rest;
      }
    }
  }

  /** `Series.between(lo, hi)`: inclusive on both ends, and False for NaN. */
  predicate Between(v: Option<real>, lo: real, hi: real)
  {
    v.Some? && lo <= v.value <= hi
  }

  /** The three metrics the statistics accept. */
  datatype Metric = Down | Up | Rssi

  /** `metric not in ["down", "up", "rssi"]` raises. */
  function ParseMetric(name: string): (r: Result<Metric, Raised>)
  {
    if name == "down" then Ok(Down)
    else if name == "up" then Ok(Up)
    else if name == "rssi" then Ok(Rssi)
    else Err(ValueError("metric must be 'down', 'up', or 'rssi'"))
  }

  /** The column a metric names. */
  function Column(s: Sample, m: Metric): Option<real>
  {
    match m
    case Down => s.down
    case Up => s.up
    case Rssi => s.rssi
  }

  /** Only the three names are accepted, each for its own metric. */
  lemma {:induction false} ParseMetricAccepts(name: string)
    ensures ParseMetric(name).Ok? <==> name in ["down", "up", "rssi"]
    ensures ParseMetric(name) == Ok(Down) <==> name == "down"
    ensures ParseMetric(name) == Ok(Up) <==> name == "up"
    ensures ParseMetric(name) == Ok(Rssi) <==> name == "rssi"
  {
  }

  // ---------------------------------------------------------------- per-hour grouping

  /** One row of `groupby("hour")[metric].mean()`; the mean is NaN when the hour has no value of the metric. */
  datatype HourMean = HourMean(hour: Hour, mean: Option<real>)

  /** The rows of one hour. */
  function AtHour(rows: seq<Sample>, h: Hour): seq<Sample>
  {
    Filter(rows, (s: Sample) => s.hour == h)
  }

  /** The non-NaN values of a metric, in row order (what `mean()` skips NaN to). */
  function Values(rows: seq<Sample>, m: Metric): (vs: seq<real>)
    ensures |vs| <= |rows|
  {
    if rows == [] then []
    else (if Column(rows[0], m).Some? then [Column(rows[0], m).value] else []) + Values(rows[1..], m)
  }

  /** The mean of a metric over one hour's rows. */
  function GroupMean(rows: seq<Sample>, m: Metric, h: Hour): Option<real>
  {
    var vs := Values(AtHour(rows, h), m);
    if vs == [] then None else Some(Mean(vs))
  }

  /** The group of hour h: none when no sample was taken in it. */
  function Group(rows: seq<Sample>, m: Metric, h: Hour): (g: seq<HourMean>)
    ensures |g| <= 1 && forall e :: e in g ==> e.hour == h && e.mean == GroupMean(rows, m, h)
  {
    if AtHour(rows, h) != [] then [HourMean(h, GroupMean(rows, m, h))] else []
  }

  /** The groups for the hours from h on, in ascending order. */
  function StatsFrom(rows: seq<Sample>, m: Metric, h: nat): seq<HourMean>
    decreases 24 - h
  {
    if h >= 24 then [] else Group(rows, m, h) + StatsFrom(rows, m, h + 1)
  }

  /** A frame without rows has no groups. */
  lemma {:induction false} StatsFromNone(m: Metric, h: nat)
    ensures StatsFrom([], m, h) == []
    decreases 24 - h
  {
    if h < 24 {
      StatsFromNone(m, h + 1);
    }
  }

  /** Strictly ascending hours, all at least h. */
  predicate AscendingFrom(st: seq<HourMean>, h: nat)
  {
    (forall i :: 0 <= i < |st| ==> h <= st[i].hour)
    && forall i, j :: 0 <= i < j < |st| ==> st[i].hour < st[j].hour
  }

  /** `compute_hourly_stats`: the metric is checked first, then the rows are grouped by hour, sorted by hour. */
  function HourlyStats(rows: seq<Sample>, metric: string): Result<seq<HourMean>, Raised>
  {
    match ParseMetric(metric)
    case Err(e) => Err(e)
    case Ok(m) => Ok(StatsFrom(rows, m, 0))
  }

  /** The hours of a statistics table. */
  function StatHours(st: seq<HourMean>): set<Hour>
  {
    set e | e in st :: e.hour
  }

  /** The hours at which the samples were taken. */
  function SampledHours(rows: seq<Sample>): set<Hour>
  {
    set s | s in rows :: s.hour
  }

  /** An hour has rows exactly when some sample was taken in it. */
  lemma {:induction false} AtHourNonEmpty(rows: seq<Sample>, h: Hour)
    ensures AtHour(rows, h) != [] <==> h in SampledHours(rows)
  {
    var keep := (s: Sample) => s.hour == h;
    if AtHour(rows, h) != [] {
      FilterMembers(rows, keep, AtHour(rows, h)[0]);
    }
    if h in SampledHours(rows) {
      var s :| s in rows && s.hour == h;
      FilterMembers(rows, keep, s);
    }
  }

  /** The groups from hour h on are strictly ascending and all at h or later. */
  lemma {:induction false} StatsFromSorted(rows: seq<Sample>, m: Metric, h: nat)
    ensures AscendingFrom(StatsFrom(rows, m, h), h)
    decreases 24 - h
  {
    if h < 24 {
      StatsFromSorted(rows, m, h + 1);
      var g := Group(rows, m, h);
      assert g == [] || g[0].hour == h;
      AscendingPrepend(g, StatsFrom(rows, m, h + 1), h);
    }
  }

  /** At most one group of hour h in front of groups ascending from h + 1 keeps them ascending from h. */
  lemma {:induction false} AscendingPrepend(g: seq<HourMean>, rest: seq<HourMean>, h: nat)
    requires |g| <= 1 && (g == [] || g[0].hour == h) && AscendingFrom(rest, h + 1)
    ensures AscendingFrom(g + rest, h)
  {
    var st := g + rest;
    if g == [] {
      assert st == rest;
    } else {
      forall i, j | 0 <= i < j < |st|
        ensures st[i].hour < st[j].hour
      {
        assert st[j] == rest[j - 1];
        if i > 0 {
          assert st[i] == rest[i - 1];
        }
      }
      forall i | 0 <= i < |st|
        ensures h <= st[i].hour
      {
        if i > 0 {
          assert st[i] == rest[i - 1];
        }
      }
    }
  }

  /** Each group carries the mean of its own hour. */
  lemma {:induction false} StatsFromMeans(rows: seq<Sample>, m: Metric, h: nat)
    ensures forall e :: e in StatsFrom(rows, m, h) ==> e.mean == GroupMean(rows, m, e.hour)
    decreases 24 - h
  {
    if h < 24 {
      StatsFromMeans(rows, m, h + 1);
      assert StatsFrom(rows, m, h) == Group(rows, m, h) + StatsFrom(rows, m, h + 1);
    }
  }

  /** There is a group for exactly the hours from h on that have rows. */
  lemma {:induction false} StatsFromHours(rows: seq<Sample>, m: Metric, h: nat)
    ensures forall g: Hour :: g in StatHours(StatsFrom(rows, m, h)) <==> h <= g && AtHour(rows, g) != []
    decreases 24 - h
  {
    if h < 24 {
      StatsFromHours(rows, m, h + 1);
      var rest := StatsFrom(rows, m, h + 1);
      var st := StatsFrom(rows, m, h);
      assert st == Group(rows, m, h) + rest;
      if AtHour(rows, h) != [] {
        assert StatHours(st) == {h as Hour} + StatHours(rest);
      } else {
        assert st == rest;
      }
    }
  }

  /** The table has a row for exactly the hours at which samples were taken. */
  lemma {:induction false} StatsHoursSampled(rows: seq<Sample>, m: Metric)
    ensures StatHours(StatsFrom(rows, m, 0)) == SampledHours(rows)
  {
    StatsFromHours(rows, m, 0);
    forall g: Hour
      ensures g in StatHours(StatsFrom(rows, m, 0)) <==> g in SampledHours(rows)
    {
      AtHourNonEmpty(rows, g);
    }
  }

  /**
   * `compute_hourly_stats` rejects any other metric; for down, up and rssi it gives one row
   * per distinct hour of the input, in strictly ascending order, each the mean of that hour's values.
   */
  lemma {:induction false} HourlyStatsShape(rows: seq<Sample>, metric: string)
    ensures HourlyStats(rows, metric).Err? <==> metric !in ["down", "up", "rssi"]
    ensures HourlyStats(rows, metric).Ok? ==>
      var st := HourlyStats(rows, metric).value; var m := ParseMetric(metric).value;
      (forall i, j :: 0 <= i < j < |st| ==> st[i].hour < st[j].hour)
      && (forall e :: e in st ==> e.mean == GroupMean(rows, m, e.hour))
      && StatHours(st) == SampledHours(rows)
  {
    ParseMetricAccepts(metric);
    if ParseMetric(metric).Ok? {
      var m := ParseMetric(metric).value;
      StatsFromSorted(rows, m, 0);
      StatsFromMeans(rows, m, 0);
      StatsHoursSampled(rows, m);
    }
  }

  /** Each hourly mean lies between the least and the greatest value of the metric in that hour. */
  lemma {:induction false} GroupMeanBounds(rows: seq<Sample>, m: Metric, h: Hour, lo: real, hi: real)
    requires forall k :: 0 <= k < |rows| && rows[k].hour == h && Column(rows[k], m).Some? ==> lo <= Column(rows[k], m).value <= hi
    ensures GroupMean(rows, m, h).Some? ==> lo <= GroupMean(rows, m, h).value <= hi
  {
    var at := AtHour(rows, h);
    forall s | s in at
      ensures Column(s, m).Some? ==> lo <= Column(s, m).value <= hi
    {
      FilterMembers(rows, (s: Sample) => s.hour == h, s);
    }
    ValuesBounds(at, m, lo, hi);
    var vs := Values(at, m);
    if vs != [] {
      MeanAtLeast(vs, lo);
      MeanAtMost(vs, hi);
    }
  }

  /** The values of a metric inherit the bounds of the rows they come from. */
  lemma {:induction false} ValuesBounds(rows: seq<Sample>, m: Metric, lo: real, hi: real)
    requires forall s :: s in rows ==> Column(s, m).Some? ==> lo <= Column(s, m).value <= hi
    ensures forall i :: 0 <= i < |Values(rows, m)| ==> lo <= Values(rows, m)[i] <= hi
  {
    if rows != [] {
      ValuesBounds(rows[1..], m, lo, hi);
    }
  }
}
