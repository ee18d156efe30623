/** The utilization chart widget of the dashboard
    (crates/hyperqueue/src/dashboard/ui/widgets/chart.rs): a list of data
    fetchers is sampled once per second over the viewing window, and the
    points they return are grouped into one plot per key. Drawing is not
    modelled. */
module UtilChart {
  import opened Common
  import DashboardData

  /** An `(x, y)` point of a plot; its coordinates are never inspected. */
  type PlotPoint = (real, real)

  /** `tui::style::Color`, kept opaque. */
  type Color = nat

  /** `ChartDatapoint`. */
  datatype ChartDatapoint = ChartDatapoint(key: string, data: PlotPoint, color: Color)

  /** A `Box<dyn DataFetcher>`, represented by what its `fetch_datapoint`
      returns for the dashboard data at a time. */
  datatype DataFetcher = DataFetcher(fetchDatapoint: (DashboardData.Data, Time) -> Option<ChartDatapoint>)

  /** `UtilChart`. */
  datatype Chart = Chart(
    dataFetchers: seq<DataFetcher>,
    datasets: map<string, seq<PlotPoint>>,
    endTime: Time,
    viewSize: Duration)

  /** `UtilChart::default()` with `SystemTime::now()` as `now`: no fetchers,
      nothing plotted, a five-minute window. */
  function Default(now: Time): (c: Chart)
    ensures |c.dataFetchers| == 0 && |c.datasets| == 0
    ensures c.endTime == now && c.viewSize == Seconds(300)
  {
    Chart([], map[], now, Seconds(300))
  }

  /** `UtilChart::add_data_fetcher`: the fetcher is appended after the
      existing ones, and nothing else changes. */
  function AddDataFetcher(c: Chart, f: DataFetcher): (r: Chart)
    ensures |r.dataFetchers| == |c.dataFetchers| + 1
    ensures r.dataFetchers[..|c.dataFetchers|] == c.dataFetchers
    ensures r.dataFetchers[|c.dataFetchers|] == f
    ensures r.datasets == c.datasets && r.endTime == c.endTime && r.viewSize == c.viewSize
  {
    c.(dataFetchers := c.dataFetchers + [f])
  }

  /** The times `update` samples: from the window start, once per second,
      up to and including `end_time` when it falls on a whole second. */
  function SampleTimes(endTime: Time, viewSize: Duration): (r: seq<Time>)
    ensures r != [] && r[0] == endTime - viewSize
    ensures forall k :: 0 <= k < |r| ==> r[k] == endTime - viewSize + k * NanosPerSecond
    ensures r[|r| - 1] <= endTime < r[|r| - 1] + NanosPerSecond
  {
    SecondTicks(endTime - viewSize, endTime)
  }

  /** A window of `n` whole seconds is sampled `n + 1` times. */
  lemma SampleCount(endTime: Time, n: nat)
    ensures |SampleTimes(endTime, Seconds(n))| == n + 1
  {
    var r := SampleTimes(endTime, Seconds(n));
    var last := |r| - 1;
    assert r[last] == endTime - n * NanosPerSecond + last * NanosPerSecond;
  }

  /** The `(key, data)` pairs the fetchers return at time `t`, in fetcher
      order (`filter_map` then `map`). */
  function FetchAt(fetchers: seq<DataFetcher>, data: DashboardData.Data, t: Time): (r: seq<(string, PlotPoint)>)
    // each fetcher contributes at most one point
    ensures |r| <= |fetchers|
    decreases |fetchers|
  {
    if fetchers == [] then []
    else
      var here := match fetchers[0].fetchDatapoint(data, t)
        case Some(p) => [(p.key, p.data)]
        case None => [];
      here + FetchAt(fetchers[1..], data, t)
  }

  /** The `flat_map` over the sampled times. */
  function Collect(fetchers: seq<DataFetcher>, data: DashboardData.Data, times: seq<Time>): (r: seq<(string, PlotPoint)>)
    // at most one point per fetcher and sampled time
    ensures |r| <= |fetchers| * |times|
    decreases |times|
  {
    if times == [] then []
    else
      var rest := Collect(fetchers, data, times[1..]);
      assert |fetchers| * |times| == |fetchers| + |fetchers| * |times[1..]|;
      FetchAt(fetchers, data, times[0]) + rest
  }

  /** Reference meaning of one plot at one time: the data of the fetchers
      that return a point with this key, in fetcher order. */
  function KeyPointsAt(fetchers: seq<DataFetcher>, data: DashboardData.Data, t: Time, key: string): seq<PlotPoint>
    decreases |fetchers|
  {
    if fetchers == [] then []
    else
      var here := match fetchers[0].fetchDatapoint(data, t)
        case Some(p) => if p.key == key then [p.data] else []
        case None => [];
      here + KeyPointsAt(fetchers[1..], data, t, key)
  }

  /** Reference meaning of one plot: its points at each sampled time, in time
      order. */
  function KeyPoints(fetchers: seq<DataFetcher>, data: DashboardData.Data, times: seq<Time>, key: string): seq<PlotPoint>
    decreases |times|
  {
    if times == [] then []
    else KeyPointsAt(fetchers, data, times[0], key) + KeyPoints(fetchers, data, times[1..], key)
  }

  /** Some fetcher returns a point with key `key` at time `t`. */
  ghost predicate FetchesKeyAt(fetchers: seq<DataFetcher>, data: DashboardData.Data, t: Time, key: string) {
    exists i :: 0 <= i < |fetchers| &&
      fetchers[i].fetchDatapoint(data, t).Some? && fetchers[i].fetchDatapoint(data, t).value.key == key
  }

  lemma {:induction false} FetchAtKeyPoints(fetchers: seq<DataFetcher>, data: DashboardData.Data, t: Time, key: string)
    ensures ValuesFor(FetchAt(fetchers, data, t), key) == KeyPointsAt(fetchers, data, t, key)
    decreases |fetchers|
  {
    if fetchers != [] {
      var here := match fetchers[0].fetchDatapoint(data, t)
        case Some(p) => [(p.key, p.data)]
        case None => [];
      ValuesForAppend(here, FetchAt(fetchers[1..], data, t), key);
      FetchAtKeyPoints(fetchers[1..], data, t, key);
    }
  }

  lemma {:induction false} CollectKeyPoints(fetchers: seq<DataFetcher>, data: DashboardData.Data, times: seq<Time>, key: string)
    ensures ValuesFor(Collect(fetchers, data, times), key) == KeyPoints(fetchers, data, times, key)
    decreases |times|
  {
    if times != [] {
      ValuesForAppend(FetchAt(fetchers, data, times[0]), Collect(fetchers, data, times[1..]), key);
      FetchAtKeyPoints(fetchers, data, times[0], key);
      CollectKeyPoints(fetchers, data, times[1..], key);
    }
  }

  lemma {:induction false} KeyPointsAtNonEmpty(fetchers: seq<DataFetcher>, data: DashboardData.Data, t: Time, key: string)
    ensures KeyPointsAt(fetchers, data, t, key) != [] <==> FetchesKeyAt(fetchers, data, t, key)
    decreases |fetchers|
  {
    if fetchers != [] {
      var tail := fetchers[1..];
      KeyPointsAtNonEmpty(tail, data, t, key);
      if FetchesKeyAt(tail, data, t, key) {
        var i :| 0 <= i < |tail| &&
          tail[i].fetchDatapoint(data, t).Some? && tail[i].fetchDatapoint(data, t).value.key == key;
        assert tail[i] == fetchers[i + 1];
      }
      if FetchesKeyAt(fetchers, data, t, key) {
        var i :| 0 <= i < |fetchers| &&
          fetchers[i].fetchDatapoint(data, t).Some? && fetchers[i].fetchDatapoint(data, t).value.key == key;
        if i > 0 {
          assert fetchers[i] == tail[i - 1];
        }
      }
    }
  }

  lemma {:induction false} KeyPointsNonEmpty(fetchers: seq<DataFetcher>, data: DashboardData.Data, times: seq<Time>, key: string)
    ensures KeyPoints(fetchers, data, times, key) != [] <==>
            exists k :: 0 <= k < |times| && FetchesKeyAt(fetchers, data, times[k], key)
    decreases |times|
  {
    if times != [] {
      var tail := times[1..];
      KeyPointsAtNonEmpty(fetchers, data, times[0], key);
      KeyPointsNonEmpty(fetchers, data, tail, key);
      if exists k :: 0 <= k < |tail| && FetchesKeyAt(fetchers, data, tail[k], key) {
        var k :| 0 <= k < |tail| && FetchesKeyAt(fetchers, data, tail[k], key);
        assert tail[k] == times[k + 1];
      }
      if exists k :: 0 <= k < |times| && FetchesKeyAt(fetchers, data, times[k], key) {
        var k :| 0 <= k < |times| && FetchesKeyAt(fetchers, data, times[k], key);
        if k > 0 {
          assert times[k] == tail[k - 1];
        }
      }
    }
  }

  /** `UtilChart::update` at time `now`: the old plots are dropped, and each
      key gets exactly its reference points over the sampled window. */
  function Update(c: Chart, data: DashboardData.Data, now: Time): (r: Chart)
    ensures r.endTime == now && r.viewSize == c.viewSize && r.dataFetchers == c.dataFetchers
    ensures forall key :: key in r.datasets <==>
              KeyPoints(c.dataFetchers, data, SampleTimes(now, c.viewSize), key) != []
    ensures forall key :: key in r.datasets ==>
              r.datasets[key] == KeyPoints(c.dataFetchers, data, SampleTimes(now, c.viewSize), key)
  {
    var times := SampleTimes(now, c.viewSize);
    var pairs := Collect(c.dataFetchers, data, times);
    assert forall key :: ValuesFor(pairs, key) == KeyPoints(c.dataFetchers, data, times, key) by {
      forall key ensures ValuesFor(pairs, key) == KeyPoints(c.dataFetchers, data, times, key) {
        CollectKeyPoints(c.dataFetchers, data, times, key);
      }
    }
    Chart(c.dataFetchers, GroupFrom(map[], pairs), now, c.viewSize)
  }

  /** A key is plotted exactly when some fetcher returns a point with that
      key at some sampled time. */
  lemma KeyPlotted(c: Chart, data: DashboardData.Data, now: Time, key: string)
    ensures key in Update(c, data, now).datasets <==>
            exists k :: 0 <= k < |SampleTimes(now, c.viewSize)| &&
              FetchesKeyAt(c.dataFetchers, data, SampleTimes(now, c.viewSize)[k], key)
  {
    KeyPointsNonEmpty(c.dataFetchers, data, SampleTimes(now, c.viewSize), key);
  }

  lemma FetchesKeyAtAppend(fetchers: seq<DataFetcher>, f: DataFetcher, data: DashboardData.Data, t: Time, key: string)
    requires FetchesKeyAt(fetchers, data, t, key)
    ensures FetchesKeyAt(fetchers + [f], data, t, key)
  {
    var i :| 0 <= i < |fetchers| &&
      fetchers[i].fetchDatapoint(data, t).Some? && fetchers[i].fetchDatapoint(data, t).value.key == key;
    assert (fetchers + [f])[i] == fetchers[i];
  }

  /** Adding a fetcher never removes a plot. */
  lemma AddFetcherKeepsPlots(c: Chart, f: DataFetcher, data: DashboardData.Data, now: Time, key: string)
    requires key in Update(c, data, now).datasets
    ensures key in Update(AddDataFetcher(c, f), data, now).datasets
  {
    var times := SampleTimes(now, c.viewSize);
    KeyPlotted(c, data, now, key);
    var k :| 0 <= k < |times| && FetchesKeyAt(c.dataFetchers, data, times[k], key);
    FetchesKeyAtAppend(c.dataFetchers, f, data, times[k], key);
    assert AddDataFetcher(c, f).dataFetchers == c.dataFetchers + [f];
    KeyPlotted(AddDataFetcher(c, f), data, now, key);
  }

  /** A chart without fetchers plots nothing, however often it is updated. */
  lemma DefaultPlotsNothing(created: Time, data: DashboardData.Data, now: Time)
    ensures |Update(Default(created), data, now).datasets| == 0
  {
    var c := Default(created);
    var r := Update(c, data, now);
    forall key ensures key !in r.datasets {
      KeyPlotted(c, data, now, key);
    }
    assert r.datasets.Keys == {};
  }
}
