/** The allocation timeline chart of the auto-allocator screen
    (crates/hyperqueue/src/dashboard/ui/screens/auto_allocator/alloc_timeline_chart.rs):
    the allocations of one queue are sampled once per second over the
    viewing window, classified as queued, running or finished, and the
    samples are grouped per allocation. Drawing is not modelled. */
module AllocTimelineChart {
  import opened Common
  import opened Events

  /** `AllocState`. */
  datatype AllocState = Queued | Running | Finished

  /** The two times of `alloc_timeline::AllocationInfo` that the charts read;
      the allocation timeline itself is not part of this model. */
  datatype AllocationInfo = AllocationInfo(startTime: Option<Time>, finishTime: Option<Time>)

  /** `AllocationInfoPoint`: an allocation's state at a sampled time. */
  datatype AllocationInfoPoint = AllocationInfoPoint(currentState: AllocState, time: Time)

  /** `AllocationsChartData`. */
  datatype ChartData = ChartData(
    allocationRecords: map<AllocationId, seq<AllocationInfoPoint>>,
    maxTime: Time,
    viewSize: Duration)

  /** `data.query_allocations_info_at(query_descriptor, time)` for the queue
      the chart shows: the allocations known at a time, if the queue exists. */
  type AllocQuery = Time -> Option<map<AllocationId, AllocationInfo>>

  /** How a chart turns an allocation into a state at a sampled time. */
  type Classifier = (AllocationInfo, Time) -> AllocState

  /** `AllocationsChartData::default()` with `SystemTime::now()` as `now`. */
  function DefaultChartData(now: Time): (c: ChartData)
    ensures c.viewSize == Seconds(600) && |c.allocationRecords| == 0 && c.maxTime == now
  {
    ChartData(map[], now, Seconds(600))
  }

  /** `get_alloc_state`: an allocation counts as started or finished only
      strictly before the query time; finishing wins over starting. */
  function GetAllocState(info: AllocationInfo, queryTime: Time): (r: AllocState)
    ensures r == Finished <==> info.finishTime.Some? && info.finishTime.value < queryTime
    ensures r == Running <==>
              && info.startTime.Some? && info.startTime.value < queryTime
              && !(info.finishTime.Some? && info.finishTime.value < queryTime)
    ensures r == Queued <==>
              && !(info.startTime.Some? && info.startTime.value < queryTime)
              && !(info.finishTime.Some? && info.finishTime.value < queryTime)
  {
    var hasStarted := info.startTime.Some? && info.startTime.value < queryTime;
    var hasFinished := match info.finishTime
      case None => false
      case Some(finishTime) => finishTime < queryTime;
    if hasStarted && !hasFinished then Running
    else if hasFinished then Finished
    else Queued
  }

  /** Queued, running and finished, in the order an allocation passes through them. */
  function Rank(s: AllocState): nat {
    match s
    case Queued => 0
    case Running => 1
    case Finished => 2
  }

  /** Sampled later, an allocation is never in an earlier state. */
  lemma AllocStateMonotone(info: AllocationInfo, q1: Time, q2: Time)
    requires q1 <= q2
    ensures Rank(GetAllocState(info, q1)) <= Rank(GetAllocState(info, q2))
  {
  }

  /** The times `update` queries: its loop adds one second BEFORE each query,
      so the first query is one second after the window starts and the last
      one lies up to one second after `max_time`. */
  function QueryTimes(maxTime: Time, viewSize: Duration): (r: seq<Time>)
    ensures r != []
    ensures forall k :: 0 <= k < |r| ==> r[k] == maxTime - viewSize + (k + 1) * NanosPerSecond
    ensures maxTime < r[|r| - 1] <= maxTime + NanosPerSecond
  {
    SecondTicks(maxTime - viewSize + NanosPerSecond, maxTime + NanosPerSecond)
  }

  /** Times in strictly increasing order. */
  predicate Increasing(times: seq<Time>) {
    forall i, j :: 0 <= i < j < |times| ==> times[i] < times[j]
  }

  lemma QueryTimesIncreasing(maxTime: Time, viewSize: Duration)
    ensures Increasing(QueryTimes(maxTime, viewSize))
  {
  }

  /** The points one query yields, keyed by allocation. */
  function PointsAt(m: map<AllocationId, AllocationInfo>, t: Time, classify: Classifier): map<AllocationId, AllocationInfoPoint> {
    map id | id in m :: AllocationInfoPoint(classify(m[id], t), t)
  }

  /** The `(id, point)` pairs of one query, in the (unspecified) order of the
      returned map. */
  ghost function Batch(query: AllocQuery, t: Time, classify: Classifier): (r: seq<(AllocationId, AllocationInfoPoint)>)
    // one point per reported allocation, each stamped with the query time
    ensures query(t).None? ==> r == []
    ensures query(t).Some? ==> |r| == |query(t).value|
    ensures forall i :: 0 <= i < |r| ==> r[i].1.time == t
  {
    match query(t)
    case None => []
    case Some(m) =>
      var points := PointsAt(m, t, classify);
      assert points.Keys == m.Keys;
      assert |points| == |points.Keys| == |m.Keys| == |m|;
      var r := Enumerate(points);
      assert forall i :: 0 <= i < |r| ==> r[i].1.time == t by {
        forall i | 0 <= i < |r| ensures r[i].1.time == t {
          EnumeratedPointTime(points, t, i);
        }
      }
      r
  }

  /** Every point of one query's batch carries that query's time. */
  lemma EnumeratedPointTime(points: map<AllocationId, AllocationInfoPoint>, t: Time, i: nat)
    requires forall id :: id in points ==> points[id].time == t
    requires i < |Enumerate(points)|
    ensures Enumerate(points)[i].1.time == t
  {
    var r := Enumerate(points);
    var id := r[i].0;
    ValuesForHas(r, i);
    assert ValuesFor(r, id) == if id in points then [points[id]] else [];
  }

  /** `all_time_allocs`: the batches of all query times, in query order.
      Every collected point is stamped with one of the query times. */
  ghost function CollectPoints(query: AllocQuery, times: seq<Time>, classify: Classifier): (r: seq<(AllocationId, AllocationInfoPoint)>)
    ensures forall i :: 0 <= i < |r| ==> r[i].1.time in times
    decreases |times|
  {
    if times == [] then []
    else
      var here := Batch(query, times[0], classify);
      var rest := CollectPoints(query, times[1..], classify);
      StampedWithin(here, rest, times);
      here + rest
  }

  /** Points stamped with the first time, followed by points stamped with
      later times, are all stamped with one of the times. */
  lemma StampedWithin(here: seq<(AllocationId, AllocationInfoPoint)>, rest: seq<(AllocationId, AllocationInfoPoint)>, times: seq<Time>)
    requires times != []
    requires forall i :: 0 <= i < |here| ==> here[i].1.time == times[0]
    requires forall i :: 0 <= i < |rest| ==> rest[i].1.time in times[1..]
    ensures forall i :: 0 <= i < |here + rest| ==> (here + rest)[i].1.time in times
  {
    var r := here + rest;
    forall i | 0 <= i < |r| ensures r[i].1.time in times {
      if i < |here| {
        assert r[i] == here[i];
      } else {
        assert r[i] == rest[i - |here|];
        var k :| 0 <= k < |times[1..]| && times[1..][k] == r[i].1.time;
        assert times[k + 1] == r[i].1.time;
      }
    }
  }

  /** The point one query gives allocation `id`, if it reports it. */
  function SightingAt(query: AllocQuery, t: Time, id: AllocationId, classify: Classifier): (r: seq<AllocationInfoPoint>)
    ensures |r| <= 1
  {
    match query(t)
    case Some(m) => if id in m then [AllocationInfoPoint(classify(m[id], t), t)] else []
    case None => []
  }

  /** Reference meaning of a chart row: one point for each query time at
      which the queue reports allocation `id`, in query order. */
  function Sightings(query: AllocQuery, times: seq<Time>, id: AllocationId, classify: Classifier): seq<AllocationInfoPoint>
    decreases |times|
  {
    if times == [] then []
    else SightingAt(query, times[0], id, classify) + Sightings(query, times[1..], id, classify)
  }

  /** One query contributes at most one point per allocation. */
  lemma BatchValues(query: AllocQuery, t: Time, classify: Classifier, id: AllocationId)
    ensures ValuesFor(Batch(query, t, classify), id) == SightingAt(query, t, id, classify)
  {
  }

  lemma {:induction false} CollectPointsSightings(query: AllocQuery, times: seq<Time>, classify: Classifier, id: AllocationId)
    ensures ValuesFor(CollectPoints(query, times, classify), id) == Sightings(query, times, id, classify)
    decreases |times|
  {
    if times != [] {
      BatchValues(query, times[0], classify, id);
      ValuesForAppend(Batch(query, times[0], classify), CollectPoints(query, times[1..], classify), id);
      CollectPointsSightings(query, times[1..], classify, id);
    }
  }

  /** `AllocationsChart::update` at time `now`: the old records are dropped,
      and every allocation the queue reports at some query time gets exactly
      its sightings, in query order. */
  ghost function Update(c: ChartData, query: AllocQuery, now: Time): (r: ChartData)
    ensures r.maxTime == now && r.viewSize == c.viewSize
    ensures forall id :: id in r.allocationRecords <==>
              Sightings(query, QueryTimes(now, c.viewSize), id, GetAllocState) != []
    ensures forall id :: id in r.allocationRecords ==>
              r.allocationRecords[id] == Sightings(query, QueryTimes(now, c.viewSize), id, GetAllocState)
  {
    var times := QueryTimes(now, c.viewSize);
    var all := CollectPoints(query, times, GetAllocState);
    assert forall id :: ValuesFor(all, id) == Sightings(query, times, id, GetAllocState) by {
      forall id ensures ValuesFor(all, id) == Sightings(query, times, id, GetAllocState) {
        CollectPointsSightings(query, times, GetAllocState, id);
      }
    }
    ChartData(GroupFrom(map[], all), now, c.viewSize)
  }

  /** Points in strictly increasing time order. */
  predicate Chronological(points: seq<AllocationInfoPoint>) {
    forall i, j :: 0 <= i < j < |points| ==> points[i].time < points[j].time
  }

  /** `p` is what the chart records for allocation `id` at one of `times`. */
  ghost predicate SampledAt(p: AllocationInfoPoint, query: AllocQuery, times: seq<Time>, id: AllocationId, classify: Classifier) {
    exists i :: 0 <= i < |times| && p.time == times[i] &&
      query(times[i]).Some? && id in query(times[i]).value &&
      p.currentState == classify(query(times[i]).value[id], times[i])
  }

  /** Every point of a row was sampled at one of the query times and carries
      the state of its allocation at that time, and the row is in increasing
      time order. */
  lemma {:induction false} SightingsInOrder(query: AllocQuery, times: seq<Time>, id: AllocationId, classify: Classifier)
    requires Increasing(times)
    ensures Chronological(Sightings(query, times, id, classify))
    ensures forall p :: p in Sightings(query, times, id, classify) ==> SampledAt(p, query, times, id, classify)
    decreases |times|
  {
    if times != [] {
      var t := times[0];
      var tail := times[1..];
      assert Increasing(tail);
      SightingsInOrder(query, tail, id, classify);
      var rest := Sightings(query, tail, id, classify);
      forall p | p in rest
        ensures t < p.time
        ensures SampledAt(p, query, times, id, classify)
      {
        assert SampledAt(p, query, tail, id, classify);
        var i :| 0 <= i < |tail| && p.time == tail[i] &&
                 query(tail[i]).Some? && id in query(tail[i]).value &&
                 p.currentState == classify(query(tail[i]).value[id], tail[i]);
        assert tail[i] == times[i + 1];
      }
      if query(t).Some? && id in query(t).value {
        var pt := AllocationInfoPoint(classify(query(t).value[id], t), t);
        assert Sightings(query, times, id, classify) == [pt] + rest;
        assert SampledAt(pt, query, times, id, classify) by {
          assert pt.time == times[0];
        }
        PrependChronological(pt, rest);
      } else {
        assert Sightings(query, times, id, classify) == rest;
      }
    }
  }

  lemma PrependChronological(p: AllocationInfoPoint, rest: seq<AllocationInfoPoint>)
    requires Chronological(rest)
    requires forall q :: q in rest ==> p.time < q.time
    ensures Chronological([p] + rest)
  {
    var s := [p] + rest;
    forall i, j | 0 <= i < j < |s| ensures s[i].time < s[j].time {
      assert s[j] == rest[j - 1];
      if i > 0 {
        assert s[i] == rest[i - 1];
      }
    }
  }

  /** Each row of an updated chart is in increasing time order. */
  lemma RecordsChronological(c: ChartData, query: AllocQuery, now: Time, id: AllocationId)
    ensures var records := Update(c, query, now).allocationRecords;
            id in records ==> Chronological(records[id])
  {
    QueryTimesIncreasing(now, c.viewSize);
    SightingsInOrder(query, QueryTimes(now, c.viewSize), id, GetAllocState);
  }

  /** `update` clears the records first: what it shows does not depend on
      what the chart showed before. */
  lemma UpdateForgetsOldRecords(c1: ChartData, c2: ChartData, query: AllocQuery, now: Time)
    requires c1.viewSize == c2.viewSize
    ensures Update(c1, query, now) == Update(c2, query, now)
  {
    var r1 := Update(c1, query, now).allocationRecords;
    var r2 := Update(c2, query, now).allocationRecords;
    assert r1.Keys == r2.Keys;
  }
}
