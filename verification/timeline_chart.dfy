/** The older allocation chart widget of the dashboard
    (crates/hyperqueue/src/dashboard/ui/widgets/timeline_chart/timeline_chart.rs):
    it keeps only the latest point per allocation, classifies allocations
    without looking at the sampled time, and extends its records rather than
    replacing them. Drawing is not modelled. */
module TimelineChart {
  import opened Common
  import opened Events
  import A = AllocTimelineChart

  /** `AllocationsChartData` of this chart: one point per allocation. */
  datatype ChartData = ChartData(
    allocationRecords: map<AllocationId, A.AllocationInfoPoint>,
    maxTime: Time)

  /** `AllocationsChart`. */
  datatype Chart = Chart(chartData: ChartData, viewSize: Duration)

  /** `AllocationsChart::default()` with `SystemTime::now()` as `now`. */
  function Default(now: Time): (c: Chart)
    ensures c.viewSize == Seconds(300)
    ensures |c.chartData.allocationRecords| == 0 && c.chartData.maxTime == now
  {
    Chart(ChartData(map[], now), Seconds(300))
  }

  /** The state this chart gives an allocation: a start time makes it
      running, a finish time as well makes it finished; neither is compared
      with the sampled time. */
  function Classify(info: A.AllocationInfo): (r: A.AllocState)
    ensures r == A.Queued <==> info.startTime.None?
    ensures r == A.Running <==> info.startTime.Some? && info.finishTime.None?
    ensures r == A.Finished <==> info.startTime.Some? && info.finishTime.Some?
  {
    match info.startTime
    case None => A.Queued
    case Some(_) =>
      match info.finishTime
      case None => A.Running
      case Some(_) => A.Finished
  }

  /** `Classify` as a classifier of sampled allocations. */
  function ClassifyAt(info: A.AllocationInfo, t: Time): A.AllocState {
    Classify(info)
  }

  /** For an allocation whose recorded times all lie strictly before the
      query time, and which did not finish without starting, both charts
      agree on its state. */
  lemma ClassifyAgreesWithGetAllocState(info: A.AllocationInfo, q: Time)
    requires info.startTime.Some? ==> info.startTime.value < q
    requires info.finishTime.Some? ==> info.startTime.Some? && info.finishTime.value < q
    ensures Classify(info) == A.GetAllocState(info, q)
  {
  }

  /** Outside those conditions they differ: an allocation starting exactly at
      the query time, and one finishing without a start time. */
  lemma ClassifyDiffersFromGetAllocState(q: Time)
    ensures Classify(A.AllocationInfo(Some(q), None)) == A.Running
    ensures A.GetAllocState(A.AllocationInfo(Some(q), None), q) == A.Queued
    ensures Classify(A.AllocationInfo(None, Some(q - 1))) == A.Queued
    ensures A.GetAllocState(A.AllocationInfo(None, Some(q - 1)), q) == A.Finished
  {
  }

  /** The `extend` calls of `update`, one per query time in query order. */
  ghost function ExtendAll(records: map<AllocationId, A.AllocationInfoPoint>, query: A.AllocQuery, times: seq<Time>): (r: map<AllocationId, A.AllocationInfoPoint>)
    // an allocation, once recorded, stays recorded
    ensures records.Keys <= r.Keys
    decreases |times|
  {
    if times == [] then records
    else ExtendAll(ExtendFrom(records, A.Batch(query, times[0], ClassifyAt)), query, times[1..])
  }

  /** The last point the queue reports for allocation `id` over `times`. */
  function LatestSighting(query: A.AllocQuery, times: seq<Time>, id: AllocationId): Option<A.AllocationInfoPoint> {
    var s := A.Sightings(query, times, id, ClassifyAt);
    if s == [] then None else Some(s[|s| - 1])
  }

  /** After all extensions an allocation holds its latest sighting, or its
      old point when it was not sighted. */
  lemma {:induction false} ExtendAllLatest(records: map<AllocationId, A.AllocationInfoPoint>, query: A.AllocQuery, times: seq<Time>, id: AllocationId)
    ensures var r := ExtendAll(records, query, times);
            var latest := LatestSighting(query, times, id);
            && (id in r <==> id in records || latest.Some?)
            && (latest.Some? ==> r[id] == latest.value)
            && (latest.None? && id in records ==> r[id] == records[id])
    decreases |times|
  {
    if times != [] {
      var batch := A.Batch(query, times[0], ClassifyAt);
      var next := ExtendFrom(records, batch);
      A.BatchValues(query, times[0], ClassifyAt, id);
      ExtendFromLastWins(records, batch, id);
      ExtendAllLatest(next, query, times[1..], id);
      LatestSightingStep(query, times, id);
    }
  }

  /** The latest sighting over `times` is the one over its tail, or else the
      one contributed by its first query. */
  lemma LatestSightingStep(query: A.AllocQuery, times: seq<Time>, id: AllocationId)
    requires times != []
    ensures var here := A.SightingAt(query, times[0], id, ClassifyAt);
            var later := LatestSighting(query, times[1..], id);
            LatestSighting(query, times, id) ==
              if later.Some? then later else if here != [] then Some(here[0]) else None
  {
    var here := A.SightingAt(query, times[0], id, ClassifyAt);
    var rest := A.Sightings(query, times[1..], id, ClassifyAt);
    var all := A.Sightings(query, times, id, ClassifyAt);
    assert all == here + rest;
    if rest != [] {
      assert all[|all| - 1] == rest[|rest| - 1];
    }
  }

  /** `AllocationsChart::update`: queries the same times as the newer chart
      (from one second after the window start to at most one second past
      `max_time`), and each allocation sighted keeps its latest point; the
      others keep what they had, and `max_time` stays where it was. */
  ghost function Update(c: Chart, query: A.AllocQuery): (r: Chart)
    ensures r.viewSize == c.viewSize && r.chartData.maxTime == c.chartData.maxTime
    ensures forall id :: id in r.chartData.allocationRecords <==>
              || id in c.chartData.allocationRecords
              || LatestSighting(query, A.QueryTimes(c.chartData.maxTime, c.viewSize), id).Some?
    ensures forall id :: id in r.chartData.allocationRecords ==>
              r.chartData.allocationRecords[id] ==
                if LatestSighting(query, A.QueryTimes(c.chartData.maxTime, c.viewSize), id).Some?
                then LatestSighting(query, A.QueryTimes(c.chartData.maxTime, c.viewSize), id).value
                else c.chartData.allocationRecords[id]
  {
    var times := A.QueryTimes(c.chartData.maxTime, c.viewSize);
    var records := ExtendAll(c.chartData.allocationRecords, query, times);
    assert forall id :: id in records <==> id in c.chartData.allocationRecords || LatestSighting(query, times, id).Some? by {
      forall id ensures id in records <==> id in c.chartData.allocationRecords || LatestSighting(query, times, id).Some? {
        ExtendAllLatest(c.chartData.allocationRecords, query, times, id);
      }
    }
    assert forall id :: id in records ==>
             records[id] == if LatestSighting(query, times, id).Some? then LatestSighting(query, times, id).value
                            else c.chartData.allocationRecords[id] by {
      forall id | id in records
        ensures records[id] == if LatestSighting(query, times, id).Some? then LatestSighting(query, times, id).value
                               else c.chartData.allocationRecords[id]
      {
        ExtendAllLatest(c.chartData.allocationRecords, query, times, id);
      }
    }
    Chart(ChartData(records, c.chartData.maxTime), c.viewSize)
  }

  /** Since `update` never moves `max_time`, updating again against the same
      data changes nothing. */
  lemma UpdateIdempotent(c: Chart, query: A.AllocQuery)
    ensures Update(Update(c, query), query) == Update(c, query)
  {
    var once := Update(c, query);
    var twice := Update(once, query);
    assert twice.chartData.allocationRecords.Keys == once.chartData.allocationRecords.Keys;
    assert twice.chartData.allocationRecords == once.chartData.allocationRecords;
  }

  /** Records are never dropped: an allocation shown stays shown. */
  lemma UpdateNeverForgets(c: Chart, query: A.AllocQuery, id: AllocationId)
    requires id in c.chartData.allocationRecords
    ensures id in Update(c, query).chartData.allocationRecords
  {
  }
}
