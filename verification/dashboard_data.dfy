/** The dashboard's data store (crates/hyperqueue/src/dashboard/data/mod.rs):
    batches of monitoring events, fetched by polling, are sorted by time and
    handed to the timelines, and the id of the newest event seen becomes the
    cursor of the next poll. */
module DashboardData {
  import opened Common
  import opened Events
  import JobTimeline

  /** `DashboardData`. The worker and allocation timelines are not part of
      this model; each is represented by the events it has been handed. */
  datatype Data = Data(
    fetchedUntil: Option<U32>,
    workerTimelineEvents: seq<MonitoringEvent>,
    tasksTimeline: JobTimeline.Timeline,
    allocTimelineEvents: seq<MonitoringEvent>)

  /** `DashboardData::default()`: nothing fetched yet. */
  function Default(): (d: Data)
    ensures d.fetchedUntil.None? && |d.tasksTimeline| == 0
    ensures |d.workerTimelineEvents| == 0 && |d.allocTimelineEvents| == 0
  {
    Data(None, [], map[], [])
  }

  /** `DashboardData::last_fetched_id`: the `after_id` of the next poll. */
  function LastFetchedId(d: Data): (r: Option<U32>)
    ensures r == d.fetchedUntil
  {
    d.fetchedUntil
  }

  /** Inserts `e` into a time-sorted sequence after all events not later
      than it. */
  function InsertByTime(e: MonitoringEvent, sorted: seq<MonitoringEvent>): (r: seq<MonitoringEvent>)
    requires SortedByTime(sorted)
    ensures SortedByTime(r)
    ensures multiset(r) == multiset(sorted) + multiset{e}
    ensures |r| == |sorted| + 1
    ensures r != [] && (r[0] == e || (sorted != [] && r[0] == sorted[0]))
    decreases |sorted|
  {
    if sorted == [] || e.time < sorted[0].time then
      [e] + sorted
    else
      var rest := InsertByTime(e, sorted[1..]);
      assert sorted == [sorted[0]] + sorted[1..];
      PrependSorted(sorted[0], rest);
      [sorted[0]] + rest
  }

  /** An event no later than the first of a time-sorted sequence keeps it
      sorted when put in front. */
  lemma PrependSorted(e: MonitoringEvent, sorted: seq<MonitoringEvent>)
    requires SortedByTime(sorted)
    requires sorted != [] ==> e.time <= sorted[0].time
    ensures SortedByTime([e] + sorted)
  {
    var r := [e] + sorted;
    forall i, j | 0 <= i < j < |r| ensures r[i].time <= r[j].time {
      if i == 0 {
        assert r[j] == sorted[j - 1];
      } else {
        assert r[i] == sorted[i - 1] && r[j] == sorted[j - 1];
      }
    }
  }

  /** A time-sorted permutation of `events` (insertion sort). */
  function SortByTime(events: seq<MonitoringEvent>): (r: seq<MonitoringEvent>)
    ensures SortedByTime(r)
    ensures multiset(r) == multiset(events)
    decreases |events|
  {
    if events == [] then []
    else
      assert events == [events[0]] + events[1..];
      InsertByTime(events[0], SortByTime(events[1..]))
  }

  /** `sort_unstable_by_key(|e| e.time())` may put events of equal time in
      any order: every time-sorted permutation is a possible outcome. */
  ghost predicate IsSortedPermutation(sorted: seq<MonitoringEvent>, events: seq<MonitoringEvent>) {
    SortedByTime(sorted) && multiset(sorted) == multiset(events)
  }

  /** `m` is the largest event id of `events`. */
  ghost predicate IsMaxId(m: U32, events: seq<MonitoringEvent>) {
    (exists i :: 0 <= i < |events| && events[i].id == m) &&
    forall i :: 0 <= i < |events| ==> events[i].id <= m
  }

  /** `events.iter().map(|e| e.id()).max()` of a non-empty batch. */
  function MaxId(events: seq<MonitoringEvent>): (m: U32)
    requires events != []
    ensures IsMaxId(m, events)
    decreases |events|
  {
    if |events| == 1 then events[0].id
    else
      var rest := MaxId(events[1..]);
      assert forall i :: 1 <= i < |events| ==> events[i] == events[1..][i - 1];
      if events[0].id > rest then events[0].id else rest
  }

  /** Reordering a batch does not change its largest id. */
  lemma PermutationKeepsMaxId(m: U32, sorted: seq<MonitoringEvent>, events: seq<MonitoringEvent>)
    requires multiset(sorted) == multiset(events)
    requires IsMaxId(m, sorted)
    ensures IsMaxId(m, events)
  {
    var k :| 0 <= k < |sorted| && sorted[k].id == m;
    assert sorted[k] in multiset(events);
    var i :| 0 <= i < |events| && events[i] == sorted[k];
    forall i | 0 <= i < |events| ensures events[i].id <= m {
      assert events[i] in multiset(sorted);
      var k :| 0 <= k < |sorted| && sorted[k] == events[i];
    }
  }

  /** `DashboardData::update_data`: sorts the batch by time, moves the cursor
      to the batch's largest id (keeping it when the batch is empty), and
      hands the sorted batch to every timeline. */
  ghost function UpdateData(d: Data, events: seq<MonitoringEvent>): (r: Data)
    ensures events == [] ==> r.fetchedUntil == d.fetchedUntil
    ensures events != [] ==> r.fetchedUntil.Some? && IsMaxId(r.fetchedUntil.value, events)
    ensures exists sorted ::
              && IsSortedPermutation(sorted, events)
              && r.tasksTimeline == JobTimeline.HandleNewEvents(d.tasksTimeline, sorted)
              && r.workerTimelineEvents == d.workerTimelineEvents + sorted
              && r.allocTimelineEvents == d.allocTimelineEvents + sorted
  {
    var insertionSorted := SortByTime(events);
    assert IsSortedPermutation(insertionSorted, events);
    var sorted: seq<MonitoringEvent> :| IsSortedPermutation(sorted, events);
    var cursor := if sorted == [] then d.fetchedUntil else Some(MaxId(sorted));
    assert sorted != [] ==> IsMaxId(cursor.value, events) by {
      if sorted != [] {
        PermutationKeepsMaxId(cursor.value, sorted, events);
      }
    }
    Data(cursor,
         d.workerTimelineEvents + sorted,
         JobTimeline.HandleNewEvents(d.tasksTimeline, sorted),
         d.allocTimelineEvents + sorted)
  }

  /** For a non-empty batch the new cursor is determined by the batch alone:
      it is not combined with the previous cursor. */
  lemma CursorIgnoresPrevious(d1: Data, d2: Data, events: seq<MonitoringEvent>)
    requires events != []
    ensures LastFetchedId(UpdateData(d1, events)) == LastFetchedId(UpdateData(d2, events))
  {
    var m1 := UpdateData(d1, events).fetchedUntil.value;
    var m2 := UpdateData(d2, events).fetchedUntil.value;
    var i1 :| 0 <= i1 < |events| && events[i1].id == m1;
    var i2 :| 0 <= i2 < |events| && events[i2].id == m2;
    assert m1 <= m2 && m2 <= m1;
  }

  /** The `after_id` of the next poll (the loop of `create_data_fetch_process`
      reads it right after `update_data`) is the largest id of the batch just
      handled, or the previous cursor when that batch was empty. */
  lemma NextPollCursor(d: Data, events: seq<MonitoringEvent>)
    ensures LastFetchedId(UpdateData(d, events)) ==
              if events == [] then LastFetchedId(d) else Some(MaxId(events))
  {
    if events != [] {
      var m1 := UpdateData(d, events).fetchedUntil.value;
      var m2 := MaxId(events);
      var i1 :| 0 <= i1 < |events| && events[i1].id == m1;
      var i2 :| 0 <= i2 < |events| && events[i2].id == m2;
      assert m1 <= m2 && m2 <= m1;
    }
  }

  /** Consequently a batch whose ids are all below the cursor moves the
      cursor back. */
  lemma CursorCanMoveBack(d: Data, e: MonitoringEvent)
    requires d.fetchedUntil == Some(10) && e.id == 3
    ensures LastFetchedId(UpdateData(d, [e])) == Some(3)
  {
    var m := UpdateData(d, [e]).fetchedUntil.value;
    assert [e][0] == e;
  }

  /** When the server answers a poll with events newer than the cursor only,
      the cursor strictly advances, and it never falls behind an id seen. */
  lemma CursorAdvances(d: Data, events: seq<MonitoringEvent>)
    requires events != []
    requires forall i :: 0 <= i < |events| ==> d.fetchedUntil.None? || d.fetchedUntil.value < events[i].id
    ensures var c := LastFetchedId(UpdateData(d, events));
            && c.Some?
            && (d.fetchedUntil.Some? ==> d.fetchedUntil.value < c.value)
            && forall i :: 0 <= i < |events| ==> events[i].id <= c.value
  {
    var m := UpdateData(d, events).fetchedUntil.value;
    var i :| 0 <= i < |events| && events[i].id == m;
  }

  /** The job timeline stays well formed across updates. */
  lemma UpdateDataWellFormed(d: Data, events: seq<MonitoringEvent>)
    requires JobTimeline.WellFormed(d.tasksTimeline)
    ensures JobTimeline.WellFormed(UpdateData(d, events).tasksTimeline)
  {
    var r := UpdateData(d, events);
    var sorted: seq<MonitoringEvent> :|
      && IsSortedPermutation(sorted, events)
      && r.tasksTimeline == JobTimeline.HandleNewEvents(d.tasksTimeline, sorted)
      && r.workerTimelineEvents == d.workerTimelineEvents + sorted
      && r.allocTimelineEvents == d.allocTimelineEvents + sorted;
    JobTimeline.HandleNewEventsWellFormed(d.tasksTimeline, sorted);
  }

  /** Because the batch is sorted before it is handled, a batch of events no
      older than anything recorded keeps every recorded time at or before the
      newest event, whatever order the batch arrived in. */
  lemma UpdateDataKeepsTimesInOrder(d: Data, now: Time, latest: Time, events: seq<MonitoringEvent>)
    requires JobTimeline.TimesUpTo(d.tasksTimeline, now)
    requires now <= latest
    requires forall i :: 0 <= i < |events| ==> now <= events[i].time <= latest
    ensures JobTimeline.TimesUpTo(UpdateData(d, events).tasksTimeline, latest)
  {
    var r := UpdateData(d, events);
    var sorted: seq<MonitoringEvent> :|
      && IsSortedPermutation(sorted, events)
      && r.tasksTimeline == JobTimeline.HandleNewEvents(d.tasksTimeline, sorted)
      && r.workerTimelineEvents == d.workerTimelineEvents + sorted
      && r.allocTimelineEvents == d.allocTimelineEvents + sorted;
    forall k | 0 <= k < |sorted| ensures now <= sorted[k].time <= latest {
      assert sorted[k] in multiset(events);
      var i :| 0 <= i < |events| && events[i] == sorted[k];
    }
    JobTimeline.HandleNewEventsTimes(d.tasksTimeline, now, sorted);
    var last := JobTimeline.LastTime(now, sorted);
    assert last <= latest;
    TimesUpToLater(r.tasksTimeline, last, latest);
  }

  lemma TimesUpToLater(tl: JobTimeline.Timeline, t1: Time, t2: Time)
    requires JobTimeline.TimesUpTo(tl, t1) && t1 <= t2
    ensures JobTimeline.TimesUpTo(tl, t2)
  {
  }
}
