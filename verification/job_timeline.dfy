/** The dashboard's job timeline (crates/hyperqueue/src/dashboard/data/job_timeline.rs):
    monitoring events folded into a map from job id to the job's description,
    the tasks of it that have started, and its completion date. */
module JobTimeline {
  import opened Common
  import opened Events

  /** `DashboardTaskState`. */
  datatype TaskState = Running | Finished | Failed

  /** `TaskInfo`: where and when a task started, and when and how it ended. */
  datatype TaskInfo = TaskInfo(workerId: WorkerId, startTime: Time, endTime: Option<Time>, endState: Option<TaskState>)

  /** `DashboardJobInfo`, over the record `T` kept per started task: both
      revisions of the timeline share this entry and differ only in `T`. */
  datatype DashboardJobInfo<T> = DashboardJobInfo(jobInfo: JobInfo, tasks: map<TaskId, T>, completionDate: Option<Time>)

  /** `JobTimeline` (its `job_timeline` map). */
  type Timeline = map<JobId, DashboardJobInfo<TaskInfo>>

  /** A task has an end time exactly when it has an end state, and a task
      never ends in the `Running` state. */
  predicate TaskConsistent(info: TaskInfo) {
    && (info.endTime.Some? <==> info.endState.Some?)
    && info.endState != Some(Running)
  }

  /** The invariant every timeline built from events keeps: each recorded
      task belongs to the job it is recorded under and is consistent. */
  ghost predicate WellFormed(tl: Timeline) {
    forall j, t :: j in tl && t in tl[j].tasks ==>
      t in tl[j].jobInfo.taskIds && TaskConsistent(tl[j].tasks[t])
  }

  /** Every recorded time lies at or before `now`, and no task ends before it
      started. */
  ghost predicate TimesUpTo(tl: Timeline, now: Time) {
    forall j, t :: j in tl && t in tl[j].tasks ==>
      var info := tl[j].tasks[t];
      info.startTime <= now && (info.endTime.Some? ==> info.startTime <= info.endTime.value <= now)
  }

  /** `TaskInfo::set_end_time_and_status`. */
  function SetEndTimeAndStatus(info: TaskInfo, endTime: Time, status: TaskState): (r: TaskInfo)
    ensures r.workerId == info.workerId && r.startTime == info.startTime
    ensures r.endTime == Some(endTime) && r.endState == Some(status)
  {
    info.(endTime := Some(endTime), endState := Some(status))
  }

  /** `TaskInfo::get_task_state_at`. The source asserts that `time` is not
      before the start, and unwraps the end state when the end time is not
      after `time`. */
  function GetTaskStateAt(info: TaskInfo, time: Time): (r: TaskState)
    requires info.startTime <= time
    requires info.endTime.Some? && info.endTime.value <= time ==> info.endState.Some?
    ensures info.endTime.None? || info.endTime.value > time ==> r == Running
    ensures info.endTime.Some? && info.endTime.value <= time ==> r == info.endState.value
  {
    match info.endTime
    case None => Running
    case Some(endTime) => if endTime > time then Running else info.endState.value
  }

  /** A task's state only moves forward in time: once it has ended it keeps its
      end state, and while it is running it was running since its start. */
  lemma TaskStateStable(info: TaskInfo, t1: Time, t2: Time)
    requires info.startTime <= t1 <= t2
    requires TaskConsistent(info)
    ensures GetTaskStateAt(info, t1) != Running ==> GetTaskStateAt(info, t2) == GetTaskStateAt(info, t1)
    ensures GetTaskStateAt(info, t2) == Running ==> GetTaskStateAt(info, t1) == Running
  {
  }

  /** A task whose end time still lies ahead is running even without a
      recorded end state: the source unwraps the state only once the end
      time has been reached. */
  lemma RunningBeforeEndNeedsNoState(w: WorkerId, start: Time, end: Time)
    requires start < end
    ensures GetTaskStateAt(TaskInfo(w, start, Some(end), None), start) == Running
  {
  }

  /** The jobs whose task list contains `t`. */
  ghost function Owners<T>(tl: map<JobId, DashboardJobInfo<T>>, t: TaskId): set<JobId> {
    set j | j in tl && t in tl[j].jobInfo.taskIds
  }

  /** `JobCreated`: the job gets a fresh entry, replacing any earlier one. */
  function CreateJob<T>(tl: map<JobId, DashboardJobInfo<T>>, j: JobId, info: JobInfo): (r: map<JobId, DashboardJobInfo<T>>)
    ensures r.Keys == tl.Keys + {j}
    ensures r[j].jobInfo == info && r[j].tasks == map[] && r[j].completionDate == None
    ensures forall k :: k in tl && k != j ==> r[k] == tl[k]
  {
    tl[j := DashboardJobInfo(info, map[], None)]
  }

  /** `JobCompleted`: records the date for a known job, ignores unknown ones. */
  function CompleteJob<T>(tl: map<JobId, DashboardJobInfo<T>>, j: JobId, date: Time): (r: map<JobId, DashboardJobInfo<T>>)
    ensures j !in tl ==> r == tl
    ensures r.Keys == tl.Keys
    ensures j in tl ==> r[j] == tl[j].(completionDate := Some(date))
    ensures forall k :: k in tl && k != j ==> r[k] == tl[k]
  {
    if j in tl then tl[j := tl[j].(completionDate := Some(date))] else tl
  }

  /** `TaskStarted`: records the task as running on `w` since `time` under a
      job that lists it; a task no job lists is ignored. */
  ghost function StartTask(tl: Timeline, t: TaskId, w: WorkerId, time: Time): (r: Timeline)
    ensures Owners(tl, t) == {} ==> r == tl
    ensures r.Keys == tl.Keys
    ensures Owners(tl, t) != {} ==>
              exists j :: j in Owners(tl, t) &&
                r[j] == tl[j].(tasks := tl[j].tasks[t := TaskInfo(w, time, None, None)]) &&
                forall k :: k in tl && k != j ==> r[k] == tl[k]
  {
    var owners := Owners(tl, t);
    if owners == {} then tl
    else
      var j := Pick(owners);
      tl[j := tl[j].(tasks := tl[j].tasks[t := TaskInfo(w, time, None, None)])]
  }

  /** What `update_task_status` does to the job it found: the task is ended
      if the job has recorded its start, and the job is untouched otherwise. */
  function EndTask(d: DashboardJobInfo<TaskInfo>, t: TaskId, status: TaskState, at: Time): DashboardJobInfo<TaskInfo> {
    if t in d.tasks then d.(tasks := d.tasks[t := SetEndTimeAndStatus(d.tasks[t], at, status)]) else d
  }

  /** `update_task_status`: ends the task with `status` at time `at`, but only
      if the job found for it has recorded its start. */
  ghost function UpdateTaskStatus(tl: Timeline, t: TaskId, status: TaskState, at: Time): (r: Timeline)
    ensures r.Keys == tl.Keys
    ensures (forall j :: j in tl ==> t !in tl[j].tasks) ==> r == tl
    ensures forall j :: j in tl ==>
              && r[j].jobInfo == tl[j].jobInfo
              && r[j].completionDate == tl[j].completionDate
              && r[j].tasks.Keys == tl[j].tasks.Keys
    ensures forall j, u :: j in tl && u in tl[j].tasks && u != t ==> r[j].tasks[u] == tl[j].tasks[u]
    ensures forall j :: j in tl && t in tl[j].tasks ==>
              r[j].tasks[t] in {tl[j].tasks[t], SetEndTimeAndStatus(tl[j].tasks[t], at, status)}
    ensures forall j :: Owners(tl, t) == {j} && t in tl[j].tasks ==>
              r[j].tasks[t] == SetEndTimeAndStatus(tl[j].tasks[t], at, status)
    // exactly one job listing the task is looked at, and only if it has
    // started the task does anything change
    ensures Owners(tl, t) == {} ==> r == tl
    ensures Owners(tl, t) != {} ==>
              exists j :: j in Owners(tl, t) &&
                (forall k :: k in tl && k != j ==> r[k] == tl[k]) &&
                r[j] == EndTask(tl[j], t, status, at)
  {
    var owners := Owners(tl, t);
    if owners == {} then tl
    else
      var j := Pick(owners);
      tl[j := EndTask(tl[j], t, status, at)]
  }

  /** One iteration of `JobTimeline::handle_new_events`. */
  ghost function ApplyEvent(tl: Timeline, ev: MonitoringEvent): (r: Timeline)
    ensures !IsJobEvent(ev.payload) ==> r == tl
    // only a job creation adds a job, and no event removes one
    ensures tl.Keys <= r.Keys
    ensures forall j :: j in r ==> j in tl || (ev.payload.JobCreated? && ev.payload.createdJob == j)
  {
    match ev.payload
    case JobCreated(j, info) => CreateJob(tl, j, info)
    case JobCompleted(j, date) => CompleteJob(tl, j, date)
    case TaskStarted(t, w) => StartTask(tl, t, w, ev.time)
    case TaskFinished(t) => UpdateTaskStatus(tl, t, Finished, ev.time)
    case TaskFailed(t) => UpdateTaskStatus(tl, t, Failed, ev.time)
    case _ => tl
  }

  /** `JobTimeline::handle_new_events`: the events applied in order. Jobs
      are never dropped, and every new job comes from a creation event. */
  ghost function HandleNewEvents(tl: Timeline, events: seq<MonitoringEvent>): (r: Timeline)
    ensures tl.Keys <= r.Keys
    ensures forall j :: j in r ==> j in tl || Created(events, j)
    decreases |events|
  {
    if events == [] then tl
    else HandleNewEvents(ApplyEvent(tl, events[0]), events[1..])
  }

  /** Some event of `events` creates job `j`. */
  ghost predicate Created(events: seq<MonitoringEvent>, j: JobId) {
    exists i :: 0 <= i < |events| && events[i].payload.JobCreated? && events[i].payload.createdJob == j
  }

  /** `JobTimeline::get_worker_task_history`: the tasks of any job that were
      started on `w` no later than `at`. The source yields them in hash-map
      order; the model keeps the collection. */
  function GetWorkerTaskHistory(tl: Timeline, w: WorkerId, at: Time): (r: set<(TaskId, TaskInfo)>)
    ensures forall p :: p in r ==> p.1.workerId == w && p.1.startTime <= at
    ensures forall j, t ::
              (j in tl && t in tl[j].tasks && tl[j].tasks[t].workerId == w && tl[j].tasks[t].startTime <= at) ==>
              (t, tl[j].tasks[t]) in r
    ensures forall p :: p in r ==> exists j :: j in tl && p.0 in tl[j].tasks && tl[j].tasks[p.0] == p.1
  {
    set j, t | j in tl && t in tl[j].tasks && tl[j].tasks[t].workerId == w && tl[j].tasks[t].startTime <= at
      :: (t, tl[j].tasks[t])
  }

  /** Looking later never loses a task from a worker's history. */
  lemma HistoryGrowsWithTime(tl: Timeline, w: WorkerId, at1: Time, at2: Time)
    requires at1 <= at2
    ensures GetWorkerTaskHistory(tl, w, at1) <= GetWorkerTaskHistory(tl, w, at2)
  {
  }

  /** A task start on `w` at time `time` shows up in `w`'s history from `time`
      on, provided some job lists the task. */
  lemma StartedTaskInHistory(tl: Timeline, t: TaskId, w: WorkerId, time: Time, at: Time)
    requires Owners(tl, t) != {}
    requires time <= at
    ensures (t, TaskInfo(w, time, None, None)) in GetWorkerTaskHistory(StartTask(tl, t, w, time), w, at)
  {
    var r := StartTask(tl, t, w, time);
    var j :| j in Owners(tl, t) &&
      r[j] == tl[j].(tasks := tl[j].tasks[t := TaskInfo(w, time, None, None)]) &&
      forall k :: k in tl && k != j ==> r[k] == tl[k];
    assert j in r && t in r[j].tasks && r[j].tasks[t] == TaskInfo(w, time, None, None);
  }

  lemma CreateJobWellFormed(tl: Timeline, j: JobId, info: JobInfo)
    requires WellFormed(tl)
    ensures WellFormed(CreateJob(tl, j, info))
  {
  }

  lemma CompleteJobWellFormed(tl: Timeline, j: JobId, date: Time)
    requires WellFormed(tl)
    ensures WellFormed(CompleteJob(tl, j, date))
  {
  }

  lemma StartTaskWellFormed(tl: Timeline, t: TaskId, w: WorkerId, time: Time)
    requires WellFormed(tl)
    ensures WellFormed(StartTask(tl, t, w, time))
  {
    var r := StartTask(tl, t, w, time);
    if Owners(tl, t) != {} {
      var j :| j in Owners(tl, t) &&
        r[j] == tl[j].(tasks := tl[j].tasks[t := TaskInfo(w, time, None, None)]) &&
        forall k :: k in tl && k != j ==> r[k] == tl[k];
    }
  }

  lemma UpdateTaskStatusWellFormed(tl: Timeline, t: TaskId, status: TaskState, at: Time)
    requires WellFormed(tl) && status != Running
    ensures WellFormed(UpdateTaskStatus(tl, t, status, at))
  {
  }

  lemma ApplyEventWellFormed(tl: Timeline, ev: MonitoringEvent)
    requires WellFormed(tl)
    ensures WellFormed(ApplyEvent(tl, ev))
  {
    match ev.payload {
      case JobCreated(j, info) => CreateJobWellFormed(tl, j, info);
      case JobCompleted(j, date) => CompleteJobWellFormed(tl, j, date);
      case TaskStarted(t, w) => StartTaskWellFormed(tl, t, w, ev.time);
      case TaskFinished(t) => UpdateTaskStatusWellFormed(tl, t, Finished, ev.time);
      case TaskFailed(t) => UpdateTaskStatusWellFormed(tl, t, Failed, ev.time);
      case _ =>
    }
  }

  /** Every timeline built from events is well formed; in particular
      `get_task_state_at` never unwraps a missing end state. */
  lemma {:induction false} HandleNewEventsWellFormed(tl: Timeline, events: seq<MonitoringEvent>)
    requires WellFormed(tl)
    ensures WellFormed(HandleNewEvents(tl, events))
    decreases |events|
  {
    if events != [] {
      ApplyEventWellFormed(tl, events[0]);
      HandleNewEventsWellFormed(ApplyEvent(tl, events[0]), events[1..]);
    }
  }

  lemma ApplyEventTimes(tl: Timeline, now: Time, ev: MonitoringEvent)
    requires TimesUpTo(tl, now)
    requires now <= ev.time
    ensures TimesUpTo(ApplyEvent(tl, ev), ev.time)
  {
    match ev.payload {
      case JobCreated(j, info) => CreateJobTimes(tl, j, info, now, ev.time);
      case JobCompleted(j, date) => CompleteJobTimes(tl, j, date, now, ev.time);
      case TaskStarted(t, w) => StartTaskTimes(tl, t, w, now, ev.time);
      case TaskFinished(t) => UpdateTaskStatusTimes(tl, t, Finished, now, ev.time);
      case TaskFailed(t) => UpdateTaskStatusTimes(tl, t, Failed, now, ev.time);
      case _ =>
    }
  }

  lemma CreateJobTimes(tl: Timeline, j: JobId, info: JobInfo, now: Time, at: Time)
    requires TimesUpTo(tl, now) && now <= at
    ensures TimesUpTo(CreateJob(tl, j, info), at)
  {
  }

  lemma CompleteJobTimes(tl: Timeline, j: JobId, date: Time, now: Time, at: Time)
    requires TimesUpTo(tl, now) && now <= at
    ensures TimesUpTo(CompleteJob(tl, j, date), at)
  {
  }

  lemma StartTaskTimes(tl: Timeline, t: TaskId, w: WorkerId, now: Time, at: Time)
    requires TimesUpTo(tl, now) && now <= at
    ensures TimesUpTo(StartTask(tl, t, w, at), at)
  {
    var r := StartTask(tl, t, w, at);
    if Owners(tl, t) != {} {
      var j :| j in Owners(tl, t) &&
        r[j] == tl[j].(tasks := tl[j].tasks[t := TaskInfo(w, at, None, None)]) &&
        forall k :: k in tl && k != j ==> r[k] == tl[k];
    }
  }

  lemma UpdateTaskStatusTimes(tl: Timeline, t: TaskId, status: TaskState, now: Time, at: Time)
    requires TimesUpTo(tl, now) && now <= at
    ensures TimesUpTo(UpdateTaskStatus(tl, t, status, at), at)
  {
    var owners := Owners(tl, t);
    if owners != {} {
      var j := Pick(owners);
      assert UpdateTaskStatus(tl, t, status, at) == tl[j := EndTask(tl[j], t, status, at)];
    }
  }

  /** Events in time order, none earlier than `now`. */
  ghost predicate InOrderFrom(now: Time, events: seq<MonitoringEvent>) {
    SortedByTime(events) && (events != [] ==> now <= events[0].time)
  }

  /** The time of the last event, or `now` if there is none. */
  function LastTime(now: Time, events: seq<MonitoringEvent>): Time {
    if events == [] then now else events[|events| - 1].time
  }

  /** Feeding a timeline events in time order keeps every recorded time at or
      before the latest event, with no task ending before it started. */
  lemma {:induction false} HandleNewEventsTimes(tl: Timeline, now: Time, events: seq<MonitoringEvent>)
    requires TimesUpTo(tl, now)
    requires InOrderFrom(now, events)
    ensures TimesUpTo(HandleNewEvents(tl, events), LastTime(now, events))
    decreases |events|
  {
    if events != [] {
      ApplyEventTimes(tl, now, events[0]);
      var rest := events[1..];
      assert rest != [] ==> rest[0] == events[1];
      HandleNewEventsTimes(ApplyEvent(tl, events[0]), events[0].time, rest);
      assert rest != [] ==> rest[|rest| - 1] == events[|events| - 1];
    }
  }

  /** In a timeline built from events in time order, asking for a recorded
      task's state at the time of the latest event is always allowed, and it
      is `Running` exactly when no finish or failure has been recorded. */
  lemma StateAtLatestEvent(tl: Timeline, now: Time, j: JobId, t: TaskId)
    requires WellFormed(tl) && TimesUpTo(tl, now)
    requires j in tl && t in tl[j].tasks
    ensures tl[j].tasks[t].startTime <= now
    ensures GetTaskStateAt(tl[j].tasks[t], now) == Running <==> tl[j].tasks[t].endTime.None?
  {
  }

  /** Two batches handled one after the other are the same as the joined
      batch handled at once. */
  lemma {:induction false} HandleNewEventsAppend(tl: Timeline, a: seq<MonitoringEvent>, b: seq<MonitoringEvent>)
    ensures HandleNewEvents(tl, a + b) == HandleNewEvents(HandleNewEvents(tl, a), b)
    decreases |a|
  {
    if a == [] {
      assert a + b == b;
    } else {
      assert (a + b)[0] == a[0];
      assert (a + b)[1..] == a[1..] + b;
      HandleNewEventsAppend(ApplyEvent(tl, a[0]), a[1..], b);
    }
  }

  /** Worker and allocation events leave the timeline as it was. */
  lemma {:induction false} NonJobEventsIgnored(tl: Timeline, events: seq<MonitoringEvent>)
    requires forall i :: 0 <= i < |events| ==> !IsJobEvent(events[i].payload)
    ensures HandleNewEvents(tl, events) == tl
    decreases |events|
  {
    if events != [] {
      NonJobEventsIgnored(tl, events[1..]);
    }
  }
}
