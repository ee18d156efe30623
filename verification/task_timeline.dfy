/** The earlier variant of the job timeline (crates/hyperqueue/src/dashboard/data/task_timeline.rs).
    It keeps a task's current state instead of an optional end state; the
    events drive it exactly as they drive the job timeline. */
module TaskTimeline {
  import opened Common
  import opened Events
  import JobTimeline

  type TaskState = JobTimeline.TaskState

  /** `TaskInfo` of the variant: the current state replaces the end state. */
  datatype TaskInfo = TaskInfo(workerId: WorkerId, startTime: Time, endTime: Option<Time>, currentState: TaskState)

  type Timeline = map<JobId, JobTimeline.DashboardJobInfo<TaskInfo>>

  /** Each recorded task belongs to its job, and it is running exactly when
      no end time has been recorded for it. */
  ghost predicate WellFormed(tl: Timeline) {
    forall j, t :: j in tl && t in tl[j].tasks ==>
      t in tl[j].jobInfo.taskIds &&
      (tl[j].tasks[t].currentState == JobTimeline.Running <==> tl[j].tasks[t].endTime.None?)
  }

  /** `TaskInfo::set_end_time_and_status` of the variant: both the end time
      and the current state change. */
  function SetEndTimeAndStatus(info: TaskInfo, endTime: Time, status: TaskState): (r: TaskInfo)
    ensures r.workerId == info.workerId && r.startTime == info.startTime
    ensures r.endTime == Some(endTime) && r.currentState == status
  {
    info.(endTime := Some(endTime), currentState := status)
  }

  /** `TaskStarted`: the task is recorded as `Running` with no end time under a
      job that lists it; without such a job nothing changes. */
  ghost function StartTask(tl: Timeline, t: TaskId, w: WorkerId, time: Time): (r: Timeline)
    ensures JobTimeline.Owners(tl, t) == {} ==> r == tl
    ensures r.Keys == tl.Keys
    ensures JobTimeline.Owners(tl, t) != {} ==>
              exists j :: j in JobTimeline.Owners(tl, t) &&
                r[j] == tl[j].(tasks := tl[j].tasks[t := TaskInfo(w, time, None, JobTimeline.Running)]) &&
                forall k :: k in tl && k != j ==> r[k] == tl[k]
  {
    var owners := JobTimeline.Owners(tl, t);
    if owners == {} then tl
    else
      var j := Pick(owners);
      tl[j := tl[j].(tasks := tl[j].tasks[t := TaskInfo(w, time, None, JobTimeline.Running)])]
  }

  /** What `update_task_status` does to the job it found: the task is ended
      if the job has recorded its start, and the job is untouched otherwise. */
  function EndTask(d: JobTimeline.DashboardJobInfo<TaskInfo>, t: TaskId, status: TaskState, at: Time): JobTimeline.DashboardJobInfo<TaskInfo> {
    if t in d.tasks then d.(tasks := d.tasks[t := SetEndTimeAndStatus(d.tasks[t], at, status)]) else d
  }

  /** `update_task_status` of the variant: only a started task changes. */
  ghost function UpdateTaskStatus(tl: Timeline, t: TaskId, status: TaskState, at: Time): (r: Timeline)
    ensures r.Keys == tl.Keys
    // exactly one job listing the task is looked at, and only if it has
    // started the task does anything change
    ensures JobTimeline.Owners(tl, t) == {} ==> r == tl
    ensures JobTimeline.Owners(tl, t) != {} ==>
              exists j :: j in JobTimeline.Owners(tl, t) &&
                (forall k :: k in tl && k != j ==> r[k] == tl[k]) &&
                r[j] == EndTask(tl[j], t, status, at)
  {
    var owners := JobTimeline.Owners(tl, t);
    if owners == {} then tl
    else
      var j := Pick(owners);
      tl[j := EndTask(tl[j], t, status, at)]
  }

  /** One iteration of the variant's `handle_new_events`. */
  ghost function ApplyEvent(tl: Timeline, ev: MonitoringEvent): (r: Timeline)
    ensures !IsJobEvent(ev.payload) ==> r == tl
  {
    match ev.payload
    case JobCreated(j, info) => JobTimeline.CreateJob(tl, j, info)
    case JobCompleted(j, date) => JobTimeline.CompleteJob(tl, j, date)
    case TaskStarted(t, w) => StartTask(tl, t, w, ev.time)
    case TaskFinished(t) => UpdateTaskStatus(tl, t, JobTimeline.Finished, ev.time)
    case TaskFailed(t) => UpdateTaskStatus(tl, t, JobTimeline.Failed, ev.time)
    case _ => tl
  }

  /** The variant's `handle_new_events`: the events applied in order. Jobs
      are never dropped, and every new job comes from a creation event. */
  ghost function HandleNewEvents(tl: Timeline, events: seq<MonitoringEvent>): (r: Timeline)
    ensures tl.Keys <= r.Keys
    ensures forall j :: j in r ==> j in tl || JobTimeline.Created(events, j)
    decreases |events|
  {
    if events == [] then tl
    else HandleNewEvents(ApplyEvent(tl, events[0]), events[1..])
  }

  /** The variant's `get_worker_task_history`. */
  function GetWorkerTaskHistory(tl: Timeline, w: WorkerId, at: Time): (r: set<(TaskId, TaskInfo)>)
    ensures forall p :: p in r ==> p.1.workerId == w && p.1.startTime <= at
    ensures forall j, t ::
              (j in tl && t in tl[j].tasks && tl[j].tasks[t].workerId == w && tl[j].tasks[t].startTime <= at) ==>
              (t, tl[j].tasks[t]) in r
    ensures forall p :: p in r ==> exists j :: j in tl && p.0 in tl[j].tasks && tl[j].tasks[p.0] == p.1
  {
    set j, t | j in tl && t in tl[j].tasks && tl[j].tasks[t].workerId == w && tl[j].tasks[t].startTime <= at
      :: (t, tl[j].tasks[t])
  }

  lemma StartTaskWellFormed(tl: Timeline, t: TaskId, w: WorkerId, time: Time)
    requires WellFormed(tl)
    ensures WellFormed(StartTask(tl, t, w, time))
  {
    var owners := JobTimeline.Owners(tl, t);
    if owners != {} {
      var j := Pick(owners);
      assert StartTask(tl, t, w, time) == tl[j := tl[j].(tasks := tl[j].tasks[t := TaskInfo(w, time, None, JobTimeline.Running)])];
    }
  }

  lemma UpdateTaskStatusWellFormed(tl: Timeline, t: TaskId, status: TaskState, at: Time)
    requires WellFormed(tl) && status != JobTimeline.Running
    ensures WellFormed(UpdateTaskStatus(tl, t, status, at))
  {
    var owners := JobTimeline.Owners(tl, t);
    if owners != {} {
      var j := Pick(owners);
      assert UpdateTaskStatus(tl, t, status, at) == tl[j := EndTask(tl[j], t, status, at)];
    }
  }

  lemma ApplyEventWellFormed(tl: Timeline, ev: MonitoringEvent)
    requires WellFormed(tl)
    ensures WellFormed(ApplyEvent(tl, ev))
  {
    var r := ApplyEvent(tl, ev);
    match ev.payload {
      case TaskStarted(t, w) => StartTaskWellFormed(tl, t, w, ev.time);
      case TaskFinished(t) => UpdateTaskStatusWellFormed(tl, t, JobTimeline.Finished, ev.time);
      case TaskFailed(t) => UpdateTaskStatusWellFormed(tl, t, JobTimeline.Failed, ev.time);
      case _ =>
    }
  }

  /** Timelines built from events stay well formed: a task is `Running`
      exactly until a finish or failure is recorded for it. */
  lemma {:induction false} HandleNewEventsWellFormed(tl: Timeline, events: seq<MonitoringEvent>)
    requires WellFormed(tl)
    ensures WellFormed(HandleNewEvents(tl, events))
    decreases |events|
  {
    if events != [] {
      ApplyEventWellFormed(tl, events[0]);
      HandleNewEventsWellFormed(ApplyEvent(tl, events[0]), events[1..]);
    }
  }

  /** The variant's view of a job timeline task: a task without an end state
      is running. */
  function ProjectTask(info: JobTimeline.TaskInfo): TaskInfo {
    TaskInfo(info.workerId, info.startTime, info.endTime, info.endState.GetOr(JobTimeline.Running))
  }

  function ProjectJob(d: JobTimeline.DashboardJobInfo<JobTimeline.TaskInfo>): JobTimeline.DashboardJobInfo<TaskInfo> {
    JobTimeline.DashboardJobInfo(d.jobInfo, map t | t in d.tasks :: ProjectTask(d.tasks[t]), d.completionDate)
  }

  function Project(tl: JobTimeline.Timeline): Timeline {
    map j | j in tl :: ProjectJob(tl[j])
  }

  lemma ProjectOwners(tl: JobTimeline.Timeline, t: TaskId)
    ensures JobTimeline.Owners(Project(tl), t) == JobTimeline.Owners(tl, t)
  {
  }

  lemma ProjectApplyEvent(tl: JobTimeline.Timeline, ev: MonitoringEvent)
    ensures Project(JobTimeline.ApplyEvent(tl, ev)) == ApplyEvent(Project(tl), ev)
  {
    match ev.payload {
      case JobCreated(j, info) => ProjectCreateJob(tl, j, info);
      case JobCompleted(j, date) => ProjectCompleteJob(tl, j, date);
      case TaskStarted(t, w) => ProjectStartTask(tl, t, w, ev.time);
      case TaskFinished(t) =>
        ProjectUpdateTaskStatus(tl, t, JobTimeline.Finished, ev.time);
      case TaskFailed(t) =>
        ProjectUpdateTaskStatus(tl, t, JobTimeline.Failed, ev.time);
      case _ =>
    }
  }

  lemma ProjectCreateJob(tl: JobTimeline.Timeline, j: JobId, info: JobInfo)
    ensures Project(JobTimeline.CreateJob(tl, j, info)) == JobTimeline.CreateJob(Project(tl), j, info)
  {
    assert ProjectJob(JobTimeline.DashboardJobInfo(info, map[], None)) == JobTimeline.DashboardJobInfo(info, map[], None);
    ProjectUpdate(tl, j, JobTimeline.DashboardJobInfo(info, map[], None));
  }

  lemma ProjectCompleteJob(tl: JobTimeline.Timeline, j: JobId, date: Time)
    ensures Project(JobTimeline.CompleteJob(tl, j, date)) == JobTimeline.CompleteJob(Project(tl), j, date)
  {
    if j in tl {
      assert ProjectJob(tl[j].(completionDate := Some(date))) == Project(tl)[j].(completionDate := Some(date));
      ProjectUpdate(tl, j, tl[j].(completionDate := Some(date)));
    }
  }

  lemma ProjectStartTask(tl: JobTimeline.Timeline, t: TaskId, w: WorkerId, time: Time)
    ensures Project(JobTimeline.StartTask(tl, t, w, time)) == StartTask(Project(tl), t, w, time)
  {
    ProjectOwners(tl, t);
    var p := Project(tl);
    var owners := JobTimeline.Owners(p, t);
    if owners != {} {
      var j := Pick(owners);
      var started := JobTimeline.TaskInfo(w, time, None, None);
      var d := tl[j].(tasks := tl[j].tasks[t := started]);
      ProjectAddTask(tl[j], t, started);
      ProjectUpdate(tl, j, d);
    }
  }

  lemma ProjectUpdateTaskStatus(tl: JobTimeline.Timeline, t: TaskId, status: TaskState, at: Time)
    ensures Project(JobTimeline.UpdateTaskStatus(tl, t, status, at)) == UpdateTaskStatus(Project(tl), t, status, at)
  {
    ProjectOwners(tl, t);
    var p := Project(tl);
    var owners := JobTimeline.Owners(p, t);
    if owners != {} {
      var j := Pick(owners);
      var d := JobTimeline.EndTask(tl[j], t, status, at);
      assert JobTimeline.UpdateTaskStatus(tl, t, status, at) == tl[j := d];
      assert UpdateTaskStatus(p, t, status, at) == p[j := EndTask(p[j], t, status, at)];
      ProjectEndTask(tl[j], t, status, at);
      ProjectUpdate(tl, j, d);
    }
  }

  /** Recording a task commutes with the projection of its job. */
  lemma ProjectAddTask(d: JobTimeline.DashboardJobInfo<JobTimeline.TaskInfo>, t: TaskId, info: JobTimeline.TaskInfo)
    ensures ProjectJob(d.(tasks := d.tasks[t := info])) == ProjectJob(d).(tasks := ProjectJob(d).tasks[t := ProjectTask(info)])
  {
  }

  /** Ending a task commutes with the projection of its job. */
  lemma ProjectEndTask(d: JobTimeline.DashboardJobInfo<JobTimeline.TaskInfo>, t: TaskId, status: TaskState, at: Time)
    ensures ProjectJob(JobTimeline.EndTask(d, t, status, at)) == EndTask(ProjectJob(d), t, status, at)
  {
    if t in d.tasks {
      var ended := JobTimeline.SetEndTimeAndStatus(d.tasks[t], at, status);
      assert ProjectTask(ended) == SetEndTimeAndStatus(ProjectJob(d).tasks[t], at, status);
      assert ProjectJob(d.(tasks := d.tasks[t := ended])) ==
             ProjectJob(d).(tasks := ProjectJob(d).tasks[t := ProjectTask(ended)]);
    }
  }

  /** Replacing one job commutes with the projection. */
  lemma ProjectUpdate(tl: JobTimeline.Timeline, j: JobId, d: JobTimeline.DashboardJobInfo<JobTimeline.TaskInfo>)
    ensures Project(tl[j := d]) == Project(tl)[j := ProjectJob(d)]
  {
  }

  /** The two revisions of the timeline agree: handling a batch in the job
      timeline and then viewing it as the variant gives what the variant
      computes from the same batch. */
  lemma {:induction false} VariantsAgree(tl: JobTimeline.Timeline, events: seq<MonitoringEvent>)
    ensures Project(JobTimeline.HandleNewEvents(tl, events)) == HandleNewEvents(Project(tl), events)
    decreases |events|
  {
    if events != [] {
      ProjectApplyEvent(tl, events[0]);
      VariantsAgree(JobTimeline.ApplyEvent(tl, events[0]), events[1..]);
    }
  }

  /** The variant's worker history is the job timeline's history seen through
      the projection. */
  lemma HistoryAgrees(tl: JobTimeline.Timeline, w: WorkerId, at: Time)
    ensures GetWorkerTaskHistory(Project(tl), w, at) ==
            set p | p in JobTimeline.GetWorkerTaskHistory(tl, w, at) :: (p.0, ProjectTask(p.1))
  {
    var lhs := GetWorkerTaskHistory(Project(tl), w, at);
    var rhs := set p | p in JobTimeline.GetWorkerTaskHistory(tl, w, at) :: (p.0, ProjectTask(p.1));
    forall q | q in lhs ensures q in rhs {
      var j :| j in Project(tl) && q.0 in Project(tl)[j].tasks && Project(tl)[j].tasks[q.0] == q.1;
      assert (q.0, tl[j].tasks[q.0]) in JobTimeline.GetWorkerTaskHistory(tl, w, at);
    }
    forall p | p in JobTimeline.GetWorkerTaskHistory(tl, w, at) ensures (p.0, ProjectTask(p.1)) in lhs {
      var j :| j in tl && p.0 in tl[j].tasks && tl[j].tasks[p.0] == p.1;
      assert Project(tl)[j].tasks[p.0] == ProjectTask(p.1);
    }
    assert lhs == rhs;
  }
}
