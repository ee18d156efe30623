/** Monitoring events emitted by the server (crates/hyperqueue/src/server/event/events.rs),
    as far as the dashboard's data layer consumes them. */
module Events {
  import opened Common

  type JobId = nat
  /** `TakoTaskId`: task ids are allocated by the scheduler across all jobs. */
  type TaskId = nat
  type WorkerId = nat
  type DescriptorId = nat
  /** `AllocationId` is a string handed out by PBS/Slurm. */
  type AllocationId = string

  /** Payloads the dashboard's data layer passes around without looking inside
      (`WorkerConfiguration`, `LostWorkerReason`, `WorkerOverview`,
      `AllocationQueueParams`, `JobDescription`): only their identity is kept. */
  type WorkerConfiguration = nat
  type LostWorkerReason = nat
  type WorkerOverview = nat
  type AllocationQueueParams = nat
  type JobDescription = nat

  /** `JobInfo`: what a job's creation event says about it. */
  datatype JobInfo = JobInfo(
    name: string,
    jobDesc: JobDescription,
    taskIds: seq<TaskId>,
    maxFails: Option<nat>,
    log: Option<string>,
    submissionDate: Time,
    completionDate: Option<Time>)

  /** `MonitoringEventPayload`. */
  datatype MonitoringEventPayload =
    | WorkerConnected(worker: WorkerId, configuration: WorkerConfiguration)
    | WorkerLost(lostWorker: WorkerId, reason: LostWorkerReason)
    | WorkerOverviewReceived(overview: WorkerOverview)
    | JobCreated(createdJob: JobId, info: JobInfo)
    | JobCompleted(completedJob: JobId, completionDate: Time)
    | TaskStarted(startedTask: TaskId, startedOn: WorkerId)
    | TaskFinished(finishedTask: TaskId)
    | TaskFailed(failedTask: TaskId)
    | AllocationQueueCreated(createdQueue: DescriptorId, params: AllocationQueueParams)
    | AllocationQueueRemoved(removedQueue: DescriptorId)
    | AllocationQueued(queuedIn: DescriptorId, queuedAllocation: AllocationId, workerCount: nat)
    | AllocationStarted(startedIn: DescriptorId, startedAllocation: AllocationId)
    | AllocationFinished(finishedIn: DescriptorId, finishedAllocation: AllocationId)

  /** A monitoring event: its id (a `u32` the server assigns), the time it
      happened, and its payload. */
  datatype MonitoringEvent = MonitoringEvent(id: U32, time: Time, payload: MonitoringEventPayload)

  /** Events in non-decreasing order of time. */
  predicate SortedByTime(events: seq<MonitoringEvent>) {
    forall i, j :: 0 <= i < j < |events| ==> events[i].time <= events[j].time
  }

  /** The payloads that concern jobs and tasks; the job timelines ignore all
      others. */
  predicate IsJobEvent(p: MonitoringEventPayload) {
    p.JobCreated? || p.JobCompleted? || p.TaskStarted? || p.TaskFinished? || p.TaskFailed?
  }

  /** Some member of a non-empty set of jobs. The timelines look a task's job
      up with `iter_mut().find(..)` over a `HashMap`, whose iteration order is
      unspecified, so which owner is found when several jobs list the same
      task is left open. */
  ghost function Pick(owners: set<JobId>): (j: JobId)
    requires owners != {}
    ensures j in owners
  {
    var j :| j in owners; j
  }
}
